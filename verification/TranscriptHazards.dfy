/** When the words on disk and the row that vouches for them part: transcripts of one item that
    cross, a library that is behind the bucket, and a file that comes back
    (cmd/server/transcripts.go handleDeliverTranscript, cmd/transcriber/worker.go audio). */
module TranscriptHazards {
  import opened TranscriptQueue
  import opened TranscriptRuns

  // ── any number of transcripts, in every order of their writes ─────────

  function GoInOrder(s: State, order: seq<JobId>): State {
    if order == [] then s else Step(GoInOrder(s, order[..|order| - 1]), Go(order[|order| - 1]))
  }

  /** These jobs are this item's, accepted, with their words still to write. */
  predicate Waiting(s: State, id: ItemId, order: seq<JobId>) {
    forall j :: j in order ==> j in s.jobs && s.jobs[j].FileNext? && s.jobs[j].id == id
  }

  /** The job whose file is the last to be written: each job's first turn is its file. */
  function LastFile(order: seq<JobId>): JobId
    requires order != []
  {
    var before, last := order[..|order| - 1], order[|order| - 1];
    if last in before then LastFile(before) else last
  }

  function Turns(order: seq<JobId>, j: JobId): nat {
    multiset(order)[j]
  }

  /** How far a job is after so many turns. */
  predicate After(s: State, t: State, j: JobId, turns: nat)
    requires j in s.jobs
  {
    var was := s.jobs[j];
    match turns
    case 0 => j in t.jobs && t.jobs[j] == was
    case 1 => j in t.jobs && t.jobs[j] == RowNext(was.id, was.named, was.heard)
    case _ => j !in t.jobs
  }

  lemma LastTurn(order: seq<JobId>)
    requires order != []
    ensures var before, last := order[..|order| - 1], order[|order| - 1];
      && Turns(order, last) == Turns(before, last) + 1
      && (forall j :: j != last ==> Turns(order, j) == Turns(before, j))
      && (last in before <==> Turns(before, last) > 0)
  {
    assert order == order[..|order| - 1] + [order[|order| - 1]];
  }

  /** What the turns so far leave: the file of the last file write, the row of the last row
      write, and every job as far as its own turns take it. */
  lemma {:induction false} LastWritesStay(s: State, id: ItemId, order: seq<JobId>)
    requires Waiting(s, id, order) && forall j :: Turns(order, j) <= 2
    ensures var t := GoInOrder(s, order);
      && t.items == s.items
      && (forall j :: j in s.jobs ==> After(s, t, j, Turns(order, j)))
      && (order != [] ==> LastFile(order) in order && id in t.files && t.files[id] == s.jobs[LastFile(order)].heard)
      && (order != [] && order[|order| - 1] in order[..|order| - 1] ==>
            id in t.rows && t.rows[id] == s.jobs[order[|order| - 1]].named)
  {
    if order != [] {
      var before, last := order[..|order| - 1], order[|order| - 1];
      LastTurn(order);
      assert forall j :: Turns(before, j) <= Turns(order, j);
      LastWritesStay(s, id, before);
      assert last in order;
      assert After(s, GoInOrder(s, before), last, Turns(before, last));
      OneTurn(s, GoInOrder(s, before), last, Turns(before, last));
      forall j | j in s.jobs
        ensures After(s, GoInOrder(s, order), j, Turns(order, j))
      {
        assert After(s, GoInOrder(s, before), j, Turns(before, j));
      }
    }
  }

  lemma OneTurn(s: State, t: State, j: JobId, turns: nat)
    requires j in s.jobs && s.jobs[j].FileNext? && turns < 2 && After(s, t, j, turns)
    ensures var u, was := Step(t, Go(j)), s.jobs[j];
      && u.items == t.items && After(s, u, j, turns + 1)
      && (forall k :: k != j ==> (k in u.jobs <==> k in t.jobs) && (k in t.jobs ==> u.jobs[k] == t.jobs[k]))
      && u.files == (if turns == 0 then t.files[was.id := was.heard] else t.files)
      && u.rows == (if turns == 0 then t.rows else t.rows[was.id := was.named])
  {
  }

  /** Every job of the order makes its two writes in it. */
  predicate Interleaves(order: seq<JobId>) {
    order != [] && forall j :: j in order ==> Turns(order, j) == 2
  }

  /** Of any number of transcripts of one item, in any order of their writes, the words are
      mislabelled exactly when the last row to be written is at the item's etag and the last file
      is not of those bytes: so what counts is who is last twice, and what he really heard. */
  lemma CrossedExactly(s: State, id: ItemId, order: seq<JobId>)
    requires Waiting(s, id, order) && Interleaves(order)
    ensures var t, row, file := GoInOrder(s, order), order[|order| - 1], LastFile(order);
      && id in t.rows && t.rows[id] == s.jobs[row].named
      && file in s.jobs && id in t.files && t.files[id] == s.jobs[file].heard
      && (Mislabelled(t, id) <==>
            id in s.items && s.jobs[row].named == s.items[id].etag && s.jobs[file].heard != {s.items[id].etag})
  {
    forall j
      ensures Turns(order, j) <= 2
    {
      assert j in order || Turns(order, j) == 0;
    }
    LastTurn(order);
    assert order[|order| - 1] in order;
    LastWritesStay(s, id, order);
  }

  /** Two transcripts on their way, each of the bytes it names: `older` is at 0, `newer` at 1, and
      the newer one's is the etag the item has. */
  predicate TwoWaiting(s: State, id: ItemId, older: Etag, newer: Etag) {
    && 0 in s.jobs && s.jobs[0] == FileNext(id, older, {older})
    && 1 in s.jobs && s.jobs[1] == FileNext(id, newer, {newer})
    && id in s.items && s.items[id].etag == newer && older != newer
  }

  predicate StartsWith(order: seq<JobId>, j: JobId, k: JobId) {
    order == [j, j, k, k] || order == [j, k, j, k] || order == [j, k, k, j]
  }

  lemma SixOrders(order: seq<JobId>)
    requires |order| == 4 && multiset(order) == multiset{0, 0, 1, 1}
    ensures StartsWith(order, 0, 1) || StartsWith(order, 1, 0)
  {
    var a, b, c, d := order[0], order[1], order[2], order[3];
    assert order == [a, b, c, d];
    assert multiset(order) == multiset{a, b, c, d};
    assert a in multiset(order) && b in multiset(order) && c in multiset(order) && d in multiset(order);
    assert multiset{a, b, c, d}[0] == 2;
  }

  lemma TwoEach(order: seq<JobId>)
    requires |order| == 4 && multiset(order) == multiset{0, 0, 1, 1}
    ensures Interleaves(order) && forall j :: j in order ==> j == 0 || j == 1
  {
    assert forall j :: j in order ==> j in multiset(order);
  }

  lemma LastFileIs(order: seq<JobId>, j: JobId, k: JobId)
    requires StartsWith(order, j, k) && j != k
    ensures LastFile(order) == k
  {
    var three := order[..3];
    var two := three[..2];
    assert three[0] == j && (three[1] == k || three[2] == k);
    assert LastFile(order) == LastFile(three);
    assert two[..1] == [j];
    if order[1] == j {
      assert three == [j, j, k] && two == [j, j];
    } else {
      assert two == [j, k] && LastFile(two) == k;
      assert three[2] in two;
    }
  }

  /** Of the six orders two transcripts' writes can come in, the wrong words stay under the new
      etag in exactly one: the older words land after the newer, and the newer row last. */
  lemma OneOrderInSix(s: State, id: ItemId, older: Etag, newer: Etag, order: seq<JobId>)
    requires TwoWaiting(s, id, older, newer) && |order| == 4 && multiset(order) == multiset{0, 0, 1, 1}
    ensures var t := GoInOrder(s, order);
      && (Mislabelled(t, id) <==> order == [1, 0, 0, 1])
      && (Mislabelled(t, id) ==> t.files[id] == {older} && t.rows[id] == newer)
  {
    SixOrders(order);
    if order[0] == 0 {
      LastFileIs(order, 0, 1);
    } else {
      LastFileIs(order, 1, 0);
    }
    TwoEach(order);
    BothWait(s, id, older, newer, order);
    CrossedExactly(s, id, order);
  }

  lemma BothWait(s: State, id: ItemId, older: Etag, newer: Etag, order: seq<JobId>)
    requires TwoWaiting(s, id, older, newer) && forall j :: j in order ==> j == 0 || j == 1
    ensures Waiting(s, id, order)
  {
  }

  /** A file uploaded, scanned, taken by a worker, heard and delivered. */
  function OneDelivered(s: State, it: Item, job: JobId): State {
    Step(Step(Step(Step(Step(s, Put(it.id, it.etag)), Scan(it)), Take(job, it.id, false)), Hear(job)), Deliver(job, it.etag, 1))
  }

  lemma OneDeliveredWaits(s: State, it: Item, job: JobId)
    requires job !in s.jobs && NeedsTranscript(it, Row(s.rows, it.id))
    ensures var t := OneDelivered(s, it, job);
      && t.items == s.items[it.id := it] && t.rows == s.rows
      && t.jobs == s.jobs[job := FileNext(it.id, it.etag, {it.etag})]
  {
    var taken := Step(Step(Step(s, Put(it.id, it.etag)), Scan(it)), Take(job, it.id, false));
    assert taken.jobs == s.jobs[job := Hearing(it.id, it.etag, {}, false)];
    assert {} + {it.etag} == {it.etag};
  }

  /** Two deliveries of one item that cross: the file changes between them, the later one writes
      its words first and its row last, and the older one's words stay on disk under a row that
      says they are of the new file. */
  lemma CrossedDeliveriesMislabel(s: State, first: Item, second: Item)
    requires s.jobs == map[] && first.id == second.id && first.etag != second.etag
    requires NeedsTranscript(first, Row(s.rows, first.id)) && NeedsTranscript(second, Row(s.rows, first.id))
    ensures var id, t := first.id, GoInOrder(OneDelivered(OneDelivered(s, first, 0), second, 1), [1, 0, 0, 1]);
      Mislabelled(t, id) && t.files[id] == {first.etag} && t.rows[id] == second.etag && !InBacklog(t, id)
  {
    var once := OneDelivered(s, first, 0);
    OneDeliveredWaits(s, first, 0);
    OneDeliveredWaits(once, second, 1);
    OneOrderInSix(OneDelivered(once, second, 1), first.id, first.etag, second.etag, [1, 0, 0, 1]);
  }

  // ── what the library's own etag can vouch for ─────────────────────────

  /** What a row or a job says of the bytes the library has the item at, it says truly. */
  ghost predicate Truthful(s: State) {
    && OneEach(s)
    && (forall id :: Current(s, id) && id in s.files ==> s.files[id] == {s.rows[id]})
    && (forall j :: j in s.jobs && Current(s, s.jobs[j].id) ==> s.jobs[j].heard <= {s.rows[s.jobs[j].id]})
    && (forall j :: j in s.jobs && s.jobs[j].id in s.items && s.jobs[j].named == s.items[s.jobs[j].id].etag ==>
          s.jobs[j].heard <= {s.jobs[j].named})
  }

  /** The scan finds a file that was never heard, or what is on disk and on its way for it was
      heard from that very file. */
  predicate ScanIsSafe(s: State, it: Item) {
    && (it.id in s.rows && s.rows[it.id] == it.etag ==>
         && (it.id in s.files ==> s.files[it.id] == {it.etag})
         && forall j :: j in s.jobs && s.jobs[j].id == it.id ==> s.jobs[j].heard <= {it.etag})
    && (forall j :: j in s.jobs && s.jobs[j].id == it.id && s.jobs[j].named == it.etag ==> s.jobs[j].heard <= {it.etag})
  }

  /** The library knows the object that is being read, or vouches for nothing heard of it. */
  predicate HearingIsSafe(s: State, job: JobId)
    requires job in s.jobs
  {
    var j := s.jobs[job];
    j.Hearing? && j.id in s.bucket && j.id in s.items && (Current(s, j.id) || j.named == s.items[j.id].etag) ==>
      s.bucket[j.id] == s.items[j.id].etag
  }

  predicate Safe(s: State, a: Action) {
    match a
    case Scan(it) => (it.id, it.etag) in s.stored ==> ScanIsSafe(s, it)
    case Hear(job) => job in s.jobs ==> HearingIsSafe(s, job)
    case _ => true
  }

  /** Exactly which steps can make the library vouch for words it should not: a scan, and a read
      of an object the library does not know yet. Uploads, deliveries, writes and crashes never. */
  lemma StepKeepsTruthExactly(s: State, a: Action)
    requires Servable(s) && Truthful(s) && Alone(s, a) && Honest(s, a)
    ensures Truthful(Step(s, a)) <==> Safe(s, a)
  {
    StepKeepsOneEach(s, a);
    match a {
      case Scan(it) => if (it.id, it.etag) in s.stored { ScanKeepsTruthExactly(s, it); }
      case Hear(job) => if job in s.jobs { HearingKeepsTruthExactly(s, job); }
      case Go(job) => if job in s.jobs { WriteKeepsTruth(s, job); }
      case Deliver(job, etag, cues) => DeliveryKeepsTruth(s, job, etag, cues);
      case Take(job, id, local) => TakingKeepsTruth(s, job, id, local);
      case _ => FewerKeepTruth(s, Step(s, a));
    }
  }

  lemma ScanKeepsTruthExactly(s: State, it: Item)
    requires Servable(s) && Truthful(s) && (it.id, it.etag) in s.stored
    ensures Truthful(Step(s, Scan(it))) <==> ScanIsSafe(s, it)
  {
    var t := Step(s, Scan(it));
    assert forall id :: id != it.id ==> (Current(t, id) <==> Current(s, id));
    assert Current(t, it.id) <==> it.id in s.rows && s.rows[it.id] == it.etag;
  }

  lemma HearingKeepsTruthExactly(s: State, job: JobId)
    requires Servable(s) && Truthful(s) && job in s.jobs
    ensures Truthful(HearOnce(s, job)) <==> HearingIsSafe(s, job)
  {
    HearKeepsOneEach(s, job);
    var j, t := s.jobs[job], HearOnce(s, job);
    assert forall id :: Current(t, id) <==> Current(s, id);
    if j.Hearing? && j.id in s.bucket {
      assert s.bucket[j.id] in t.jobs[job].heard;
      assert !HearingIsSafe(s, job) ==> Current(t, j.id) || t.jobs[job].named == t.items[j.id].etag;
    }
  }

  lemma WriteKeepsTruth(s: State, job: JobId)
    requires Truthful(s) && job in s.jobs
    ensures Truthful(Write(s, job))
  {
    WriteKeepsOneEach(s, job);
    var j, t := s.jobs[job], Write(s, job);
    if j.RowNext? {
      assert forall id :: id != j.id ==> (Current(t, id) <==> Current(s, id));
      assert Current(t, j.id) ==> j.heard == {j.named};
    } else {
      assert Current(s, j.id) && j.heard != {} ==> j.heard == {s.rows[j.id]};
      assert forall id :: Current(t, id) <==> Current(s, id);
    }
  }

  lemma DeliveryKeepsTruth(s: State, job: JobId, etag: Etag, cues: nat)
    requires Truthful(s) && Honest(s, Deliver(job, etag, cues))
    ensures Truthful(Step(s, Deliver(job, etag, cues)))
  {
    DeliveryKeepsOneEach(s, job, etag, cues);
    assert forall id :: Current(Step(s, Deliver(job, etag, cues)), id) <==> Current(s, id);
  }

  lemma TakingKeepsTruth(s: State, job: JobId, id: ItemId, local: bool)
    requires Truthful(s) && Alone(s, Take(job, id, local))
    ensures Truthful(Step(s, Take(job, id, local)))
  {
    assert forall k :: Current(Step(s, Take(job, id, local)), k) <==> Current(s, k);
  }

  lemma FewerKeepTruth(s: State, t: State)
    requires Truthful(s) && OneEach(t) && t.files == s.files
    requires Within(t.items, s.items) && Within(t.rows, s.rows) && Within(t.jobs, s.jobs)
    ensures Truthful(t)
  {
    assert forall id :: Current(t, id) ==> Current(s, id);
  }

  /** And what holds of any run follows: the library vouches truly at the end of every run whose
      scans and reads were safe, whether or not any etag ever came back. */
  lemma {:induction false} SafeRunsAreTruthful(actions: seq<Action>)
    requires forall i :: 0 <= i < |actions| ==>
      var s := Run(START, actions[..i]); Alone(s, actions[i]) && Honest(s, actions[i]) && Safe(s, actions[i])
    ensures Truthful(Run(START, actions))
    ensures forall id :: !Mislabelled(Run(START, actions), id)
  {
    if actions != [] {
      var before := actions[..|actions| - 1];
      assert forall i :: 0 <= i < |before| ==> before[..i] == actions[..i];
      SafeRunsAreTruthful(before);
      RowsAreServable(before);
      StepKeepsTruthExactly(Run(START, before), actions[|actions| - 1]);
    }
  }

  /** An upload leaves what is said of the object true exactly when nothing on disk and nothing
      on its way names the new object's etag with other words. */
  lemma PutKeepsHeardExactly(s: State, id: ItemId, etag: Etag)
    requires Servable(s) && Heard(s)
    ensures Heard(Step(s, Put(id, etag))) <==>
      && (id in s.rows && s.rows[id] == etag ==>
            s.files[id] == {etag} && forall j :: j in s.jobs && s.jobs[j].id == id ==> s.jobs[j].heard <= {etag})
      && (forall j :: j in s.jobs && s.jobs[j].id == id && s.jobs[j].named == etag ==> s.jobs[j].heard <= {etag})
  {
    var t := Step(s, Put(id, etag));
    assert forall k :: k != id ==> (OfTheObject(t, k) <==> OfTheObject(s, k));
    assert OfTheObject(t, id) <==> id in s.rows && s.rows[id] == etag;
  }
}
