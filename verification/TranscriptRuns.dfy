/** What transcription leaves behind over any run of uploads, scans, queue reads, hearings,
    deliveries, local passes and restarts, each write a step of its own: the file on disk, then
    the row (cmd/server/transcripts.go handleDeliverTranscript, cmd/server/main.go transcribe and
    recordTranscript, cmd/transcriber/worker.go do, internal/store DeleteMissing). */
module TranscriptRuns {
  import opened Options
  import opened TranscriptQueue

  type JobId = nat

  /** One transcript on its way. `named` is the etag of the queue entry or library row it is for;
      `heard` are the etags of the bytes really read, for the object is read by its key alone and
      in as many requests as it takes. */
  datatype Job =
    | Hearing(id: ItemId, named: Etag, heard: set<Etag>, local: bool)
    | FileNext(id: ItemId, named: Etag, heard: set<Etag>)
    | RowNext(id: ItemId, named: Etag, heard: set<Etag>)

  /** `bucket` is the object under each item's key, and `files` says of each WebVTT on disk which
      bytes it was heard from. `stored` is every etag an object has ever had, and `seen` every
      etag its library row has. */
  datatype State = State(
    bucket: map<ItemId, Etag>, items: map<ItemId, Item>, rows: map<ItemId, Etag>, files: map<ItemId, set<Etag>>,
    jobs: map<JobId, Job>, stored: set<(ItemId, Etag)>, seen: set<(ItemId, Etag)>)

  const START := State(map[], map[], map[], map[], map[], {}, {})

  datatype Action =
    | Put(id: ItemId, etag: Etag)
    | Remove(id: ItemId)
    | Scan(it: Item)
    | Missing(id: ItemId)
    | Take(job: JobId, id: ItemId, local: bool)
    | Hear(job: JobId)
    | Deliver(job: JobId, etag: Etag, cues: nat)
    | Go(job: JobId)
    | GiveUp(job: JobId)
    | Restart

  /** The delivery is not refused: there is such an item, without subtitles of its own, at the
      etag that was sent, and the body holds a cue. */
  predicate Accepts(s: State, id: ItemId, etag: Etag, cues: nat) {
    id in s.items && s.items[id].subtitles == 0 && etag == s.items[id].etag && cues > 0
  }

  function Step(s: State, a: Action): State {
    match a
    case Put(id, etag) => s.(bucket := s.bucket[id := etag], stored := s.stored + {(id, etag)})
    case Remove(id) => s.(bucket := s.bucket - {id})
    case Scan(it) =>
      // What a listing showed, now or some time ago.
      if (it.id, it.etag) !in s.stored then s
      else s.(items := s.items[it.id := it], seen := s.seen + {(it.id, it.etag)})
    case Missing(id) => s.(items := s.items - {id}, rows := s.rows - {id})
    case Take(job, id, local) =>
      if job in s.jobs || !InBacklog(s, id) then s
      else s.(jobs := s.jobs[job := Hearing(id, s.items[id].etag, {}, local)])
    case Hear(job) => if job in s.jobs then HearOnce(s, job) else s
    case Deliver(job, etag, cues) =>
      if job !in s.jobs || !s.jobs[job].Hearing? || s.jobs[job].local then s else
      var j := s.jobs[job];
      if Accepts(s, j.id, etag, cues) then s.(jobs := s.jobs[job := FileNext(j.id, s.items[j.id].etag, j.heard)])
      else s.(jobs := s.jobs - {job})
    case Go(job) => if job in s.jobs then Write(s, job) else s
    case GiveUp(job) => s.(jobs := s.jobs - {job})
    case Restart => s.(jobs := map j | j in s.jobs && s.jobs[j].Hearing? && !s.jobs[j].local :: s.jobs[j])
  }

  /** One more read of the object, whatever it is by now. */
  function HearOnce(s: State, job: JobId): State
    requires job in s.jobs
  {
    match s.jobs[job]
    case Hearing(id, named, heard, local) =>
      if id in s.bucket then s.(jobs := s.jobs[job := Hearing(id, named, heard + {s.bucket[id]}, local)]) else s
    case _ => s
  }

  /** The next write of a job: the file, and then the row. A local pass has its file without
      anybody's leave. */
  function Write(s: State, job: JobId): State
    requires job in s.jobs
  {
    match s.jobs[job]
    case Hearing(id, named, heard, local) =>
      if local && heard != {} then WriteFile(s, job) else s
    case FileNext(_, _, _) => WriteFile(s, job)
    case RowNext(id, named, _) => s.(rows := s.rows[id := named], jobs := s.jobs - {job})
  }

  function WriteFile(s: State, job: JobId): State
    requires job in s.jobs
  {
    var j := s.jobs[job];
    s.(files := s.files[j.id := j.heard], jobs := s.jobs[job := RowNext(j.id, j.named, j.heard)])
  }

  predicate InBacklog(s: State, id: ItemId) {
    id in s.items && NeedsTranscript(s.items[id], Row(s.rows, id))
  }

  function Run(s: State, actions: seq<Action>): State {
    if actions == [] then s else Step(Run(s, actions[..|actions| - 1]), actions[|actions| - 1])
  }

  // ── whatever the interleaving ─────────────────────────────────────────

  ghost predicate Servable(s: State) {
    && (forall id :: id in s.rows ==> id in s.files && (id, s.rows[id]) in s.seen)
    && (forall id :: id in s.items ==> s.items[id].id == id && (id, s.items[id].etag) in s.seen)
    && (forall j :: j in s.jobs ==> (s.jobs[j].id, s.jobs[j].named) in s.seen)
    && (forall j :: j in s.jobs && s.jobs[j].RowNext? ==> s.jobs[j].id in s.files)
    && (forall id :: id in s.bucket ==> (id, s.bucket[id]) in s.stored)
    && s.seen <= s.stored
  }

  lemma StepKeepsServable(s: State, a: Action)
    requires Servable(s)
    ensures Servable(Step(s, a))
  {
    match a {
      case Hear(job) => if job in s.jobs { HearKeepsServable(s, job); }
      case Go(job) => if job in s.jobs { WriteKeepsServable(s, job); }
      case Take(job, id, local) => TakingKeepsServable(s, job, id, local);
      case Deliver(job, etag, cues) => DeliveryKeepsServable(s, job, etag, cues);
      case _ =>
    }
  }

  lemma TakingKeepsServable(s: State, job: JobId, id: ItemId, local: bool)
    requires Servable(s)
    ensures Servable(Step(s, Take(job, id, local)))
  {
  }

  lemma DeliveryKeepsServable(s: State, job: JobId, etag: Etag, cues: nat)
    requires Servable(s)
    ensures Servable(Step(s, Deliver(job, etag, cues)))
  {
  }

  lemma HearKeepsServable(s: State, job: JobId)
    requires Servable(s) && job in s.jobs
    ensures Servable(HearOnce(s, job))
  {
  }

  lemma WriteKeepsServable(s: State, job: JobId)
    requires Servable(s) && job in s.jobs
    ensures Servable(Write(s, job))
  {
  }

  /** A row always means a file on disk, and names an etag its item has had: through every
      interleaving, and a restart at any point of it. */
  lemma {:induction false} RowsAreServable(actions: seq<Action>)
    ensures Servable(Run(START, actions))
  {
    if actions != [] {
      RowsAreServable(actions[..|actions| - 1]);
      StepKeepsServable(Run(START, actions[..|actions| - 1]), actions[|actions| - 1]);
    }
  }

  // ── what the row says of the file ─────────────────────────────────────

  /** No two transcripts of one item are on their way at once. */
  predicate Alone(s: State, a: Action) {
    a.Take? ==> forall j :: j in s.jobs ==> s.jobs[j].id != a.id
  }

  /** A worker sends back the etag it was handed, and no words before it has heard any. */
  predicate Honest(s: State, a: Action) {
    a.Deliver? && a.job in s.jobs ==> a.etag == s.jobs[a.job].named && s.jobs[a.job].heard != {}
  }

  /** An object that changes gets an etag its key never had. */
  predicate NewEtag(s: State, a: Action) {
    a.Put? ==> (a.id in s.bucket && s.bucket[a.id] == a.etag) || (a.id, a.etag) !in s.stored
  }

  predicate Careful(s: State, a: Action) {
    Alone(s, a) && Honest(s, a) && NewEtag(s, a)
  }

  /** The row is at the etag the library has for the item: the file counts as heard. */
  predicate Current(s: State, id: ItemId) {
    id in s.rows && id in s.items && s.rows[id] == s.items[id].etag
  }

  /** The row is at the etag of the object there really is. */
  predicate OfTheObject(s: State, id: ItemId) {
    id in s.rows && id in s.bucket && s.rows[id] == s.bucket[id]
  }

  /** The library says the words are of the bytes the item has, and they are not. */
  predicate Mislabelled(s: State, id: ItemId) {
    Current(s, id) && id in s.files && s.files[id] != {s.rows[id]}
  }

  /** One transcript of an item at a time, and what is past hearing has heard something. */
  ghost predicate OneEach(s: State) {
    && (forall i, j :: i in s.jobs && j in s.jobs && i != j ==> s.jobs[i].id != s.jobs[j].id)
    && (forall j :: j in s.jobs && !s.jobs[j].Hearing? ==> s.jobs[j].heard != {})
    && (forall j :: j in s.jobs && s.jobs[j].RowNext? && s.jobs[j].id in s.files ==>
          s.files[s.jobs[j].id] == s.jobs[j].heard)
  }

  /** What a row or a job says of the object there is, it says truly. */
  ghost predicate Heard(s: State) {
    && OneEach(s)
    && (forall id :: OfTheObject(s, id) && id in s.files ==> s.files[id] == {s.rows[id]})
    && (forall j :: j in s.jobs && OfTheObject(s, s.jobs[j].id) ==> s.jobs[j].heard <= {s.rows[s.jobs[j].id]})
    && (forall j :: j in s.jobs && s.jobs[j].id in s.bucket && s.jobs[j].named == s.bucket[s.jobs[j].id] ==>
          s.jobs[j].heard <= {s.jobs[j].named})
  }

  lemma StepKeepsOneEach(s: State, a: Action)
    requires OneEach(s) && Alone(s, a) && Honest(s, a)
    ensures OneEach(Step(s, a))
  {
    match a {
      case Hear(job) => if job in s.jobs { HearKeepsOneEach(s, job); }
      case Go(job) => if job in s.jobs { WriteKeepsOneEach(s, job); }
      case Deliver(job, etag, cues) => DeliveryKeepsOneEach(s, job, etag, cues);
      case _ =>
    }
  }

  lemma HearKeepsOneEach(s: State, job: JobId)
    requires OneEach(s) && job in s.jobs
    ensures OneEach(HearOnce(s, job))
  {
  }

  lemma WriteKeepsOneEach(s: State, job: JobId)
    requires OneEach(s) && job in s.jobs
    ensures OneEach(Write(s, job))
  {
    if s.jobs[job].heard != {} {
      WriteFileKeepsOneEach(s, job);
    }
  }

  lemma WriteFileKeepsOneEach(s: State, job: JobId)
    requires OneEach(s) && job in s.jobs && s.jobs[job].heard != {}
    ensures OneEach(WriteFile(s, job))
  {
    var t := WriteFile(s, job);
    assert forall j :: j in t.jobs && j != job ==> t.jobs[j] == s.jobs[j] && t.jobs[j].id != t.jobs[job].id;
  }

  lemma DeliveryKeepsOneEach(s: State, job: JobId, etag: Etag, cues: nat)
    requires OneEach(s) && Honest(s, Deliver(job, etag, cues))
    ensures OneEach(Step(s, Deliver(job, etag, cues)))
  {
  }

  lemma StepKeepsHeard(s: State, a: Action)
    requires Servable(s) && Heard(s) && Careful(s, a)
    ensures Heard(Step(s, a))
  {
    StepKeepsOneEach(s, a);
    match a {
      case Go(job) => if job in s.jobs { WriteKeepsHeard(s, job); }
      case Hear(job) => if job in s.jobs { HearKeepsHeard(s, job); }
      case Put(id, etag) => PutKeepsHeard(s, id, etag);
      case Deliver(job, etag, cues) => DeliveryKeepsHeard(s, job, etag, cues);
      case Take(job, id, local) => TakingKeepsHeard(s, job, id, local);
      case _ => FewerKeepHeard(s, Step(s, a));
    }
  }

  /** The first map has nothing that the second has not. */
  ghost predicate Within<K, V>(n: map<K, V>, m: map<K, V>) {
    forall k :: k in n ==> k in m && n[k] == m[k]
  }

  /** What is only taken away leaves nothing untrue. */
  lemma FewerKeepHeard(s: State, t: State)
    requires Heard(s) && OneEach(t) && t.files == s.files
    requires Within(t.bucket, s.bucket) && Within(t.rows, s.rows) && Within(t.jobs, s.jobs)
    ensures Heard(t)
  {
    assert forall id :: OfTheObject(t, id) ==> OfTheObject(s, id);
  }

  lemma DeliveryKeepsHeard(s: State, job: JobId, etag: Etag, cues: nat)
    requires Heard(s) && Honest(s, Deliver(job, etag, cues))
    ensures Heard(Step(s, Deliver(job, etag, cues)))
  {
    DeliveryKeepsOneEach(s, job, etag, cues);
    assert forall id :: OfTheObject(Step(s, Deliver(job, etag, cues)), id) ==> OfTheObject(s, id);
  }

  lemma TakingKeepsHeard(s: State, job: JobId, id: ItemId, local: bool)
    requires Heard(s) && Alone(s, Take(job, id, local))
    ensures Heard(Step(s, Take(job, id, local)))
  {
    assert forall k :: OfTheObject(Step(s, Take(job, id, local)), k) ==> OfTheObject(s, k);
  }

  lemma HearKeepsHeard(s: State, job: JobId)
    requires Heard(s) && job in s.jobs
    ensures Heard(HearOnce(s, job))
  {
    HearKeepsOneEach(s, job);
  }

  lemma WriteKeepsHeard(s: State, job: JobId)
    requires Heard(s) && job in s.jobs
    ensures Heard(Write(s, job))
  {
    WriteKeepsOneEach(s, job);
    if s.jobs[job].RowNext? {
      RowKeepsHeard(s, job);
    } else if s.jobs[job].heard != {} {
      WriteFileKeepsHeard(s, job);
    }
  }

  lemma WriteFileKeepsHeard(s: State, job: JobId)
    requires Heard(s) && job in s.jobs && s.jobs[job].heard != {}
    ensures Heard(WriteFile(s, job))
  {
    WriteFileKeepsOneEach(s, job);
    var j, t := s.jobs[job], WriteFile(s, job);
    assert OfTheObject(s, j.id) ==> j.heard == {s.rows[j.id]};
    assert forall id :: OfTheObject(t, id) <==> OfTheObject(s, id);
  }

  lemma RowKeepsHeard(s: State, job: JobId)
    requires Heard(s) && job in s.jobs && s.jobs[job].RowNext?
    ensures Heard(Write(s, job))
  {
    WriteKeepsOneEach(s, job);
    var j, t := s.jobs[job], Write(s, job);
    assert forall id :: id != j.id ==> (OfTheObject(t, id) <==> OfTheObject(s, id));
    assert OfTheObject(t, j.id) ==> j.heard == {j.named};
  }

  lemma PutKeepsHeard(s: State, id: ItemId, etag: Etag)
    requires Servable(s) && Heard(s) && NewEtag(s, Put(id, etag))
    ensures Heard(Step(s, Put(id, etag)))
  {
    assert forall k :: OfTheObject(Step(s, Put(id, etag)), k) ==> OfTheObject(s, k);
  }

  /** With one transcript of an item on its way at a time, honest workers, and etags that never
      come back: a row at the etag of the object there is means the words on disk were heard from
      those very bytes. So a row that counts and is wrong is one of a library that is behind. */
  lemma {:induction false} CurrentRowIsHeard(actions: seq<Action>)
    requires forall i :: 0 <= i < |actions| ==> Careful(Run(START, actions[..i]), actions[i])
    ensures var t := Run(START, actions);
      && Heard(t)
      && (forall id :: OfTheObject(t, id) ==> id in t.files && t.files[id] == {t.rows[id]})
      && (forall id :: Mislabelled(t, id) && id in t.bucket ==> t.bucket[id] != t.items[id].etag)
  {
    RowsAreServable(actions);
    if actions != [] {
      var before := actions[..|actions| - 1];
      assert forall i :: 0 <= i < |before| ==> before[..i] == actions[..i];
      CurrentRowIsHeard(before);
      RowsAreServable(before);
      StepKeepsHeard(Run(START, before), actions[|actions| - 1]);
    }
  }

  /** What is on the backlog: every video or audio file that was probed, without subtitles of its
      own, and without a row at its etag. */
  lemma BacklogExactly(s: State, id: ItemId)
    ensures InBacklog(s, id) <==> id in s.items && var it := s.items[id];
      && it.medium in [Some(Video), Some(Audio)] && it.subtitles == 0
      && !(id in s.rows && s.rows[id] == it.etag)
  {
  }

  // ── what comes from outside ───────────────────────────────────────────

  /** Nothing that a transcript leaves or is on its way. */
  predicate SameWork(s: State, t: State) {
    t.rows == s.rows && t.files == s.files && t.jobs == s.jobs
  }

  /** An upload or a removal changes the object under one key alone; a scan one library row, to what
      a listing has shown; a missing file takes its library row and its transcript's; giving up ends
      one job; and a restart ends all but what workers elsewhere are hearing. */
  lemma WorldComesTo(s: State, id: ItemId, etag: Etag, it: Item, job: JobId)
    ensures var t := Step(s, Put(id, etag)); SameWork(s, t) && t.items == s.items && t.bucket == s.bucket[id := etag]
    ensures var t := Step(s, Remove(id)); SameWork(s, t) && t.items == s.items && t.bucket == s.bucket - {id}
    ensures var t := Step(s, Scan(it));
      && SameWork(s, t) && t.bucket == s.bucket
      && t.items == if (it.id, it.etag) in s.stored then s.items[it.id := it] else s.items
    ensures var t := Step(s, Missing(id));
      t.items == s.items - {id} && t.rows == s.rows - {id} && t.files == s.files && t.jobs == s.jobs && t.bucket == s.bucket
    ensures var t := Step(s, GiveUp(job));
      t.jobs == s.jobs - {job} && t.rows == s.rows && t.files == s.files && t.items == s.items && t.bucket == s.bucket
    ensures var t := Step(s, Restart);
      && t.rows == s.rows && t.files == s.files && t.items == s.items && t.bucket == s.bucket
      && (forall j :: j in t.jobs <==> j in s.jobs && s.jobs[j].Hearing? && !s.jobs[j].local)
      && (forall j :: j in t.jobs ==> t.jobs[j] == s.jobs[j])
  {
  }

  // ── from the queue to the row ─────────────────────────────────────────

  /** What is left when an item has been heard to the end: its words on disk, its row, and no job. */
  predicate Recorded(s: State, t: State, id: ItemId, named: Etag, heard: set<Etag>) {
    && t.files == s.files[id := heard] && t.rows == s.rows[id := named]
    && t.jobs == s.jobs && t.items == s.items && t.bucket == s.bucket
  }

  /** Undisturbed, a pass of the server's own hears the object there is, and records it under the
      item's etag. */
  lemma LocalPassComesTo(s: State, job: JobId, id: ItemId)
    requires job !in s.jobs && InBacklog(s, id) && id in s.bucket
    ensures var t := Step(Step(Step(Step(s, Take(job, id, true)), Hear(job)), Go(job)), Go(job));
      Recorded(s, t, id, s.items[id].etag, {s.bucket[id]})
  {
    var heard := Step(Step(s, Take(job, id, true)), Hear(job));
    assert {} + {s.bucket[id]} == {s.bucket[id]};
    assert heard.jobs[job] == Hearing(id, s.items[id].etag, {s.bucket[id]}, true);
    var t := Step(Step(heard, Go(job)), Go(job));
    assert t.jobs == s.jobs;
  }

  /** And so does a worker's delivery. */
  lemma DeliveryComesTo(s: State, job: JobId, id: ItemId, cues: nat)
    requires job !in s.jobs && InBacklog(s, id) && id in s.bucket && cues > 0
    ensures var heard := Step(Step(s, Take(job, id, false)), Hear(job));
      var t := Step(Step(Step(heard, Deliver(job, s.items[id].etag, cues)), Go(job)), Go(job));
      Recorded(s, t, id, s.items[id].etag, {s.bucket[id]})
  {
    var heard := Step(Step(s, Take(job, id, false)), Hear(job));
    assert {} + {s.bucket[id]} == {s.bucket[id]};
    assert heard.jobs[job] == Hearing(id, s.items[id].etag, {s.bucket[id]}, false);
    var t := Step(Step(Step(heard, Deliver(job, s.items[id].etag, cues)), Go(job)), Go(job));
    assert t.jobs == s.jobs;
  }

  /** A delivery is taken exactly when the library has the item, at the etag that was sent, without
      subtitles of its own, and there is a cue in it; otherwise nothing is kept of it. */
  lemma TakenExactly(s: State, job: JobId, etag: Etag, cues: nat)
    requires job in s.jobs && s.jobs[job].Hearing? && !s.jobs[job].local
    ensures var t, j := Step(s, Deliver(job, etag, cues)), s.jobs[job];
      && t.rows == s.rows && t.files == s.files && t.items == s.items
      && t.jobs == if j.id in s.items && s.items[j.id].etag == etag && s.items[j.id].subtitles == 0 && cues > 0
           then s.jobs[job := FileNext(j.id, etag, j.heard)] else s.jobs - {job}
  {
  }

  // ── what leaves the backlog ───────────────────────────────────────────

  /** Recording what was heard takes the item off the backlog exactly when it is still at the
      etag the work was for, and moves no other item on or off it. */
  lemma RecordingClearsExactly(s: State, job: JobId)
    requires job in s.jobs && s.jobs[job].RowNext?
    ensures var id, t := s.jobs[job].id, Step(s, Go(job));
      && (InBacklog(t, id) <==> InBacklog(s.(rows := s.rows - {id}), id) && s.items[id].etag != s.jobs[job].named)
      && forall other :: other != id ==> (InBacklog(t, other) <==> InBacklog(s, other))
  {
  }
}
