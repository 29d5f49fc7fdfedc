/** What holds of the bucket over whole runs of the converter: any number of passes over one
    listing, every attempt cut off after any of its writes. */
module ConverterRuns {
  import opened Options
  import opened StableSort
  import opened Converter

  // ── keys ──────────────────────────────────────────────────────────────

  /** Where the extension of `key` begins, looking back from position `i`: at the last dot of
      the last path element, at the end when there is none. */
  function StemEnd(key: Key, i: nat): (n: nat)
    requires i <= |key|
    ensures n <= |key|
  {
    if i == 0 || key[i - 1] == '/' then |key| else if key[i - 1] == '.' then i - 1 else StemEnd(key, i - 1)
  }

  /** The key without its extension. */
  function Stem(key: Key): Key {
    key[..StemEnd(key, |key|)]
  }

  function OutKey(key: Key): Key {
    Stem(key) + ".mp4"
  }

  /** The extension begins at the last dot of the last element of the path, if it has one. */
  lemma {:induction false} StemExactly(key: Key, i: nat)
    requires i <= |key| && forall k :: i <= k < |key| ==> key[k] != '.' && key[k] != '/'
    ensures var n := StemEnd(key, i);
      if n < |key| then key[n] == '.' && forall k :: n < k < |key| ==> key[k] != '.' && key[k] != '/'
      else forall k :: 0 <= k < |key| && key[k] == '.' ==> exists m :: k < m < |key| && key[m] == '/'
  {
    if i > 0 && key[i - 1] != '/' && key[i - 1] != '.' {
      StemExactly(key, i - 1);
    }
  }

  predicate IsSubtitle(key: Key) {
    |key| >= 4 && key[|key| - 4..] == ".srt"
  }

  /** What the planner promises of a job: the new file beside the old one as .mp4, and sidecars
      that are subtitles, which no film is. */
  predicate Planned(j: Job) {
    && j.plan.outKey == OutKey(j.key) && !IsSubtitle(j.key)
    && forall k :: k in j.plan.sidecars ==> IsSubtitle(k)
  }

  lemma StemOfOut(stem: Key)
    ensures Stem(stem + ".mp4") == stem
    ensures !IsSubtitle(stem + ".mp4")
  {
    var key := stem + ".mp4";
    var n := |key|;
    assert key[n - 1] == '4' && key[n - 2] == 'p' && key[n - 3] == 'm' && key[n - 4] == '.';
    assert StemEnd(key, n) == StemEnd(key, n - 1) == StemEnd(key, n - 2) == StemEnd(key, n - 3) == n - 4;
    assert key[..n - 4] == stem;
    assert key[n - 4..] == ".mp4";
  }

  // ── attempts ──────────────────────────────────────────────────────────

  /** One go at one file; `stop` is how many of its writes the worker lived to make. */
  datatype Attempt = Attempt(job: Job, world: World, stop: nat)

  function Step(objects: Objects, a: Attempt, keep: bool): Objects
    requires Possible(a.world, a.job.plan)
  {
    ApplyAll(objects, Take(Writes(objects, a.job, keep, a.world), a.stop))
  }

  ghost predicate AllPossible(attempts: seq<Attempt>) {
    forall a :: a in attempts ==> Possible(a.world, a.job.plan)
  }

  function After(objects: Objects, attempts: seq<Attempt>, keep: bool): Objects
    requires AllPossible(attempts)
  {
    if attempts == [] then objects
    else Step(After(objects, attempts[..|attempts| - 1], keep), attempts[|attempts| - 1], keep)
  }

  predicate SameAt(a: Objects, b: Objects, k: Key) {
    (k in a <==> k in b) && (k in a ==> a[k] == b[k])
  }

  lemma {:induction false} ApplyConcat(objects: Objects, a: seq<Write>, b: seq<Write>)
    ensures ApplyAll(objects, a + b) == ApplyAll(ApplyAll(objects, a), b)
  {
    if b == [] {
      assert a + b == a;
    } else {
      assert (a + b)[..|a + b| - 1] == a + b[..|b| - 1];
      ApplyConcat(objects, a, b[..|b| - 1]);
    }
  }

  lemma {:induction false} ElsewhereUntouched(objects: Objects, writes: seq<Write>, k: Key)
    requires forall w :: w in writes ==> w.key != k
    ensures SameAt(ApplyAll(objects, writes), objects, k)
  {
    if writes != [] {
      ElsewhereUntouched(objects, writes[..|writes| - 1], k);
      assert writes[|writes| - 1] in writes;
    }
  }

  lemma {:induction false} SidecarWritesAreSidecars(j: Job, w: World, n: nat)
    requires Possible(w, j.plan) && n <= |w.cues|
    ensures forall x :: x in SidecarWrites(j, w, n) ==> x.PutObject? && x.key in j.plan.sidecars && x.obj.body.Subtitles?
  {
    if n > 0 {
      SidecarWritesAreSidecars(j, w, n - 1);
    }
  }

  function Front(j: Job, w: World): seq<Write>
    requires Possible(w, j.plan)
  {
    if j.plan.sidecars != [] then SidecarWrites(j, w, |w.cues|) else []
  }

  /** A conversion's writes are sidecars, then perhaps the new file, then perhaps the removal. */
  lemma WritesInOrder(objects: Objects, j: Job, keep: bool, w: World)
    requires Possible(w, j.plan)
    ensures Writes(objects, j, keep, w) == [] ||
      (Guard(objects, j, w) && exists tail: seq<Write> ::
        && Writes(objects, j, keep, w) == Front(j, w) + tail
        && Tail(j, w, tail))
  {
    if Guard(objects, j, w) && Reads(j, w) {
      var tail := if ReadyToMake(j, w) && Made(j, w) then Replacing(j, keep, w) else [];
      assert Writes(objects, j, keep, w) == Front(j, w) + tail;
      assert Tail(j, w, tail);
    }
  }

  predicate Tail(j: Job, w: World, tail: seq<Write>) {
    var put := PutObject(j.plan.outKey, NewObject(j, w));
    tail == [] || tail == [put] || (tail == [put, RemoveObject(j.key)] && j.plan.outKey != j.key)
  }

  // ── nothing is lost ───────────────────────────────────────────────────

  /** The file is there as it was, or a verified conversion of it is there under its output key. */
  predicate Kept(objects: Objects, key: Key, etag: Etag) {
    || (key in objects && objects[key] == Object(etag, Original))
    || (OutKey(key) in objects && objects[OutKey(key)].body == Conversion(etag, true))
  }

  lemma TailKeeps(objects: Objects, j: Job, w: World, done: seq<Write>)
    requires done != [] && Planned(j) && Tail(j, w, done)
    ensures Kept(ApplyAll(objects, done), j.key, j.etag)
  {
    var put := PutObject(j.plan.outKey, NewObject(j, w));
    assert done[..1] == [put];
    assert [put][..0] == [];
    assert ApplyAll(objects, [put]) == Apply(objects, put);
    if |done| == 2 {
      assert ApplyAll(objects, done) == Apply(Apply(objects, put), RemoveObject(j.key));
    }
  }

  lemma FrontKeeps(objects: Objects, j: Job, done: seq<Write>)
    requires Kept(objects, j.key, j.etag) && Planned(j)
    requires forall x :: x in done ==> x.key in j.plan.sidecars
    ensures Kept(ApplyAll(objects, done), j.key, j.etag)
  {
    StemOfOut(Stem(j.key));
    ElsewhereUntouched(objects, done, j.key);
    ElsewhereUntouched(objects, done, j.plan.outKey);
  }

  lemma PrefixKeeps(objects: Objects, j: Job, w: World, front: seq<Write>, tail: seq<Write>, n: nat)
    requires Kept(objects, j.key, j.etag) && Planned(j) && Tail(j, w, tail)
    requires forall x :: x in front ==> x.key in j.plan.sidecars
    ensures Kept(ApplyAll(objects, Take(front + tail, n)), j.key, j.etag)
  {
    if n <= |front| {
      assert Take(front + tail, n) == front[..n];
      FrontKeeps(objects, j, front[..n]);
    } else {
      var done := Take(tail, n - |front|);
      assert Take(front + tail, n) == front + done;
      ApplyConcat(objects, front, done);
      FrontKeeps(objects, j, front);
      if done != [] {
        TailKeeps(ApplyAll(objects, front), j, w, done);
      }
    }
  }

  /** Whatever write of a conversion is the last one made, its file is kept. */
  lemma OwnAttemptKeeps(objects: Objects, a: Attempt, keep: bool)
    requires Possible(a.world, a.job.plan) && Planned(a.job)
    requires Kept(objects, a.job.key, a.job.etag)
    ensures Kept(Step(objects, a, keep), a.job.key, a.job.etag)
  {
    var j, w := a.job, a.world;
    var writes := Writes(objects, j, keep, w);
    WritesInOrder(objects, j, keep, w);
    SidecarWritesAreSidecars(j, w, |w.cues|);
    if writes != [] {
      var tail: seq<Write> :| writes == Front(j, w) + tail && Tail(j, w, tail);
      PrefixKeeps(objects, j, w, Front(j, w), tail, a.stop);
    }
  }

  /** A sidecar, the new file under its output key, or the original's removal. */
  predicate OfConversion(x: Write, j: Job, w: World) {
    match x
    case PutObject(key, obj) => key in j.plan.sidecars || (key == j.plan.outKey && obj.etag == w.putEtag)
    case RemoveObject(key) => key == j.key
  }

  lemma WritesWhere(objects: Objects, j: Job, keep: bool, w: World)
    requires Possible(w, j.plan)
    ensures forall x :: x in Writes(objects, j, keep, w) ==> OfConversion(x, j, w)
  {
    SidecarWritesAreSidecars(j, w, |w.cues|);
    var tail := if ReadyToMake(j, w) && Made(j, w) then Replacing(j, keep, w) else [];
    assert Guard(objects, j, w) && Reads(j, w) ==> Writes(objects, j, keep, w) == Front(j, w) + tail;
  }

  /** A conversion touches its two keys and subtitles, and nothing else. */
  lemma OwnWritesOnly(objects: Objects, a: Attempt, keep: bool, k: Key)
    requires Possible(a.world, a.job.plan) && Planned(a.job)
    requires k != a.job.key && k != a.job.plan.outKey && !IsSubtitle(k)
    ensures SameAt(Step(objects, a, keep), objects, k)
  {
    WritesWhere(objects, a.job, keep, a.world);
    assert forall x :: OfConversion(x, a.job, a.world) ==> x.key != k;
    ElsewhereUntouched(objects, Take(Writes(objects, a.job, keep, a.world), a.stop), k);
  }

  lemma OthersUntouched(objects: Objects, a: Attempt, keep: bool, k: Key)
    requires Possible(a.world, a.job.plan) && Planned(a.job)
    requires Stem(k) != Stem(a.job.key) && !IsSubtitle(k)
    ensures SameAt(Step(objects, a, keep), objects, k)
  {
    StemOfOut(Stem(a.job.key));
    OwnWritesOnly(objects, a, keep, k);
  }

  /** Every attempt is at this very file as it was listed, or at a file of another stem. */
  ghost predicate Apart(attempts: seq<Attempt>, key: Key, etag: Etag) {
    forall a :: a in attempts ==>
      && Planned(a.job)
      && (Stem(a.job.key) == Stem(key) ==> a.job.key == key && a.job.etag == etag)
  }

  /** Whatever fails and wherever each attempt is cut off, over any number of passes over a
      listing, a file is kept when no other file of its stem is planned, and left as it was when it
      is not planned either. */
  lemma {:induction false} EveryFileIsKept(objects: Objects, key: Key, etag: Etag, attempts: seq<Attempt>, keep: bool)
    requires AllPossible(attempts) && Apart(attempts, key, etag) && !IsSubtitle(key)
    requires key in objects && objects[key] == Object(etag, Original)
    ensures Kept(After(objects, attempts, keep), key, etag)
    ensures (forall a :: a in attempts ==> a.job.key != key) ==> SameAt(After(objects, attempts, keep), objects, key)
  {
    if attempts != [] {
      var before, a := attempts[..|attempts| - 1], attempts[|attempts| - 1];
      assert a in attempts;
      EveryFileIsKept(objects, key, etag, before, keep);
      var was := After(objects, before, keep);
      if Stem(a.job.key) == Stem(key) {
        OwnAttemptKeeps(was, a, keep);
      } else {
        OthersUntouched(was, a, keep, key);
        StemOfOut(Stem(key));
        OthersUntouched(was, a, keep, OutKey(key));
      }
    }
  }

  // ── two files of one stem ─────────────────────────────────────────────

  /** Nothing goes wrong. */
  function AllWell(p: Plan, putEtag: Etag): (w: World)
    ensures Possible(w, p)
  {
    World(true, true, true, true, true, seq(|p.sidecars|, _ => Some(1)), seq(|p.sidecars|, _ => Done),
          [Chain(true, true, false), Chain(true, true, false), Chain(true, true, false)], true, true, true, Done, putEtag, Done)
  }

  /** When nothing goes wrong, the file at the output key is this one's conversion and the
      original, under any other key and unless originals are kept, is gone. */
  lemma WellDone(objects: Objects, j: Job, keep: bool, stop: nat, etag: Etag)
    requires Planned(j) && j.key in objects && objects[j.key].etag == j.etag
    requires stop >= |j.plan.sidecars| + 2
    ensures var after := Step(objects, Attempt(j, AllWell(j.plan, etag), stop), keep);
      && j.plan.outKey in after && after[j.plan.outKey] == Object(etag, Conversion(j.etag, true))
      && (j.key != j.plan.outKey && !keep ==> j.key !in after)
  {
    var w := AllWell(j.plan, etag);
    AllWellWritesFit(objects, j, keep, stop, etag);
    assert Writes(objects, j, keep, w) == Front(j, w) + Replacing(j, keep, w);
    ApplyConcat(objects, Front(j, w), Replacing(j, keep, w));
    WellReplaced(ApplyAll(objects, Front(j, w)), j, keep, etag);
  }

  lemma WellReplaced(objects: Objects, j: Job, keep: bool, etag: Etag)
    ensures var after := ApplyAll(objects, Replacing(j, keep, AllWell(j.plan, etag)));
      && j.plan.outKey in after && after[j.plan.outKey] == Object(etag, Conversion(j.etag, true))
      && (j.key != j.plan.outKey && !keep ==> j.key !in after)
  {
    var w := AllWell(j.plan, etag);
    var put := PutObject(j.plan.outKey, NewObject(j, w));
    var tail := if j.plan.outKey != j.key && !keep then [put, RemoveObject(j.key)] else [put];
    assert Replacing(j, keep, w) == tail;
    assert tail[..1] == [put];
    assert [put][..0] == [];
    assert ApplyAll(objects, [put]) == Apply(objects, put);
  }

  /** Two files of one stem, as the listing has them. */
  predicate SharingAStem(objects: Objects, a: Job, b: Job) {
    && Planned(a) && Planned(b) && Stem(a.key) == Stem(b.key) && a.key != b.key && a.etag != b.etag
    && a.key in objects && objects[a.key] == Object(a.etag, Original)
    && b.key in objects && objects[b.key] == Object(b.etag, Original)
  }

  ghost predicate OnlyAt(attempts: seq<Attempt>, a: Job, b: Job) {
    AllPossible(attempts) && forall x :: x in attempts ==> x.job == a || x.job == b
  }

  /** Sharing no stem is needed: of two planned files of one stem, the one that is not itself
      the .mp4 overwrites the other's conversion, and by then that one's original is gone, or
      was the .mp4. */
  lemma SharedStemLosesAFile(objects: Objects, a: Job, b: Job, keep: bool)
    requires SharingAStem(objects, a, b) && b.key != b.plan.outKey
    requires !keep || a.key == a.plan.outKey
    ensures exists attempts: seq<Attempt> ::
      OnlyAt(attempts, a, b) && |attempts| == 2 && !Kept(After(objects, attempts, keep), a.key, a.etag)
  {
    var attempts := BothWell(a, b, "");
    LostBetween(objects, a, b, keep, "");
    assert OnlyAt(attempts, a, b) && |attempts| == 2 && !Kept(After(objects, attempts, keep), a.key, a.etag);
  }

  /** An attempt that goes well from end to end. */
  function WellAttempt(j: Job, etag: Etag): Attempt {
    Attempt(j, AllWell(j.plan, etag), |j.plan.sidecars| + 2)
  }

  function BothWell(a: Job, b: Job, etag: Etag): seq<Attempt> {
    [WellAttempt(a, etag), WellAttempt(b, etag)]
  }

  lemma LostBetween(objects: Objects, a: Job, b: Job, keep: bool, etag: Etag)
    requires SharingAStem(objects, a, b) && b.key != b.plan.outKey && (!keep || a.key == a.plan.outKey)
    ensures AllPossible(BothWell(a, b, etag)) && !Kept(After(objects, BothWell(a, b, etag), keep), a.key, a.etag)
  {
    var first, second := WellAttempt(a, etag), WellAttempt(b, etag);
    TwoAttempts(objects, first, second, keep);
    WellDone(objects, a, keep, first.stop, etag);
    OwnWritesOnly(objects, first, keep, b.key);
    OverwrittenBy(Step(objects, first, keep), a.key, a.etag, b, keep, etag);
  }

  /** A file that is itself the .mp4, or is there no more, is lost to another's conversion. */
  lemma OverwrittenBy(objects: Objects, key: Key, listed: Etag, b: Job, keep: bool, etag: Etag)
    requires Planned(b) && Stem(key) == Stem(b.key) && b.etag != listed
    requires key != OutKey(key) ==> key !in objects && key != b.key && !IsSubtitle(key)
    requires b.key in objects && objects[b.key].etag == b.etag
    ensures !Kept(Step(objects, WellAttempt(b, etag), keep), key, listed)
  {
    WellDone(objects, b, keep, |b.plan.sidecars| + 2, etag);
    if key != OutKey(key) {
      OwnWritesOnly(objects, WellAttempt(b, etag), keep, key);
    }
  }

  lemma KeepingRemovesNothing(objects: Objects, j: Job, w: World)
    requires Possible(w, j.plan)
    ensures forall x :: x in Writes(objects, j, true, w) ==> x.PutObject?
  {
    SidecarWritesAreSidecars(j, w, |w.cues|);
  }

  /** With originals kept, whatever is planned and however it goes, a file that is not itself
      the .mp4 of its stem is left exactly as it was. */
  lemma {:induction false} KeepingLeavesOriginals(objects: Objects, key: Key, attempts: seq<Attempt>)
    requires AllPossible(attempts) && (forall x :: x in attempts ==> Planned(x.job))
    requires key != OutKey(key) && !IsSubtitle(key)
    ensures SameAt(After(objects, attempts, true), objects, key)
  {
    if attempts != [] {
      var before, x := attempts[..|attempts| - 1], attempts[|attempts| - 1];
      assert x in attempts;
      KeepingLeavesOriginals(objects, key, before);
      var was := After(objects, before, true);
      StemOfOut(Stem(x.job.key));
      WritesWhere(was, x.job, true, x.world);
      KeepingRemovesNothing(was, x.job, x.world);
      assert forall w :: OfConversion(w, x.job, x.world) && w.PutObject? ==> w.key != key;
      ElsewhereUntouched(was, Take(Writes(was, x.job, true, x.world), x.stop), key);
    }
  }

  ghost predicate LosesOne(objects: Objects, attempts: seq<Attempt>, a: Job, b: Job, keep: bool)
    requires AllPossible(attempts)
  {
    var after := After(objects, attempts, keep);
    !Kept(after, a.key, a.etag) || !Kept(after, b.key, b.etag)
  }

  /** Exactly when two files of one stem are in danger from each other: unless originals are
      kept and neither is itself the .mp4, some run of attempts at the two loses one. */
  lemma SharedStemExactly(objects: Objects, a: Job, b: Job, keep: bool)
    requires SharingAStem(objects, a, b)
    ensures (exists attempts: seq<Attempt> :: OnlyAt(attempts, a, b) && LosesOne(objects, attempts, a, b, keep))
      <==> !keep || a.key == OutKey(a.key) || b.key == OutKey(b.key)
  {
    if keep && a.key != OutKey(a.key) && b.key != OutKey(b.key) {
      forall attempts: seq<Attempt> | OnlyAt(attempts, a, b)
        ensures !LosesOne(objects, attempts, a, b, keep)
      {
        KeepingLeavesOriginals(objects, a.key, attempts);
        KeepingLeavesOriginals(objects, b.key, attempts);
      }
    } else if b.key != OutKey(b.key) && (!keep || a.key == OutKey(a.key)) {
      SharedStemLosesAFile(objects, a, b, keep);
      var attempts: seq<Attempt> :| OnlyAt(attempts, a, b) && !Kept(After(objects, attempts, keep), a.key, a.etag);
      assert LosesOne(objects, attempts, a, b, keep);
    } else {
      SharedStemLosesAFile(objects, b, a, keep);
      var attempts: seq<Attempt> :| OnlyAt(attempts, b, a) && !Kept(After(objects, attempts, keep), b.key, b.etag);
      assert OnlyAt(attempts, a, b) && LosesOne(objects, attempts, a, b, keep);
    }
  }

  // ── a whole listing ───────────────────────────────────────────────────

  /** The plan of a pass: every job is of an object as it was listed, and no key is listed twice. */
  predicate Listing(objects: Objects, jobs: set<Job>) {
    && (forall j :: j in jobs ==> Planned(j) && j.key in objects && objects[j.key] == Object(j.etag, Original))
    && (forall i, j :: i in jobs && j in jobs && i.key == j.key ==> i == j)
  }

  /** A film of the listing, planned or not, and no other of its stem has the same bytes. */
  predicate Listed(objects: Objects, jobs: set<Job>, key: Key, etag: Etag) {
    && key in objects && objects[key] == Object(etag, Original) && !IsSubtitle(key)
    && forall j :: j in jobs && j.key != key && Stem(j.key) == Stem(key) ==> j.etag != etag
  }

  /** Attempts at these jobs; what they put has an etag that no listed object had. */
  ghost predicate AttemptsAt(attempts: seq<Attempt>, jobs: set<Job>) {
    && AllPossible(attempts)
    && forall x :: x in attempts ==> x.job in jobs && forall j :: j in jobs ==> j.etag != x.world.putEtag
  }

  /** Another planned file of the stem, not itself the .mp4. */
  predicate Rival(jobs: set<Job>, key: Key, b: Job) {
    b in jobs && b.key != key && Stem(b.key) == Stem(key) && b.key != OutKey(key)
  }

  predicate IsPlanned(jobs: set<Job>, key: Key) {
    exists a :: a in jobs && a.key == key
  }

  /** A file that nobody plans, and that is not itself the .mp4 of its stem, is left exactly as it
      was, originals kept or not. */
  lemma {:induction false} UnplannedUntouched(objects: Objects, key: Key, attempts: seq<Attempt>, keep: bool)
    requires AllPossible(attempts) && forall x :: x in attempts ==> Planned(x.job) && x.job.key != key
    requires key != OutKey(key) && !IsSubtitle(key)
    ensures SameAt(After(objects, attempts, keep), objects, key)
  {
    if attempts != [] {
      var before, x := attempts[..|attempts| - 1], attempts[|attempts| - 1];
      assert x in attempts;
      UnplannedUntouched(objects, key, before, keep);
      StemOfOut(Stem(x.job.key));
      OwnWritesOnly(After(objects, before, keep), x, keep, key);
    }
  }

  /** The file is there as listed; or its conversion is, and whatever is planned of the .mp4 of
      its stem is no longer as it was listed. */
  predicate Safe(objects: Objects, jobs: set<Job>, key: Key, etag: Etag) {
    || (key in objects && objects[key] == Object(etag, Original))
    || (key !in objects && OutKey(key) in objects && objects[OutKey(key)].body == Conversion(etag, true)
        && forall m :: m in jobs && m.key == OutKey(key) ==> objects[OutKey(key)].etag != m.etag)
  }

  /** The object under `k` is as it was, or is the new file of this attempt. */
  lemma {:induction false} PutOrSame(objects: Objects, writes: seq<Write>, k: Key, obj: Object)
    requires forall x :: x in writes && x.key == k ==> x == PutObject(k, obj)
    ensures var after := ApplyAll(objects, writes); SameAt(after, objects, k) || (k in after && after[k] == obj)
  {
    if writes != [] {
      PutOrSame(objects, writes[..|writes| - 1], k, obj);
      assert writes[|writes| - 1] in writes;
    }
  }

  lemma OutKeyIsNewOrSame(objects: Objects, a: Attempt, keep: bool)
    requires Possible(a.world, a.job.plan) && Planned(a.job) && a.job.key != a.job.plan.outKey
    ensures var after, k := Step(objects, a, keep), a.job.plan.outKey;
      SameAt(after, objects, k) || (k in after && after[k] == NewObject(a.job, a.world))
  {
    StemOfOut(Stem(a.job.key));
    var writes := Writes(objects, a.job, keep, a.world);
    SidecarWritesAreSidecars(a.job, a.world, |a.world.cues|);
    PutOrSame(objects, Take(writes, a.stop), a.job.plan.outKey, NewObject(a.job, a.world));
  }

  /** An attempt at the file itself. */
  lemma OwnAttemptIsSafe(objects: Objects, jobs: set<Job>, key: Key, etag: Etag, x: Attempt, keep: bool)
    requires Possible(x.world, x.job.plan) && Planned(x.job) && x.job.key == key && x.job.etag == etag && key != OutKey(key)
    requires forall j :: j in jobs ==> j.etag != x.world.putEtag
    requires Safe(objects, jobs, key, etag)
    ensures Safe(Step(objects, x, keep), jobs, key, etag)
  {
    if key in objects {
      OwnAttemptKeeps(objects, x, keep);
      OutKeyIsNewOrSame(objects, x, keep);
      KeyIsThereOrNot(objects, x, keep);
    } else {
      assert Writes(objects, x.job, keep, x.world) == [];
    }
  }

  /** A file's own attempt leaves it as it is, or removes it once its new file is up. */
  lemma KeyIsThereOrNot(objects: Objects, x: Attempt, keep: bool)
    requires Possible(x.world, x.job.plan) && Planned(x.job) && x.job.key != x.job.plan.outKey
    ensures var after, j := Step(objects, x, keep), x.job;
      SameAt(after, objects, j.key) || (j.key !in after && j.plan.outKey in after && after[j.plan.outKey] == NewObject(j, x.world))
  {
    var j, w := x.job, x.world;
    var writes := Writes(objects, j, keep, w);
    WritesInOrder(objects, j, keep, w);
    SidecarWritesAreSidecars(j, w, |w.cues|);
    if writes != [] {
      var tail: seq<Write> :| writes == Front(j, w) + tail && Tail(j, w, tail);
      RemovedLast(objects, x, Front(j, w), tail);
    }
  }

  lemma RemovedLast(objects: Objects, x: Attempt, front: seq<Write>, tail: seq<Write>)
    requires Possible(x.world, x.job.plan) && Planned(x.job) && x.job.key != x.job.plan.outKey
    requires Tail(x.job, x.world, tail) && forall y :: y in front ==> y.key in x.job.plan.sidecars
    ensures var after, j := ApplyAll(objects, Take(front + tail, x.stop)), x.job;
      SameAt(after, objects, j.key) || (j.key !in after && j.plan.outKey in after && after[j.plan.outKey] == NewObject(j, x.world))
  {
    var j, done := x.job, Take(front + tail, x.stop);
    if done == front + tail && |tail| == 2 {
      var put := PutObject(j.plan.outKey, NewObject(j, x.world));
      ApplyConcat(objects, front, tail);
      var was := ApplyAll(objects, front);
      assert tail[..1] == [put] && [put][..0] == [];
      assert ApplyAll(was, [put]) == Apply(was, put);
      assert ApplyAll(was, tail) == Apply(Apply(was, put), RemoveObject(j.key));
    } else {
      forall y | y in done
        ensures y.key != j.key
      {
        if y !in front {
          assert y == tail[0];
        }
      }
      ElsewhereUntouched(objects, done, j.key);
    }
  }

  /** An attempt at the .mp4 of its stem. */
  lemma Mp4AttemptIsSafe(objects: Objects, jobs: set<Job>, key: Key, etag: Etag, x: Attempt, keep: bool)
    requires Possible(x.world, x.job.plan) && Planned(x.job) && x.job in jobs && x.job.key == OutKey(key) && key != OutKey(key)
    requires !IsSubtitle(key) && Safe(objects, jobs, key, etag)
    ensures Safe(Step(objects, x, keep), jobs, key, etag)
  {
    StemOfOut(Stem(key));
    if key in objects {
      OwnWritesOnly(objects, x, keep, key);
    } else {
      assert Writes(objects, x.job, keep, x.world) == [];
    }
  }

  /** A planned file without a rival is kept through any run of attempts at the listing. */
  lemma {:induction false} KeptWithoutRival(objects: Objects, jobs: set<Job>, key: Key, etag: Etag, attempts: seq<Attempt>, keep: bool)
    requires Listing(objects, jobs) && Listed(objects, jobs, key, etag) && AttemptsAt(attempts, jobs)
    requires key != OutKey(key) && forall b :: b in jobs ==> !Rival(jobs, key, b)
    ensures Safe(After(objects, attempts, keep), jobs, key, etag)
  {
    if attempts != [] {
      var before, x := attempts[..|attempts| - 1], attempts[|attempts| - 1];
      assert x in attempts;
      KeptWithoutRival(objects, jobs, key, etag, before, keep);
      var was := After(objects, before, keep);
      assert !Rival(jobs, key, x.job);
      if x.job.key == key {
        OwnAttemptIsSafe(was, jobs, key, etag, x, keep);
      } else if x.job.key == OutKey(key) {
        Mp4AttemptIsSafe(was, jobs, key, etag, x, keep);
      } else {
        OthersUntouched(was, x, keep, key);
        StemOfOut(Stem(key));
        OthersUntouched(was, x, keep, OutKey(key));
      }
    }
  }

  /** The condition. */
  predicate InDanger(jobs: set<Job>, key: Key, keep: bool) {
    (exists b :: b in jobs && Rival(jobs, key, b)) && (key == OutKey(key) || (!keep && IsPlanned(jobs, key)))
  }

  lemma OutOfDangerIsKept(objects: Objects, jobs: set<Job>, key: Key, etag: Etag, attempts: seq<Attempt>, keep: bool)
    requires Listing(objects, jobs) && Listed(objects, jobs, key, etag) && AttemptsAt(attempts, jobs) && !InDanger(jobs, key, keep)
    ensures Kept(After(objects, attempts, keep), key, etag)
  {
    if key == OutKey(key) {
      assert forall b :: b in jobs ==> !Rival(jobs, key, b);
      EveryFileIsKept(objects, key, etag, attempts, keep);
    } else if forall b :: b in jobs ==> !Rival(jobs, key, b) {
      KeptWithoutRival(objects, jobs, key, etag, attempts, keep);
    } else if keep {
      KeepingLeavesOriginals(objects, key, attempts);
    } else {
      UnplannedUntouched(objects, key, attempts, keep);
    }
  }

  predicate Longer(e: Etag, jobs: set<Job>) {
    forall j :: j in jobs ==> |j.etag| < |e|
  }

  /** There is always an etag that no job has. */
  lemma {:induction false} ALongerEtag(jobs: set<Job>) returns (e: Etag)
    ensures Longer(e, jobs)
  {
    e := "";
    if jobs != {} {
      var k :| k in jobs;
      var rest := jobs - {k};
      var shorter := ALongerEtag(rest);
      e := shorter + k.etag + "x";
      assert |e| == |shorter| + |k.etag| + 1;
      forall j | j in jobs
        ensures |j.etag| < |e|
      {
        assert j == k || j in rest;
      }
    }
  }

  lemma InDangerIsLost(objects: Objects, jobs: set<Job>, key: Key, etag: Etag, keep: bool, new_: Etag)
    requires Listing(objects, jobs) && Listed(objects, jobs, key, etag) && InDanger(jobs, key, keep)
    requires forall j :: j in jobs ==> j.etag != new_
    ensures exists attempts: seq<Attempt> :: AttemptsAt(attempts, jobs) && !Kept(After(objects, attempts, keep), key, etag)
  {
    var b :| b in jobs && Rival(jobs, key, b);
    if key == OutKey(key) {
      var attempts := [WellAttempt(b, new_)];
      OverwrittenBy(objects, key, etag, b, keep, new_);
      OneAttempt(objects, attempts[0], keep);
      assert AttemptsAt(attempts, jobs) && !Kept(After(objects, attempts, keep), key, etag);
    } else {
      var a :| a in jobs && a.key == key;
      var attempts := BothWell(a, b, new_);
      LostBetween(objects, a, b, keep, new_);
      assert AttemptsAt(attempts, jobs) && !Kept(After(objects, attempts, keep), key, etag);
    }
  }

  lemma OneAttempt(objects: Objects, x: Attempt, keep: bool)
    requires Possible(x.world, x.job.plan)
    ensures After(objects, [x], keep) == Step(objects, x, keep)
  {
    assert [x][..0] == [];
  }

  /** Exactly which files of a listing are in danger: some run of attempts at the planned ones
      loses the file if and only if another planned file of its stem is not itself the .mp4, and
      the file is, or is planned with originals not kept. */
  lemma LostExactly(objects: Objects, jobs: set<Job>, key: Key, etag: Etag, keep: bool)
    requires Listing(objects, jobs) && Listed(objects, jobs, key, etag)
    ensures (exists attempts: seq<Attempt> :: AttemptsAt(attempts, jobs) && !Kept(After(objects, attempts, keep), key, etag))
      <==> InDanger(jobs, key, keep)
  {
    if InDanger(jobs, key, keep) {
      var new_ := ALongerEtag(jobs);
      InDangerIsLost(objects, jobs, key, etag, keep, new_);
    } else {
      forall attempts: seq<Attempt> | AttemptsAt(attempts, jobs)
        ensures Kept(After(objects, attempts, keep), key, etag)
      {
        OutOfDangerIsKept(objects, jobs, key, etag, attempts, keep);
      }
    }
  }

  lemma TwoAttempts(objects: Objects, first: Attempt, second: Attempt, keep: bool)
    requires AllPossible([first, second])
    ensures var between := (assert first in [first, second]; Step(objects, first, keep));
      After(objects, [first, second], keep) == (assert second in [first, second]; Step(between, second, keep))
  {
    assert [first, second][..1] == [first];
    assert [first][..0] == [];
    assert After(objects, [first], keep) == Step(After(objects, [], keep), first, keep);
  }

  lemma AllWellWritesFit(objects: Objects, j: Job, keep: bool, stop: nat, etag: Etag)
    requires stop >= |j.plan.sidecars| + 2
    ensures stop >= |Writes(objects, j, keep, AllWell(j.plan, etag))|
  {
    SidecarWritesShort(j, AllWell(j.plan, etag), |j.plan.sidecars|);
  }

  lemma {:induction false} SidecarWritesShort(j: Job, w: World, n: nat)
    requires Possible(w, j.plan) && n <= |w.cues|
    ensures |SidecarWrites(j, w, n)| <= n
  {
    if n > 0 {
      SidecarWritesShort(j, w, n - 1);
    }
  }

  // ── pass after pass ───────────────────────────────────────────────────

  /** The listing no longer describes the object. */
  predicate Stale(objects: Objects, key: Key, etag: Etag) {
    key !in objects || objects[key].etag != etag
  }

  /** Exactly which finished attempts leave the listing stale: one that replaced the file in
      place, or one that uploaded beside it, meant to remove it and did. Any other (the
      original kept, or a removal refused) leaves the file to be converted again. */
  lemma WhatMakesItStale(objects: Objects, j: Job, keep: bool, w: World, stop: nat)
    requires Possible(w, j.plan) && Planned(j)
    requires Guard(objects, j, w) && stop >= |Writes(objects, j, keep, w)|
    ensures Stale(Step(objects, Attempt(j, w, stop), keep), j.key, j.etag) <==>
      && Reads(j, w) && ReadyToMake(j, w) && Made(j, w)
      && (if j.plan.outKey == j.key then w.put != Refused && w.putEtag != j.etag
          else w.put == Done && !keep && w.remove != Refused)
  {
    SidecarWritesAreSidecars(j, w, |w.cues|);
    ElsewhereUntouched(objects, Front(j, w), j.key);
    if Reads(j, w) {
      var tail := if ReadyToMake(j, w) && Made(j, w) then Replacing(j, keep, w) else [];
      assert Writes(objects, j, keep, w) == Front(j, w) + tail;
      ApplyConcat(objects, Front(j, w), tail);
      if tail != [] {
        StaleAfterReplacing(ApplyAll(objects, Front(j, w)), j, keep, w);
      }
    }
  }

  lemma StaleAfterReplacing(objects: Objects, j: Job, keep: bool, w: World)
    requires !Stale(objects, j.key, j.etag)
    ensures Stale(ApplyAll(objects, Replacing(j, keep, w)), j.key, j.etag) <==>
      if j.plan.outKey == j.key then w.put != Refused && w.putEtag != j.etag
      else w.put == Done && !keep && w.remove != Refused
  {
    var tail, put := Replacing(j, keep, w), PutObject(j.plan.outKey, NewObject(j, w));
    if tail != [] {
      assert tail == [put] || tail == [put, RemoveObject(j.key)];
      assert tail[..1] == [put];
      assert [put][..0] == [];
      assert ApplyAll(objects, [put]) == Apply(objects, put);
    }
  }

  /** Nothing written to `key` can be taken for what was listed there: a put under it carries
      an etag of its own. */
  ghost predicate NewEtags(attempts: seq<Attempt>, key: Key, etag: Etag) {
    forall a :: a in attempts ==> Planned(a.job) && (a.job.plan.outKey == key ==> a.world.putEtag != etag)
  }

  lemma StaysStale(objects: Objects, a: Attempt, keep: bool, key: Key, etag: Etag)
    requires Possible(a.world, a.job.plan) && NewEtags([a], key, etag)
    requires Stale(objects, key, etag) && !IsSubtitle(key)
    ensures Stale(Step(objects, a, keep), key, etag)
  {
    assert a in [a];
    WritesWhere(objects, a.job, keep, a.world);
    assert forall x :: OfConversion(x, a.job, a.world) && x.PutObject? && x.key == key ==> x.obj.etag != etag;
    StaleUnderWrites(objects, Take(Writes(objects, a.job, keep, a.world), a.stop), key, etag);
  }

  lemma {:induction false} StaleUnderWrites(objects: Objects, writes: seq<Write>, key: Key, etag: Etag)
    requires Stale(objects, key, etag)
    requires forall x :: x in writes && x.PutObject? && x.key == key ==> x.obj.etag != etag
    ensures Stale(ApplyAll(objects, writes), key, etag)
  {
    if writes != [] {
      StaleUnderWrites(objects, writes[..|writes| - 1], key, etag);
      assert writes[|writes| - 1] in writes;
    }
  }

  lemma {:induction false} StaleForGood(objects: Objects, attempts: seq<Attempt>, keep: bool, key: Key, etag: Etag)
    requires AllPossible(attempts) && NewEtags(attempts, key, etag)
    requires Stale(objects, key, etag) && !IsSubtitle(key)
    ensures Stale(After(objects, attempts, keep), key, etag)
  {
    if attempts != [] {
      StaleForGood(objects, attempts[..|attempts| - 1], keep, key, etag);
      assert attempts[|attempts| - 1] in attempts;
      StaysStale(After(objects, attempts[..|attempts| - 1], keep), attempts[|attempts| - 1], keep, key, etag);
    }
  }

  /** A file converted and its original removed or replaced is never converted again from the
      listing it was planned from: whatever other attempts come in between, and however many
      passes go by, its later attempts write nothing at all. */
  lemma NeverConvertedAgain(objects: Objects, j: Job, w: World, between: seq<Attempt>, later: World, keep: bool, stop: nat)
    requires Possible(w, j.plan) && Possible(later, j.plan) && Planned(j)
    requires AllPossible(between) && NewEtags(between, j.key, j.etag)
    requires Guard(objects, j, w) && stop >= |Writes(objects, j, keep, w)|
    requires Reads(j, w) && ReadyToMake(j, w) && Made(j, w) && w.put == Done
    requires if j.plan.outKey == j.key then w.putEtag != j.etag else !keep && w.remove != Refused
    ensures var after := After(Step(objects, Attempt(j, w, stop), keep), between, keep);
      && !Guard(after, j, later)
      && Writes(after, j, keep, later) == []
  {
    WhatMakesItStale(objects, j, keep, w, stop);
    StaleForGood(Step(objects, Attempt(j, w, stop), keep), between, keep, j.key, j.etag);
  }

  /** The tools ran, and every picture track read into a cue at least. */
  predicate EveryTrackRead(w: World) {
    w.extract && w.split && forall i :: 0 <= i < |w.cues| ==> w.cues[i].Some? && w.cues[i].value >= 1
  }

  /** These are the sidecars of the first `n` tracks, in track order. */
  predicate FirstSidecars(j: Job, writes: seq<Write>, n: nat) {
    && |writes| == n <= |j.plan.sidecars|
    && forall i :: 0 <= i < n ==> writes[i] == PutObject(j.plan.sidecars[i], Object("", Subtitles(j.etag, i)))
  }

  lemma {:induction false} SidecarsWhileDone(j: Job, w: World, n: nat)
    requires Possible(w, j.plan) && n <= |w.cues| && forall i :: 0 <= i < n ==> w.sidecarPut[i] == Done
    ensures FirstSidecars(j, SidecarWrites(j, w, n), n)
  {
    if n > 0 {
      SidecarsWhileDone(j, w, n - 1);
      assert PutBefore(w, n - 1);
    }
  }

  /** The sidecars go up in track order, each of its own track; the first that is not reported up
      ends it, and is there itself when only the report failed. */
  lemma SidecarsExactly(j: Job, w: World, k: nat, n: nat)
    requires Possible(w, j.plan) && k <= n <= |w.cues|
    requires forall i :: 0 <= i < k ==> w.sidecarPut[i] == Done
    requires k < n ==> w.sidecarPut[k] != Done
    ensures FirstSidecars(j, SidecarWrites(j, w, n), if k < n && w.sidecarPut[k] == DoneButReported then k + 1 else k)
  {
    SidecarsWhileDone(j, w, k);
    if k < n {
      assert PutBefore(w, k) && !PutBefore(w, k + 1);
      NoneAfterAFailure(j, w, k + 1, n);
    }
  }

  /** Everything up to the upload has gone well: the file is still the one listed, its tools and
      tracks read, its sidecars are up, some chain of the plan wrote a file with none cancelled
      before it, and the file was probed, verified and measured. */
  predicate WentWell(objects: Objects, j: Job, w: World)
    requires Possible(w, j.plan)
  {
    && w.stat && j.key in objects && objects[j.key].etag == j.etag && w.dir && w.presign
    && (j.plan.sidecars != [] ==> EveryTrackRead(w) && forall n :: 0 <= n < |w.sidecarPut| ==> w.sidecarPut[n] == Done)
    && (exists i :: 0 <= i < Chains(j.plan) && w.chains[i].ok && forall k :: 0 <= k < i ==> !w.chains[k].ok && !w.chains[k].cancelled)
    && w.probe && w.verify && w.outStat
  }

  lemma WentWellIsMade(objects: Objects, j: Job, w: World)
    requires Possible(w, j.plan)
    ensures WentWell(objects, j, w) <==> Guard(objects, j, w) && Reads(j, w) && ReadyToMake(j, w) && Made(j, w)
  {
    if Made(j, w) {
      FallsBackExactly(w, j.plan, Succeeds(w, Chains(j.plan), 0).value);
    }
    if i: nat :| i < Chains(j.plan) && w.chains[i].ok && forall k :: 0 <= k < i ==> !w.chains[k].ok && !w.chains[k].cancelled {
      FallsBackExactly(w, j.plan, i);
    }
  }

  /** The new file is written exactly when everything went well and the bucket took it; the original
      is removed exactly when the bucket said so too, it is another object, originals are not kept
      and the bucket took the removal. */
  lemma UploadsExactly(objects: Objects, j: Job, keep: bool, w: World)
    requires Possible(w, j.plan)
    ensures PutObject(j.plan.outKey, Object(w.putEtag, Conversion(j.etag, true))) in Writes(objects, j, keep, w) <==>
      WentWell(objects, j, w) && w.put != Refused
    ensures RemoveObject(j.key) in Writes(objects, j, keep, w) <==>
      WentWell(objects, j, w) && w.put == Done && j.key != j.plan.outKey && !keep && w.remove != Refused
  {
    WentWellIsMade(objects, j, w);
    SidecarWritesAreSidecars(j, w, |w.cues|);
    if Guard(objects, j, w) && Reads(j, w) {
      var tail := if ReadyToMake(j, w) && Made(j, w) then Replacing(j, keep, w) else [];
      assert Writes(objects, j, keep, w) == Front(j, w) + tail;
      assert forall x :: x in Front(j, w) ==> x.PutObject? && x.obj.body.Subtitles?;
    }
  }

  /** No sidecar of a file is written unless all its picture tracks read, and its original goes
      only after its new file is up. */
  lemma NoHalfASetOfSubtitles(objects: Objects, j: Job, keep: bool, w: World, i: nat)
    requires Possible(w, j.plan) && Planned(j) && i < |Writes(objects, j, keep, w)|
    ensures j.key in objects && objects[j.key].etag == j.etag
    ensures j.plan.sidecars != [] ==> EveryTrackRead(w)
    ensures var x := Writes(objects, j, keep, w)[i];
      && (x.PutObject? && x.obj.body.Subtitles? ==> EveryTrackRead(w) && x.key in j.plan.sidecars)
      && (!(x.PutObject? && x.obj.body.Subtitles?) && j.plan.sidecars != [] ==> forall n :: 0 <= n < |w.sidecarPut| ==> w.sidecarPut[n] == Done)
      && (x.RemoveObject? ==> x.key == j.key && !keep && i > 0)
      && (x.RemoveObject? ==> Writes(objects, j, keep, w)[i - 1] == PutObject(j.plan.outKey, NewObject(j, w)))
  {
    var tail := if ReadyToMake(j, w) && Made(j, w) then Replacing(j, keep, w) else [];
    assert Writes(objects, j, keep, w) == Front(j, w) + tail;
    if i < |Front(j, w)| {
      SidecarWritesAreSidecars(j, w, |w.cues|);
      assert Writes(objects, j, keep, w)[i] in Front(j, w);
    } else {
      assert Writes(objects, j, keep, w)[i] == tail[i - |Front(j, w)|];
      ReplacingInOrder(j, keep, w, i - |Front(j, w)|);
    }
  }

  lemma ReplacingInOrder(j: Job, keep: bool, w: World, i: nat)
    requires i < |Replacing(j, keep, w)|
    ensures var x := Replacing(j, keep, w)[i];
      && (x.PutObject? ==> !x.obj.body.Subtitles?)
      && (x.RemoveObject? ==> x.key == j.key && !keep && i == 1 && Replacing(j, keep, w)[0] == PutObject(j.plan.outKey, NewObject(j, w)))
  {
  }
}
