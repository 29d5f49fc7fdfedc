/** The converter's bucket protocol (cmd/converter/worker.go): what one file's conversion
    writes, whatever step of it fails or is the last executed, and what pass after pass makes
    of a listing that has gone stale. */
module Converter {
  import opened Options
  import opened StableSort

  type Key = string
  type Etag = string

  /** What an object holds: bytes nobody here made, a conversion of the bytes of some etag
      (a good one or not), or a subtitle track read out of them. */
  datatype Body = Original | Conversion(of: Etag, good: bool) | Subtitles(of: Etag, track: nat)

  datatype Object = Object(etag: Etag, body: Body)

  type Objects = map<Key, Object>

  datatype Action = Remux | Encode

  datatype Plan = Plan(action: Action, outKey: Key, videoCopy: bool, hwDecode: bool, sidecars: seq<Key>)

  datatype Job = Job(key: Key, etag: Etag, size: nat, plan: Plan)

  // ── the order of the work ─────────────────────────────────────────────

  /** Remuxes first, and inside each kind the smaller file first. */
  predicate Sooner(a: Job, b: Job) {
    if a.plan.action != b.plan.action then a.plan.action == Remux else a.size < b.size
  }

  /** A row of the library, and what the planner makes of it: None for a skip. */
  datatype Item = Item(key: Key, etag: Etag, size: nat, plan: Option<Plan>)

  function JobOf(it: Item): Job
    requires it.plan.Some?
  {
    Job(it.key, it.etag, it.size, it.plan.value)
  }

  function JobsOf(items: seq<Item>): seq<Job> {
    if items == [] then []
    else JobsOf(items[..|items| - 1]) + if items[|items| - 1].plan.Some? then [JobOf(items[|items| - 1])] else []
  }

  function IsPlanned(): Item -> bool {
    (it: Item) => it.plan.Some?
  }

  /** The work is of the rows that are not skipped, as the library has them. */
  lemma {:induction false} JobsExactly(items: seq<Item>)
    ensures var planned := Filter(items, IsPlanned());
      && |JobsOf(items)| == |planned|
      && forall i :: 0 <= i < |planned| ==>
           planned[i].plan.Some? && JobsOf(items)[i] == Job(planned[i].key, planned[i].etag, planned[i].size, planned[i].plan.value)
  {
    if items != [] {
      var rest, last := items[..|items| - 1], items[|items| - 1];
      assert items == rest + [last];
      JobsExactly(rest);
      FilterConcat(rest, [last], IsPlanned());
      assert Filter([last], IsPlanned()) == if last.plan.Some? then [last] else [];
      FilterHolds(items, IsPlanned());
    }
  }

  method PlanWork(items: seq<Item>) returns (jobs: seq<Job>)
    ensures jobs == Sort(JobsOf(items), Sooner)
  {
    jobs := [];
    for i := 0 to |items|
      invariant jobs == JobsOf(items[..i])
    {
      assert items[..i + 1][..i] == items[..i];
      if items[i].plan.Some? {
        jobs := jobs + [JobOf(items[i])];
      }
    }
    assert items[..|items|] == items;
    jobs := Sort(jobs, Sooner);
  }

  /** The order of a pass: nothing lost, every remux before every encode, smaller before larger,
      and equals as the listing had them. */
  lemma WorkInOrder(jobs: seq<Job>, like: Job)
    ensures multiset(Sort(jobs, Sooner)) == multiset(jobs)
    ensures forall i, j :: 0 <= i < j < |jobs| ==>
      var sorted := Sort(jobs, Sooner);
      && |sorted| == |jobs|
      && (sorted[j].plan.action == Remux ==> sorted[i].plan.action == Remux)
      && (sorted[i].plan.action == sorted[j].plan.action ==> sorted[i].size <= sorted[j].size)
    ensures var same := (j: Job) => j.plan.action == like.plan.action && j.size == like.size;
      Filter(Sort(jobs, Sooner), same) == Filter(jobs, same)
  {
    SortPermutes(jobs, Sooner);
    SortOrders(jobs, Sooner);
    assert Ordered(Sort(jobs, Sooner), Sooner);
    SortStable(jobs, Sooner, (j: Job) => j.plan.action == like.plan.action && j.size == like.size);
  }

  // ── the world one file meets ──────────────────────────────────────────

  /** How a write to the bucket can go: done, refused, or done and reported as failed. */
  datatype Outcome = Done | Refused | DoneButReported

  /** One run of ffmpeg: whether it said it succeeded, whether what it wrote is any good, and
      whether the pass was cancelled by then. */
  datatype Chain = Chain(ok: bool, good: bool, cancelled: bool)

  /** Everything outside the worker that one conversion meets, in the order it meets it.
      `cues` is what each picture track read into, absent where a tool failed on it. */
  datatype World = World(
    stat: bool, dir: bool, presign: bool, extract: bool, split: bool, cues: seq<Option<nat>>, sidecarPut: seq<Outcome>,
    chains: seq<Chain>, probe: bool, verify: bool, outStat: bool, put: Outcome, putEtag: Etag, remove: Outcome)

  /** What a world can be: as many answers as questions, and a verification that only ever
      passes a kept file that is good. */
  predicate Possible(w: World, p: Plan) {
    && |w.cues| == |w.sidecarPut| == |p.sidecars| && |w.chains| == 3
    && (w.verify ==> var kept := Succeeds(w, Chains(p), 0); kept.Some? ==> w.chains[kept.value].good)
  }

  datatype Write = PutObject(key: Key, obj: Object) | RemoveObject(key: Key)

  function Apply(objects: Objects, w: Write): Objects {
    match w
    case PutObject(key, obj) => objects[key := obj]
    case RemoveObject(key) => objects - {key}
  }

  function ApplyAll(objects: Objects, writes: seq<Write>): Objects {
    if writes == [] then objects else Apply(ApplyAll(objects, writes[..|writes| - 1]), writes[|writes| - 1])
  }

  // ── what the steps come to ────────────────────────────────────────────

  /** Every picture track read into at least one cue. */
  predicate AllRead(w: World) {
    w.extract && w.split && forall i :: 0 <= i < |w.cues| ==> w.cues[i].Some? && w.cues[i].value > 0
  }

  function Written(key: Key, obj: Object, outcome: Outcome): seq<Write> {
    if outcome == Refused then [] else [PutObject(key, obj)]
  }

  function Removed(key: Key, outcome: Outcome): seq<Write> {
    if outcome == Refused then [] else [RemoveObject(key)]
  }

  predicate PutBefore(w: World, n: nat)
    requires n <= |w.sidecarPut|
  {
    forall i :: 0 <= i < n ==> w.sidecarPut[i] == Done
  }

  /** What putting one sidecar after the other comes to among the first `n` tracks: a put is
      tried only when all before it were done. */
  function SidecarWrites(j: Job, w: World, n: nat): seq<Write>
    requires Possible(w, j.plan) && n <= |w.cues|
  {
    if n == 0 then []
    else
      SidecarWrites(j, w, n - 1) +
      if PutBefore(w, n - 1) then Written(j.plan.sidecars[n - 1], Object("", Subtitles(j.etag, n - 1)), w.sidecarPut[n - 1])
      else []
  }

  lemma {:induction false} NoneAfterAFailure(j: Job, w: World, n: nat, m: nat)
    requires Possible(w, j.plan) && n <= m <= |w.cues|
    requires n == m || !PutBefore(w, n)
    ensures SidecarWrites(j, w, m) == SidecarWrites(j, w, n)
  {
    if n < m {
      NoneAfterAFailure(j, w, n, m - 1);
    }
  }

  predicate SidecarsUp(w: World) {
    forall n :: 0 <= n < |w.sidecarPut| ==> w.sidecarPut[n] == Done
  }

  /** The chains a plan may be run on. */
  function Chains(p: Plan): (n: nat)
    ensures n <= 3
  {
    if p.videoCopy then 1 else if p.hwDecode then 3 else 2
  }

  /** The chain whose file is kept: the first that succeeds, none having been cancelled before. */
  function Succeeds(w: World, n: nat, i: nat): (r: Option<nat>)
    requires n <= |w.chains| && i <= n
    ensures r.Some? ==> r.value < n && w.chains[r.value].ok
    decreases n - i
  {
    if i == n then None
    else if w.chains[i].ok then Some(i)
    else if w.chains[i].cancelled then None
    else Succeeds(w, n, i + 1)
  }

  /** Which chain's file is kept, said of the plan itself: a copied picture has one chain, an encode
      the cores' two and the card's three; a chain runs when all before it failed and none was
      cancelled, and the first to succeed is it. */
  lemma FallsBackExactly(w: World, p: Plan, i: nat)
    requires |w.chains| == 3
    ensures Succeeds(w, Chains(p), 0) == Some(i) <==>
      && i < (if p.videoCopy then 1 else if p.hwDecode then 3 else 2)
      && w.chains[i].ok && forall k :: 0 <= k < i ==> !w.chains[k].ok && !w.chains[k].cancelled
  {
    var n := Chains(p);
    assert Succeeds(w, n, n) == None;
    if n > 2 { assert Succeeds(w, n, 2) == if w.chains[2].ok then Some(2) else None; }
    if n > 1 { assert Succeeds(w, n, 1) == if w.chains[1].ok then Some(1) else if w.chains[1].cancelled then None else Succeeds(w, n, 2); }
  }

  predicate Guard(objects: Objects, j: Job, w: World) {
    w.stat && j.key in objects && objects[j.key].etag == j.etag
  }

  predicate Reads(j: Job, w: World) {
    w.dir && w.presign && (j.plan.sidecars != [] ==> AllRead(w))
  }

  /** The sidecars, if there are any to be, are up. */
  predicate ReadyToMake(j: Job, w: World) {
    j.plan.sidecars != [] ==> SidecarsUp(w)
  }

  /** A chain wrote a file, and the file is what the plan meant it to be. */
  predicate Made(j: Job, w: World)
    requires Possible(w, j.plan)
  {
    Succeeds(w, Chains(j.plan), 0).Some? && w.probe && w.verify && w.outStat
  }

  function NewObject(j: Job, w: World): Object {
    Object(w.putEtag, Conversion(j.etag, true))
  }

  /** The upload, and after it the removal. */
  function Replacing(j: Job, keep: bool, w: World): seq<Write> {
    Written(j.plan.outKey, NewObject(j, w), w.put) +
    if w.put == Done && j.plan.outKey != j.key && !keep then Removed(j.key, w.remove) else []
  }

  /** The writes a conversion makes, in the order it makes them. */
  function Writes(objects: Objects, j: Job, keep: bool, w: World): seq<Write>
    requires Possible(w, j.plan)
  {
    if !Guard(objects, j, w) || !Reads(j, w) then [] else
    (if j.plan.sidecars != [] then SidecarWrites(j, w, |w.cues|) else []) +
    if ReadyToMake(j, w) && Made(j, w) then Replacing(j, keep, w) else []
  }

  // ── the worker ────────────────────────────────────────────────────────

  /** The bucket and the log of what has been written to it. */
  class Bucket {
    var objects: Objects
    ghost const initial: Objects
    ghost var log: seq<Write>

    ghost predicate Valid()
      reads this
    {
      objects == ApplyAll(initial, log)
    }

    constructor (found: Objects)
      ensures Valid() && initial == found && log == []
    {
      objects, initial, log := found, found, [];
    }

    method Put(key: Key, obj: Object, outcome: Outcome) returns (ok: bool)
      requires Valid()
      modifies this
      ensures Valid() && log == old(log) + Written(key, obj, outcome)
      ensures ok == (outcome == Done)
    {
      if outcome != Refused {
        objects := objects[key := obj];
        log := log + [PutObject(key, obj)];
      }
      return outcome == Done;
    }

    method Remove(key: Key, outcome: Outcome) returns (ok: bool)
      requires Valid()
      modifies this
      ensures Valid() && log == old(log) + Removed(key, outcome)
      ensures ok == (outcome == Done)
    {
      if outcome != Refused {
        objects := objects - {key};
        log := log + [RemoveObject(key)];
      }
      return outcome == Done;
    }

    /** The sidecars go up one after the other, and stop at the first that will not. */
    method PutSidecars(j: Job, w: World) returns (ok: bool)
      requires Valid() && Possible(w, j.plan)
      modifies this
      ensures Valid() && log == old(log) + SidecarWrites(j, w, |w.cues|)
      ensures ok == SidecarsUp(w)
    {
      for n := 0 to |w.cues|
        invariant Valid() && log == old(log) + SidecarWrites(j, w, n)
        invariant PutBefore(w, n)
      {
        ghost var now := Written(j.plan.sidecars[n], Object("", Subtitles(j.etag, n)), w.sidecarPut[n]);
        assert SidecarWrites(j, w, n + 1) == SidecarWrites(j, w, n) + now;
        assert (old(log) + SidecarWrites(j, w, n)) + now == old(log) + SidecarWrites(j, w, n + 1);
        var put := Put(j.plan.sidecars[n], Object("", Subtitles(j.etag, n)), w.sidecarPut[n]);
        if !put {
          NoneAfterAFailure(j, w, n + 1, |w.cues|);
          return false;
        }
      }
      return true;
    }

    /** ocr: all the sidecars or none of them. A track without a cue in it stops the uploads before
        the first. */
    method Ocr(j: Job, w: World) returns (ok: bool)
      requires Valid() && Possible(w, j.plan)
      modifies this
      ensures Valid() && log == old(log) + if AllRead(w) then SidecarWrites(j, w, |w.cues|) else []
      ensures ok == (AllRead(w) && SidecarsUp(w))
    {
      var read := ReadTracks(w);
      if !read { return false; }
      ok := PutSidecars(j, w);
    }

    /** The second half of convert: the new file made, checked, uploaded, and the old one removed. */
    method Replace(j: Job, keep: bool, w: World) returns (changed: bool)
      requires Valid() && Possible(w, j.plan)
      modifies this
      ensures Valid() && log == old(log) + if Made(j, w) then Replacing(j, keep, w) else []
      ensures changed == (Made(j, w) && w.put == Done)
    {
      var chain := Ffmpeg(j.plan, w);
      if chain.None? || !w.probe || !w.verify || !w.outStat { return false; }
      var put := Put(j.plan.outKey, Object(w.putEtag, Conversion(j.etag, w.chains[chain.value].good)), w.put);
      if put && j.plan.outKey != j.key && !keep {
        var removed := Remove(j.key, w.remove);
      }
      return put;
    }

    /** convert: one file, every failure its own, and whether the bucket changed. */
    method Convert(j: Job, keep: bool, w: World) returns (changed: bool)
      requires Valid() && Possible(w, j.plan)
      modifies this
      ensures Valid() && log == old(log) + Writes(old(objects), j, keep, w)
      ensures changed == (Guard(old(objects), j, w) && Reads(j, w) && ReadyToMake(j, w) && Made(j, w) && w.put == Done)
    {
      if !w.stat || j.key !in objects { return false; }
      if objects[j.key].etag != j.etag { return false; }
      if !w.dir || !w.presign { return false; }
      ghost var was := log;
      if |j.plan.sidecars| > 0 {
        var read := Ocr(j, w);
        if !read {
          WritesAre(old(objects), j, keep, w);
          return false;
        }
      }
      ghost var front := if j.plan.sidecars != [] then SidecarWrites(j, w, |w.cues|) else [];
      assert log == was + front;
      changed := Replace(j, keep, w);
      WritesAre(old(objects), j, keep, w);
      Regroup(was, front, if Made(j, w) then Replacing(j, keep, w) else []);
    }
  }

  /** A conversion's writes by how far it gets: none, its sidecars, or those and the replacing. */
  lemma WritesAre(objects: Objects, j: Job, keep: bool, w: World)
    requires Possible(w, j.plan)
    ensures var front := if j.plan.sidecars != [] then SidecarWrites(j, w, |w.cues|) else [];
      && (!Guard(objects, j, w) || !Reads(j, w) ==> Writes(objects, j, keep, w) == [])
      && (Guard(objects, j, w) && Reads(j, w) && !(ReadyToMake(j, w) && Made(j, w)) ==> Writes(objects, j, keep, w) == front)
      && (Guard(objects, j, w) && Reads(j, w) && ReadyToMake(j, w) && Made(j, w) ==>
            Writes(objects, j, keep, w) == front + Replacing(j, keep, w))
  {
  }

  lemma Regroup(a: seq<Write>, b: seq<Write>, c: seq<Write>)
    ensures (a + b) + c == a + (b + c)
  {
  }

  /** The tools run over each picture track in turn. */
  method ReadTracks(w: World) returns (read: bool)
    ensures read == AllRead(w)
  {
    if !w.extract || !w.split { return false; }
    for n := 0 to |w.cues|
      invariant forall i :: 0 <= i < n ==> w.cues[i].Some? && w.cues[i].value > 0
    {
      if w.cues[n].None? || w.cues[n].value == 0 { return false; }
    }
    return true;
  }

  /** ffmpeg: the card first, and each chain after it only when the one before failed. */
  method Ffmpeg(p: Plan, w: World) returns (chain: Option<nat>)
    requires Possible(w, p)
    ensures chain == Succeeds(w, Chains(p), 0)
  {
    var n := Chains(p);
    for i := 0 to n
      invariant Succeeds(w, n, i) == Succeeds(w, n, 0)
    {
      if w.chains[i].ok { return Some(i); }
      if w.chains[i].cancelled { return None; }
    }
    return None;
  }
}
