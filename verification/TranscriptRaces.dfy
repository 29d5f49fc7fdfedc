/** Queue reads that overlap: looking at a lease and giving one are two critical sections
    (cmd/server/transcripts.go handleTranscriptQueue, held and hand), and other readers, sweeps
    and deliveries come between them. */
module TranscriptRaces {
  import opened TranscriptQueue

  type ReaderId = nat

  /** One queue read under way: the backlog it walks, where it has got to, what it has listed,
      and whether it has listed the file it is at and not yet leased it. */
  datatype Reader = Reader(backlog: seq<Item>, limit: nat, now: int, at: nat, listed: seq<Item>, handing: bool)

  datatype Event = Looked(q: ReaderId, id: ItemId) | Handed(q: ReaderId, id: ItemId)

  datatype State = State(leases: map<ItemId, int>, readers: map<ReaderId, Reader>, log: seq<Event>)

  datatype Action =
    | Begin(q: ReaderId, backlog: seq<Item>, limit: nat, now: int)
    | Turn(q: ReaderId)
    | Swept(now: int)
    | Delivered(id: ItemId)

  /** One reader's next locked call, or its way past a file that needs none. */
  function Next(s: State, q: ReaderId): State
    requires q in s.readers
  {
    var r := s.readers[q];
    if r.at >= |r.backlog| then s else
    var it := r.backlog[r.at];
    if r.handing then
      State(s.leases[it.id := r.now], s.readers[q := r.(handing := false, at := r.at + 1)], s.log + [Handed(q, it.id)])
    else if |r.listed| >= r.limit then
      s.(readers := s.readers[q := r.(at := r.at + 1)])
    else if Held(s.leases, it.id, r.now) then
      State(s.leases, s.readers[q := r.(at := r.at + 1)], s.log + [Looked(q, it.id)])
    else
      State(s.leases, s.readers[q := r.(listed := r.listed + [it], handing := true)], s.log + [Looked(q, it.id)])
  }

  function Step(s: State, a: Action): State {
    match a
    case Begin(q, backlog, limit, now) =>
      if q in s.readers then s else s.(readers := s.readers[q := Reader(backlog, limit, now, 0, [], false)])
    case Turn(q) => if q in s.readers then Next(s, q) else s
    case Swept(now) => s.(leases := Sweep(s.leases, now))
    case Delivered(id) => s.(leases := s.leases - {id})
  }

  function Run(s: State, actions: seq<Action>): State {
    if actions == [] then s else Step(Run(s, actions[..|actions| - 1]), actions[|actions| - 1])
  }

  // ── who lists a file ──────────────────────────────────────────────────

  predicate Lists(s: State, q: ReaderId, id: ItemId) {
    q in s.readers && exists it :: it in s.readers[q].listed && it.id == id
  }

  predicate HandedOut(log: seq<Event>, id: ItemId) {
    exists c :: 0 <= c < |log| && log[c].Handed? && log[c].id == id
  }

  /** The reader looked at the file's lease before anybody had handed the file out. */
  predicate LookedInTime(log: seq<Event>, q: ReaderId, id: ItemId) {
    exists a :: 0 <= a < |log| && log[a] == Looked(q, id) && !HandedOut(log[..a], id)
  }

  /** Every clock that is read falls inside one lease from `base`, and the file does not come
      back meanwhile. */
  predicate InWindow(a: Action, base: int, id: ItemId) {
    match a
    case Begin(_, _, _, now) => base <= now < base + LEASE_FOR
    case Swept(now) => base <= now < base + LEASE_FOR
    case Delivered(other) => other != id
    case Turn(_) => true
  }

  /** No lease of this file's is live from `base` on. */
  predicate FreeFrom(leases: map<ItemId, int>, id: ItemId, base: int) {
    id in leases ==> base - leases[id] >= LEASE_FOR
  }

  ghost predicate RaceInv(s: State, id: ItemId, base: int) {
    && (forall q :: q in s.readers ==> base <= s.readers[q].now < base + LEASE_FOR)
    && (if HandedOut(s.log, id) then id in s.leases && s.leases[id] >= base else FreeFrom(s.leases, id, base))
    && (forall q: ReaderId :: Lists(s, q, id) <==> LookedInTime(s.log, q, id))
  }

  lemma HandedOutMore(log: seq<Event>, e: Event, id: ItemId)
    ensures HandedOut(log + [e], id) <==> HandedOut(log, id) || (e.Handed? && e.id == id)
  {
    var more := log + [e];
    assert more[|log|] == e && forall c :: 0 <= c < |log| ==> more[c] == log[c];
  }

  lemma LookedInTimeMore(log: seq<Event>, e: Event, q: ReaderId, id: ItemId)
    ensures LookedInTime(log + [e], q, id) <==> LookedInTime(log, q, id) || (e == Looked(q, id) && !HandedOut(log, id))
  {
    var more := log + [e];
    assert more[|log|] == e && more[..|log|] == log;
    assert forall a :: 0 <= a < |log| ==> more[a] == log[a] && more[..a] == log[..a];
  }

  lemma NextKeepsLease(s: State, q: ReaderId, id: ItemId, base: int)
    requires RaceInv(s, id, base) && q in s.readers
    ensures var t := Next(s, q);
      if HandedOut(t.log, id) then id in t.leases && t.leases[id] >= base else FreeFrom(t.leases, id, base)
  {
    var t := Next(s, q);
    if t.log != s.log {
      HandedOutMore(s.log, t.log[|s.log|], id);
    }
  }

  lemma NextKeepsLists(s: State, q: ReaderId, p: ReaderId, id: ItemId, base: int)
    requires RaceInv(s, id, base) && q in s.readers
    ensures var t := Next(s, q); Lists(t, p, id) <==> LookedInTime(t.log, p, id)
  {
    var t, r := Next(s, q), s.readers[q];
    if t.log != s.log {
      LookedInTimeMore(s.log, t.log[|s.log|], p, id);
    }
    if p == q && t.readers[q].listed != r.listed {
      var it := r.backlog[r.at];
      assert forall x :: x in r.listed + [it] <==> x in r.listed || x == it;
    }
  }

  lemma StepKeepsRaceInv(s: State, a: Action, id: ItemId, base: int)
    requires RaceInv(s, id, base) && InWindow(a, base, id)
    ensures RaceInv(Step(s, a), id, base)
  {
    var t := Step(s, a);
    if a.Turn? && a.q in s.readers {
      NextKeepsLease(s, a.q, id, base);
      forall p: ReaderId
        ensures Lists(t, p, id) <==> LookedInTime(t.log, p, id)
      {
        NextKeepsLists(s, a.q, p, id, base);
      }
    } else {
      assert forall p: ReaderId :: Lists(t, p, id) <==> Lists(s, p, id);
    }
  }

  lemma {:induction false} RaceInvOverRuns(leases: map<ItemId, int>, actions: seq<Action>, id: ItemId, base: int)
    requires FreeFrom(leases, id, base) && forall i :: 0 <= i < |actions| ==> InWindow(actions[i], base, id)
    ensures RaceInv(Run(State(leases, map[], []), actions), id, base)
  {
    if actions != [] {
      var before := actions[..|actions| - 1];
      assert forall i :: 0 <= i < |before| ==> before[i] == actions[i];
      RaceInvOverRuns(leases, before, id, base);
      StepKeepsRaceInv(Run(State(leases, map[], []), before), actions[|actions| - 1], id, base);
    }
  }

  /** Over any number of overlapping reads inside one window, a reader lists a file that was free
      exactly when it looked before anybody handed it out: so two list it exactly when both
      looked before either handed it out. */
  lemma BothListExactly(leases: map<ItemId, int>, actions: seq<Action>, id: ItemId, base: int, p: ReaderId, q: ReaderId)
    requires FreeFrom(leases, id, base) && forall i :: 0 <= i < |actions| ==> InWindow(actions[i], base, id)
    ensures var t := Run(State(leases, map[], []), actions);
      && (Lists(t, q, id) <==> LookedInTime(t.log, q, id))
      && (Lists(t, p, id) && Lists(t, q, id) <==> LookedInTime(t.log, p, id) && LookedInTime(t.log, q, id))
  {
    RaceInvOverRuns(leases, actions, id, base);
  }

  // ── it happens ────────────────────────────────────────────────────────

  lemma RunOneMore(s: State, actions: seq<Action>, a: Action)
    ensures Run(s, actions + [a]) == Step(Run(s, actions), a)
  {
    assert (actions + [a])[..|actions|] == actions;
  }

  function TwoReads(it: Item, now: int): seq<Action> {
    [Begin(0, [it], 1, now), Begin(1, [it], 1, now), Turn(0), Turn(1), Turn(0), Turn(1)]
  }

  lemma TwoReadsStepByStep(s: State, it: Item, now: int)
    ensures Run(s, TwoReads(it, now)) ==
      Step(Step(Step(Step(Step(Step(s, Begin(0, [it], 1, now)), Begin(1, [it], 1, now)), Turn(0)), Turn(1)), Turn(0)), Turn(1))
  {
    var a, b := Begin(0, [it], 1, now), Begin(1, [it], 1, now);
    RunOneMore(s, [], a);
    RunOneMore(s, [a], b);
    RunOneMore(s, [a, b], Turn(0));
    RunOneMore(s, [a, b, Turn(0)], Turn(1));
    RunOneMore(s, [a, b, Turn(0), Turn(1)], Turn(0));
    RunOneMore(s, [a, b, Turn(0), Turn(1), Turn(0)], Turn(1));
    assert [] + [a] == [a] && [a] + [b] == [a, b] && [a, b] + [Turn(0)] == [a, b, Turn(0)];
    assert [a, b, Turn(0)] + [Turn(1)] == [a, b, Turn(0), Turn(1)];
    assert [a, b, Turn(0), Turn(1)] + [Turn(0)] == [a, b, Turn(0), Turn(1), Turn(0)];
    assert [a, b, Turn(0), Turn(1), Turn(0)] + [Turn(1)] == TwoReads(it, now);
  }

  /** Any file nobody holds, two readers: each looks, then each hands it out, and both have it. */
  lemma OverlappingReadsListTwice(leases: map<ItemId, int>, it: Item, now: int)
    requires !Held(leases, it.id, now)
    ensures var t := Run(State(leases, map[], []), TwoReads(it, now));
      && 0 in t.readers && t.readers[0].listed == [it]
      && 1 in t.readers && t.readers[1].listed == [it]
  {
    var s := State(leases, map[], []);
    TwoReadsStepByStep(s, it, now);
    var begun := Step(Step(s, Begin(0, [it], 1, now)), Begin(1, [it], 1, now));
    var looked := Step(Step(begun, Turn(0)), Turn(1));
    assert [] + [it] == [it];
    assert begun.readers == map[0 := Reader([it], 1, now, 0, [], false), 1 := Reader([it], 1, now, 0, [], false)];
    assert looked.readers == map[0 := Reader([it], 1, now, 0, [it], true), 1 := Reader([it], 1, now, 0, [it], true)];
  }

  // ── a read with nothing between its steps ─────────────────────────────

  /** The reader's way past one file. */
  function OneFile(s: State, q: ReaderId): State
    requires q in s.readers
  {
    var t := Next(s, q);
    if t.readers[q].handing then Next(t, q) else t
  }

  function Files(s: State, q: ReaderId, n: nat): (t: State)
    requires q in s.readers
    ensures q in t.readers
  {
    if n == 0 then s else OneFile(Files(s, q, n - 1), q)
  }

  lemma OneFileGoes(s: State, q: ReaderId)
    requires q in s.readers && !s.readers[q].handing && s.readers[q].at < |s.readers[q].backlog|
    ensures var r, t := s.readers[q], OneFile(s, q);
      var it := r.backlog[r.at];
      if |r.listed| >= r.limit || Held(s.leases, it.id, r.now) then
        t.readers[q] == r.(at := r.at + 1) && t.leases == s.leases
      else
        t.readers[q] == r.(at := r.at + 1, listed := r.listed + [it]) && t.leases == s.leases[it.id := r.now]
  {
  }

  /** A read that set out in `s` has come to `t` past its first `n` files, and has done with
      them what the one-step read does. */
  ghost predicate ReadSoFar(s: State, t: State, q: ReaderId, n: nat)
    requires q in s.readers && n <= |s.readers[q].backlog|
  {
    var was := s.readers[q];
    var listed := Listed(was.backlog[..n], s.leases, was.limit, false, was.now);
    && q in t.readers && t.readers[q] == was.(at := n, listed := listed)
    && t.leases == Hand(s.leases, listed, was.now)
    && forall e :: e in listed ==> e in was.backlog[..n]
  }

  lemma HeldMeanwhile(s: State, t: State, q: ReaderId, n: nat)
    requires q in s.readers && n < |s.readers[q].backlog| && DistinctIds(s.readers[q].backlog) && ReadSoFar(s, t, q, n)
    ensures var it, now := s.readers[q].backlog[n], s.readers[q].now; Held(t.leases, it.id, now) <==> Held(s.leases, it.id, now)
  {
    var was := s.readers[q];
    NotYetListed(was.backlog, n, t.readers[q].listed);
    HandLeavesOthers(s.leases, t.readers[q].listed, was.now, was.backlog[n].id);
  }

  lemma OneMoreFile(s: State, t: State, q: ReaderId, n: nat)
    requires q in s.readers && n < |s.readers[q].backlog| && DistinctIds(s.readers[q].backlog)
    requires !s.readers[q].handing && ReadSoFar(s, t, q, n)
    ensures ReadSoFar(s, OneFile(t, q), q, n + 1)
  {
    var was := s.readers[q];
    var it, listed := was.backlog[n], t.readers[q].listed;
    HeldMeanwhile(s, t, q, n);
    OneFileGoes(t, q);
    assert was.backlog[..n + 1] == was.backlog[..n] + [it];
    ListedStep(was.backlog[..n], it, s.leases, was.limit, false, was.now);
    HandStep(s.leases, listed, it, was.now);
  }

  /** With nothing in between, a read comes to what the one-step read lists and leases. */
  lemma {:induction false} UndisturbedRead(s: State, q: ReaderId, n: nat)
    requires q in s.readers && s.readers[q].at == 0 && s.readers[q].listed == [] && !s.readers[q].handing
    requires DistinctIds(s.readers[q].backlog) && n <= |s.readers[q].backlog|
    ensures ReadSoFar(s, Files(s, q, n), q, n)
  {
    if n > 0 {
      UndisturbedRead(s, q, n - 1);
      OneMoreFile(s, Files(s, q, n - 1), q, n - 1);
    }
  }
}
