/** Transcription as work handed out: the leases, and the queue read that gives them
    (cmd/server/transcripts.go, needsTranscript in cmd/server/main.go). Times are seconds. */
module TranscriptQueue {
  import opened Options
  import opened StableSort

  type ItemId = nat
  type Etag = string

  datatype Medium = Video | Audio | Text

  /** A library row: `medium` is what the probe said, absent for a file not probed. */
  datatype Item = Item(id: ItemId, etag: Etag, medium: Option<Medium>, subtitles: nat)

  const LEASE_FOR := 3600
  const QUEUE_DEFAULT: nat := 20
  const QUEUE_MAX: nat := 100

  /** How many entries a reader gets: what it asked for, up to the most there are in one read. */
  function Limit(asked: Option<int>): nat {
    if asked.None? || asked.value <= 0 then QUEUE_DEFAULT
    else if asked.value < QUEUE_MAX then asked.value else QUEUE_MAX
  }

  /** A silent file: probed, with sound to hear, no words of its own, and no transcript of
      the bytes it has now. */
  predicate NeedsTranscript(it: Item, have: Option<Etag>) {
    it.medium.Some? && it.medium.value != Text && it.subtitles == 0 && have != Some(it.etag)
  }

  function Row(rows: map<ItemId, Etag>, id: ItemId): Option<Etag> {
    if id in rows then Some(rows[id]) else None
  }

  predicate ById(a: Item, b: Item) {
    a.id < b.id
  }

  /** The backlog, oldest id first. */
  function Silent(items: seq<Item>, rows: map<ItemId, Etag>): seq<Item> {
    Filter(items, (it: Item) => NeedsTranscript(it, Row(rows, it.id)))
  }

  predicate Held(leases: map<ItemId, int>, id: ItemId, now: int) {
    id in leases && now - leases[id] < LEASE_FOR
  }

  /** Every entry handed out at once, and the expired swept away. */
  function Hand(leases: map<ItemId, int>, ids: seq<Item>, now: int): map<ItemId, int> {
    if ids == [] then leases else Hand(leases, ids[..|ids| - 1], now)[ids[|ids| - 1].id := now]
  }

  function Sweep(leases: map<ItemId, int>, now: int): map<ItemId, int> {
    map id | id in leases && now - leases[id] < LEASE_FOR :: leases[id]
  }

  function Free(silent: seq<Item>, leases: map<ItemId, int>, now: int): seq<Item> {
    Filter(silent, (it: Item) => !Held(leases, it.id, now))
  }

  /** transcriptLeases: the work handed out. */
  class Leases {
    var out: map<ItemId, int>

    constructor ()
      ensures out == map[]
    {
      out := map[];
    }

    method IsHeld(id: ItemId, now: int) returns (held: bool)
      ensures held == Held(out, id, now)
    {
      if id !in out { return false; }
      return now - out[id] < LEASE_FOR;
    }

    method HandOut(id: ItemId, now: int)
      modifies this
      ensures out == old(out)[id := now]
    {
      out := out[id := now];
    }

    method Drop(id: ItemId)
      modifies this
      ensures out == old(out) - {id}
    {
      out := out - {id};
    }

    /** The live leases, the expired swept as they are counted. */
    method Count(now: int) returns (n: nat)
      modifies this
      ensures out == Sweep(old(out), now) && n == |out|
    {
      ghost var was := out;
      var todo := out.Keys;
      while todo != {}
        invariant todo <= out.Keys <= was.Keys
        invariant forall id :: id in out ==> out[id] == was[id]
        invariant forall id :: id in was ==> (id in out <==> id in todo || now - was[id] < LEASE_FOR)
      {
        var id :| id in todo;
        todo := todo - {id};
        if now - out[id] >= LEASE_FOR {
          out := out - {id};
        }
      }
      return |out|;
    }

    /** handleTranscriptQueue: the files with nothing to read, oldest id first, up to the
        limit; each handed out as it is listed, unless the reader only looks. */
    method ReadQueue(items: seq<Item>, rows: map<ItemId, Etag>, asked: Option<int>, all: bool, now: int)
      returns (entries: seq<Item>, count: nat, leased: nat)
      requires DistinctIds(items)
      modifies this
      ensures count == |Silent(Sort(items, ById), rows)|
      ensures entries == Listed(Silent(Sort(items, ById), rows), old(out), Limit(asked), all, now)
      ensures out == Sweep(if all then old(out) else Hand(old(out), entries, now), now)
      ensures leased == |out|
    {
      var limit := Limit(asked);
      var sorted := Sort(items, ById);
      count, entries := 0, [];
      ghost var was := out;
      SortKeepsDistinct(items);
      for i := 0 to |sorted|
        invariant count == |Silent(sorted[..i], rows)|
        invariant entries == Listed(Silent(sorted[..i], rows), was, limit, all, now)
        invariant out == if all then was else Hand(was, entries, now)
        invariant forall e :: e in entries ==> e in sorted[..i]
      {
        var it := sorted[i];
        OneMoreRead(sorted, i, rows, was, limit, all, now, entries);
        if !NeedsTranscript(it, Row(rows, it.id)) { continue; }
        count := count + 1;
        if |entries| >= limit { continue; }
        if !all {
          var held := IsHeld(it.id, now);
          if held { continue; }
          HandOut(it.id, now);
        }
        entries := entries + [it];
      }
      assert sorted[..|sorted|] == sorted;
      leased := Count(now);
    }
  }

  /** The entries of one read. */
  function Listed(silent: seq<Item>, leases: map<ItemId, int>, limit: nat, all: bool, now: int): seq<Item> {
    Take(if all then silent else Free(silent, leases, now), limit)
  }

  /** Work handed out is held for an hour. */
  lemma HeldForTheHour(leases: map<ItemId, int>, id: ItemId, now: int)
    ensures Held(leases, id, now) <==> id in leases && now < leases[id] + 60 * 60
  {
  }

  /** And what the count leaves is what is held, as it was. */
  lemma SweptExactly(leases: map<ItemId, int>, id: ItemId, now: int)
    ensures id in Sweep(leases, now) <==> id in leases && now < leases[id] + 60 * 60
    ensures id in Sweep(leases, now) ==> Sweep(leases, now)[id] == leases[id]
  {
  }

  /** A reader gets no more than it asked for, twenty when it did not say, and never over a hundred;
      and as many as that while there are. */
  lemma NoMoreThanAsked(silent: seq<Item>, leases: map<ItemId, int>, asked: Option<int>, all: bool, now: int)
    ensures var limit := if asked.None? || asked.value <= 0 then 20 else if asked.value > 100 then 100 else asked.value;
      var there := if all then |silent| else |Free(silent, leases, now)|;
      |Listed(silent, leases, Limit(asked), all, now)| == if there < limit then there else limit
  {
  }

  lemma ListedStep(silent: seq<Item>, it: Item, leases: map<ItemId, int>, limit: nat, all: bool, now: int)
    ensures var before := Listed(silent, leases, limit, all, now);
      Listed(silent + [it], leases, limit, all, now) ==
        if |before| >= limit || (!all && Held(leases, it.id, now)) then before else before + [it]
  {
    FilterConcat(silent, [it], (x: Item) => !Held(leases, x.id, now));
  }

  lemma HandStep(leases: map<ItemId, int>, ids: seq<Item>, it: Item, now: int)
    ensures Hand(leases, ids + [it], now) == Hand(leases, ids, now)[it.id := now]
  {
    assert (ids + [it])[..|ids|] == ids;
  }

  /** What the read's loop does with one more file of the library. */
  lemma OneMoreRead(
    sorted: seq<Item>, i: nat, rows: map<ItemId, Etag>, was: map<ItemId, int>, limit: nat, all: bool, now: int, entries: seq<Item>)
    requires DistinctIds(sorted) && i < |sorted| && (forall e :: e in entries ==> e in sorted[..i])
    requires entries == Listed(Silent(sorted[..i], rows), was, limit, all, now)
    ensures var it, silent := sorted[i], Silent(sorted[..i], rows);
      var needs, held := NeedsTranscript(it, Row(rows, it.id)), Held(Hand(was, entries, now), it.id, now);
      && Silent(sorted[..i + 1], rows) == (if needs then silent + [it] else silent)
      && Listed(Silent(sorted[..i + 1], rows), was, limit, all, now) ==
           (if !needs || |entries| >= limit || (!all && held) then entries else entries + [it])
      && Hand(was, entries + [it], now) == Hand(was, entries, now)[it.id := now]
    ensures forall e :: e in entries + [sorted[i]] ==> e in sorted[..i + 1]
  {
    var it := sorted[i];
    assert sorted[..i + 1] == sorted[..i] + [it];
    SilentStep(sorted[..i], it, rows);
    ListedStep(Silent(sorted[..i], rows), it, was, limit, all, now);
    NotYetListed(sorted, i, entries);
    HandLeavesOthers(was, entries, now, it.id);
    HandStep(was, entries, it, now);
  }

  lemma NotYetListed(sorted: seq<Item>, i: nat, entries: seq<Item>)
    requires DistinctIds(sorted) && i < |sorted| && forall e :: e in entries ==> e in sorted[..i]
    ensures NoneNamed(entries, sorted[i].id)
  {
    DistinctSplit(sorted, i);
    assert sorted[i] in sorted[i..];
  }

  lemma SilentStep(items: seq<Item>, it: Item, rows: map<ItemId, Etag>)
    ensures Silent(items + [it], rows) ==
      if NeedsTranscript(it, Row(rows, it.id)) then Silent(items, rows) + [it] else Silent(items, rows)
  {
    FilterConcat(items, [it], (x: Item) => NeedsTranscript(x, Row(rows, x.id)));
  }

  predicate NoneNamed(items: seq<Item>, id: ItemId) {
    forall e :: e in items ==> e.id != id
  }

  /** The ids are a table's primary keys. */
  predicate DistinctIds(items: seq<Item>) {
    items == [] || (NoneNamed(items[1..], items[0].id) && DistinctIds(items[1..]))
  }

  lemma {:induction false} InsertKeepsDistinct(x: Item, s: seq<Item>)
    requires NoneNamed(s, x.id) && DistinctIds(s)
    ensures DistinctIds(Insert(x, s, ById))
  {
    if s != [] && ById(s[0], x) {
      InsertKeepsDistinct(x, s[1..]);
      InsertHolds(x, s[1..]);
    }
  }

  lemma {:induction false} InsertHolds(x: Item, s: seq<Item>)
    ensures forall e :: e in Insert(x, s, ById) <==> e == x || e in s
  {
    if s != [] && ById(s[0], x) {
      InsertHolds(x, s[1..]);
    }
  }

  lemma {:induction false} SortKeepsDistinct(items: seq<Item>)
    requires DistinctIds(items)
    ensures DistinctIds(Sort(items, ById))
    ensures forall e :: e in Sort(items, ById) <==> e in items
  {
    if items != [] {
      SortKeepsDistinct(items[1..]);
      InsertKeepsDistinct(items[0], Sort(items[1..], ById));
      InsertHolds(items[0], Sort(items[1..], ById));
    }
  }

  lemma {:induction false} DistinctSplit(items: seq<Item>, n: nat)
    requires DistinctIds(items) && n <= |items|
    ensures forall e, f :: e in items[..n] && f in items[n..] ==> e.id != f.id
    ensures DistinctIds(items[n..])
  {
    if n == 0 {
      assert items[0..] == items;
    } else {
      var first, rest := items[0], items[1..];
      DistinctSplit(rest, n - 1);
      assert items[n..] == rest[n - 1..];
      forall e, f | e in items[..n] && f in items[n..]
        ensures e.id != f.id
      {
        assert f in rest;
        if e != first {
          TakenFromRest(items, n, e);
        }
      }
    }
  }

  lemma TakenFromRest(items: seq<Item>, n: nat, e: Item)
    requires 0 < n <= |items| && e in items[..n] && e != items[0]
    ensures e in items[1..][..n - 1]
  {
    var i :| 0 <= i < n && items[i] == e;
    assert items[1..][..n - 1][i - 1] == e;
  }

  lemma {:induction false} FilterKeepsDistinct(items: seq<Item>, p: Item -> bool)
    requires DistinctIds(items)
    ensures DistinctIds(Filter(items, p))
  {
    if items != [] {
      FilterKeepsDistinct(items[1..], p);
      FilterHolds(items[1..], p);
      assert Filter(items, p) == (if p(items[0]) then [items[0]] + Filter(items[1..], p) else Filter(items[1..], p));
    }
  }

  lemma {:induction false} HandLeavesOthers(leases: map<ItemId, int>, ids: seq<Item>, now: int, id: ItemId)
    requires forall e :: e in ids ==> e.id != id
    ensures var after := Hand(leases, ids, now);
      (id in after <==> id in leases) && (id in leases ==> after[id] == leases[id])
  {
    if ids != [] {
      HandLeavesOthers(leases, ids[..|ids| - 1], now, id);
    }
  }

  lemma {:induction false} HandGives(leases: map<ItemId, int>, ids: seq<Item>, now: int, e: Item)
    requires e in ids
    ensures e.id in Hand(leases, ids, now) && Hand(leases, ids, now)[e.id] == now
  {
    var last := ids[|ids| - 1];
    if last.id != e.id {
      HandGives(leases, ids[..|ids| - 1], now, e);
    }
  }

  predicate Ascending(items: seq<Item>) {
    items == [] || ((forall e :: e in items[1..] ==> items[0].id < e.id) && Ascending(items[1..]))
  }

  lemma {:induction false} InsertAscends(x: Item, s: seq<Item>)
    requires NoneNamed(s, x.id) && Ascending(s)
    ensures Ascending(Insert(x, s, ById))
  {
    if s != [] && ById(s[0], x) {
      InsertAscends(x, s[1..]);
      InsertHolds(x, s[1..]);
    }
  }

  lemma {:induction false} SortAscends(items: seq<Item>)
    requires DistinctIds(items)
    ensures Ascending(Sort(items, ById))
  {
    if items != [] {
      SortAscends(items[1..]);
      SortKeepsDistinct(items[1..]);
      InsertAscends(items[0], Sort(items[1..], ById));
    }
  }

  lemma {:induction false} FilterAscends(items: seq<Item>, p: Item -> bool)
    requires Ascending(items)
    ensures Ascending(Filter(items, p))
  {
    if items != [] {
      FilterAscends(items[1..], p);
      FilterHolds(items[1..], p);
      assert Filter(items, p) == (if p(items[0]) then [items[0]] + Filter(items[1..], p) else Filter(items[1..], p));
    }
  }

  /** The backlog a read walks is every silent file and no other, by ascending id. */
  lemma BacklogIsEverySilentFile(items: seq<Item>, rows: map<ItemId, Etag>)
    requires DistinctIds(items)
    ensures var silent := Silent(Sort(items, ById), rows);
      && Ascending(silent) && DistinctIds(silent)
      && forall it :: it in silent <==>
           && it in items && it.medium in [Some(Video), Some(Audio)] && it.subtitles == 0
           && !(it.id in rows && rows[it.id] == it.etag)
  {
    var p := (it: Item) => NeedsTranscript(it, Row(rows, it.id));
    SortAscends(items);
    SortKeepsDistinct(items);
    FilterAscends(Sort(items, ById), p);
    FilterKeepsDistinct(Sort(items, ById), p);
    FilterHolds(Sort(items, ById), p);
  }

  // ── one reader after another ──────────────────────────────────────────

  /** One read's limit and the time it is made at. */
  datatype Reading = Reading(limit: nat, now: int)

  /** What each of a series of reads hands out, the backlog the same throughout. */
  function HandOuts(silent: seq<Item>, leases: map<ItemId, int>, rs: seq<Reading>): seq<seq<Item>>
    decreases rs
  {
    if rs == [] then [] else
    var got := Take(Free(silent, leases, rs[0].now), rs[0].limit);
    [got] + HandOuts(silent, Sweep(Hand(leases, got, rs[0].now), rs[0].now), rs[1..])
  }

  function Total(rs: seq<Reading>): nat {
    if rs == [] then 0 else rs[0].limit + Total(rs[1..])
  }

  function Flat(parts: seq<seq<Item>>): seq<Item> {
    if parts == [] then [] else parts[0] + Flat(parts[1..])
  }

  /** The reads are in time order inside one lease, and no lease given before them runs out
      while they are made. */
  predicate OneWindow(silent: seq<Item>, leases: map<ItemId, int>, rs: seq<Reading>) {
    && (forall i :: 0 <= i < |rs| ==> rs[0].now <= rs[i].now < rs[0].now + LEASE_FOR)
    && (forall i, j :: 0 <= i < j < |rs| ==> rs[i].now <= rs[j].now)
    && (forall i, k :: 0 <= i < |rs| && 0 <= k < |silent| ==>
          (Held(leases, silent[k].id, rs[0].now) <==> Held(leases, silent[k].id, rs[i].now)))
  }

  predicate NotTaken(taken: seq<Item>, it: Item) {
    NoneNamed(taken, it.id)
  }

  /** An id is held after a read when it was before, or the read gave it out. */
  lemma HeldAfterRead(leases: map<ItemId, int>, taken: seq<Item>, now: int, later: int, id: ItemId)
    requires now <= later < now + LEASE_FOR
    requires Held(leases, id, now) <==> Held(leases, id, later)
    ensures Held(Sweep(Hand(leases, taken, now), now), id, later) <==> Held(leases, id, now) || !NoneNamed(taken, id)
  {
    if NoneNamed(taken, id) {
      HandLeavesOthers(leases, taken, now, id);
    } else {
      var e :| e in taken && e.id == id;
      HandGives(leases, taken, now, e);
    }
  }

  /** What is free after a read is what was free before it, less what it handed out. */
  lemma FreeAfterRead(silent: seq<Item>, leases: map<ItemId, int>, n: nat, now: int, later: int)
    requires DistinctIds(silent) && now <= later < now + LEASE_FOR
    requires forall it :: it in silent ==> (Held(leases, it.id, now) <==> Held(leases, it.id, later))
    requires n <= |Free(silent, leases, now)|
    ensures var free := Free(silent, leases, now);
      Free(silent, Sweep(Hand(leases, free[..n], now), now), later) == free[n..]
  {
    var free := Free(silent, leases, now);
    var taken := free[..n];
    var after := Sweep(Hand(leases, taken, now), now);
    forall it | it in silent
      ensures !Held(after, it.id, later) <==> !Held(leases, it.id, now) && NotTaken(taken, it)
    {
      HeldAfterRead(leases, taken, now, later, it.id);
    }
    FilterTwice(silent, (it: Item) => !Held(leases, it.id, now), (it: Item) => NotTaken(taken, it),
      (it: Item) => !Held(after, it.id, later));
    FilterKeepsDistinct(silent, (it: Item) => !Held(leases, it.id, now));
    DropTaken(free, n);
  }

  lemma DropTaken(free: seq<Item>, n: nat)
    requires DistinctIds(free) && n <= |free|
    ensures Filter(free, (it: Item) => NotTaken(free[..n], it)) == free[n..]
  {
    var p := (it: Item) => NotTaken(free[..n], it);
    DistinctSplit(free, n);
    FilterNone(free[..n], p);
    FilterAll(free[n..], p);
    FilterConcat(free[..n], free[n..], p);
    assert free == free[..n] + free[n..];
  }

  lemma TakeTwice(free: seq<Item>, limit: nat, more: nat)
    ensures var got := Take(free, limit);
      |got| <= |free| && got == free[..|got|] && got + Take(free[|got|..], more) == Take(free, limit + more)
  {
  }

  /** The read that follows another, and all the reads after it. */
  lemma NextReading(silent: seq<Item>, leases: map<ItemId, int>, rs: seq<Reading>)
    requires |rs| > 1 && DistinctIds(silent) && OneWindow(silent, leases, rs)
    ensures var free, now := Free(silent, leases, rs[0].now), rs[0].now;
      var got := Take(free, rs[0].limit);
      var after := Sweep(Hand(leases, got, now), now);
      OneWindow(silent, after, rs[1..]) && |got| <= |free| && Free(silent, after, rs[1].now) == free[|got|..]
  {
    var free := Free(silent, leases, rs[0].now);
    TakeTwice(free, rs[0].limit, 0);
    forall it | it in silent
      ensures Held(leases, it.id, rs[0].now) <==> Held(leases, it.id, rs[1].now)
    {
      var k :| 0 <= k < |silent| && silent[k] == it;
    }
    FreeAfterRead(silent, leases, |Take(free, rs[0].limit)|, rs[0].now, rs[1].now);
    WindowAfterRead(silent, leases, rs, |Take(free, rs[0].limit)|);
  }

  /** Reads made one after another inside one lease hand out the free backlog in id order,
      consecutive stretches of it and nothing twice: what they give between them is its
      first so many files, as many as their limits come to, and the whole of it once the
      limits reach that far. */
  lemma {:induction false} ReadsPartitionTheBacklog(silent: seq<Item>, leases: map<ItemId, int>, rs: seq<Reading>)
    requires rs != [] && DistinctIds(silent) && OneWindow(silent, leases, rs)
    ensures Flat(HandOuts(silent, leases, rs)) == Take(Free(silent, leases, rs[0].now), Total(rs))
    decreases rs
  {
    var free, now := Free(silent, leases, rs[0].now), rs[0].now;
    var got := Take(free, rs[0].limit);
    var after := Sweep(Hand(leases, got, now), now);
    FlatOfMore(got, HandOuts(silent, after, rs[1..]));
    if |rs| > 1 {
      NextReading(silent, leases, rs);
      ReadsPartitionTheBacklog(silent, after, rs[1..]);
      TakeTwice(free, rs[0].limit, Total(rs[1..]));
    }
  }

  lemma FlatOfMore(got: seq<Item>, rest: seq<seq<Item>>)
    ensures Flat([got] + rest) == got + Flat(rest)
  {
    assert ([got] + rest)[1..] == rest;
  }

  lemma WindowAfterRead(silent: seq<Item>, leases: map<ItemId, int>, rs: seq<Reading>, n: nat)
    requires |rs| > 1 && DistinctIds(silent) && OneWindow(silent, leases, rs)
    requires n <= |Free(silent, leases, rs[0].now)|
    ensures OneWindow(silent, Sweep(Hand(leases, Free(silent, leases, rs[0].now)[..n], rs[0].now), rs[0].now), rs[1..])
  {
    var taken := Free(silent, leases, rs[0].now)[..n];
    var after := Sweep(Hand(leases, taken, rs[0].now), rs[0].now);
    var later := rs[1..];
    forall i, k | 0 <= i < |later| && 0 <= k < |silent|
      ensures Held(after, silent[k].id, later[0].now) <==> Held(after, silent[k].id, later[i].now)
    {
      assert later[i] == rs[i + 1] && later[0] == rs[1];
      HeldAfterRead(leases, taken, rs[0].now, later[0].now, silent[k].id);
      HeldAfterRead(leases, taken, rs[0].now, later[i].now, silent[k].id);
    }
    assert forall i :: 0 <= i < |later| ==> later[i] == rs[i + 1];
  }

  /** Enough reads of one size, and every file that was free is leased exactly once. */
  lemma EnoughReadsLeaseAll(silent: seq<Item>, leases: map<ItemId, int>, rs: seq<Reading>, limit: nat)
    requires rs != [] && DistinctIds(silent) && OneWindow(silent, leases, rs)
    requires forall i :: 0 <= i < |rs| ==> rs[i].limit == limit
    requires |Free(silent, leases, rs[0].now)| <= |rs| * limit
    ensures Flat(HandOuts(silent, leases, rs)) == Free(silent, leases, rs[0].now)
    ensures DistinctIds(Flat(HandOuts(silent, leases, rs)))
  {
    ReadsPartitionTheBacklog(silent, leases, rs);
    TotalOfEqual(rs, limit);
    FilterKeepsDistinct(silent, (it: Item) => !Held(leases, it.id, rs[0].now));
  }

  lemma {:induction false} TotalOfEqual(rs: seq<Reading>, limit: nat)
    requires forall i :: 0 <= i < |rs| ==> rs[i].limit == limit
    ensures Total(rs) == |rs| * limit
  {
    if rs != [] {
      TotalOfEqual(rs[1..], limit);
    }
  }
}
