/** Making a passage: how a mark lands, and the passage two marks stand for
    (cmd/server/passage.go). */
module Marks {
  import opened Options
  import Numerals
  import Grammar = PassageGrammar

  type ItemId = nat

  /** One bound of a passage being made: seconds into one item. */
  datatype Mark = Mark(item: ItemId, seconds: real)

  datatype MarkPair = MarkPair(markIn: Option<Mark>, markOut: Option<Mark>) {
    predicate Any() { markIn.Some? || markOut.Some? }

    predicate Both() { markIn.Some? && markOut.Some? }
  }

  const UNMARKED := MarkPair(None, None)

  datatype Kind = In | Out

  /** A resolved passage as a session carries it; `endsAt` is the bound of the one item the
      session plays. */
  datatype SessionPassage = SessionPassage(
    t: Option<real>, end: Option<real>, until: Option<ItemId>, opens: string, closes: string, endsAt: Option<real>)

  // ── where a position lands ────────────────────────────────────────────

  /** To the nearest tenth, and never before the start. */
  function MarkSeconds(pos: real): real {
    if pos < 0.0 then 0.0 else (pos * 10.0 + 0.5).Floor as real / 10.0
  }

  /** It is a tenth, no tenth is nearer, and of two as near it is the later. */
  lemma NearestTenth(pos: real, n: int)
    ensures var r := MarkSeconds(pos);
      && (pos < 0.0 ==> r == 0.0)
      && (pos >= 0.0 ==> r >= 0.0 && r * 10.0 == (r * 10.0).Floor as real && -0.05 < r - pos <= 0.05)
      && (pos >= 0.0 && n as real / 10.0 != r ==> n as real / 10.0 - pos <= -0.05 || n as real / 10.0 - pos > 0.05)
  {
    var k := (pos * 10.0 + 0.5).Floor;
    if pos >= 0.0 {
      assert k as real <= pos * 10.0 + 0.5 < k as real + 1.0;
      assert n != k ==> n >= k + 1 || n <= k - 1;
    }
  }

  function Distance(a: real, b: real): real {
    if a < b then b - a else a - b
  }

  const CHAPTER_SNAP_SECONDS := 2.0

  predicate Snapped(pos: real, starts: seq<real>, tolerance: real) {
    exists s :: s in starts && Distance(s, pos) <= tolerance
  }

  /** The `i`th start is one that none is nearer than, and the last listed of those. */
  ghost predicate LastNearest(pos: real, starts: seq<real>, i: int) {
    && 0 <= i < |starts|
    && (forall j :: 0 <= j < |starts| ==> Distance(starts[i], pos) <= Distance(starts[j], pos))
    && (forall j :: i < j < |starts| ==> Distance(starts[i], pos) < Distance(starts[j], pos))
  }

  /** What the answer is, with no word of how it is found: the nearest start within the
      tolerance, of equally near ones the last listed; or, with no start in reach, the position
      itself. */
  ghost predicate SnapsTo(pos: real, starts: seq<real>, tolerance: real, r: real) {
    if Snapped(pos, starts, tolerance)
    then exists i :: LastNearest(pos, starts, i) && starts[i] == r && Distance(r, pos) <= tolerance
    else r == pos
  }

  lemma OneMoreStart(pos: real, seen: seq<real>, s: real, i: int)
    requires LastNearest(pos, seen, i)
    ensures LastNearest(pos, seen + [s], if Distance(s, pos) <= Distance(seen[i], pos) then |seen| else i)
  {
    var all := seen + [s];
    assert forall j :: 0 <= j < |seen| ==> all[j] == seen[j];
  }

  lemma OneMoreInReach(pos: real, seen: seq<real>, s: real, tolerance: real)
    ensures Snapped(pos, seen + [s], tolerance) <==> Snapped(pos, seen, tolerance) || Distance(s, pos) <= tolerance
  {
    var all := seen + [s];
    assert forall x :: x in all <==> x in seen || x == s;
  }

  lemma {:induction false} NoneNearer(pos: real, seen: seq<real>, s: real, tolerance: real)
    requires !Snapped(pos, seen, tolerance) && Distance(s, pos) <= tolerance
    ensures LastNearest(pos, seen + [s], |seen|)
  {
    var all := seen + [s];
    forall j | 0 <= j < |seen|
      ensures Distance(s, pos) < Distance(all[j], pos)
    {
      assert all[j] == seen[j] && seen[j] in seen;
    }
  }

  lemma SnapStep(pos: real, seen: seq<real>, s: real, tolerance: real, best: real)
    requires SnapsTo(pos, seen, tolerance, best)
    ensures Snapped(pos, seen + [s], tolerance) <==> Snapped(pos, seen, tolerance) || Distance(s, pos) <= tolerance
    ensures var d := Distance(s, pos);
      SnapsTo(pos, seen + [s], tolerance,
        if d <= tolerance && (Snapped(pos, seen, tolerance) ==> d <= Distance(best, pos)) then s else best)
  {
    OneMoreInReach(pos, seen, s, tolerance);
    if Snapped(pos, seen, tolerance) {
      var i :| LastNearest(pos, seen, i) && seen[i] == best;
      OneMoreStart(pos, seen, s, i);
    } else if Distance(s, pos) <= tolerance {
      NoneNearer(pos, seen, s, tolerance);
    }
  }

  /** snapToChapter as it is written. */
  method SnapToChapter(pos: real, starts: seq<real>, tolerance: real) returns (best: real)
    ensures SnapsTo(pos, starts, tolerance, best)
  {
    var bestD := tolerance;
    best := pos;
    for k := 0 to |starts|
      invariant SnapsTo(pos, starts[..k], tolerance, best)
      invariant bestD == if Snapped(pos, starts[..k], tolerance) then Distance(best, pos) else tolerance
    {
      var s := starts[k];
      var d := s - pos;
      if d < 0.0 { d := -d; }
      SnapStep(pos, starts[..k], s, tolerance, best);
      assert starts[..k + 1] == starts[..k] + [s];
      if d <= tolerance && d <= bestD {
        best, bestD := s, d;
      }
    }
    assert starts[..|starts|] == starts;
  }

  lemma SnapsToOnePlace(pos: real, starts: seq<real>, tolerance: real, r: real, r': real)
    requires SnapsTo(pos, starts, tolerance, r) && SnapsTo(pos, starts, tolerance, r')
    ensures r == r'
  {
  }

  /** A snap moves a mark by no more than the tolerance, and snapping again moves it no further. */
  lemma SnapStaysPut(pos: real, starts: seq<real>, tolerance: real, r: real)
    requires 0.0 <= tolerance && SnapsTo(pos, starts, tolerance, r)
    ensures Distance(r, pos) <= tolerance
    ensures SnapsTo(r, starts, tolerance, r)
  {
    if Snapped(pos, starts, tolerance) {
      LastOf(starts, r);
      var i :| LastAt(starts, r, i);
      assert forall j :: i < j < |starts| ==> starts[j] == starts[i + 1..][j - i - 1];
    }
  }

  /** The last place in the list where `r` stands. */
  predicate LastAt(starts: seq<real>, r: real, i: int) {
    0 <= i < |starts| && starts[i] == r && r !in starts[i + 1..]
  }

  lemma {:induction false} LastOf(starts: seq<real>, r: real)
    requires r in starts
    ensures exists i :: LastAt(starts, r, i)
  {
    var n := |starts| - 1;
    if starts[n] == r {
      assert starts[n + 1..] == [];
      assert LastAt(starts, r, n);
    } else {
      LastOf(starts[..n], r);
      var i :| LastAt(starts[..n], r, i);
      assert starts[i + 1..] == starts[..n][i + 1..] + [starts[n]];
      assert LastAt(starts, r, i);
    }
  }

  /** Two marks of one file may be snapped together, never past each other. */
  lemma SnapKeepsOrder(p: real, q: real, starts: seq<real>, tolerance: real, a: real, b: real)
    requires p <= q && SnapsTo(p, starts, tolerance, a) && SnapsTo(q, starts, tolerance, b)
    ensures a <= b
  {
    if p == q {
      SnapsToOnePlace(p, starts, tolerance, a, b);
    } else if Snapped(p, starts, tolerance) && Snapped(q, starts, tolerance) {
      assert Distance(a, p) <= Distance(b, p) && Distance(b, q) <= Distance(a, q);
    } else if Snapped(p, starts, tolerance) {
      assert a in starts && Distance(a, q) > tolerance >= Distance(a, p);
    } else if Snapped(q, starts, tolerance) {
      assert b in starts && Distance(b, p) > tolerance >= Distance(b, q);
    }
  }

  // ── one mark against another ──────────────────────────────────────────

  /** placeIn: an id the order does not hold answers 0, as the first member does. */
  function PlaceIn(order: seq<ItemId>, id: ItemId): nat {
    if id in order then Rank(order, id) else 0
  }

  function Rank(order: seq<ItemId>, id: ItemId): (i: nat)
    requires id in order
    ensures i < |order| && order[i] == id && id !in order[..i]
  {
    if order[0] == id then 0 else 1 + Rank(order[1..], id)
  }

  /** placeIn's own loop. */
  method FindPlace(order: seq<ItemId>, id: ItemId) returns (i: nat)
    ensures i == PlaceIn(order, id)
  {
    for k := 0 to |order|
      invariant id !in order[..k]
    {
      if order[k] == id {
        FirstIsRank(order, k);
        return k;
      }
    }
    return 0;
  }

  lemma FirstIsRank(order: seq<ItemId>, k: nat)
    requires k < |order| && order[k] !in order[..k]
    ensures Rank(order, order[k]) == k
  {
    var i := Rank(order, order[k]);
    assert forall j :: 0 <= j < k ==> order[..k][j] == order[j];
    assert forall j :: 0 <= j < i ==> order[..i][j] == order[j];
  }

  function CompareMarks(a: Mark, b: Mark, order: seq<ItemId>): int {
    var ai, bi := PlaceIn(order, a.item), PlaceIn(order, b.item);
    if ai != bi then ai - bi
    else if a.seconds < b.seconds then -1
    else if a.seconds > b.seconds then 1
    else 0
  }

  function SetMark(cur: MarkPair, kind: Kind, m: Mark, order: seq<ItemId>): MarkPair {
    var put := if kind == In then cur.(markIn := Some(m)) else cur.(markOut := Some(m));
    if !put.Both() then put else
    var c := CompareMarks(put.markIn.value, put.markOut.value, order);
    if c == 0 then put.(markOut := None)
    else if c > 0 then MarkPair(put.markOut, put.markIn)
    else put
  }

  function ClearMark(cur: MarkPair, kind: Kind): MarkPair {
    if kind == In then MarkPair(None, cur.markOut) else MarkPair(cur.markIn, None)
  }

  // ── the order of a pair of marks ──────────────────────────────────────

  predicate Distinct(order: seq<ItemId>) {
    forall i, j :: 0 <= i < j < |order| ==> order[i] != order[j]
  }

  /** One mark strictly before another in the playing order of a work that holds both. */
  predicate Before(a: Mark, b: Mark, order: seq<ItemId>) {
    && a.item in order && b.item in order
    && (Rank(order, a.item) < Rank(order, b.item) || (a.item == b.item && a.seconds < b.seconds))
  }

  predicate Within(m: Option<Mark>, order: seq<ItemId>) {
    m.Some? ==> m.value.item in order
  }

  /** A pair of marks as a session should hold it: members of the work, in strictly first. */
  predicate WellMarked(m: MarkPair, order: seq<ItemId>) {
    && Within(m.markIn, order) && Within(m.markOut, order)
    && (m.Both() ==> Before(m.markIn.value, m.markOut.value, order))
  }

  lemma CompareIsTheOrder(a: Mark, b: Mark, order: seq<ItemId>)
    requires a.item in order && b.item in order
    ensures CompareMarks(a, b, order) < 0 <==> Before(a, b, order)
    ensures CompareMarks(a, b, order) > 0 <==> Before(b, a, order)
    ensures CompareMarks(a, b, order) == 0 <==> a == b
  {
  }

  function Held(m: MarkPair): set<Mark> {
    (if m.markIn.Some? then {m.markIn.value} else {}) + (if m.markOut.Some? then {m.markOut.value} else {})
  }

  /** Marking keeps a pair in order whichever end was meant, and forgets nothing but the end
      it replaces: the two points said are the two points held. */
  lemma SetMarkKeepsOrder(cur: MarkPair, kind: Kind, m: Mark, order: seq<ItemId>)
    requires WellMarked(cur, order) && m.item in order
    ensures WellMarked(SetMark(cur, kind, m, order), order)
    ensures Held(SetMark(cur, kind, m, order)) == {m} + Held(ClearMark(cur, kind))
  {
    var put := if kind == In then cur.(markIn := Some(m)) else cur.(markOut := Some(m));
    if put.Both() {
      CompareIsTheOrder(put.markIn.value, put.markOut.value, order);
    }
  }

  /** With no order to go by (the works could not be built) only the seconds are compared,
      so the pair comes out in the work's order exactly when the seconds agree with it. */
  lemma BlindMarkExactly(cur: MarkPair, kind: Kind, m: Mark, order: seq<ItemId>)
    requires WellMarked(cur, order) && m.item in order
    ensures var other := if kind == In then cur.markOut else cur.markIn;
      WellMarked(SetMark(cur, kind, m, []), order) <==>
        other.None? || other.value.seconds == m.seconds ||
        (m.seconds < other.value.seconds <==> Before(m, other.value, order))
  {
    var other := if kind == In then cur.markOut else cur.markIn;
    if other.Some? {
      CompareIsTheOrder(m, other.value, order);
    }
  }

  /** A mark the order does not name is taken for one of the first member's. */
  lemma StrangerIsTheFirst(a: Mark, b: Mark, order: seq<ItemId>)
    requires order != [] && a.item !in order
    ensures CompareMarks(a, b, order) == CompareMarks(a.(item := order[0]), b, order)
    ensures CompareMarks(b, a, order) == CompareMarks(b, a.(item := order[0]), order)
  {
  }

  // ── the passage two marks stand for ───────────────────────────────────

  function EndsAt(p: SessionPassage, item: ItemId): Option<real> {
    if p.until.Some? && p.until.value != item then None else p.end
  }

  function MarkedPassage(m: MarkPair): Option<SessionPassage> {
    if m.markIn.None? then None else
    var i := m.markIn.value;
    var until := if m.markOut.Some? && m.markOut.value.item != i.item then Some(m.markOut.value.item) else None;
    var end := if m.markOut.Some? then Some(m.markOut.value.seconds) else None;
    var p := SessionPassage(Some(i.seconds), end, until, "", "", None);
    Some(p.(endsAt := EndsAt(p, i.item)))
  }

  /** A number of seconds and its spelling. */
  predicate SameSeconds(d: Option<Numerals.Seconds>, x: Option<real>) {
    d.Some? == x.Some? && (d.Some? ==> Numerals.Value(d.value) == x.value)
  }

  /** The passage as the link grammar holds it. */
  predicate Spells(g: Grammar.Passage, p: SessionPassage) {
    && SameSeconds(g.t, p.t) && SameSeconds(g.end, p.end) && g.until == p.until
    && g.untilEp == None && g.ep == None
    && g.opens == (if p.opens == "" then None else Some(p.opens))
    && g.closes == (if p.closes == "" then None else Some(p.closes))
  }

  /** A link minted from an ordered pair of marks reads back as that passage: always when
      both are in one file, and across files exactly when the out time is the greater
      number, its end being all that is lost otherwise. */
  lemma MintedLinkReadsBack(m: MarkPair, order: seq<ItemId>, g: Grammar.Passage)
    requires WellMarked(m, order) && m.markIn.Some? && Spells(g, MarkedPassage(m).value)
    ensures var back := Grammar.Parse(Some(Grammar.Query(Some(g))));
      && (back == Some(g) <==>
          m.markOut.Some? && m.markOut.value.item != m.markIn.value.item ==> m.markIn.value.seconds < m.markOut.value.seconds)
      && (back == Some(g) || back == Some(g.(end := None)))
  {
    Grammar.PrintedReadsBack(g);
    Grammar.RoundTripExactly(g);
  }

  /** The run that loses its end: in at 20:00 of one episode, out at 5:00 of the next. */
  lemma RunLosesItsEnd()
    ensures var m := MarkPair(Some(Mark(1, 1200.0)), Some(Mark(2, 300.0)));
      var g := Grammar.Passage(Some(Numerals.Decimal(1200, "")), Some(Numerals.Decimal(300, "")), Some(2), None, None, None, None);
      && WellMarked(m, [1, 2]) && Spells(g, MarkedPassage(m).value)
      && Grammar.Parse(Some(Grammar.Query(Some(g)))) == Some(g.(end := None))
  {
    var g := Grammar.Passage(Some(Numerals.Decimal(1200, "")), Some(Numerals.Decimal(300, "")), Some(2), None, None, None, None);
    assert Rank([1, 2], 2) == 1;
    Grammar.PrintedReadsBack(g);
  }
}
