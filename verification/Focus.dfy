/** Spatial focus: the arithmetic behind a D-pad (web/focus.js). */
module Focus {
  import opened Options

  datatype Rect = Rect(left: real, top: real, right: real, bottom: real)

  datatype Direction = Left | Right | Up | Down

  const CROSS := 4.0
  const EPS := 1.0

  function CentreX(r: Rect): real { (r.left + r.right) / 2.0 }

  function CentreY(r: Rect): real { (r.top + r.bottom) / 2.0 }

  function Gap(aLo: real, aHi: real, bLo: real, bHi: real): real {
    if bHi < aLo then aLo - bHi else if bLo > aHi then bLo - aHi else 0.0
  }

  function Along(from: Rect, to: Rect, dir: Direction): real {
    match dir
    case Left => CentreX(from) - CentreX(to)
    case Right => CentreX(to) - CentreX(from)
    case Up => CentreY(from) - CentreY(to)
    case Down => CentreY(to) - CentreY(from)
  }

  function Across(from: Rect, to: Rect, dir: Direction): real {
    if dir.Left? || dir.Right? then Gap(from.top, from.bottom, to.top, to.bottom)
    else Gap(from.left, from.right, to.left, to.right)
  }

  function Cost(from: Rect, to: Rect, dir: Direction): real {
    if !(Along(from, to, dir) > EPS) then -1.0 else Along(from, to, dir) + CROSS * Across(from, to, dir)
  }

  predicate SameRow(a: Rect, b: Rect) {
    Gap(a.top, a.bottom, b.top, b.bottom) == 0.0
  }

  /** Two share a row when neither is wholly above the other. */
  lemma SameRowExactly(a: Rect, b: Rect)
    requires a.top <= a.bottom && b.top <= b.bottom
    ensures SameRow(a, b) <==> a.top <= b.bottom && b.top <= a.bottom
  {
  }

  /** A rectangle is that way when its centre is more than a unit further; it costs the way to its
      centre, and four times what the two miss each other by across. */
  lemma CostExactly(from: Rect, to: Rect, dir: Direction)
    requires from.left <= from.right && from.top <= from.bottom && to.left <= to.right && to.top <= to.bottom
    ensures var x, y := (to.left + to.right) / 2.0 - (from.left + from.right) / 2.0, (to.top + to.bottom) / 2.0 - (from.top + from.bottom) / 2.0;
      var way := match dir case Left => -x case Right => x case Up => -y case Down => y;
      var sideways := if dir.Left? || dir.Right? then Most(to.top - from.bottom, from.top - to.bottom) else Most(to.left - from.right, from.left - to.right);
      && (Cost(from, to, dir) >= 0.0 <==> way > 1.0)
      && (way > 1.0 ==> Cost(from, to, dir) == way + 4.0 * sideways)
  {
  }

  /** The greater of two, or nothing when neither is above it. */
  function Most(a: real, b: real): real {
    if a > 0.0 && a >= b then a else if b > 0.0 then b else 0.0
  }

  // ── what a press answers ──────────────────────────────────────────────

  predicate InPlay(from: Rect, rects: seq<Rect>, dir: Direction, i: int) {
    0 <= i < |rects| && 0.0 <= Cost(from, rects[i], dir)
  }

  /** The cheapest candidate of the first `n`, the first of equals. */
  predicate Cheapest(from: Rect, rects: seq<Rect>, dir: Direction, n: int, r: int) {
    && InPlay(from, rects, dir, r) && r < n
    && (forall j :: 0 <= j < n && InPlay(from, rects, dir, j) ==> Cost(from, rects[r], dir) <= Cost(from, rects[j], dir))
    && (forall j :: 0 <= j < r && InPlay(from, rects, dir, j) ==> Cost(from, rects[r], dir) < Cost(from, rects[j], dir))
  }

  /** A rectangle of another row, below for Right and above for Left. */
  predicate Beyond(from: Rect, r: Rect, dir: Direction) {
    !SameRow(from, r) && if dir.Right? then CentreY(r) > CentreY(from) else CentreY(r) < CentreY(from)
  }

  function Height(r: Rect, dir: Direction): real {
    if dir.Right? then CentreY(r) else -CentreY(r)
  }

  function Reach(r: Rect, dir: Direction): real {
    if dir.Right? then CentreX(r) else -CentreX(r)
  }

  /** The first rectangle of the nearest row that way, of the first `n`. */
  predicate NearestRow(from: Rect, rects: seq<Rect>, dir: Direction, n: int, row: int) {
    && 0 <= row < n <= |rects| && Beyond(from, rects[row], dir)
    && (forall j :: 0 <= j < n && Beyond(from, rects[j], dir) ==> Height(rects[row], dir) <= Height(rects[j], dir))
    && (forall j :: 0 <= j < row && Beyond(from, rects[j], dir) ==> Height(rects[row], dir) < Height(rects[j], dir))
  }

  /** The end of that row the arrow arrives at, among the first `n` and the row's own name. */
  predicate RowEnd(rects: seq<Rect>, row: int, dir: Direction, n: int, r: int) {
    && 0 <= row < |rects| && 0 <= r < |rects| && n <= |rects| && (r == row || (r < n && SameRow(rects[row], rects[r])))
    && Reach(rects[r], dir) <= Reach(rects[row], dir)
    && (forall j :: 0 <= j < n && SameRow(rects[row], rects[j]) ==> Reach(rects[r], dir) <= Reach(rects[j], dir))
    && (r != row ==> Reach(rects[r], dir) < Reach(rects[row], dir))
    && (r != row ==> forall j :: 0 <= j < r && SameRow(rects[row], rects[j]) ==> Reach(rects[r], dir) < Reach(rects[j], dir))
  }

  ghost predicate WrapsTo(from: Rect, rects: seq<Rect>, dir: Direction, r: int) {
    if dir.Up? || dir.Down? || forall j :: 0 <= j < |rects| ==> !Beyond(from, rects[j], dir) then r == -1
    else exists row :: NearestRow(from, rects, dir, |rects|, row) && RowEnd(rects, row, dir, |rects|, r)
  }

  ghost predicate Picks(from: Option<Rect>, rects: seq<Rect>, dir: Direction, r: int) {
    if rects == [] then r == -1
    else if from.None? then r == 0
    else if exists i :: InPlay(from.value, rects, dir, i) then Cheapest(from.value, rects, dir, |rects|, r)
    else WrapsTo(from.value, rects, dir, r)
  }

  method Wrap(from: Rect, rects: seq<Rect>, dir: Direction) returns (best: int)
    ensures WrapsTo(from, rects, dir, best)
  {
    if !dir.Left? && !dir.Right? { return -1; }
    var row := -1;
    for i := 0 to |rects|
      invariant row == -1 ==> forall j :: 0 <= j < i ==> !Beyond(from, rects[j], dir)
      invariant row != -1 ==> NearestRow(from, rects, dir, i, row)
    {
      var r := rects[i];
      if SameRow(from, r) { continue; }
      if if dir.Right? then CentreY(r) <= CentreY(from) else CentreY(r) >= CentreY(from) { continue; }
      if row < 0 || (if dir.Right? then CentreY(r) < CentreY(rects[row]) else CentreY(r) > CentreY(rects[row])) {
        row := i;
      }
    }
    if row < 0 { return -1; }
    best := row;
    for i := 0 to |rects|
      invariant RowEnd(rects, row, dir, i, best)
    {
      if !SameRow(rects[row], rects[i]) { continue; }
      if if dir.Right? then CentreX(rects[i]) < CentreX(rects[best]) else CentreX(rects[i]) > CentreX(rects[best]) {
        best := i;
      }
    }
  }

  method Pick(from: Option<Rect>, rects: seq<Rect>, dir: Direction) returns (best: int)
    ensures Picks(from, rects, dir, best)
  {
    if |rects| == 0 { return -1; }
    if from.None? { return 0; }
    best := -1;
    var bestCost := 0.0;  // means something once there is a best
    for i := 0 to |rects|
      invariant best == -1 ==> forall j :: 0 <= j < i ==> !InPlay(from.value, rects, dir, j)
      invariant best != -1 ==> Cheapest(from.value, rects, dir, i, best) && bestCost == Cost(from.value, rects[best], dir)
    {
      var c := Cost(from.value, rects[i], dir);
      if c < 0.0 || (best >= 0 && c >= bestCost) { continue; }
      best, bestCost := i, c;
    }
    if best < 0 {
      best := Wrap(from.value, rects, dir);
    }
  }
}
