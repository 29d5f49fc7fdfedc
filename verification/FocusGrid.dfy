/** Where the four arrows lead on a grid of tiles, its last row possibly short. */
module FocusGrid {
  import opened Options
  import opened Focus

  /** `n` tiles in rows of `cols`: the size of a tile, and the pitch of one to the next, more
      than the tile by a positive gap and more than a rounding error. */
  datatype Grid = Grid(cols: nat, n: nat, x: real, y: real, w: real, h: real, px: real, py: real) {
    predicate Uniform() {
      cols >= 1 && 0.0 <= w < px && 0.0 <= h < py && EPS < px && EPS < py
    }

    function Tile(k: nat): Rect
      requires cols >= 1
    {
      var l, t := x + Mul(k % cols, px), y + Mul(k / cols, py);
      Rect(l, t, l + w, t + h)
    }

    function Tiles(): (s: seq<Rect>)
      requires cols >= 1
      ensures |s| == n
    {
      seq(n, k requires 0 <= k => Tile(k))
    }

    /** Where an arrow leads from tile `k`, -1 for nowhere. */
    function Lands(k: nat, dir: Direction): int
      requires cols >= 1
    {
      match dir
      case Left => k - 1
      case Right => if k + 1 < n then k + 1 else if k % cols == cols - 1 || k < cols then -1 else k + 1 - cols
      case Up => if k >= cols then k - cols else -1
      case Down => if k + cols < n then k + cols else if k / cols < (n - 1) / cols then n - 1 else -1
    }
  }

  function Mul(d: int, p: real): real {
    d as real * p
  }

  lemma MulFacts(a: int, b: int, p: real)
    requires 0.0 < p
    ensures Mul(a, p) - Mul(b, p) == Mul(a - b, p)
    ensures a < b ==> Mul(a, p) + p <= Mul(b, p)
    ensures Mul(0, p) == 0.0 && Mul(1, p) == p
  {
    assert Mul(a, p) - Mul(b, p) == (a as real - b as real) * p;
    if a < b {
      assert (b as real - a as real) * p >= 1.0 * p;
    }
  }

  /** A tile's row and column name it. */
  lemma Place(cols: nat, k: nat, row: nat, col: nat)
    requires 1 <= cols && col < cols
    ensures k == row * cols + col <==> k / cols == row && k % cols == col
  {
    assert k == k / cols * cols + k % cols;
    if k == row * cols + col {
      SameDivision(cols, k / cols, k % cols, row, col);
    }
  }

  lemma SameTile(cols: nat, j: nat, k: nat)
    requires cols >= 1 && j / cols == k / cols && j % cols == k % cols
    ensures j == k
  {
    Place(cols, k, k / cols, k % cols);
    Place(cols, j, k / cols, k % cols);
  }

  lemma SameDivision(cols: nat, q: nat, r: nat, row: nat, col: nat)
    requires r < cols && col < cols && q * cols + r == row * cols + col
    ensures q == row && r == col
  {
    if q < row {
      Multiples(cols, q, row);
    } else if row < q {
      Multiples(cols, row, q);
    }
  }

  lemma {:induction false} Multiples(cols: nat, a: nat, b: nat)
    ensures a < b ==> a * cols + cols <= b * cols
    ensures a <= b ==> a * cols <= b * cols
    decreases b
  {
    if a < b {
      Multiples(cols, a, b - 1);
      assert b * cols == (b - 1) * cols + cols;
    }
  }

  /** One tile against another: how far along, how far apart. */
  lemma TileToTile(g: Grid, k: nat, j: nat)
    requires g.Uniform()
    ensures var dc, dr := j % g.cols - k % g.cols, j / g.cols - k / g.cols;
      var a, b := g.Tile(k), g.Tile(j);
      && CentreX(b) - CentreX(a) == Mul(dc, g.px)
      && CentreY(b) - CentreY(a) == Mul(dr, g.py)
      && Gap(a.top, a.bottom, b.top, b.bottom) == Apart(dr, g.py, g.h)
      && Gap(a.left, a.right, b.left, b.right) == Apart(dc, g.px, g.w)
  {
    var dc, dr := j % g.cols - k % g.cols, j / g.cols - k / g.cols;
    MulFacts(j % g.cols, k % g.cols, g.px);
    MulFacts(j / g.cols, k / g.cols, g.py);
    MulFacts(k % g.cols, j % g.cols, g.px);
    MulFacts(k / g.cols, j / g.cols, g.py);
    MulFacts(0, dc, g.px);
    MulFacts(0, dr, g.py);
    MulFacts(dc, 0, g.px);
    MulFacts(dr, 0, g.py);
  }

  function Apart(d: int, p: real, size: real): real {
    if d == 0 then 0.0 else if d > 0 then Mul(d, p) - size else Mul(-d, p) - size
  }

  /** How far along and how far across, in tiles, one is from another for an arrow. */
  function Forward(g: Grid, k: nat, j: nat, dir: Direction): int
    requires g.cols >= 1
  {
    match dir
    case Left => k % g.cols - j % g.cols
    case Right => j % g.cols - k % g.cols
    case Up => k / g.cols - j / g.cols
    case Down => j / g.cols - k / g.cols
  }

  function Sideways(g: Grid, k: nat, j: nat, dir: Direction): int
    requires g.cols >= 1
  {
    if dir.Left? || dir.Right? then j / g.cols - k / g.cols else j % g.cols - k % g.cols
  }

  function GridCost(g: Grid, dir: Direction, forward: int, sideways: int): real {
    if forward <= 0 then -1.0
    else if dir.Left? || dir.Right? then Mul(forward, g.px) + CROSS * Apart(sideways, g.py, g.h)
    else Mul(forward, g.py) + CROSS * Apart(sideways, g.px, g.w)
  }

  lemma CostOnGrid(g: Grid, k: nat, j: nat, dir: Direction)
    requires g.Uniform()
    ensures Cost(g.Tile(k), g.Tile(j), dir) == GridCost(g, dir, Forward(g, k, j, dir), Sideways(g, k, j, dir))
    ensures Forward(g, k, j, dir) > 0 <==> 0.0 <= Cost(g.Tile(k), g.Tile(j), dir)
  {
    var f, s := Forward(g, k, j, dir), Sideways(g, k, j, dir);
    MeasureOnGrid(g, k, j, dir);
    if dir.Left? || dir.Right? { SignsOf(f, s, g.px, g.py, g.h); } else { SignsOf(f, s, g.py, g.px, g.w); }
  }

  lemma MeasureOnGrid(g: Grid, k: nat, j: nat, dir: Direction)
    requires g.Uniform()
    ensures var f, s := Forward(g, k, j, dir), Sideways(g, k, j, dir);
      && Along(g.Tile(k), g.Tile(j), dir) == Mul(f, if dir.Left? || dir.Right? then g.px else g.py)
      && Across(g.Tile(k), g.Tile(j), dir) == if dir.Left? || dir.Right? then Apart(s, g.py, g.h) else Apart(s, g.px, g.w)
  {
    TileToTile(g, k, j);
    var dc, dr := j % g.cols - k % g.cols, j / g.cols - k / g.cols;
    MulFacts(0, dc, g.px);
    MulFacts(0, dr, g.py);
  }

  lemma SignsOf(f: int, s: int, p: real, q: real, size: real)
    requires EPS < p && 0.0 <= size < q
    ensures f > 0 ==> Mul(f, p) > EPS
    ensures f <= 0 ==> Mul(f, p) <= 0.0
    ensures 0.0 <= Apart(s, q, size)
  {
    MulFacts(0, f, p);
    MulFacts(f, 0, p);
    MulFacts(0, s, q);
    MulFacts(0, -s, q);
  }

  /** A step nearer along and no further across is cheaper. */
  lemma NearerIsCheaper(g: Grid, dir: Direction, f: int, s: int, f': int, s': int)
    requires g.Uniform() && 0 < f <= f' && Abs(s) <= Abs(s') && (f < f' || Abs(s) < Abs(s'))
    ensures GridCost(g, dir, f, s) < GridCost(g, dir, f', s')
  {
    var p, q := if dir.Left? || dir.Right? then g.px else g.py, if dir.Left? || dir.Right? then g.py else g.px;
    MulFacts(f, f', p);
    MulFacts(Abs(s), Abs(s'), q);
    MulFacts(0, Abs(s'), q);
  }

  function Abs(d: int): int {
    if d < 0 then -d else d
  }

  // ── the arrow that finds something ────────────────────────────────────

  /** Every other tile that way is further along, or further across. */
  ghost predicate Nearest(g: Grid, k: nat, dir: Direction, t: nat)
    requires g.cols >= 1
  {
    && t < g.n && 0 < Forward(g, k, t, dir)
    && forall j: nat :: j < g.n && j != t && 0 < Forward(g, k, j, dir) ==>
         && Forward(g, k, t, dir) <= Forward(g, k, j, dir) && Abs(Sideways(g, k, t, dir)) <= Abs(Sideways(g, k, j, dir))
         && (Forward(g, k, t, dir) < Forward(g, k, j, dir) || Abs(Sideways(g, k, t, dir)) < Abs(Sideways(g, k, j, dir)))
  }

  lemma NearestIsPicked(g: Grid, k: nat, dir: Direction, t: nat, r: int)
    requires g.Uniform() && Nearest(g, k, dir, t) && Picks(Some(g.Tile(k)), g.Tiles(), dir, r)
    ensures r == t
  {
    var from, rects := g.Tile(k), g.Tiles();
    CostOnGrid(g, k, t, dir);
    assert InPlay(from, rects, dir, t);
    assert Cheapest(from, rects, dir, |rects|, r);
    CostOnGrid(g, k, r, dir);
    if r != t {
      NearerIsCheaper(g, dir, Forward(g, k, t, dir), Sideways(g, k, t, dir), Forward(g, k, r, dir), Sideways(g, k, r, dir));
    }
  }

  /** The tile one along and none across is the nearest there can be. */
  lemma OneAlong(g: Grid, k: nat, dir: Direction, t: nat)
    requires g.Uniform() && t < g.n && Forward(g, k, t, dir) == 1 && Sideways(g, k, t, dir) == 0
    ensures Nearest(g, k, dir, t)
  {
    forall j: nat | j < g.n && j != t && 0 < Forward(g, k, j, dir)
      ensures 1 < Forward(g, k, j, dir) || 0 < Abs(Sideways(g, k, j, dir))
    {
      if j / g.cols == t / g.cols && j % g.cols == t % g.cols { SameTile(g.cols, j, t); }
    }
  }

  /** Row and column of a tile named by its neighbours. */
  lemma Around(cols: nat, k: nat)
    requires cols >= 1
    ensures k % cols + 1 < cols ==> (k + 1) / cols == k / cols && (k + 1) % cols == k % cols + 1
    ensures k % cols + 1 == cols ==> (k + 1) / cols == k / cols + 1 && (k + 1) % cols == 0
    ensures (k + cols) / cols == k / cols + 1 && (k + cols) % cols == k % cols
    ensures k >= cols <==> k / cols >= 1
  {
    NextTile(cols, k);
    BelowTile(cols, k);
    FirstRow(cols, k);
  }

  lemma NextTile(cols: nat, k: nat)
    requires cols >= 1
    ensures k % cols + 1 < cols ==> (k + 1) / cols == k / cols && (k + 1) % cols == k % cols + 1
    ensures k % cols + 1 == cols ==> (k + 1) / cols == k / cols + 1 && (k + 1) % cols == 0
  {
    var row, col := k / cols, k % cols;
    Place(cols, k, row, col);
    if col + 1 < cols {
      Place(cols, k + 1, row, col + 1);
    } else {
      assert (row + 1) * cols == row * cols + cols;
      Place(cols, k + 1, row + 1, 0);
    }
  }

  lemma BelowTile(cols: nat, k: nat)
    requires cols >= 1
    ensures (k + cols) / cols == k / cols + 1 && (k + cols) % cols == k % cols
  {
    var row, col := k / cols, k % cols;
    Place(cols, k, row, col);
    assert (row + 1) * cols == row * cols + cols;
    Place(cols, k + cols, row + 1, col);
  }

  lemma FirstRow(cols: nat, k: nat)
    requires cols >= 1
    ensures k >= cols <==> k / cols >= 1
  {
    var row, col := k / cols, k % cols;
    Place(cols, k, row, col);
    if row >= 1 { Multiples(cols, 1, row); }
  }

  lemma RowsAscend(cols: nat, j: nat, k: nat)
    requires cols >= 1 && j <= k
    ensures j / cols <= k / cols && (j / cols == k / cols ==> j % cols <= k % cols)
  {
    Place(cols, j, j / cols, j % cols);
    Place(cols, k, k / cols, k % cols);
    Multiples(cols, k / cols, j / cols);
  }

  /** From the end of a short last row, Right goes up a row and on. */
  lemma ShortRowClimbs(g: Grid, k: nat)
    requires g.Uniform() && k + 1 == g.n && k % g.cols + 1 < g.cols && g.cols <= k
    ensures Nearest(g, k, Right, k + 1 - g.cols)
  {
    var t: nat := k + 1 - g.cols;
    Around(g.cols, k);
    Around(g.cols, t);
    forall j: nat | j < g.n && j != t && 0 < Forward(g, k, j, Right)
      ensures 1 <= Abs(Sideways(g, k, j, Right))
      ensures 1 < Forward(g, k, j, Right) || 1 < Abs(Sideways(g, k, j, Right))
    {
      RowsAscend(g.cols, j, k);
      if j / g.cols == t / g.cols && j % g.cols == t % g.cols { SameTile(g.cols, j, t); }
    }
  }

  /** With nothing straight below, Down takes the last tile of the short last row. */
  lemma DownToTheLast(g: Grid, k: nat)
    requires g.Uniform() && k < g.n <= k + g.cols && k / g.cols < (g.n - 1) / g.cols
    ensures Nearest(g, k, Down, g.n - 1)
  {
    var t: nat := g.n - 1;
    Around(g.cols, k);
    RowsAscend(g.cols, t, k + g.cols);
    Place(g.cols, k + g.cols, t / g.cols, t % g.cols);
    Place(g.cols, t, t / g.cols, t % g.cols);
    forall j: nat | j < g.n && j != t && 0 < Forward(g, k, j, Down)
      ensures Forward(g, k, j, Down) == 1 == Forward(g, k, t, Down)
      ensures Abs(Sideways(g, k, t, Down)) < Abs(Sideways(g, k, j, Down))
    {
      RowsAscend(g.cols, j, t);
      if j / g.cols == t / g.cols && j % g.cols == t % g.cols { SameTile(g.cols, j, t); }
    }
  }

  // ── the arrow that finds nothing ──────────────────────────────────────

  lemma BeyondOnGrid(g: Grid, k: nat, j: nat, dir: Direction)
    requires g.Uniform() && (dir.Left? || dir.Right?)
    ensures Beyond(g.Tile(k), g.Tile(j), dir) <==> if dir.Right? then j / g.cols > k / g.cols else j / g.cols < k / g.cols
    ensures SameRow(g.Tile(k), g.Tile(j)) <==> j / g.cols == k / g.cols
    ensures Height(g.Tile(k), dir) <= Height(g.Tile(j), dir) <==>
      if dir.Right? then k / g.cols <= j / g.cols else j / g.cols <= k / g.cols
    ensures Reach(g.Tile(k), dir) <= Reach(g.Tile(j), dir) <==>
      if dir.Right? then k % g.cols <= j % g.cols else j % g.cols <= k % g.cols
  {
    var dc, dr := j % g.cols - k % g.cols, j / g.cols - k / g.cols;
    TileToTile(g, k, j);
    MulFacts(0, dc, g.px);
    MulFacts(dc, 0, g.px);
    MulFacts(0, dr, g.py);
    MulFacts(dr, 0, g.py);
    MulFacts(0, -dr, g.py);
  }

  lemma NothingThatWay(g: Grid, k: nat, dir: Direction, r: int)
    requires g.Uniform() && g.n > 0 && Picks(Some(g.Tile(k)), g.Tiles(), dir, r)
    requires forall j: nat :: j < g.n ==> Forward(g, k, j, dir) <= 0
    ensures WrapsTo(g.Tile(k), g.Tiles(), dir, r)
  {
    forall i | 0 <= i < g.n
      ensures !InPlay(g.Tile(k), g.Tiles(), dir, i)
    {
      CostOnGrid(g, k, i, dir);
    }
  }

  /** A wrap lands on tile `t`: the next row that way, and the end of it the arrow comes to. */
  lemma WrapsOnto(g: Grid, k: nat, dir: Direction, t: nat, r: int)
    requires g.Uniform() && t < g.n && WrapsTo(g.Tile(k), g.Tiles(), dir, r)
    requires (dir.Right? && t / g.cols == k / g.cols + 1 && t % g.cols == 0)
      || (dir.Left? && t / g.cols == k / g.cols - 1 && t % g.cols == g.cols - 1)
    ensures r == t
  {
    var from, rects := g.Tile(k), g.Tiles();
    BeyondOnGrid(g, k, t, dir);
    assert Beyond(from, rects[t], dir);
    var row :| NearestRow(from, rects, dir, |rects|, row) && RowEnd(rects, row, dir, |rects|, r);
    BeyondOnGrid(g, k, row, dir);
    BeyondOnGrid(g, row, t, dir);
    assert Height(rects[row], dir) <= Height(rects[t], dir);
    BeyondOnGrid(g, row, r, dir);
    BeyondOnGrid(g, row, row, dir);
    BeyondOnGrid(g, r, t, dir);
    assert SameRow(rects[row], rects[t]);
    assert r / g.cols == row / g.cols == t / g.cols;
    assert r % g.cols == t % g.cols;
    SameTile(g.cols, r, t);
  }

  lemma WrapsNowhere(g: Grid, k: nat, dir: Direction, r: int)
    requires g.Uniform() && WrapsTo(g.Tile(k), g.Tiles(), dir, r)
    requires forall j: nat :: j < g.n ==> if dir.Right? then j / g.cols <= k / g.cols else dir.Left? ==> j / g.cols >= k / g.cols
    ensures r == -1
  {
    if dir.Left? || dir.Right? {
      forall j | 0 <= j < g.n
        ensures !Beyond(g.Tile(k), g.Tiles()[j], dir)
      {
        BeyondOnGrid(g, k, j, dir);
      }
    }
  }

  // ── every press ───────────────────────────────────────────────────────

  lemma RightAlong(g: Grid, k: nat, r: int)
    requires g.Uniform() && k + 1 < g.n && k % g.cols + 1 < g.cols && Picks(Some(g.Tile(k)), g.Tiles(), Right, r)
    ensures r == k + 1
  {
    Around(g.cols, k);
    OneAlong(g, k, Right, k + 1);
    NearestIsPicked(g, k, Right, k + 1, r);
  }

  lemma NothingRight(g: Grid, k: nat, j: nat)
    requires g.cols >= 1 && k < g.n && j < g.n && (k % g.cols + 1 == g.cols || (k + 1 == g.n && k < g.cols))
    ensures Forward(g, k, j, Right) <= 0
    ensures k + 1 == g.n ==> j / g.cols <= k / g.cols
  {
    Around(g.cols, k);
    if k + 1 == g.n { RowsAscend(g.cols, j, k); }
  }

  lemma RightAtTheEnd(g: Grid, k: nat, r: int)
    requires g.Uniform() && k < g.n && Picks(Some(g.Tile(k)), g.Tiles(), Right, r)
    requires k % g.cols + 1 == g.cols || (k + 1 == g.n && k < g.cols)
    ensures r == if k + 1 < g.n then k + 1 else -1
  {
    forall j: nat | j < g.n
      ensures Forward(g, k, j, Right) <= 0
      ensures k + 1 == g.n ==> j / g.cols <= k / g.cols
    {
      NothingRight(g, k, j);
    }
    NothingThatWay(g, k, Right, r);
    Around(g.cols, k);
    if k + 1 < g.n { WrapsOnto(g, k, Right, k + 1, r); } else { WrapsNowhere(g, k, Right, r); }
  }

  lemma RightLands(g: Grid, k: nat, r: int)
    requires g.Uniform() && k < g.n && Picks(Some(g.Tile(k)), g.Tiles(), Right, r)
    ensures r == g.Lands(k, Right)
  {
    if k % g.cols + 1 == g.cols || (k + 1 == g.n && k < g.cols) {
      RightAtTheEnd(g, k, r);
    } else if k + 1 < g.n {
      RightAlong(g, k, r);
    } else {
      ShortRowClimbs(g, k);
      NearestIsPicked(g, k, Right, k + 1 - g.cols, r);
    }
  }

  lemma OneBack(g: Grid, k: nat, t: nat)
    requires g.cols >= 1 && k == t + 1
    ensures k % g.cols > 0 ==> Forward(g, k, t, Left) == 1 && Sideways(g, k, t, Left) == 0
    ensures k % g.cols == 0 ==> t / g.cols == k / g.cols - 1 && t % g.cols == g.cols - 1
  {
    Around(g.cols, t);
  }

  lemma LeftAlong(g: Grid, k: nat, r: int)
    requires g.Uniform() && 0 < k < g.n && k % g.cols > 0 && Picks(Some(g.Tile(k)), g.Tiles(), Left, r)
    ensures r == k - 1
  {
    var t: nat := k - 1;
    OneBack(g, k, t);
    OneAlong(g, k, Left, t);
    NearestIsPicked(g, k, Left, t, r);
  }

  lemma LeftAtTheStart(g: Grid, k: nat, r: int)
    requires g.Uniform() && k < g.n && k % g.cols == 0 && Picks(Some(g.Tile(k)), g.Tiles(), Left, r)
    ensures r == k - 1
  {
    forall j: nat | j < g.n
      ensures Forward(g, k, j, Left) <= 0
    {
    }
    NothingThatWay(g, k, Left, r);
    if k > 0 { LeftWraps(g, k, r); } else { LeftStops(g, r); }
  }

  lemma LeftWraps(g: Grid, k: nat, r: int)
    requires g.Uniform() && 0 < k < g.n && k % g.cols == 0 && WrapsTo(g.Tile(k), g.Tiles(), Left, r)
    ensures r == k - 1
  {
    var t: nat := k - 1;
    OneBack(g, k, t);
    WrapsOnto(g, k, Left, t, r);
  }

  lemma LeftStops(g: Grid, r: int)
    requires g.Uniform() && WrapsTo(g.Tile(0), g.Tiles(), Left, r)
    ensures r == -1
  {
    Place(g.cols, 0, 0, 0);
    forall j: nat | j < g.n
      ensures j / g.cols >= 0 / g.cols
    {
      RowsAscend(g.cols, 0, j);
    }
    WrapsNowhere(g, 0, Left, r);
  }

  lemma LeftLands(g: Grid, k: nat, r: int)
    requires g.Uniform() && k < g.n && Picks(Some(g.Tile(k)), g.Tiles(), Left, r)
    ensures r == k - 1
  {
    Place(g.cols, 0, 0, 0);
    if k == 0 {
      LeftAtTheStart(g, k, r);
    } else if k % g.cols == 0 {
      LeftAtTheStart(g, k, r);
    } else {
      LeftAlong(g, k, r);
    }
  }

  lemma OneUp(g: Grid, k: nat, t: nat)
    requires g.cols >= 1 && k == t + g.cols
    ensures Forward(g, k, t, Up) == 1 && Sideways(g, k, t, Up) == 0
    ensures Forward(g, t, k, Down) == 1 && Sideways(g, t, k, Down) == 0
  {
    Around(g.cols, t);
  }

  lemma UpAlong(g: Grid, k: nat, r: int)
    requires g.Uniform() && g.cols <= k < g.n && Picks(Some(g.Tile(k)), g.Tiles(), Up, r)
    ensures r == k - g.cols
  {
    var t: nat := k - g.cols;
    OneUp(g, k, t);
    OneAlong(g, k, Up, t);
    NearestIsPicked(g, k, Up, t, r);
  }

  lemma NothingUp(g: Grid, k: nat, j: nat)
    requires 1 <= g.cols && k < g.cols
    ensures Forward(g, k, j, Up) <= 0
  {
    Around(g.cols, k);
    RowsAscend(g.cols, 0, j);
  }

  lemma UpLands(g: Grid, k: nat, r: int)
    requires g.Uniform() && k < g.n && Picks(Some(g.Tile(k)), g.Tiles(), Up, r)
    ensures r == if k >= g.cols then k - g.cols else -1
  {
    if g.cols <= k {
      UpAlong(g, k, r);
    } else {
      forall j: nat | j < g.n
        ensures Forward(g, k, j, Up) <= 0
      {
        NothingUp(g, k, j);
      }
      NothingThatWay(g, k, Up, r);
    }
  }

  lemma DownLands(g: Grid, k: nat, r: int)
    requires g.Uniform() && k < g.n && Picks(Some(g.Tile(k)), g.Tiles(), Down, r)
    ensures r == g.Lands(k, Down)
  {
    if k + g.cols < g.n {
      OneUp(g, k + g.cols, k);
      OneAlong(g, k, Down, k + g.cols);
      NearestIsPicked(g, k, Down, k + g.cols, r);
    } else if k / g.cols < (g.n - 1) / g.cols {
      DownToTheLast(g, k);
      NearestIsPicked(g, k, Down, g.n - 1, r);
    } else {
      forall j: nat | j < g.n
        ensures Forward(g, k, j, Down) <= 0
      {
        RowsAscend(g.cols, j, g.n - 1);
      }
      NothingThatWay(g, k, Down, r);
    }
  }

  /** The whole table: from every tile of every uniform grid, each arrow goes where `Lands`
      says and nowhere else. */
  lemma EveryPressLands(g: Grid, k: nat, dir: Direction, r: int)
    requires g.Uniform() && k < g.n && Picks(Some(g.Tile(k)), g.Tiles(), dir, r)
    ensures r == g.Lands(k, dir)
  {
    match dir {
      case Left => LeftLands(g, k, r);
      case Right => RightLands(g, k, r);
      case Up => UpLands(g, k, r);
      case Down => DownLands(g, k, r);
    }
  }

  /** A walk of presses, each from the tile the one before it landed on. */
  ghost predicate Walk(g: Grid, path: seq<int>, dirs: seq<Direction>)
    requires g.cols >= 1
  {
    && |path| == |dirs| + 1
    && forall i :: 0 <= i < |dirs| ==> 0 <= path[i] < g.n && Picks(Some(g.Tile(path[i])), g.Tiles(), dirs[i], path[i + 1])
  }

  /** Right walks the tiles in reading order, across every row end, all the way to the last. */
  lemma {:induction false} RightReadsOn(g: Grid, path: seq<int>, presses: nat)
    requires g.Uniform() && presses < g.n && Walk(g, path, seq(presses, i => Right)) && path[0] == 0
    ensures path[presses] == presses
  {
    if presses > 0 {
      assert Walk(g, path[..presses], seq(presses - 1, i => Right));
      RightReadsOn(g, path[..presses], presses - 1);
      EveryPressLands(g, presses - 1, Right, path[presses]);
    }
  }

  /** Left takes back any press of Right but the climb off a short last row, and Up any press
      of Down onto the same column. */
  lemma PressesUndone(g: Grid, k: nat, there: int, back: int)
    requires g.Uniform() && k < g.n
    ensures Walk(g, [k, there, back], [Right, Left]) && k + 1 < g.n ==> back == k
    ensures Walk(g, [k, there, back], [Down, Up]) && k + g.cols < g.n ==> back == k
  {
    if Walk(g, [k, there, back], [Right, Left]) && k + 1 < g.n {
      TwoPresses(g, [k, there, back], Right, Left);
    }
    if Walk(g, [k, there, back], [Down, Up]) && k + g.cols < g.n {
      TwoPresses(g, [k, there, back], Down, Up);
    }
  }

  lemma TwoPresses(g: Grid, path: seq<int>, first: Direction, second: Direction)
    requires g.Uniform() && Walk(g, path, [first, second])
    ensures path[1] == g.Lands(path[0], first) && path[2] == g.Lands(path[1], second)
  {
    assert [first, second][0] == first && [first, second][1] == second;
    EveryPressLands(g, path[0], first, path[1]);
    EveryPressLands(g, path[1], second, path[2]);
  }
}
