/** "Because you watched" (cmd/server/library.go): the strongest seed that has anything to
    suggest, and the unwatched tiles most like it. */
module BecauseRow {
  import opened Options
  import opened StableSort
  import opened Shelves
  import opened ShelfRows

  // ── works by rank ─────────────────────────────────────────────────────

  /** What both orders go by: one number first, another to break ties, the higher the sooner. */
  datatype Rank = Rank(major: real, minor: real)

  datatype Ranked = Ranked(work: Work, rank: Rank)

  predicate Outranks(a: Rank, b: Rank) {
    if a.major != b.major then a.major > b.major else a.minor > b.minor
  }

  predicate Before(a: Ranked, b: Ranked) {
    Outranks(a.rank, b.rank)
  }

  /** The works `rank` places at all. */
  function Placed(rank: Work -> Option<Rank>): Work -> bool {
    (w: Work) => rank(w).Some?
  }

  predicate Sooner(rank: Work -> Option<Rank>, a: Work, b: Work) {
    rank(a).Some? && rank(b).Some? && Outranks(rank(a).value, rank(b).value)
  }

  function RankedOne(w: Work, rank: Work -> Option<Rank>): seq<Ranked> {
    if rank(w).Some? then [Ranked(w, rank(w).value)] else []
  }

  function RankedIn(ws: seq<Work>, rank: Work -> Option<Rank>): seq<Ranked> {
    if ws == [] then [] else RankedOne(ws[0], rank) + RankedIn(ws[1..], rank)
  }

  function WorksIn(rows: seq<Ranked>): (ws: seq<Work>)
    ensures |ws| == |rows|
    ensures forall i :: 0 <= i < |ws| ==> ws[i] == rows[i].work
  {
    if rows == [] then [] else [rows[0].work] + WorksIn(rows[1..])
  }

  /** The works placed, in order. */
  function ByRank(ws: seq<Work>, rank: Work -> Option<Rank>): seq<Work> {
    WorksIn(Sort(RankedIn(ws, rank), Before))
  }

  lemma {:induction false} RankedConcat(a: seq<Work>, b: seq<Work>, rank: Work -> Option<Rank>)
    ensures RankedIn(a + b, rank) == RankedIn(a, rank) + RankedIn(b, rank)
  {
    if a == [] {
      assert a + b == b;
    } else {
      RankedConcat(a[1..], b, rank);
      assert (a + b)[0] == a[0] && (a + b)[1..] == a[1..] + b;
      Regroup(RankedOne(a[0], rank), RankedIn(a[1..], rank), RankedIn(b, rank));
    }
  }

  lemma Regroup(x: seq<Ranked>, y: seq<Ranked>, z: seq<Ranked>)
    ensures x + (y + z) == (x + y) + z
  {
  }

  /** Of `rows`, all are works placed where `rank` places them. */
  ghost predicate Honest(rows: seq<Ranked>, rank: Work -> Option<Rank>) {
    forall i :: 0 <= i < |rows| ==> rank(rows[i].work) == Some(rows[i].rank)
  }

  lemma {:induction false} RankedAreHonest(ws: seq<Work>, rank: Work -> Option<Rank>)
    ensures Honest(RankedIn(ws, rank), rank)
    ensures WorksIn(RankedIn(ws, rank)) == Filter(ws, Placed(rank))
  {
    if ws != [] {
      RankedAreHonest(ws[1..], rank);
    }
  }

  lemma HonestAfterSort(rows: seq<Ranked>, rank: Work -> Option<Rank>)
    requires Honest(rows, rank)
    ensures Honest(Sort(rows, Before), rank)
  {
    SortPermutes(rows, Before);
    forall i | 0 <= i < |rows|
      ensures rank(Sort(rows, Before)[i].work) == Some(Sort(rows, Before)[i].rank)
    {
      assert Sort(rows, Before)[i] in multiset(rows);
    }
  }

  lemma {:induction false} WorksAfterInsert(x: Ranked, s: seq<Ranked>)
    ensures multiset(WorksIn(Insert(x, s, Before))) == multiset{x.work} + multiset(WorksIn(s))
  {
    if s != [] && Before(s[0], x) {
      WorksAfterInsert(x, s[1..]);
      assert WorksIn(s) == [s[0].work] + WorksIn(s[1..]);
      assert Insert(x, s, Before)[1..] == Insert(x, s[1..], Before);
      assert WorksIn(Insert(x, s, Before)) == [s[0].work] + WorksIn(Insert(x, s[1..], Before));
    } else {
      assert ([x] + s)[1..] == s;
      assert WorksIn([x] + s) == [x.work] + WorksIn(s);
    }
  }

  lemma {:induction false} WorksAfterSort(s: seq<Ranked>)
    ensures multiset(WorksIn(Sort(s, Before))) == multiset(WorksIn(s))
  {
    if s != [] {
      WorksAfterSort(s[1..]);
      WorksAfterInsert(s[0], Sort(s[1..], Before));
      assert WorksIn(s) == [s[0].work] + WorksIn(s[1..]);
    }
  }

  function Exactly(rank: Work -> Option<Rank>, r: Rank): Work -> bool {
    (w: Work) => rank(w) == Some(r)
  }

  function RankedExactly(r: Rank): Ranked -> bool {
    (row: Ranked) => row.rank == r
  }

  lemma {:induction false} FilterByRank(rows: seq<Ranked>, rank: Work -> Option<Rank>, r: Rank)
    requires Honest(rows, rank)
    ensures Filter(WorksIn(rows), Exactly(rank, r)) == WorksIn(Filter(rows, RankedExactly(r)))
  {
    if rows != [] {
      assert WorksIn(rows)[1..] == WorksIn(rows[1..]);
      FilterByRank(rows[1..], rank, r);
    }
  }

  /** Sorting by rank: exactly the works placed, none ahead of one that outranks it, and works
      of one rank in the library's own order. */
  lemma ByRankIsExact(ws: seq<Work>, rank: Work -> Option<Rank>, r: Rank)
    ensures multiset(ByRank(ws, rank)) == multiset(Filter(ws, Placed(rank)))
    ensures forall i, j :: 0 <= i < j < |ByRank(ws, rank)| ==> !Sooner(rank, ByRank(ws, rank)[j], ByRank(ws, rank)[i])
    ensures Filter(ByRank(ws, rank), Exactly(rank, r)) == Filter(ws, Exactly(rank, r))
  {
    var rows := RankedIn(ws, rank);
    RankedAreHonest(ws, rank);
    HonestAfterSort(rows, rank);
    SortPermutes(rows, Before);
    SortOrders(rows, Before);
    SortStable(rows, Before, RankedExactly(r));
    WorksAfterSort(rows);
    FilterByRank(rows, rank, r);
    FilterByRank(Sort(rows, Before), rank, r);
    FilterTwice(ws, Placed(rank), Exactly(rank, r), Exactly(rank, r));
  }

  // ── what is alike ─────────────────────────────────────────────────────

  function GenreOf(a: Work): string -> bool {
    (g: string) => g != "" && g in a.genres
  }

  function Shared(a: Work, b: Work): nat {
    |Filter(b.genres, GenreOf(a))|
  }

  method SharedGenres(a: Option<Work>, b: Option<Work>) returns (n: nat)
    ensures n == if a.Some? && b.Some? then Shared(a.value, b.value) else 0
    ensures a.Some? && b.Some? ==> n == InCommon(a.value, b.value)
  {
    if a.None? || b.None? { return 0; }
    var have: set<string> := {};
    for i := 0 to |a.value.genres|
      invariant forall g :: g in have <==> g != "" && g in a.value.genres[..i]
    {
      assert a.value.genres[..i + 1] == a.value.genres[..i] + [a.value.genres[i]];
      if a.value.genres[i] != "" {
        have := have + {a.value.genres[i]};
      }
    }
    assert a.value.genres[..|a.value.genres|] == a.value.genres;
    n := 0;
    var genres := b.value.genres;
    for i := 0 to |genres|
      invariant n == |Filter(genres[..i], GenreOf(a.value))|
    {
      FilterConcat(genres[..i], [genres[i]], GenreOf(a.value));
      assert genres[..i + 1] == genres[..i] + [genres[i]];
      if genres[i] in have {
        n := n + 1;
      }
    }
    assert genres[..|genres|] == genres;
    SharedIsInCommon(a.value, b.value);
  }

  /** Being alike at all goes both ways, and is having some named genre in common. */
  lemma AlikeIsMutual(a: Work, b: Work)
    ensures Shared(a, b) > 0 <==> Shared(b, a) > 0
    ensures Shared(a, b) > 0 <==> exists g :: g in a.genres && g in b.genres && g != ""
  {
    FilterHolds(b.genres, GenreOf(a));
    FilterHolds(a.genres, GenreOf(b));
    assert Shared(a, b) > 0 ==> Filter(b.genres, GenreOf(a))[0] in Filter(b.genres, GenreOf(a));
    assert Shared(b, a) > 0 ==> Filter(a.genres, GenreOf(b))[0] in Filter(a.genres, GenreOf(b));
    forall g | g in a.genres && g in b.genres && g != ""
      ensures Shared(a, b) > 0 && Shared(b, a) > 0
    {
      assert g in Filter(b.genres, GenreOf(a));
      assert g in Filter(a.genres, GenreOf(b));
    }
  }

  /** Where a work stands among those like `wk`: by genres in common, then by arrival. */
  function AlikeRank(wk: Work, keep: Work -> bool): Work -> Option<Rank> {
    (c: Work) =>
      if keep(c) && Shared(wk, c) > 0 then Some(Rank(Shared(wk, c) as real, MaxAdded(c.items) as real)) else None
  }

  method Alike(wk: Work, ws: seq<Work>, keep: Work -> bool) returns (picks: seq<Work>)
    ensures picks == ByRank(ws, AlikeRank(wk, keep))
  {
    ghost var rank := AlikeRank(wk, keep);
    var rows: seq<Ranked> := [];
    for i := 0 to |ws|
      invariant rows == RankedIn(ws[..i], rank)
    {
      RankedConcat(ws[..i], [ws[i]], rank);
      assert ws[..i + 1] == ws[..i] + [ws[i]];
      assert RankedIn([ws[i]], rank) == RankedOne(ws[i], rank);
      if !keep(ws[i]) { continue; }
      var n := SharedGenres(Some(wk), Some(ws[i]));
      if n > 0 {
        var at := WorkAddedAt(Some(ws[i]));
        NewestIsOne(ws[i].items, at);
        rows := rows + [Ranked(ws[i], Rank(n as real, at as real))];
      }
    }
    assert ws[..|ws|] == ws;
    picks := WorksIn(Sort(rows, Before));
  }

  // ── the seeds ─────────────────────────────────────────────────────────

  predicate Watched(w: Work, positions: set<nat>) {
    exists it :: it in w.items && it.id in positions
  }

  /** `progress` is how far this profile is into each work and when it last touched it: absent
      for a work it has not been in. */
  method BecauseSeeds(ws: seq<Work>, progress: Work -> Option<Rank>) returns (seeds: seq<Work>)
    ensures seeds == ByRank(ws, progress)
  {
    var rows: seq<Ranked> := [];
    for i := 0 to |ws|
      invariant rows == RankedIn(ws[..i], progress)
    {
      RankedConcat(ws[..i], [ws[i]], progress);
      assert ws[..i + 1] == ws[..i] + [ws[i]];
      assert RankedIn([ws[i]], progress) == RankedOne(ws[i], progress);
      var pr := progress(ws[i]);
      if pr.None? { continue; }
      rows := rows + [Ranked(ws[i], pr.value)];
    }
    assert ws[..|ws|] == ws;
    seeds := WorksIn(Sort(rows, Before));
  }

  // ── the row ───────────────────────────────────────────────────────────

  /** The tile a work has of its own: the last the grid draws for its key, where it draws one. */
  function OwnTile(order: seq<Shelf>, k: Key): Option<Shelf> {
    if order == [] then None
    else
      var sh := order[|order| - 1];
      if sh.OfWork? && sh.work.key == k then Some(sh) else OwnTile(order[..|order| - 1], k)
  }

  function TilesOf(order: seq<Shelf>, ws: seq<Work>): seq<Shelf> {
    if ws == [] then []
    else
      var own := OwnTile(order, ws[|ws| - 1].key);
      TilesOf(order, ws[..|ws| - 1]) + if own.Some? then [own.value] else []
  }

  /** What a row of at most `n` holds, the row being full when its length is exactly `n`. */
  function Fill<T>(s: seq<T>, n: nat): seq<T> {
    if n == 0 then s else Take(s, n)
  }

  /** Not the seed, and nothing this profile has been in. */
  function NotYet(seed: Work, positions: set<nat>): Work -> bool {
    (c: Work) => c.key != seed.key && !Watched(c, positions)
  }

  /** What the row for one seed would hold. */
  function Suggestions(order: seq<Shelf>, ws: seq<Work>, positions: set<nat>, seed: Work, n: nat): seq<Shelf> {
    Fill(TilesOf(order, ByRank(ws, AlikeRank(seed, NotYet(seed, positions)))), n)
  }

  lemma {:induction false} TilesOfPrefix(order: seq<Shelf>, ws: seq<Work>, i: nat)
    requires i <= |ws|
    ensures TilesOf(order, ws[..i]) <= TilesOf(order, ws)
    decreases |ws| - i
  {
    if i < |ws| {
      assert ws[..i + 1][..i] == ws[..i];
      TilesOfPrefix(order, ws, i + 1);
    } else {
      assert ws[..i] == ws;
    }
  }

  method Picks(order: seq<Shelf>, shelfOf: map<Key, Shelf>, like: seq<Work>, n: nat) returns (picks: seq<Shelf>)
    requires forall k :: (if k in shelfOf then Some(shelfOf[k]) else None) == OwnTile(order, k)
    ensures picks == Fill(TilesOf(order, like), n)
  {
    picks := [];
    for i := 0 to |like|
      invariant picks == TilesOf(order, like[..i])
      invariant n != 0 ==> |picks| < n
    {
      assert like[..i + 1][..i] == like[..i];
      TilesOfPrefix(order, like, i + 1);
      if like[i].key in shelfOf {
        picks := picks + [shelfOf[like[i].key]];
        if |picks| == n { return; }
      }
    }
    assert like[..|like|] == like;
  }

  method ShelvesByKey(order: seq<Shelf>) returns (shelfOf: map<Key, Shelf>)
    ensures forall k :: (if k in shelfOf then Some(shelfOf[k]) else None) == OwnTile(order, k)
  {
    shelfOf := map[];
    for i := 0 to |order|
      invariant forall k :: (if k in shelfOf then Some(shelfOf[k]) else None) == OwnTile(order[..i], k)
    {
      assert order[..i + 1][..i] == order[..i];
      if order[i].OfWork? {
        shelfOf := shelfOf[order[i].work.key := order[i]];
      }
    }
    assert order[..|order|] == order;
  }

  function SuggestFor(order: seq<Shelf>, ws: seq<Work>, positions: set<nat>, n: nat): Work -> seq<Shelf> {
    (seed: Work) => Suggestions(order, ws, positions, seed, n)
  }

  /** No seed before the `i`th has anything to suggest. */
  ghost predicate NoneBefore(seeds: seq<Work>, suggest: Work -> seq<Shelf>, i: int) {
    forall j :: 0 <= j < i && j < |seeds| ==> suggest(seeds[j]) == []
  }

  /** `seed` is the first of `seeds` with anything to suggest. */
  ghost predicate StrongestWithAny(seeds: seq<Work>, suggest: Work -> seq<Shelf>, seed: Work) {
    suggest(seed) != [] && exists i :: 0 <= i < |seeds| && seeds[i] == seed && NoneBefore(seeds, suggest, i)
  }

  /** because: the row of the strongest seed that has one, no stronger seed having any; nothing
      exactly when nobody has watched anything or no seed has a suggestion. */
  method Because(order: seq<Shelf>, ws: seq<Work>, positions: set<nat>, progress: Work -> Option<Rank>, n: nat)
    returns (seed: Option<Work>, picks: seq<Shelf>)
    ensures match seed
      case Some(s) =>
        && positions != {} && picks == SuggestFor(order, ws, positions, n)(s)
        && StrongestWithAny(ByRank(ws, progress), SuggestFor(order, ws, positions, n), s)
      case None =>
        && picks == []
        && (positions == {} || forall s :: s in ByRank(ws, progress) ==> SuggestFor(order, ws, positions, n)(s) == [])
  {
    if positions == {} { return None, []; }
    var shelfOf := ShelvesByKey(order);
    var seeds := BecauseSeeds(ws, progress);
    ghost var suggest := SuggestFor(order, ws, positions, n);
    for i := 0 to |seeds|
      invariant NoneBefore(seeds, suggest, i)
    {
      picks := PicksFor(order, shelfOf, ws, positions, seeds[i], n);
      if |picks| > 0 { return Some(seeds[i]), picks; }
      NoneYet(seeds, suggest, i);
    }
    return None, [];
  }

  lemma NoneYet(seeds: seq<Work>, suggest: Work -> seq<Shelf>, i: nat)
    requires i < |seeds| && NoneBefore(seeds, suggest, i) && suggest(seeds[i]) == []
    ensures NoneBefore(seeds, suggest, i + 1)
  {
  }

  method PicksFor(order: seq<Shelf>, shelfOf: map<Key, Shelf>, ws: seq<Work>, positions: set<nat>, seed: Work, n: nat)
    returns (picks: seq<Shelf>)
    requires forall k :: (if k in shelfOf then Some(shelfOf[k]) else None) == OwnTile(order, k)
    ensures picks == SuggestFor(order, ws, positions, n)(seed)
  {
    var like := Alike(seed, ws, NotYet(seed, positions));
    picks := Picks(order, shelfOf, like, n);
  }

  // ── what a suggestion is ──────────────────────────────────────────────

  function Unshelved(artists: seq<Artist>): Work -> bool {
    (w: Work) => !StoodFor(artists, w)
  }

  lemma {:induction false} OwnTileIsThere(order: seq<Shelf>, k: Key)
    ensures OwnTile(order, k).Some? ==> OwnTile(order, k).value in order
    ensures OwnTile(order, k).Some? ==> OwnTile(order, k).value.OfWork? && OwnTile(order, k).value.work.key == k
    ensures OwnTile(order, k).None? ==> forall sh :: sh in order && sh.OfWork? ==> sh.work.key != k
  {
    if order != [] {
      OwnTileIsThere(order[..|order| - 1], k);
      assert order == order[..|order| - 1] + [order[|order| - 1]];
    }
  }

  /** A work has a tile of its own, in the band it belongs in, exactly when no artist's shelf
      stands for it. */
  lemma OwnTileExactly(ws: seq<Work>, artists: seq<Artist>, w: Work)
    requires DistinctKeys(ws) && w in ws
    ensures OwnTile(Order(ws, artists), w.key) == if StoodFor(artists, w) then None else Some(OfWork(w, BandOf(w)))
    ensures BelongsIn(w, BandOf(w))
    ensures StoodFor(artists, w) <==> w.key in Shelved(artists)
  {
    var own := OwnTile(Order(ws, artists), w.key);
    OwnTileIsThere(Order(ws, artists), w.key);
    BandIsWhereItBelongs(w, BandOf(w));
    ShelvedIsStoodFor(artists, w);
    TilesExactly(ws, artists, OfWork(w, BandOf(w)));
    if own.Some? {
      TilesExactly(ws, artists, own.value);
      SameKeySameWork(ws, own.value.work, w);
      BandIsWhereItBelongs(w, own.value.band);
    }
  }

  lemma {:induction false} TilesAreOwn(ws: seq<Work>, artists: seq<Artist>, like: seq<Work>)
    requires DistinctKeys(ws) && forall w :: w in like ==> w in ws
    ensures WorksOf(TilesOf(Order(ws, artists), like)) == Filter(like, Unshelved(artists))
    ensures forall sh :: sh in TilesOf(Order(ws, artists), like) ==> sh.OfWork? && sh in Order(ws, artists)
  {
    if like != [] {
      var rest, last := like[..|like| - 1], like[|like| - 1];
      assert like == rest + [last];
      TilesAreOwn(ws, artists, rest);
      assert last in like;
      OwnTileExactly(ws, artists, last);
      BandIsWhereItBelongs(last, BandOf(last));
      TilesExactly(ws, artists, OfWork(last, BandOf(last)));
      FilterConcat(rest, [last], Unshelved(artists));
      assert Filter([last], Unshelved(artists)) == if Unshelved(artists)(last) then [last] else [];
      var tile := if Unshelved(artists)(last) then [OfWork(last, BandOf(last))] else [];
      assert TilesOf(Order(ws, artists), like) == TilesOf(Order(ws, artists), rest) + tile;
      WorksOfConcat(TilesOf(Order(ws, artists), rest), tile);
      assert tile != [] ==> tile[..0] == [];
    }
  }

  lemma {:induction false} WorksOfTiles(tiles: seq<Shelf>)
    requires forall sh :: sh in tiles ==> sh.OfWork?
    ensures |WorksOf(tiles)| == |tiles|
    ensures forall i :: 0 <= i < |tiles| ==> tiles[i].OfWork? && WorksOf(tiles)[i] == tiles[i].work
  {
    if tiles != [] {
      WorksOfTiles(tiles[..|tiles| - 1]);
      assert tiles[|tiles| - 1] in tiles;
    }
  }

  lemma WorksOfFill(tiles: seq<Shelf>, n: nat)
    requires forall sh :: sh in tiles ==> sh.OfWork?
    ensures WorksOf(Fill(tiles, n)) == Fill(WorksOf(tiles), n)
  {
    WorksOfTiles(tiles);
    WorksOfTiles(Fill(tiles, n));
  }

  lemma RankedAreInLibrary(ws: seq<Work>, rank: Work -> Option<Rank>)
    ensures forall w :: w in ByRank(ws, rank) <==> w in ws && rank(w).Some?
  {
    ByRankIsExact(ws, rank, Rank(0.0, 0.0));
    FilterHolds(ws, Placed(rank));
    forall w
      ensures w in ByRank(ws, rank) <==> w in ws && rank(w).Some?
    {
      assert w in ByRank(ws, rank) <==> w in multiset(ByRank(ws, rank));
      assert w in Filter(ws, Placed(rank)) <==> w in multiset(Filter(ws, Placed(rank)));
    }
  }

  /** Over the library's own grid, a seed's suggestions are the works alike, in their order,
      less those an artist's shelf stands for: each by its own tile, no more than fit. */
  lemma SuggestionsAre(ws: seq<Work>, artists: seq<Artist>, positions: set<nat>, seed: Work, n: nat)
    requires DistinctKeys(ws)
    ensures WorksOf(Suggestions(Order(ws, artists), ws, positions, seed, n)) ==
      Fill(Filter(ByRank(ws, AlikeRank(seed, NotYet(seed, positions))), Unshelved(artists)), n)
    ensures forall sh :: sh in Suggestions(Order(ws, artists), ws, positions, seed, n) ==>
      sh.OfWork? && sh in Order(ws, artists)
  {
    var rank := AlikeRank(seed, NotYet(seed, positions));
    var like := ByRank(ws, rank);
    RankedAreInLibrary(ws, rank);
    TilesAreOwn(ws, artists, like);
    WorksOfFill(TilesOf(Order(ws, artists), like), n);
  }

  lemma {:induction false} FilterKeepsOrder(s: seq<Work>, p: Work -> bool, rank: Work -> Option<Rank>)
    requires forall i, j :: 0 <= i < j < |s| ==> !Sooner(rank, s[j], s[i])
    ensures var r := Filter(s, p); forall i, j :: 0 <= i < j < |r| ==> !Sooner(rank, r[j], r[i])
  {
    if s != [] {
      FilterKeepsOrder(s[1..], p, rank);
      FilterHolds(s[1..], p);
      var r := Filter(s[1..], p);
      forall j | 0 <= j < |r|
        ensures !Sooner(rank, r[j], s[0])
      {
        assert r[j] in s[1..];
        var k :| 0 < k < |s| && s[k] == r[j];
      }
    }
  }

  /** A suggestion is a work of the library with a tile of its own, shares a named genre with
      the seed, is not the seed and nothing this profile has been in. */
  predicate Suits(ws: seq<Work>, artists: seq<Artist>, positions: set<nat>, seed: Work, w: Work) {
    && w in ws && w.key != seed.key && (forall it :: it in w.items ==> it.id !in positions)
    && (exists g :: g in seed.genres && g in w.genres && g != "")
    && !StoodFor(artists, w) && OwnTile(Order(ws, artists), w.key) == Some(OfWork(w, BandOf(w))) && BelongsIn(w, BandOf(w))
  }

  lemma PlacedSuits(ws: seq<Work>, artists: seq<Artist>, positions: set<nat>, seed: Work, w: Work)
    requires DistinctKeys(ws) && w in ws && !StoodFor(artists, w)
    ensures Suits(ws, artists, positions, seed, w) <==> AlikeRank(seed, NotYet(seed, positions))(w).Some?
  {
    AlikeIsMutual(seed, w);
    OwnTileExactly(ws, artists, w);
  }

  /** Every suggestion suits, and every work that suits is suggested while there is room; no
      suggestion has more genres in common than one before it, or as many and a later arrival. */
  lemma SuggestionsSuit(ws: seq<Work>, artists: seq<Artist>, positions: set<nat>, seed: Work, n: nat)
    requires DistinctKeys(ws)
    ensures var row := WorksOf(Suggestions(Order(ws, artists), ws, positions, seed, n));
      && (forall w :: w in row ==> Suits(ws, artists, positions, seed, w))
      && (n == 0 || |row| < n ==> forall w :: Suits(ws, artists, positions, seed, w) ==> w in row)
      && (n > 0 ==> |row| <= n)
      && (forall i, j :: 0 <= i < j < |row| ==> NoCloser(seed, row[j], row[i]))
  {
    var rank := AlikeRank(seed, NotYet(seed, positions));
    var fit := Filter(ByRank(ws, rank), Unshelved(artists));
    var row := WorksOf(Suggestions(Order(ws, artists), ws, positions, seed, n));
    SuggestionsAre(ws, artists, positions, seed, n);
    assert row == Fill(fit, n);
    forall w
      ensures w in fit <==> Suits(ws, artists, positions, seed, w)
    {
      FitExactly(ws, artists, positions, seed, w);
    }
    FitInOrder(ws, artists, positions, seed);
    forall i, j | 0 <= i < j < |row|
      ensures NoCloser(seed, row[j], row[i])
    {
      assert row[i] == fit[i] && row[j] == fit[j];
    }
  }

  /** The places in a list of genres where one stands that is named and the work's. */
  function Matches(gs: seq<string>, a: Work): set<int> {
    set i | 0 <= i < |gs| && gs[i] != "" && gs[i] in a.genres
  }

  /** How many of the second's genres are named and the first's too. */
  function InCommon(a: Work, b: Work): nat {
    |Matches(b.genres, a)|
  }

  lemma OneMoreGenre(rest: seq<string>, last: string, a: Work)
    ensures |Matches(rest + [last], a)| == |Matches(rest, a)| + if last != "" && last in a.genres then 1 else 0
  {
    var gs, n := rest + [last], |rest|;
    assert forall i :: 0 <= i < n ==> gs[i] == rest[i];
    assert n !in Matches(rest, a);
    assert Matches(gs, a) == Matches(rest, a) + if last != "" && last in a.genres then {n} else {};
  }

  lemma {:induction false} FilterCounts(gs: seq<string>, a: Work)
    ensures |Filter(gs, GenreOf(a))| == |Matches(gs, a)|
  {
    if gs != [] {
      var rest, last := gs[..|gs| - 1], gs[|gs| - 1];
      assert gs == rest + [last];
      FilterCounts(rest, a);
      OneMoreGenre(rest, last, a);
      FilterConcat(rest, [last], GenreOf(a));
      assert Filter([last], GenreOf(a)) == if GenreOf(a)(last) then [last] else [];
    }
  }

  lemma SharedIsInCommon(a: Work, b: Work)
    ensures Shared(a, b) == InCommon(a, b)
  {
    FilterCounts(b.genres, a);
  }

  /** The second has more genres in common with the seed, or as many and none of its files later. */
  predicate NoCloser(seed: Work, a: Work, b: Work) {
    && InCommon(seed, b) >= InCommon(seed, a)
    && (InCommon(seed, b) == InCommon(seed, a) ==> MaxAdded(b.items) >= MaxAdded(a.items))
  }

  lemma FitExactly(ws: seq<Work>, artists: seq<Artist>, positions: set<nat>, seed: Work, w: Work)
    requires DistinctKeys(ws)
    ensures w in Filter(ByRank(ws, AlikeRank(seed, NotYet(seed, positions))), Unshelved(artists))
      <==> Suits(ws, artists, positions, seed, w)
  {
    var rank := AlikeRank(seed, NotYet(seed, positions));
    var like := ByRank(ws, rank);
    RankedAreInLibrary(ws, rank);
    FilterHolds(like, Unshelved(artists));
    if w in ws {
      OwnTileExactly(ws, artists, w);
      if !StoodFor(artists, w) {
        PlacedSuits(ws, artists, positions, seed, w);
      }
    }
  }

  lemma FitInOrder(ws: seq<Work>, artists: seq<Artist>, positions: set<nat>, seed: Work)
    requires DistinctKeys(ws)
    ensures var fit := Filter(ByRank(ws, AlikeRank(seed, NotYet(seed, positions))), Unshelved(artists));
      forall i, j :: 0 <= i < j < |fit| ==> NoCloser(seed, fit[j], fit[i])
  {
    var rank := AlikeRank(seed, NotYet(seed, positions));
    var like := ByRank(ws, rank);
    var fit := Filter(like, Unshelved(artists));
    ByRankIsExact(ws, rank, Rank(0.0, 0.0));
    FilterKeepsOrder(like, Unshelved(artists), rank);
    forall i, j | 0 <= i < j < |fit|
      ensures NoCloser(seed, fit[j], fit[i])
    {
      FitExactly(ws, artists, positions, seed, fit[i]);
      FitExactly(ws, artists, positions, seed, fit[j]);
      OwnTileExactly(ws, artists, fit[i]);
      OwnTileExactly(ws, artists, fit[j]);
      PlacedSuits(ws, artists, positions, seed, fit[i]);
      PlacedSuits(ws, artists, positions, seed, fit[j]);
      SharedIsInCommon(seed, fit[i]);
      SharedIsInCommon(seed, fit[j]);
      assert !Sooner(rank, fit[j], fit[i]);
    }
  }
}
