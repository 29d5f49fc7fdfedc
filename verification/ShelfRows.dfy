/** The rows that are selections of the grid's own shelves by date (cmd/server/library.go):
    recently added and new episodes. */
module ShelfRows {
  import opened Options
  import opened StableSort
  import opened Shelves

  // ── the newest n ──────────────────────────────────────────────────────

  datatype Dated = Dated(sh: Shelf, at: int)

  predicate Later(a: Dated, b: Dated) {
    a.at > b.at
  }

  function At(t: int): Dated -> bool {
    (d: Dated) => d.at == t
  }

  function Newest(known: seq<Dated>, n: nat): seq<Dated> {
    Take(Sort(known, Later), n)
  }

  function ShelvesOf(known: seq<Dated>): (r: seq<Shelf>)
    ensures |r| == |known|
    ensures forall i :: 0 <= i < |r| ==> r[i] == known[i].sh
  {
    if known == [] then [] else ShelvesOf(known[..|known| - 1]) + [known[|known| - 1].sh]
  }

  lemma {:induction false} FilterOfPrefix<T>(s: seq<T>, n: nat, p: T -> bool)
    requires n <= |s|
    ensures Filter(s[..n], p) <= Filter(s, p)
  {
    FilterConcat(s[..n], s[n..], p);
    assert s == s[..n] + s[n..];
  }

  /** The shelves that have a date, with it, as the grid has them. */
  function Dates(order: seq<Shelf>, date: Shelf -> Option<int>): seq<Dated> {
    if order == [] then []
    else
      var sh := order[|order| - 1];
      Dates(order[..|order| - 1], date) + if date(sh).Some? then [Dated(sh, date(sh).value)] else []
  }

  lemma DatesStep(order: seq<Shelf>, i: nat, date: Shelf -> Option<int>)
    requires i < |order|
    ensures Dates(order[..i + 1], date) ==
      Dates(order[..i], date) + if date(order[i]).Some? then [Dated(order[i], date(order[i]).value)] else []
  {
    assert order[..i + 1][..i] == order[..i];
  }

  lemma {:induction false} ShelvesOfOneMore(a: seq<Dated>, d: Dated)
    ensures ShelvesOf(a + [d]) == ShelvesOf(a) + [d.sh]
  {
    assert (a + [d])[..|a|] == a;
  }

  /** The shelves in the running are the ones with a date, as the grid has them. */
  lemma {:induction false} DatedAreFiltered(order: seq<Shelf>, date: Shelf -> Option<int>, dated: Shelf -> bool)
    requires forall sh :: sh in order ==> dated(sh) == date(sh).Some?
    ensures ShelvesOf(Dates(order, date)) == Filter(order, dated)
  {
    if order != [] {
      var rest, last := order[..|order| - 1], order[|order| - 1];
      assert order == rest + [last];
      DatedAreFiltered(rest, date, dated);
      FilterConcat(rest, [last], dated);
      assert last in order;
      assert Filter([last], dated) == if dated(last) then [last] else [];
      if dated(last) {
        ShelvesOfOneMore(Dates(rest, date), Dated(last, date(last).value));
      }
    }
  }

  /** An exact stable selection: as many as fit, newest first, nothing made up and nothing
      twice; nothing left out is newer than anything taken; and of the shelves that arrived
      together it takes the first ones, in the grid's order. */
  lemma NewestIsExact(known: seq<Dated>, n: nat, t: int)
    ensures |Newest(known, n)| == if |known| < n then |known| else n
    ensures forall i, j :: 0 <= i < j < |Newest(known, n)| ==> Newest(known, n)[i].at >= Newest(known, n)[j].at
    ensures Balanced(known, Newest(known, n))
    ensures Filter(Newest(known, n), At(t)) <= Filter(known, At(t))
  {
    var sorted := Sort(known, Later);
    SortPermutes(known, Later);
    SortOrders(known, Later);
    SortStable(known, Later, At(t));
    var m := |Newest(known, n)|;
    FilterOfPrefix(sorted, m, At(t));
    SplitIsBalanced(known, sorted, m);
    assert Newest(known, n) == sorted[..m];
  }

  /** `taken` is part of `known`, counted with repeats, and no part of the rest is newer. */
  ghost predicate Balanced(known: seq<Dated>, taken: seq<Dated>) {
    exists omitted: seq<Dated> ::
      && multiset(known) == multiset(taken) + multiset(omitted)
      && forall x, y :: x in omitted && y in taken ==> y.at >= x.at
  }

  lemma SplitIsBalanced(known: seq<Dated>, sorted: seq<Dated>, m: nat)
    requires m <= |sorted| && multiset(sorted) == multiset(known) && Ordered(sorted, Later)
    ensures Balanced(known, sorted[..m])
  {
    var taken, omitted := sorted[..m], sorted[m..];
    assert sorted == taken + omitted;
    forall x, y | x in omitted && y in taken
      ensures y.at >= x.at
    {
      var i :| 0 <= i < m && taken[i] == y;
      var j :| 0 <= j < |omitted| && omitted[j] == x;
      assert !Later(sorted[m + j], sorted[i]);
    }
  }

  /** Sort the dated shelves, cut the list, drop the dates. */
  method TakeNewest(dated: seq<Dated>, n: nat) returns (row: seq<Shelf>)
    ensures row == ShelvesOf(Newest(dated, n))
  {
    var known := Take(Sort(dated, Later), n);
    row := [];
    for i := 0 to |known|
      invariant row == ShelvesOf(known)[..i]
    {
      row := row + [known[i].sh];
    }
  }

  // ── when a shelf arrived ──────────────────────────────────────────────

  /** `t` is the latest of the arrivals `when` allows, 0 when there is none after 0. */
  ghost predicate IsNewest(t: nat, items: seq<File>) {
    && (forall it :: it in items ==> it.addedAt <= t)
    && (t == 0 || exists it :: it in items && it.addedAt == t)
  }

  /** The newest arrival, as one number: what IsNewest picks out. */
  function MaxAdded(items: seq<File>): (t: nat)
    ensures IsNewest(t, items)
  {
    if items == [] then 0
    else
      var before := MaxAdded(items[..|items| - 1]);
      assert items == items[..|items| - 1] + [items[|items| - 1]];
      if items[|items| - 1].addedAt > before then items[|items| - 1].addedAt else before
  }

  lemma NewestIsOne(items: seq<File>, t: nat)
    requires IsNewest(t, items)
    ensures t == MaxAdded(items)
  {
  }

  function Files(w: Option<Work>): seq<File> {
    if w.Some? then w.value.items else []
  }

  method WorkAddedAt(w: Option<Work>) returns (newest: nat)
    ensures IsNewest(newest, Files(w))
  {
    newest := 0;
    if w.None? { return; }
    for i := 0 to |w.value.items|
      invariant IsNewest(newest, w.value.items[..i])
    {
      assert w.value.items[..i + 1] == w.value.items[..i] + [w.value.items[i]];
      if w.value.items[i].addedAt > newest {
        newest := w.value.items[i].addedAt;
      }
    }
    assert w.value.items[..|w.value.items|] == w.value.items;
  }

  function Find(byKey: map<Key, Work>, k: Key): Option<Work> {
    if k in byKey then Some(byKey[k]) else None
  }

  /** Every file behind a tile: the work's own, or those of every album on the artist's shelf. */
  function AlbumFiles(albums: seq<Key>, byKey: map<Key, Work>): seq<File> {
    if albums == [] then []
    else AlbumFiles(albums[..|albums| - 1], byKey) + Files(Find(byKey, albums[|albums| - 1]))
  }

  function ShelfFiles(sh: Shelf, byKey: map<Key, Work>): seq<File> {
    match sh
    case OfWork(w, _) => w.items
    case OfArtist(a, _) => AlbumFiles(a.albums, byKey)
  }

  /** The files behind a tile: the work's own, or those of every album on the shelf that the library
      still has. */
  lemma {:induction false} FilesBehind(albums: seq<Key>, byKey: map<Key, Work>, it: File)
    ensures it in AlbumFiles(albums, byKey) <==> exists k :: k in albums && k in byKey && it in byKey[k].items
  {
    if albums != [] {
      var rest, last := albums[..|albums| - 1], albums[|albums| - 1];
      assert albums == rest + [last];
      FilesBehind(rest, byKey, it);
    }
  }

  method ShelfAddedAt(sh: Shelf, byKey: map<Key, Work>) returns (newest: nat)
    ensures newest == MaxAdded(ShelfFiles(sh, byKey))
  {
    newest := WorkAddedAt(if sh.OfWork? then Some(sh.work) else None);
    if sh.OfArtist? {
      var albums := sh.artist.albums;
      for i := 0 to |albums|
        invariant IsNewest(newest, AlbumFiles(albums[..i], byKey))
      {
        assert albums[..i + 1][..i] == albums[..i];
        var at := WorkAddedAt(Find(byKey, albums[i]));
        if at > newest {
          newest := at;
        }
      }
      assert albums[..|albums|] == albums;
    }
    NewestIsOne(ShelfFiles(sh, byKey), newest);
  }

  // ── recently added ────────────────────────────────────────────────────

  /** When a shelf arrived, for the shelves of which that is known. */
  function ArrivalOf(byKey: map<Key, Work>): Shelf -> Option<int> {
    (sh: Shelf) => var at := MaxAdded(ShelfFiles(sh, byKey)); if at == 0 then None else Some(at)
  }

  method RecentlyAdded(order: seq<Shelf>, byKey: map<Key, Work>, n: nat) returns (row: seq<Shelf>)
    ensures row == ShelvesOf(Newest(Dates(order, ArrivalOf(byKey)), n))
  {
    var known: seq<Dated> := [];
    for i := 0 to |order|
      invariant known == Dates(order[..i], ArrivalOf(byKey))
    {
      DatesStep(order, i, ArrivalOf(byKey));
      var at := ShelfAddedAt(order[i], byKey);
      if at != 0 {
        known := known + [Dated(order[i], at)];
      }
    }
    assert order[..|order|] == order;
    row := TakeNewest(known, n);
  }

  // ── new episodes ──────────────────────────────────────────────────────

  const NEW_EPISODE_WINDOW: int := 14 * 24 * 3600

  function NewEpisode(now: int): File -> bool {
    (it: File) => it.episode && it.addedAt > now - NEW_EPISODE_WINDOW
  }

  function NewFiles(sh: Shelf, now: int): seq<File> {
    if sh.OfWork? && sh.work.kind == Show then Filter(sh.work.items, NewEpisode(now)) else []
  }

  method NewEpisodesIn(sh: Shelf, now: int) returns (n: nat, newest: nat)
    ensures n == |NewFiles(sh, now)|
    ensures newest == MaxAdded(NewFiles(sh, now))
  {
    n, newest := 0, 0;
    if sh.OfArtist? || sh.work.kind != Show { return; }
    var items := sh.work.items;
    for i := 0 to |items|
      invariant n == |Filter(items[..i], NewEpisode(now))|
      invariant IsNewest(newest, Filter(items[..i], NewEpisode(now)))
    {
      FilterConcat(items[..i], [items[i]], NewEpisode(now));
      assert items[..i + 1] == items[..i] + [items[i]];
      if !items[i].episode || items[i].addedAt <= now - NEW_EPISODE_WINDOW { continue; }
      n := n + 1;
      if items[i].addedAt > newest {
        newest := items[i].addedAt;
      }
    }
    assert items[..|items|] == items;
    NewestIsOne(NewFiles(sh, now), newest);
  }

  /** When the last new episode landed, for the shows that have one. */
  function NewsOf(now: int): Shelf -> Option<int> {
    (sh: Shelf) => if NewFiles(sh, now) == [] then None else Some(MaxAdded(NewFiles(sh, now)))
  }

  method NewEpisodes(order: seq<Shelf>, now: int, n: nat) returns (row: seq<Shelf>)
    ensures row == ShelvesOf(Newest(Dates(order, NewsOf(now)), n))
  {
    var known: seq<Dated> := [];
    for i := 0 to |order|
      invariant known == Dates(order[..i], NewsOf(now))
    {
      DatesStep(order, i, NewsOf(now));
      var count, at := NewEpisodesIn(order[i], now);
      if count > 0 {
        known := known + [Dated(order[i], at)];
      }
    }
    assert order[..|order|] == order;
    row := TakeNewest(known, n);
  }

  /** Some file behind the tile has an arrival: one of the work's own, or of an album on the shelf. */
  function HasArrival(byKey: map<Key, Work>): Shelf -> bool {
    (sh: Shelf) =>
      match sh
      case OfWork(w, _) => exists it :: it in w.items && it.addedAt > 0
      case OfArtist(a, _) => exists k :: k in a.albums && k in byKey && exists it :: it in byKey[k].items && it.addedAt > 0
  }

  lemma ArrivalIsBehind(sh: Shelf, byKey: map<Key, Work>)
    ensures HasArrival(byKey)(sh) <==> exists it :: it in ShelfFiles(sh, byKey) && it.addedAt > 0
  {
    if sh.OfArtist? {
      forall it
        ensures it in ShelfFiles(sh, byKey) <==> exists k :: k in sh.artist.albums && k in byKey && it in byKey[k].items
      {
        FilesBehind(sh.artist.albums, byKey, it);
      }
      if k :| k in sh.artist.albums && k in byKey && exists it :: it in byKey[k].items && it.addedAt > 0 {
        var it :| it in byKey[k].items && it.addedAt > 0;
        assert it in ShelfFiles(sh, byKey);
      }
    }
  }

  /** A show with an episode that arrived inside the fortnight. */
  function HasNews(now: int): Shelf -> bool {
    (sh: Shelf) =>
      sh.OfWork? && sh.work.kind == Show
      && exists it :: it in sh.work.items && it.episode && it.addedAt > now - 14 * 24 * 3600
  }

  /** Who is in the running for Recently added: exactly the shelves with some file behind them
      whose arrival is known, as the grid has them. */
  lemma ArrivedExactly(order: seq<Shelf>, byKey: map<Key, Work>)
    ensures ShelvesOf(Dates(order, ArrivalOf(byKey))) == Filter(order, HasArrival(byKey))
  {
    forall sh | sh in order
      ensures HasArrival(byKey)(sh) == ArrivalOf(byKey)(sh).Some?
    {
      ArrivalIsBehind(sh, byKey);
    }
    DatedAreFiltered(order, ArrivalOf(byKey), HasArrival(byKey));
  }

  /** Who is in the running for New episodes: exactly the shows with an episode inside the
      fortnight, as the grid has them. */
  lemma WithNewsExactly(order: seq<Shelf>, now: int)
    ensures ShelvesOf(Dates(order, NewsOf(now))) == Filter(order, HasNews(now))
  {
    forall sh | sh in order
      ensures HasNews(now)(sh) == NewsOf(now)(sh).Some?
    {
      NewsIsNewFiles(sh, now);
    }
    DatedAreFiltered(order, NewsOf(now), HasNews(now));
  }

  lemma NewsIsNewFiles(sh: Shelf, now: int)
    ensures HasNews(now)(sh) <==> NewFiles(sh, now) != []
  {
    if sh.OfWork? && sh.work.kind == Show {
      FilterHolds(sh.work.items, NewEpisode(now));
      assert NewFiles(sh, now) != [] ==> NewFiles(sh, now)[0] in NewFiles(sh, now);
    }
  }
}
