/** One shelf per artist, in name order, its albums in year order (internal/works/artists.go). */
module ArtistShelves {
  import opened StableSort
  import opened Shelves

  // ── how albums compare ────────────────────────────────────────────────

  /** Strings as the server compares them, character by character. */
  predicate TextLess(a: string, b: string) {
    b != "" && (a == "" || if a[0] != b[0] then a[0] < b[0] else TextLess(a[1..], b[1..]))
  }

  lemma {:induction false} TextTrichotomy(a: string, b: string)
    ensures !TextLess(a, a)
    ensures a != b ==> (TextLess(a, b) <==> !TextLess(b, a))
  {
    if a != "" && b != "" {
      TextTrichotomy(a[1..], b[1..]);
      assert a == [a[0]] + a[1..] && b == [b[0]] + b[1..];
    } else if a != "" {
      TextTrichotomy(a[1..], "");
    }
  }

  lemma {:induction false} TextTransitive(a: string, b: string, c: string)
    requires TextLess(a, b) && TextLess(b, c)
    ensures TextLess(a, c)
  {
    if a != "" && a[0] == b[0] == c[0] {
      TextTransitive(a[1..], b[1..], c[1..]);
    }
  }

  /** -1, 0 or 1. */
  function TextOrder(a: string, b: string): int {
    if a == b then 0 else if TextLess(a, b) then -1 else 1
  }

  /** A year before the years after it, and any year before none. */
  function YearOrder(x: nat, y: nat): int {
    if x == y then 0
    else if x == 0 || y == 0 then if y == 0 then -1 else 1
    else if x < y then -1 else 1
  }

  function First(a: int, b: int): int {
    if a != 0 then a else b
  }

  /** By artist, then year, then title, then key; `lower` is the lower-casing of a text. */
  function AlbumOrder(lower: string -> string, x: Work, y: Work): int {
    First(TextOrder(lower(x.author), lower(y.author)),
      First(YearOrder(x.year, y.year), First(TextOrder(lower(x.title), lower(y.title)), TextOrder(x.key, y.key))))
  }

  function Sooner(lower: string -> string): (Work, Work) -> bool {
    (x: Work, y: Work) => AlbumOrder(lower, x, y) < 0
  }

  /** Names are the same when they lower to the same. */
  function SameName(lower: string -> string): (string, string) -> bool {
    (a: string, b: string) => lower(a) == lower(b)
  }

  // ── the comparison is one ─────────────────────────────────────────────

  /** What a comparison of three things by one key says. */
  predicate Agrees(ab: int, ba: int, bc: int, ac: int) {
    && (ab == 0 <==> ba == 0) && (ab < 0 <==> ba > 0)
    && (ab >= 0 && bc >= 0 ==> ac >= 0 && (ac == 0 ==> ab == 0 && bc == 0))
  }

  lemma TextAgrees(a: string, b: string, c: string)
    ensures Agrees(TextOrder(a, b), TextOrder(b, a), TextOrder(b, c), TextOrder(a, c))
  {
    TextTrichotomy(a, b);
    TextTrichotomy(b, c);
    TextTrichotomy(a, c);
    if TextOrder(a, b) == 1 && TextOrder(b, c) == 1 {
      TextTransitive(c, b, a);
    }
  }

  lemma FirstAgrees(ab: int, ba: int, bc: int, ac: int, ab': int, ba': int, bc': int, ac': int)
    requires Agrees(ab, ba, bc, ac) && Agrees(ab', ba', bc', ac')
    requires ab == 0 && bc == 0 ==> ac == 0
    ensures Agrees(First(ab, ab'), First(ba, ba'), First(bc, bc'), First(ac, ac'))
  {
  }

  lemma AlbumsAgree(lower: string -> string, x: Work, y: Work, z: Work)
    ensures Agrees(AlbumOrder(lower, x, y), AlbumOrder(lower, y, x), AlbumOrder(lower, y, z), AlbumOrder(lower, x, z))
  {
    TextAgrees(lower(x.author), lower(y.author), lower(z.author));
    TextAgrees(lower(x.title), lower(y.title), lower(z.title));
    TextAgrees(x.key, y.key, z.key);
    var t := (p: Work, q: Work) => TextOrder(lower(p.title), lower(q.title));
    var k := (p: Work, q: Work) => TextOrder(p.key, q.key);
    FirstAgrees(t(x, y), t(y, x), t(y, z), t(x, z), k(x, y), k(y, x), k(y, z), k(x, z));
    var tk := (p: Work, q: Work) => First(t(p, q), k(p, q));
    var yr := (p: Work, q: Work) => YearOrder(p.year, q.year);
    FirstAgrees(yr(x, y), yr(y, x), yr(y, z), yr(x, z), tk(x, y), tk(y, x), tk(y, z), tk(x, z));
  }

  lemma SoonerIsAnOrder(lower: string -> string)
    ensures StrictWeak(Sooner(lower))
  {
    forall x, y, z
      ensures Sooner(lower)(x, y) ==> !Sooner(lower)(y, x)
      ensures !Sooner(lower)(x, y) && !Sooner(lower)(y, z) ==> !Sooner(lower)(x, z)
    {
      AlbumsAgree(lower, x, y, z);
    }
  }

  // ── the shelves ───────────────────────────────────────────────────────

  function By(lower: string -> string, name: string): Work -> bool {
    (w: Work) => lower(w.author) == lower(name)
  }

  predicate NameBefore(lower: string -> string, a: string, b: string) {
    TextLess(lower(a), lower(b))
  }

  /** Every shelf holds exactly its artist's albums, in the order they are sorted in. */
  ghost predicate EachHoldsItsOwn(albums: seq<Work>, artists: seq<Artist>, lower: string -> string) {
    forall i :: 0 <= i < |artists| ==> artists[i].albums == Keys(Filter(albums, By(lower, artists[i].name)))
  }

  /** The artists come in name order, no two alike. */
  ghost predicate InNameOrder(artists: seq<Artist>, lower: string -> string) {
    forall i, j :: 0 <= i < j < |artists| ==> NameBefore(lower, artists[i].name, artists[j].name)
  }

  /** And the last shelf is the last album's. */
  ghost predicate OneShelfEach(albums: seq<Work>, artists: seq<Artist>, lower: string -> string) {
    && EachHoldsItsOwn(albums, artists, lower) && InNameOrder(artists, lower)
    && (albums == [] <==> artists == [])
    && (albums != [] ==> lower(artists[|artists| - 1].name) == lower(albums[|albums| - 1].author))
  }

  /** No album's artist comes after a later album's. */
  ghost predicate ByArtist(albums: seq<Work>, lower: string -> string) {
    forall i, j :: 0 <= i < j < |albums| ==> !NameBefore(lower, albums[j].author, albums[i].author)
  }

  lemma NamesAreOrdered(lower: string -> string, a: string, b: string, c: string)
    ensures NameBefore(lower, a, b) ==> lower(a) != lower(b)
    ensures lower(a) != lower(b) && !NameBefore(lower, b, a) ==> NameBefore(lower, a, b)
    ensures NameBefore(lower, a, b) && NameBefore(lower, b, c) ==> NameBefore(lower, a, c)
  {
    TextTrichotomy(lower(a), lower(b));
    if NameBefore(lower, a, b) && NameBefore(lower, b, c) {
      TextTransitive(lower(a), lower(b), lower(c));
    }
  }

  lemma OneMoreKey(before: seq<Work>, w: Work, name: string, lower: string -> string)
    ensures Keys(Filter(before + [w], By(lower, name))) ==
      Keys(Filter(before, By(lower, name))) + if lower(w.author) == lower(name) then [w.key] else []
  {
    FilterConcat(before, [w], By(lower, name));
    KeysConcat(Filter(before, By(lower, name)), Filter([w], By(lower, name)));
    KeysOfOne(w);
    assert Filter([w], By(lower, name)) == if lower(w.author) == lower(name) then [w] else [];
  }

  lemma OneMoreAlbum(before: seq<Work>, w: Work, artists: seq<Artist>, lower: string -> string)
    requires ByArtist(before, lower) && (before != [] ==> !NameBefore(lower, w.author, before[|before| - 1].author))
    requires OneShelfEach(before, artists, lower)
    ensures OneShelfEach(before + [w], Shelve(artists, w, SameName(lower)), lower)
  {
    if artists == [] {
      NewShelfHolds(before, w, artists, lower);
    } else if lower(artists[|artists| - 1].name) != lower(w.author) {
      PastEveryShelf(artists, w.author, lower);
      NoneBy(before, w.author, lower);
      NewShelfHolds(before, w, artists, lower);
    } else {
      SameShelfHolds(before, w, artists, lower);
      SameNames(w, artists, lower);
    }
  }

  /** A name that is not the last shelf's, and not before it, is past every shelf's. */
  lemma PastEveryShelf(artists: seq<Artist>, name: string, lower: string -> string)
    requires artists != [] && InNameOrder(artists, lower)
    requires lower(artists[|artists| - 1].name) != lower(name) && !NameBefore(lower, name, artists[|artists| - 1].name)
    ensures forall i :: 0 <= i < |artists| ==> NameBefore(lower, artists[i].name, name)
  {
    var last := artists[|artists| - 1].name;
    NamesAreOrdered(lower, last, name, "");
    forall i | 0 <= i < |artists|
      ensures NameBefore(lower, artists[i].name, name)
    {
      if i < |artists| - 1 {
        NamesAreOrdered(lower, artists[i].name, last, name);
      }
    }
  }

  /** And no album so far is by it. */
  lemma NoneBy(before: seq<Work>, name: string, lower: string -> string)
    requires before != [] && ByArtist(before, lower)
    requires lower(before[|before| - 1].author) != lower(name) && !NameBefore(lower, name, before[|before| - 1].author)
    ensures Filter(before, By(lower, name)) == []
  {
    var last := before[|before| - 1].author;
    NamesAreOrdered(lower, last, name, "");
    forall a | a in before
      ensures lower(a.author) != lower(name)
    {
      var i :| 0 <= i < |before| && before[i] == a;
      LastIsLast(before, lower, i);
      AnotherName(lower, last, name, a.author);
    }
    FilterNone(before, By(lower, name));
  }

  lemma LastIsLast(before: seq<Work>, lower: string -> string, i: nat)
    requires i < |before| && ByArtist(before, lower)
    ensures !NameBefore(lower, before[|before| - 1].author, before[i].author)
  {
    var last := |before| - 1;
    if i == last {
      NamesAreOrdered(lower, before[i].author, before[i].author, "");
    } else {
      assert !NameBefore(lower, before[last].author, before[i].author);
    }
  }

  lemma AnotherName(lower: string -> string, last: string, name: string, author: string)
    requires NameBefore(lower, last, name) && !NameBefore(lower, last, author)
    ensures lower(author) != lower(name)
  {
  }

  lemma SameNames(w: Work, artists: seq<Artist>, lower: string -> string)
    requires artists != [] && lower(artists[|artists| - 1].name) == lower(w.author) && InNameOrder(artists, lower)
    ensures var after := Shelve(artists, w, SameName(lower));
      |after| == |artists| && InNameOrder(after, lower) && forall i :: 0 <= i < |after| ==> after[i].name == artists[i].name
  {
  }

  lemma NewShelfHolds(before: seq<Work>, w: Work, artists: seq<Artist>, lower: string -> string)
    requires EachHoldsItsOwn(before, artists, lower)
    requires forall i :: 0 <= i < |artists| ==> NameBefore(lower, artists[i].name, w.author)
    requires Filter(before, By(lower, w.author)) == []
    ensures EachHoldsItsOwn(before + [w], artists + [Artist(w.author, [w.key])], lower)
    ensures InNameOrder(artists, lower) ==> InNameOrder(artists + [Artist(w.author, [w.key])], lower)
  {
    var after := artists + [Artist(w.author, [w.key])];
    OneMoreKey(before, w, w.author, lower);
    forall i | 0 <= i < |artists|
      ensures after[i].albums == Keys(Filter(before + [w], By(lower, after[i].name)))
    {
      NamesAreOrdered(lower, artists[i].name, w.author, "");
      OneMoreKey(before, w, artists[i].name, lower);
    }
  }

  lemma SameShelfHolds(before: seq<Work>, w: Work, artists: seq<Artist>, lower: string -> string)
    requires EachHoldsItsOwn(before, artists, lower) && InNameOrder(artists, lower)
    requires artists != [] && lower(artists[|artists| - 1].name) == lower(w.author)
    ensures EachHoldsItsOwn(before + [w], Shelve(artists, w, SameName(lower)), lower)
  {
    var after, n := Shelve(artists, w, SameName(lower)), |artists| - 1;
    forall i | 0 <= i <= n
      ensures after[i].albums == Keys(Filter(before + [w], By(lower, after[i].name)))
    {
      OneMoreKey(before, w, artists[i].name, lower);
      if i < n {
        NamesAreOrdered(lower, artists[i].name, artists[n].name, "");
      }
    }
  }

  lemma {:induction false} GroupedByArtist(albums: seq<Work>, lower: string -> string)
    requires ByArtist(albums, lower)
    ensures OneShelfEach(albums, Grouped(albums, SameName(lower)), lower)
  {
    if albums != [] {
      var before, w := albums[..|albums| - 1], albums[|albums| - 1];
      assert albums == before + [w];
      assert forall i :: 0 <= i < |before| ==> before[i] == albums[i];
      GroupedByArtist(before, lower);
      OneMoreAlbum(before, w, Grouped(before, SameName(lower)), lower);
    }
  }

  /** Of one artist's albums the first comes no later: an earlier year, any year before none; of
      one year by title, whatever its case; of one title by key. */
  predicate NoLater(lower: string -> string, x: Work, y: Work) {
    && (y.year == 0 || (x.year != 0 && x.year <= y.year))
    && (x.year == y.year ==> !TextLess(lower(y.title), lower(x.title)))
    && (x.year == y.year && lower(x.title) == lower(y.title) ==> !TextLess(y.key, x.key))
  }

  /** What the artists' shelves are: one for each artist with a filed album, in name order,
      holding exactly their albums, by year, title and key. */
  lemma ShelvesAreByArtistAndYear(ws: seq<Work>, lower: string -> string, name: string)
    ensures var sorted := Sort(Filter(ws, Filed), Sooner(lower));
      && OneShelfEach(sorted, Grouped(sorted, SameName(lower)), lower)
      && var shelf := Filter(sorted, By(lower, name));
      && multiset(shelf) == multiset(Filter(Filter(ws, Filed), By(lower, name)))
      && (forall w :: w in shelf <==> w in ws && w.kind == Album && w.author != "" && lower(w.author) == lower(name))
      && forall i, j :: 0 <= i < j < |shelf| ==> NoLater(lower, shelf[i], shelf[j])
  {
    var filed := Filter(ws, Filed);
    SoonerIsAnOrder(lower);
    SortOrders(filed, Sooner(lower));
    SortedIsByArtist(Sort(filed, Sooner(lower)), lower);
    GroupedByArtist(Sort(filed, Sooner(lower)), lower);
    FilterPermutes(filed, By(lower, name), Sooner(lower));
    OnTheShelf(ws, lower, name);
    YearsAscend(Sort(filed, Sooner(lower)), lower, name);
  }

  lemma SortedIsByArtist(sorted: seq<Work>, lower: string -> string)
    requires Ordered(sorted, Sooner(lower))
    ensures ByArtist(sorted, lower)
  {
    forall i, j | 0 <= i < j < |sorted|
      ensures !NameBefore(lower, sorted[j].author, sorted[i].author)
    {
      assert !Sooner(lower)(sorted[j], sorted[i]);
      TextTrichotomy(lower(sorted[j].author), lower(sorted[i].author));
    }
  }

  lemma SortHolds(s: seq<Work>, less: (Work, Work) -> bool)
    ensures forall w :: w in Sort(s, less) <==> w in s
  {
    SortPermutes(s, less);
    assert forall w :: w in Sort(s, less) <==> w in multiset(Sort(s, less));
    assert forall w :: w in s <==> w in multiset(s);
  }

  lemma OnTheShelf(ws: seq<Work>, lower: string -> string, name: string)
    ensures forall w :: w in Filter(Sort(Filter(ws, Filed), Sooner(lower)), By(lower, name)) <==>
      w in ws && w.kind == Album && w.author != "" && lower(w.author) == lower(name)
  {
    SortHolds(Filter(ws, Filed), Sooner(lower));
    FilterHolds(ws, Filed);
    FilterHolds(Sort(Filter(ws, Filed), Sooner(lower)), By(lower, name));
  }

  lemma YearsAscend(sorted: seq<Work>, lower: string -> string, name: string)
    requires Ordered(sorted, Sooner(lower))
    ensures var shelf := Filter(sorted, By(lower, name));
      forall i, j :: 0 <= i < j < |shelf| ==> NoLater(lower, shelf[i], shelf[j])
  {
    FilterOrdered(sorted, By(lower, name), Sooner(lower));
    var shelf := Filter(sorted, By(lower, name));
    FilterHolds(sorted, By(lower, name));
    forall i, j | 0 <= i < j < |shelf|
      ensures NoLater(lower, shelf[i], shelf[j])
    {
      assert shelf[i] in shelf && shelf[j] in shelf;
      TextTrichotomy(lower(shelf[j].title), lower(shelf[i].title));
      TextTrichotomy(shelf[j].key, shelf[i].key);
      assert !Sooner(lower)(shelf[j], shelf[i]);
    }
  }

  lemma {:induction false} FilterOrdered(s: seq<Work>, p: Work -> bool, less: (Work, Work) -> bool)
    requires Ordered(s, less)
    ensures Ordered(Filter(s, p), less)
  {
    if s != [] {
      FilterOrdered(s[1..], p, less);
      FilterHolds(s[1..], p);
      var rest := Filter(s[1..], p);
      forall j | 0 <= j < |rest|
        ensures !less(rest[j], s[0])
      {
        assert rest[j] in s[1..];
        var k :| 0 <= k < |s[1..]| && s[1..][k] == rest[j];
        assert s[k + 1] == rest[j];
      }
    }
  }

  lemma {:induction false} FilterAfterInsert(x: Work, s: seq<Work>, p: Work -> bool, less: (Work, Work) -> bool)
    ensures multiset(Filter(Insert(x, s, less), p)) == multiset(Filter([x] + s, p))
  {
    assert ([x] + s)[1..] == s;
    if s != [] && less(s[0], x) {
      FilterAfterInsert(x, s[1..], p, less);
      assert ([x] + s[1..])[1..] == s[1..];
    }
  }

  lemma {:induction false} FilterPermutes(s: seq<Work>, p: Work -> bool, less: (Work, Work) -> bool)
    ensures multiset(Filter(Sort(s, less), p)) == multiset(Filter(s, p))
  {
    if s != [] {
      FilterPermutes(s[1..], p, less);
      var rest := Sort(s[1..], less);
      FilterAfterInsert(s[0], rest, p, less);
      assert ([s[0]] + rest)[1..] == rest;
    }
  }
}
