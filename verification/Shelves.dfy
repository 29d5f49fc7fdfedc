/** The library's one order (cmd/server/library.go) over the artists' shelves
    (internal/works/artists.go). */
module Shelves {
  import opened StableSort

  type Key = string

  datatype WorkKind = Show | Book | Audiobook | Album | OtherKind

  datatype Medium = Audio | Text | OtherMedium

  /** A file of a work: when it arrived (0 when that is not known), and whether it is an episode. */
  datatype File = File(id: nat, episode: bool, addedAt: nat)

  datatype Work = Work(
    key: Key, kind: WorkKind, medium: Medium, author: string, title: string, year: nat, genres: seq<string>,
    items: seq<File>)

  datatype Artist = Artist(name: string, albums: seq<Key>)

  datatype Band = TV | Movies | Music | Audiobooks | Books

  const LIBRARY_BANDS: seq<Band> := [TV, Movies, Music, Audiobooks, Books]

  datatype Shelf = OfWork(work: Work, band: Band) | OfArtist(artist: Artist, band: Band)

  function Keys(ws: seq<Work>): seq<Key> {
    if ws == [] then [] else Keys(ws[..|ws| - 1]) + [ws[|ws| - 1].key]
  }

  predicate DistinctKeys(ws: seq<Work>) {
    forall i, j :: 0 <= i < j < |ws| ==> ws[i].key != ws[j].key
  }

  // ── the artists' shelves ──────────────────────────────────────────────

  /** Every album key that sits on some artist's shelf, shelf after shelf. */
  function ShelvedKeys(artists: seq<Artist>): seq<Key> {
    if artists == [] then [] else ShelvedKeys(artists[..|artists| - 1]) + artists[|artists| - 1].albums
  }

  predicate Filed(w: Work) {
    w.kind == Album && w.author != ""
  }

  method FiledAlbums(ws: seq<Work>) returns (albums: seq<Work>)
    ensures albums == Filter(ws, Filed)
  {
    albums := [];
    for i := 0 to |ws|
      invariant albums == Filter(ws[..i], Filed)
    {
      FilterConcat(ws[..i], [ws[i]], Filed);
      assert ws[..i + 1] == ws[..i] + [ws[i]];
      if Filed(ws[i]) {
        albums := albums + [ws[i]];
      }
    }
    assert ws[..|ws|] == ws;
  }

  /** No shelf is empty, and no two neighbours go by the same name. */
  ghost predicate WellGrouped(artists: seq<Artist>, sameName: (string, string) -> bool) {
    && (forall i :: 0 <= i < |artists| ==> artists[i].albums != [])
    && (forall i :: 0 < i < |artists| ==> !sameName(artists[i - 1].name, artists[i].name))
  }

  /** One more album: on the last shelf when the name is that shelf's, on a new one otherwise. */
  function Shelve(artists: seq<Artist>, w: Work, sameName: (string, string) -> bool): seq<Artist> {
    var n := |artists|;
    if n == 0 || !sameName(artists[n - 1].name, w.author) then artists + [Artist(w.author, [w.key])]
    else artists[..n - 1] + [artists[n - 1].(albums := artists[n - 1].albums + [w.key])]
  }

  lemma ShelveAddsOneKey(artists: seq<Artist>, w: Work, sameName: (string, string) -> bool)
    requires WellGrouped(artists, sameName)
    ensures ShelvedKeys(Shelve(artists, w, sameName)) == ShelvedKeys(artists) + [w.key]
    ensures WellGrouped(Shelve(artists, w, sameName), sameName)
  {
    var n, after := |artists|, Shelve(artists, w, sameName);
    if n == 0 || !sameName(artists[n - 1].name, w.author) {
      assert after[..n] == artists;
    } else {
      assert after[..n - 1] == artists[..n - 1];
    }
  }

  /** Sorted albums, shelved one after the other. */
  function Grouped(albums: seq<Work>, sameName: (string, string) -> bool): seq<Artist> {
    if albums == [] then [] else Shelve(Grouped(albums[..|albums| - 1], sameName), albums[|albums| - 1], sameName)
  }

  /** Artists, given how albums sort and which spellings are the same name: the filed albums in
      order, a new shelf begun wherever the name is not the last shelf's. */
  method ArtistsOf(ws: seq<Work>, sooner: (Work, Work) -> bool, sameName: (string, string) -> bool)
    returns (artists: seq<Artist>)
    ensures ShelvedKeys(artists) == Keys(Sort(Filter(ws, Filed), sooner))
    ensures WellGrouped(artists, sameName)
    ensures artists == Grouped(Sort(Filter(ws, Filed), sooner), sameName)
  {
    var albums := FiledAlbums(ws);
    albums := Sort(albums, sooner);
    artists := [];
    for i := 0 to |albums|
      invariant artists == Grouped(albums[..i], sameName)
    {
      assert albums[..i + 1][..i] == albums[..i];
      artists := Shelve(artists, albums[i], sameName);
    }
    assert albums[..|albums|] == albums;
    GroupedShelvesAll(albums, sameName);
  }

  lemma {:induction false} GroupedShelvesAll(albums: seq<Work>, sameName: (string, string) -> bool)
    ensures ShelvedKeys(Grouped(albums, sameName)) == Keys(albums) && WellGrouped(Grouped(albums, sameName), sameName)
  {
    if albums != [] {
      var before := albums[..|albums| - 1];
      GroupedShelvesAll(before, sameName);
      ShelveAddsOneKey(Grouped(before, sameName), albums[|albums| - 1], sameName);
    }
  }

  // ── the order ─────────────────────────────────────────────────────────

  function BandOf(w: Work): Band {
    if w.kind == Show then TV
    else if w.kind == Book then Books
    else if w.kind == Audiobook then Audiobooks
    else if w.kind == Album || w.medium == Audio then Music
    else if w.medium == Text then Books
    else Movies
  }

  /** The works that are tiles of their own in band `b`, as they came. */
  function Row(ws: seq<Work>, shelved: set<Key>, b: Band): seq<Shelf> {
    if ws == [] then []
    else
      var w := ws[|ws| - 1];
      Row(ws[..|ws| - 1], shelved, b) + if w.key !in shelved && BandOf(w) == b then [OfWork(w, b)] else []
  }

  function ArtistTiles(artists: seq<Artist>): seq<Shelf> {
    if artists == [] then [] else ArtistTiles(artists[..|artists| - 1]) + [OfArtist(artists[|artists| - 1], Music)]
  }

  function Shelved(artists: seq<Artist>): set<Key> {
    set k | k in ShelvedKeys(artists)
  }

  function Order(ws: seq<Work>, artists: seq<Artist>): seq<Shelf> {
    var shelved := Shelved(artists);
    Row(ws, shelved, TV) + Row(ws, shelved, Movies) + (ArtistTiles(artists) + Row(ws, shelved, Music))
    + Row(ws, shelved, Audiobooks) + Row(ws, shelved, Books)
  }

  lemma OneMoreWork(ws: seq<Work>, i: nat, shelved: set<Key>, b: Band)
    requires i < |ws|
    ensures Row(ws[..i + 1], shelved, b) ==
      Row(ws[..i], shelved, b) + if ws[i].key !in shelved && BandOf(ws[i]) == b then [OfWork(ws[i], b)] else []
  {
    assert ws[..i + 1][..i] == ws[..i];
  }

  /** The album keys that sit on some artist's shelf. */
  method AllShelved(artists: seq<Artist>) returns (shelved: set<Key>)
    ensures shelved == Shelved(artists)
  {
    shelved := {};
    for i := 0 to |artists|
      invariant shelved == Shelved(artists[..i])
    {
      assert artists[..i + 1][..i] == artists[..i];
      for n := 0 to |artists[i].albums|
        invariant shelved == Shelved(artists[..i]) + set k | k in artists[i].albums[..n]
      {
        shelved := shelved + {artists[i].albums[n]};
      }
      assert artists[i].albums[..|artists[i].albums|] == artists[i].albums;
    }
    assert artists[..|artists|] == artists;
  }

  method LibraryOrder(ws: seq<Work>, artists: seq<Artist>) returns (order: seq<Shelf>)
    ensures order == Order(ws, artists)
  {
    var shelved := AllShelved(artists);
    var shows, films, music, audiobooks, books: seq<Shelf> := [], [], [], [], [];
    for i := 0 to |artists|
      invariant music == ArtistTiles(artists[..i])
    {
      assert artists[..i + 1][..i] == artists[..i];
      music := music + [OfArtist(artists[i], Music)];
    }
    assert artists[..|artists|] == artists;
    for i := 0 to |ws|
      invariant shows == Row(ws[..i], shelved, TV) && films == Row(ws[..i], shelved, Movies)
      invariant music == ArtistTiles(artists) + Row(ws[..i], shelved, Music)
      invariant audiobooks == Row(ws[..i], shelved, Audiobooks) && books == Row(ws[..i], shelved, Books)
    {
      forall b
        ensures Row(ws[..i + 1], shelved, b) ==
          Row(ws[..i], shelved, b) + if ws[i].key !in shelved && BandOf(ws[i]) == b then [OfWork(ws[i], b)] else []
      {
        OneMoreWork(ws, i, shelved, b);
      }
      var w := ws[i];
      if w.key in shelved { continue; }
      if w.kind == Show { shows := shows + [OfWork(w, TV)]; }
      else if w.kind == Book { books := books + [OfWork(w, Books)]; }
      else if w.kind == Audiobook { audiobooks := audiobooks + [OfWork(w, Audiobooks)]; }
      else if w.kind == Album || w.medium == Audio { music := music + [OfWork(w, Music)]; }
      else if w.medium == Text { books := books + [OfWork(w, Books)]; }
      else { films := films + [OfWork(w, Movies)]; }
    }
    assert ws[..|ws|] == ws;
    order := shows + films + music + audiobooks + books;
  }

  // ── what the order promises ───────────────────────────────────────────

  function TileKeys(order: seq<Shelf>): seq<Key> {
    if order == [] then []
    else
      var last := order[|order| - 1];
      TileKeys(order[..|order| - 1]) + if last.OfWork? then [last.work.key] else []
  }

  lemma {:induction false} TileKeysConcat(a: seq<Shelf>, b: seq<Shelf>)
    ensures TileKeys(a + b) == TileKeys(a) + TileKeys(b)
  {
    if b == [] {
      assert a + b == a;
    } else {
      assert (a + b)[..|a + b| - 1] == a + b[..|b| - 1];
      TileKeysConcat(a, b[..|b| - 1]);
    }
  }

  lemma {:induction false} ArtistsAreNoWorks(artists: seq<Artist>)
    ensures TileKeys(ArtistTiles(artists)) == []
  {
    if artists != [] {
      ArtistsAreNoWorks(artists[..|artists| - 1]);
      TileKeysConcat(ArtistTiles(artists[..|artists| - 1]), [OfArtist(artists[|artists| - 1], Music)]);
    }
  }

  /** The keys, in `ws` as they came, that are tiles of their own. */
  function OwnKeys(ws: seq<Work>, shelved: set<Key>): seq<Key> {
    if ws == [] then []
    else OwnKeys(ws[..|ws| - 1], shelved) + if ws[|ws| - 1].key !in shelved then [ws[|ws| - 1].key] else []
  }

  function RowKeys(ws: seq<Work>, shelved: set<Key>, b: Band): seq<Key> {
    TileKeys(Row(ws, shelved, b))
  }

  lemma RowKeysStep(ws: seq<Work>, shelved: set<Key>, b: Band)
    requires ws != []
    ensures var w := ws[|ws| - 1];
      RowKeys(ws, shelved, b) ==
      RowKeys(ws[..|ws| - 1], shelved, b) + if w.key !in shelved && BandOf(w) == b then [w.key] else []
  {
    var w := ws[|ws| - 1];
    var last := if w.key !in shelved && BandOf(w) == b then [OfWork(w, b)] else [];
    TileKeysConcat(Row(ws[..|ws| - 1], shelved, b), last);
  }

  function AllRowKeys(ws: seq<Work>, shelved: set<Key>): multiset<Key> {
    multiset(RowKeys(ws, shelved, TV)) + multiset(RowKeys(ws, shelved, Movies)) + multiset(RowKeys(ws, shelved, Music))
    + multiset(RowKeys(ws, shelved, Audiobooks)) + multiset(RowKeys(ws, shelved, Books))
  }

  /** What the last work adds to a band's keys. */
  function Added(w: Work, shelved: set<Key>, b: Band): multiset<Key> {
    if w.key !in shelved && BandOf(w) == b then multiset{w.key} else multiset{}
  }

  lemma RowCountsStep(ws: seq<Work>, shelved: set<Key>, b: Band)
    requires ws != []
    ensures multiset(RowKeys(ws, shelved, b)) ==
      multiset(RowKeys(ws[..|ws| - 1], shelved, b)) + Added(ws[|ws| - 1], shelved, b)
  {
    RowKeysStep(ws, shelved, b);
  }

  lemma AddedOnce(w: Work, shelved: set<Key>)
    ensures Added(w, shelved, TV) + Added(w, shelved, Movies) + Added(w, shelved, Music) + Added(w, shelved, Audiobooks)
      + Added(w, shelved, Books) == if w.key in shelved then multiset{} else multiset{w.key}
  {
  }

  lemma {:induction false} RowsShareOut(ws: seq<Work>, shelved: set<Key>)
    ensures AllRowKeys(ws, shelved) == multiset(OwnKeys(ws, shelved))
  {
    if ws != [] {
      RowsShareOut(ws[..|ws| - 1], shelved);
      RowCountsStep(ws, shelved, TV);
      RowCountsStep(ws, shelved, Movies);
      RowCountsStep(ws, shelved, Music);
      RowCountsStep(ws, shelved, Audiobooks);
      RowCountsStep(ws, shelved, Books);
      AddedOnce(ws[|ws| - 1], shelved);
    }
  }

  lemma TilesShareOut(ws: seq<Work>, artists: seq<Artist>)
    ensures multiset(TileKeys(Order(ws, artists))) == multiset(OwnKeys(ws, Shelved(artists)))
  {
    var s := Shelved(artists);
    var a, b, c := Row(ws, s, TV), Row(ws, s, Movies), ArtistTiles(artists) + Row(ws, s, Music);
    var d, e := Row(ws, s, Audiobooks), Row(ws, s, Books);
    TileKeysConcat(a, b);
    TileKeysConcat(a + b, c);
    TileKeysConcat(a + b + c, d);
    TileKeysConcat(a + b + c + d, e);
    TileKeysConcat(ArtistTiles(artists), Row(ws, s, Music));
    ArtistsAreNoWorks(artists);
    RowsShareOut(ws, s);
  }

  lemma {:induction false} KeysConcat(a: seq<Work>, b: seq<Work>)
    ensures Keys(a + b) == Keys(a) + Keys(b)
  {
    if b == [] {
      assert a + b == a;
    } else {
      assert (a + b)[..|a + b| - 1] == a + b[..|b| - 1];
      KeysConcat(a, b[..|b| - 1]);
    }
  }

  lemma KeysOfOne(w: Work)
    ensures Keys([w]) == [w.key]
  {
    assert [w][..0] == [];
  }

  lemma {:induction false} KeysAfterInsert(w: Work, s: seq<Work>, sooner: (Work, Work) -> bool)
    ensures multiset(Keys(Insert(w, s, sooner))) == multiset{w.key} + multiset(Keys(s))
  {
    KeysOfOne(w);
    if s != [] && sooner(s[0], w) {
      KeysAfterInsert(w, s[1..], sooner);
      KeysOfOne(s[0]);
      KeysConcat([s[0]], Insert(w, s[1..], sooner));
      KeysConcat([s[0]], s[1..]);
      assert s == [s[0]] + s[1..];
    } else {
      KeysConcat([w], s);
    }
  }

  lemma {:induction false} KeysAfterSort(s: seq<Work>, sooner: (Work, Work) -> bool)
    ensures multiset(Keys(Sort(s, sooner))) == multiset(Keys(s))
  {
    if s != [] {
      KeysAfterSort(s[1..], sooner);
      KeysAfterInsert(s[0], Sort(s[1..], sooner), sooner);
      KeysOfOne(s[0]);
      KeysConcat([s[0]], s[1..]);
      assert s == [s[0]] + s[1..];
    }
  }

  lemma {:induction false} KeyOf(ws: seq<Work>, k: Key)
    ensures k in Keys(ws) <==> exists w :: w in ws && w.key == k
  {
    if ws != [] {
      KeyOf(ws[..|ws| - 1], k);
      assert forall w :: w in ws <==> w in ws[..|ws| - 1] || w == ws[|ws| - 1];
    }
  }

  lemma {:induction false} KeyOnce(ws: seq<Work>, w: Work)
    requires DistinctKeys(ws) && w in ws
    ensures multiset(Keys(ws))[w.key] == 1
  {
    var rest, last := ws[..|ws| - 1], ws[|ws| - 1];
    if w in rest {
      KeyOnce(rest, w);
    } else {
      KeyOf(rest, w.key);
    }
  }

  lemma SameKeySameWork(ws: seq<Work>, v: Work, w: Work)
    requires DistinctKeys(ws) && v in ws && w in ws && v.key == w.key
    ensures v == w
  {
    var i :| 0 <= i < |ws| && ws[i] == v;
    var j :| 0 <= j < |ws| && ws[j] == w;
    assert !(i < j) && !(j < i);
  }

  /** Of works with keys of their own, the shelved ones are exactly the filed albums. */
  lemma FiledIsShelved(ws: seq<Work>, artists: seq<Artist>, sooner: (Work, Work) -> bool, w: Work)
    requires DistinctKeys(ws) && w in ws
    requires ShelvedKeys(artists) == Keys(Sort(Filter(ws, Filed), sooner))
    ensures w.key in Shelved(artists) <==> Filed(w)
  {
    KeysAfterSort(Filter(ws, Filed), sooner);
    var filed := Filter(ws, Filed);
    assert w.key in Shelved(artists) <==> w.key in multiset(ShelvedKeys(artists));
    assert w.key in Shelved(artists) <==> w.key in multiset(Keys(filed));
    KeyOf(filed, w.key);
    FilterHolds(ws, Filed);
    if v :| v in filed && v.key == w.key {
      SameKeySameWork(ws, v, w);
    }
  }

  lemma {:induction false} FiledOrOwn(ws: seq<Work>, shelved: set<Key>)
    requires forall w :: w in ws ==> (w.key in shelved <==> Filed(w))
    ensures multiset(OwnKeys(ws, shelved)) + multiset(Keys(Filter(ws, Filed))) == multiset(Keys(ws))
  {
    if ws != [] {
      var rest, last := ws[..|ws| - 1], ws[|ws| - 1];
      assert ws == rest + [last];
      FiledOrOwn(rest, shelved);
      FilterConcat(rest, [last], Filed);
      assert last in ws;
      assert Filter([last], Filed) == if Filed(last) then [last] else [];
      KeysConcat(Filter(rest, Filed), Filter([last], Filed));
      KeysOfOne(last);
    }
  }

  /** The grid loses nothing and shows nothing twice: every work is one tile or stands on one
      artist's shelf, and which of the two is whether it is a filed album. */
  lemma EveryWorkOnce(ws: seq<Work>, artists: seq<Artist>, sooner: (Work, Work) -> bool)
    requires DistinctKeys(ws)
    requires ShelvedKeys(artists) == Keys(Sort(Filter(ws, Filed), sooner))
    ensures multiset(TileKeys(Order(ws, artists))) + multiset(ShelvedKeys(artists)) == multiset(Keys(ws))
    ensures forall w :: w in ws ==>
      && multiset(TileKeys(Order(ws, artists)))[w.key] == (if w.kind == Album && w.author != "" then 0 else 1)
      && multiset(ShelvedKeys(artists))[w.key] == (if w.kind == Album && w.author != "" then 1 else 0)
  {
    forall w | w in ws
      ensures w.key in Shelved(artists) <==> Filed(w)
    {
      FiledIsShelved(ws, artists, sooner, w);
    }
    TilesShareOut(ws, artists);
    FiledOrOwn(ws, Shelved(artists));
    KeysAfterSort(Filter(ws, Filed), sooner);
    forall w | w in ws
      ensures multiset(TileKeys(Order(ws, artists)))[w.key] == (if Filed(w) then 0 else 1)
      ensures multiset(ShelvedKeys(artists))[w.key] == (if Filed(w) then 1 else 0)
    {
      KeyOnce(ws, w);
      assert w.key in Shelved(artists) <==> w.key in multiset(ShelvedKeys(artists));
    }
  }

  // ── the bands ─────────────────────────────────────────────────────────

  function WorksOf(order: seq<Shelf>): seq<Work> {
    if order == [] then []
    else
      var last := order[|order| - 1];
      WorksOf(order[..|order| - 1]) + if last.OfWork? then [last.work] else []
  }

  function InBand(b: Band): Shelf -> bool {
    (sh: Shelf) => sh.band == b
  }

  function Within(order: seq<Shelf>, b: Band): seq<Shelf> {
    Filter(order, InBand(b))
  }

  /** The band a work belongs in: a show's, a book's, an audiobook's and an album's own, and of
      what the path could not place the band of its medium, any other video being a film. */
  predicate BelongsIn(w: Work, b: Band) {
    match b
    case TV => w.kind == Show
    case Movies => w.kind == OtherKind && w.medium == OtherMedium
    case Music => w.kind == Album || (w.kind == OtherKind && w.medium == Audio)
    case Audiobooks => w.kind == Audiobook
    case Books => w.kind == Book || (w.kind == OtherKind && w.medium == Text)
  }

  /** Some artist's shelf stands for the work. */
  predicate StoodFor(artists: seq<Artist>, w: Work) {
    exists a :: a in artists && w.key in a.albums
  }

  /** The works that are tiles of their own in band `b`. */
  function OwnIn(artists: seq<Artist>, b: Band): Work -> bool {
    (w: Work) => !StoodFor(artists, w) && BelongsIn(w, b)
  }

  lemma BandIsWhereItBelongs(w: Work, b: Band)
    ensures BandOf(w) == b <==> BelongsIn(w, b)
  {
  }

  lemma {:induction false} ShelvedIsStoodFor(artists: seq<Artist>, w: Work)
    ensures w.key in Shelved(artists) <==> StoodFor(artists, w)
  {
    if artists != [] {
      var rest, last := artists[..|artists| - 1], artists[|artists| - 1];
      assert artists == rest + [last];
      ShelvedIsStoodFor(rest, w);
      assert w.key in Shelved(artists) <==> w.key in Shelved(rest) || w.key in last.albums;
    }
  }

  lemma OwnIsOwn(shelved: set<Key>, artists: seq<Artist>, b: Band)
    requires shelved == Shelved(artists)
    ensures forall w :: OwnIn(artists, b)(w) <==> w.key !in shelved && BandOf(w) == b
  {
    forall w
      ensures OwnIn(artists, b)(w) <==> w.key !in shelved && BandOf(w) == b
    {
      ShelvedIsStoodFor(artists, w);
      BandIsWhereItBelongs(w, b);
    }
  }

  lemma {:induction false} RowIsItsWorks(ws: seq<Work>, artists: seq<Artist>, b: Band)
    ensures forall sh :: sh in Row(ws, Shelved(artists), b) ==> sh.OfWork? && sh.band == b
    ensures WorksOf(Row(ws, Shelved(artists), b)) == Filter(ws, OwnIn(artists, b))
  {
    if ws != [] {
      var rest, last := ws[..|ws| - 1], ws[|ws| - 1];
      var own := OwnIn(artists, b);
      assert ws == rest + [last];
      RowIsItsWorks(rest, artists, b);
      OwnIsOwn(Shelved(artists), artists, b);
      FilterConcat(rest, [last], own);
      assert Filter([last], own) == if own(last) then [last] else [];
      var tile := if own(last) then [OfWork(last, b)] else [];
      WorksOfConcat(Row(rest, Shelved(artists), b), tile);
      assert own(last) ==> tile[..0] == [];
    }
  }

  lemma {:induction false} ArtistTilesAreMusic(artists: seq<Artist>)
    ensures |ArtistTiles(artists)| == |artists|
    ensures forall i :: 0 <= i < |artists| ==> ArtistTiles(artists)[i] == OfArtist(artists[i], Music)
  {
    if artists != [] {
      ArtistTilesAreMusic(artists[..|artists| - 1]);
    }
  }

  /** Which part of the order band `b` is. */
  function Part(ws: seq<Work>, artists: seq<Artist>, b: Band): seq<Shelf> {
    (if b == Music then ArtistTiles(artists) else []) + Row(ws, Shelved(artists), b)
  }

  lemma PartIsBand(ws: seq<Work>, artists: seq<Artist>, own: Band, b: Band)
    ensures Filter(Part(ws, artists, own), InBand(b)) == if b == own then Part(ws, artists, own) else []
  {
    RowIsItsWorks(ws, artists, own);
    ArtistTilesAreMusic(artists);
    if b == own {
      FilterAll(Part(ws, artists, own), InBand(b));
    } else {
      FilterNone(Part(ws, artists, own), InBand(b));
    }
  }

  lemma WithinOrder(ws: seq<Work>, artists: seq<Artist>, b: Band)
    ensures Within(Order(ws, artists), b) == Part(ws, artists, b)
  {
    var p1, p2, p3 := Part(ws, artists, TV), Part(ws, artists, Movies), Part(ws, artists, Music);
    var p4, p5 := Part(ws, artists, Audiobooks), Part(ws, artists, Books);
    OrderIsItsParts(ws, artists);
    FilterFive(p1, p2, p3, p4, p5, InBand(b));
    PartIsBand(ws, artists, TV, b);
    PartIsBand(ws, artists, Movies, b);
    PartIsBand(ws, artists, Music, b);
    PartIsBand(ws, artists, Audiobooks, b);
    PartIsBand(ws, artists, Books, b);
  }

  lemma OrderIsItsParts(ws: seq<Work>, artists: seq<Artist>)
    ensures Order(ws, artists) == Part(ws, artists, TV) + Part(ws, artists, Movies) + Part(ws, artists, Music)
      + Part(ws, artists, Audiobooks) + Part(ws, artists, Books)
  {
    assert forall b :: b != Music ==> Part(ws, artists, b) == Row(ws, Shelved(artists), b);
  }

  lemma FilterFive<T>(a: seq<T>, b: seq<T>, c: seq<T>, d: seq<T>, e: seq<T>, p: T -> bool)
    ensures Filter(a + b + c + d + e, p) == Filter(a, p) + Filter(b, p) + Filter(c, p) + Filter(d, p) + Filter(e, p)
  {
    FilterConcat(a, b, p);
    FilterConcat(a + b, c, p);
    FilterConcat(a + b + c, d, p);
    FilterConcat(a + b + c + d, e, p);
  }

  /** The bands come whole and one after the other, every artist before any record in music,
      and inside each band the works are in the order they came. */
  lemma BandsInOrder(ws: seq<Work>, artists: seq<Artist>, b: Band)
    ensures var order := Order(ws, artists);
      order == Within(order, TV) + Within(order, Movies) + Within(order, Music) + Within(order, Audiobooks)
        + Within(order, Books)
    ensures var music := Within(Order(ws, artists), Music);
      && |music| >= |artists|
      && forall i :: 0 <= i < |music| ==> if i < |artists| then music[i] == OfArtist(artists[i], Music) else music[i].OfWork?
    ensures WorksOf(Within(Order(ws, artists), b)) == Filter(ws, OwnIn(artists, b))
  {
    WithinOrder(ws, artists, TV);
    WithinOrder(ws, artists, Movies);
    WithinOrder(ws, artists, Music);
    WithinOrder(ws, artists, Audiobooks);
    WithinOrder(ws, artists, Books);
    WithinOrder(ws, artists, b);
    OrderIsItsParts(ws, artists);
    ArtistsLeadMusic(ws, artists);
    PartKeepsOrder(ws, artists, b);
  }

  lemma ArtistsLeadMusic(ws: seq<Work>, artists: seq<Artist>)
    ensures var music := Part(ws, artists, Music);
      && |music| >= |artists|
      && forall i :: 0 <= i < |music| ==> if i < |artists| then music[i] == OfArtist(artists[i], Music) else music[i].OfWork?
  {
    ArtistTilesAreMusic(artists);
    RowIsItsWorks(ws, artists, Music);
    LeadAndRest(ArtistTiles(artists), Row(ws, Shelved(artists), Music));
  }

  lemma LeadAndRest(lead: seq<Shelf>, rest: seq<Shelf>)
    requires forall sh :: sh in rest ==> sh.OfWork?
    ensures var all := lead + rest;
      forall i :: 0 <= i < |all| ==> if i < |lead| then all[i] == lead[i] else all[i].OfWork?
  {
    var all := lead + rest;
    forall i | |lead| <= i < |all|
      ensures all[i].OfWork?
    {
      assert all[i] == rest[i - |lead|];
    }
  }

  lemma PartKeepsOrder(ws: seq<Work>, artists: seq<Artist>, b: Band)
    ensures WorksOf(Part(ws, artists, b)) == Filter(ws, OwnIn(artists, b))
  {
    RowIsItsWorks(ws, artists, b);
    if b == Music {
      WorksOfConcat(ArtistTiles(artists), Row(ws, Shelved(artists), b));
      NoWorksInArtists(artists);
    } else {
      assert Part(ws, artists, b) == Row(ws, Shelved(artists), b);
    }
  }

  lemma {:induction false} WorksOfConcat(a: seq<Shelf>, b: seq<Shelf>)
    ensures WorksOf(a + b) == WorksOf(a) + WorksOf(b)
  {
    if b == [] {
      assert a + b == a;
    } else {
      assert (a + b)[..|a + b| - 1] == a + b[..|b| - 1];
      WorksOfConcat(a, b[..|b| - 1]);
    }
  }

  lemma {:induction false} NoWorksInArtists(artists: seq<Artist>)
    ensures WorksOf(ArtistTiles(artists)) == []
  {
    if artists != [] {
      NoWorksInArtists(artists[..|artists| - 1]);
      WorksOfConcat(ArtistTiles(artists[..|artists| - 1]), [OfArtist(artists[|artists| - 1], Music)]);
      assert WorksOf([OfArtist(artists[|artists| - 1], Music)]) == [];
    }
  }

  lemma {:induction false} RowMembers(ws: seq<Work>, shelved: set<Key>, b: Band, sh: Shelf)
    ensures sh in Row(ws, shelved, b) <==>
      sh.OfWork? && sh.work in ws && sh.work.key !in shelved && BandOf(sh.work) == b && sh.band == b
  {
    if ws != [] {
      var rest, last := ws[..|ws| - 1], ws[|ws| - 1];
      assert ws == rest + [last];
      RowMembers(rest, shelved, b, sh);
    }
  }

  lemma OrderHasRows(ws: seq<Work>, artists: seq<Artist>, sh: Shelf)
    ensures sh in Order(ws, artists) <==> sh in ArtistTiles(artists) || sh in Row(ws, Shelved(artists), sh.band)
  {
    var s := Shelved(artists);
    OrderIsItsParts(ws, artists);
    forall b
      ensures sh in Row(ws, s, b) ==> sh.band == b
    {
      RowMembers(ws, s, b, sh);
    }
    assert sh in Order(ws, artists) <==>
      sh in ArtistTiles(artists) || sh in Row(ws, s, TV) || sh in Row(ws, s, Movies) || sh in Row(ws, s, Music)
      || sh in Row(ws, s, Audiobooks) || sh in Row(ws, s, Books);
  }

  /** What is on the grid: a tile of each artist, in music, and of each work no artist's shelf
      stands for, in the band it belongs in; and no other tile. */
  lemma TilesExactly(ws: seq<Work>, artists: seq<Artist>, sh: Shelf)
    ensures sh in Order(ws, artists) <==>
      match sh
      case OfWork(w, b) => w in ws && !StoodFor(artists, w) && BelongsIn(w, b)
      case OfArtist(a, b) => a in artists && b == Music
  {
    OrderHasRows(ws, artists, sh);
    RowMembers(ws, Shelved(artists), sh.band, sh);
    ArtistTilesAreMusic(artists);
    var tiles := ArtistTiles(artists);
    if sh.OfWork? {
      ShelvedIsStoodFor(artists, sh.work);
      BandIsWhereItBelongs(sh.work, sh.band);
    } else {
      assert sh in tiles ==> exists i :: 0 <= i < |artists| && sh == OfArtist(artists[i], Music);
      if sh.artist in artists && sh.band == Music {
        var i :| 0 <= i < |artists| && artists[i] == sh.artist;
        assert tiles[i] == sh;
      }
    }
  }

  /** The bands the library has: each that something landed in, in the library's order. */
  method BandsOf(order: seq<Shelf>) returns (bands: seq<Band>)
    ensures bands == Filter([TV, Movies, Music, Audiobooks, Books], (b: Band) => exists sh :: sh in order && sh.band == b)
  {
    var has: set<Band> := {};
    for i := 0 to |order|
      invariant forall b :: b in has <==> exists sh :: sh in order[..i] && sh.band == b
    {
      assert order[..i + 1] == order[..i] + [order[i]];
      has := has + {order[i].band};
    }
    assert order[..|order|] == order;
    ghost var landed := (b: Band) => exists sh :: sh in order && sh.band == b;
    bands := [];
    for i := 0 to |LIBRARY_BANDS|
      invariant bands == Filter(LIBRARY_BANDS[..i], landed)
    {
      FilterConcat(LIBRARY_BANDS[..i], [LIBRARY_BANDS[i]], landed);
      assert LIBRARY_BANDS[..i + 1] == LIBRARY_BANDS[..i] + [LIBRARY_BANDS[i]];
      if LIBRARY_BANDS[i] in has {
        bands := bands + [LIBRARY_BANDS[i]];
      }
    }
    assert LIBRARY_BANDS[..|LIBRARY_BANDS|] == LIBRARY_BANDS;
  }
}
