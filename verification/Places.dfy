/** The places a work publishes (cmd/server/hyper.go placesOf), and the passage two of them mint
    when they are handed back (cmd/server/passage.go). */
module Places {
  import opened Options
  import opened PlaceTokens
  import opened Trimming
  import M = Marks
  import Locators
  import Numerals

  datatype ChapterMark = ChapterMark(start: real, title: string)

  /** A member: `kind` is empty when the scanner could not identify the file. */
  datatype Member = Member(
    id: nat, kind: string, season: nat, episode: nat, name: string, chapters: seq<ChapterMark>, sections: nat)

  datatype WorkKind = Show | Movie | Audiobook | Album | Book | OtherKind

  datatype Work = Work(kind: WorkKind, items: seq<Member>, representative: nat)

  datatype Place = Place(token: string, name: string)

  // ── what is published ─────────────────────────────────────────────────

  /** The first member, bonus material aside, that has chapter marks. */
  function ChapterSource(items: seq<Member>): Option<Member> {
    if items == [] then None
    else if items[0].kind != "extra" && items[0].chapters != [] then Some(items[0])
    else ChapterSource(items[1..])
  }

  function SectionsOf(items: seq<Member>): nat {
    if items == [] then 0 else if items[0].sections > 0 then items[0].sections else SectionsOf(items[1..])
  }

  predicate Numbered(it: Member) {
    it.kind == "episode" && it.episode != 0
  }

  function Episodes(items: seq<Member>): seq<Place> {
    if items == [] then []
    else
      var it := items[|items| - 1];
      Episodes(items[..|items| - 1]) + if Numbered(it) then [Place(EpisodeToken(it.season, it.episode), it.name)] else []
  }

  function Titled(title: string, word: string, number: string): string {
    if title == "" then word + number else title
  }

  function TimeOf(chapters: seq<ChapterMark>, i: nat): Place
    requires i < |chapters|
  {
    Place(Clock(chapters[i].start), Titled(chapters[i].title, "Chapter ", Pad2(i + 1)))
  }

  function Times(chapters: seq<ChapterMark>): (ps: seq<Place>)
    ensures |ps| == |chapters|
    ensures forall i :: 0 <= i < |ps| ==> ps[i] == TimeOf(chapters, i)
  {
    seq(|chapters|, i requires 0 <= i < |chapters| => TimeOf(chapters, i))
  }

  function Sections(n: nat, titles: seq<ChapterMark>): (ps: seq<Place>)
    requires titles == [] || n <= |titles|
    ensures |ps| == n
    ensures forall i :: 0 <= i < n ==> ps[i].token == SectionToken(i + 1)
  {
    if n == 0 then []
    else
      var title := if titles == [] then "" else titles[n - 1].title;
      Sections(n - 1, titles) + [Place(SectionToken(n), Titled(title, "Section ", Numerals.NatText(n)))]
  }

  /** Every place the work has a word for, in the work's order. */
  function Candidates(wk: Work): seq<Place> {
    var source := ChapterSource(wk.items);
    match wk.kind
    case Show => Episodes(wk.items)
    case Movie | Audiobook | Album => if source.Some? then Times(source.value.chapters) else []
    case Book =>
      if source.Some? then Sections(|source.value.chapters|, source.value.chapters) else Sections(SectionsOf(wk.items), [])
    case OtherKind => []
  }

  function Tokens(ps: seq<Place>): set<string> {
    set p | p in ps :: p.token
  }

  /** Each token the first time it comes. */
  function FirstOfEach(ps: seq<Place>): seq<Place> {
    if ps == [] then []
    else
      var p := ps[|ps| - 1];
      FirstOfEach(ps[..|ps| - 1]) + if p.token == "" || p.token in Tokens(ps[..|ps| - 1]) then [] else [p]
  }

  /** The list placesOf grows and the tokens it has seen. */
  class PlaceList {
    var out: seq<Place>
    var seen: set<string>
    ghost var offered: seq<Place>

    ghost predicate Valid()
      reads this
    {
      && out == FirstOfEach(offered)
      && forall t :: t in seen <==> t in Tokens(offered) && t != ""
    }

    constructor ()
      ensures Valid() && offered == []
    {
      out, seen, offered := [], {}, [];
    }

    method Add(token: string, name: string)
      requires Valid()
      modifies this
      ensures Valid() && offered == old(offered) + [Place(token, name)]
    {
      offered := offered + [Place(token, name)];
      assert offered[..|offered| - 1] == old(offered);
      TokensOneMore(old(offered), Place(token, name));
      if token == "" || token in seen { return; }
      seen := seen + {token};
      out := out + [Place(token, name)];
    }
  }

  method AddEpisodes(list: PlaceList, items: seq<Member>)
    requires list.Valid() && list.offered == []
    modifies list
    ensures list.Valid() && list.offered == Episodes(items)
  {
    for i := 0 to |items|
      invariant list.Valid() && list.offered == Episodes(items[..i])
    {
      assert items[..i + 1][..i] == items[..i];
      if items[i].kind != "episode" || items[i].episode == 0 { continue; }
      list.Add(EpisodeToken(items[i].season, items[i].episode), items[i].name);
    }
    assert items[..|items|] == items;
  }

  method AddTimes(list: PlaceList, chapters: seq<ChapterMark>)
    requires list.Valid() && list.offered == []
    modifies list
    ensures list.Valid() && list.offered == Times(chapters)
  {
    ghost var times := Times(chapters);
    for i := 0 to |chapters|
      invariant list.Valid() && list.offered == times[..i]
    {
      var place := TimeOf(chapters, i);
      assert times[i] == place == Place(place.token, place.name) && times[..i + 1] == times[..i] + [times[i]];
      list.Add(place.token, place.name);
    }
    assert times[..|chapters|] == times;
  }

  method AddSections(list: PlaceList, n: nat, titles: seq<ChapterMark>)
    requires titles == [] || n <= |titles|
    requires list.Valid() && list.offered == []
    modifies list
    ensures list.Valid() && list.offered == Sections(n, titles)
  {
    for i := 0 to n
      invariant list.Valid() && list.offered == Sections(i, titles)
    {
      var title := if titles == [] then "" else titles[i].title;
      list.Add(SectionToken(i + 1), Titled(title, "Section ", Numerals.NatText(i + 1)));
    }
  }

  method PlacesOf(wk: Work) returns (out: seq<Place>)
    ensures out == FirstOfEach(Candidates(wk))
  {
    var list := new PlaceList();
    var source := ChapterSource(wk.items);
    match wk.kind {
      case Show => AddEpisodes(list, wk.items);
      case Movie | Audiobook | Album =>
        if source.Some? {
          AddTimes(list, source.value.chapters);
        }
      case Book =>
        if source.Some? {
          AddSections(list, |source.value.chapters|, source.value.chapters);
        } else {
          AddSections(list, SectionsOf(wk.items), []);
        }
      case OtherKind =>
    }
    out := list.out;
  }

  /** What is published: every place there is a word for, each token once, in the work's order
      (of two places with one token, the earlier). */
  lemma {:induction false} EachTokenOnce(ps: seq<Place>)
    ensures Tokens(FirstOfEach(ps)) == Tokens(ps) - {""}
    ensures forall i, j :: 0 <= i < j < |FirstOfEach(ps)| ==> FirstOfEach(ps)[i].token != FirstOfEach(ps)[j].token
    ensures forall p :: p in FirstOfEach(ps) ==> p in ps
  {
    if ps != [] {
      var before, p := ps[..|ps| - 1], ps[|ps| - 1];
      var kept := FirstOfEach(before);
      assert ps == before + [p];
      EachTokenOnce(before);
      TokensOneMore(before, p);
      if p.token == "" || p.token in Tokens(before) {
        assert FirstOfEach(ps) == kept;
      } else {
        TokensOneMore(kept, p);
        assert FirstOfEach(ps) == kept + [p];
        assert forall q :: q in kept ==> q.token in Tokens(kept);
      }
    }
  }

  lemma TokensOneMore(ps: seq<Place>, p: Place)
    ensures Tokens(ps + [p]) == Tokens(ps) + {p.token}
  {
  }

  // ── handing a place back ──────────────────────────────────────────────

  predicate IsEpisode(m: Member, season: nat, episode: nat) {
    (m.kind == "" || m.kind == "episode") && m.season == season && m.episode == episode
  }

  /** The first member with the code's numbers; one of no kind is read as an episode. */
  function FindEpisode(items: seq<Member>, season: nat, episode: nat): (r: Option<Member>)
    ensures r.Some? <==> exists m :: m in items && IsEpisode(m, season, episode)
    ensures r.Some? ==> r.value in items && IsEpisode(r.value, season, episode)
  {
    if items == [] then None
    else if IsEpisode(items[0], season, episode) then Some(items[0])
    else FindEpisode(items[1..], season, episode)
  }

  function WithId(items: seq<Member>, id: nat): Option<Member> {
    if items == [] then None else if items[0].id == id then Some(items[0]) else WithId(items[1..], id)
  }

  /** The member of that id, the first member when there is none of it. */
  function MemberById(items: seq<Member>, id: nat): Option<Member> {
    if WithId(items, id).Some? then WithId(items, id) else if items != [] then Some(items[0]) else None
  }

  /** A member, by its id, and a time in it. */
  datatype Spot = Spot(id: nat, seconds: real)

  /** placeInWork: absent where it refuses. */
  function PlaceInWork(wk: Work, token: string): Option<Spot> {
    var tok := Trim(token);
    var code := SplitEpisodeCode(tok);
    if code.Some? then
      var found := FindEpisode(wk.items, code.value.season, code.value.episode);
      if found.None? then None else
      var it := MemberById(wk.items, found.value.id);
      if it.None? then None
      else if code.value.rest == "" then Some(Spot(it.value.id, 0.0))
      else
        var secs := ClockValue(code.value.rest);
        if secs.None? then None else Some(Spot(it.value.id, secs.value))
    else
      var secs := ClockValue(tok);
      if secs.None? || wk.kind == Show then None else
      var source := ChapterSource(wk.items);
      var it := if source.Some? then source else MemberById(wk.items, wk.representative);
      if it.None? then None else Some(Spot(it.value.id, secs.value))
  }

  lemma {:induction false} WithIdFinds(items: seq<Member>, m: Member)
    requires m in items
    ensures WithId(items, m.id).Some? && WithId(items, m.id).value in items && WithId(items, m.id).value.id == m.id
  {
    if items[0].id != m.id {
      WithIdFinds(items[1..], m);
    }
  }

  lemma {:induction false} SourceIsMember(items: seq<Member>)
    ensures ChapterSource(items).Some? ==> ChapterSource(items).value in items
  {
    if items != [] {
      SourceIsMember(items[1..]);
    }
  }

  /** An episode's place is accepted exactly when its code fits the grammar, and then it is the
      start of the first episode with that code. */
  lemma EpisodePlaceIsAccepted(wk: Work, it: Member)
    requires it in wk.items && Numbered(it)
    ensures var found := FindEpisode(wk.items, it.season, it.episode);
      && found.Some?
      && PlaceInWork(wk, EpisodeToken(it.season, it.episode)) ==
        if it.season <= 999 && it.episode <= 9999 then Some(Spot(found.value.id, 0.0)) else None
  {
    assert IsEpisode(it, it.season, it.episode);
    var found := FindEpisode(wk.items, it.season, it.episode);
    WithIdFinds(wk.items, found.value);
    EpisodeTokenReadsBack(it.season, it.episode);
    EpisodeTokenIsNoTime(it.season, it.episode);
    TokenIsTrim(it.season, it.episode);
    ClockReadsBack(0.0);
    assert Clock(0.0) == "0:00" by { ClockOfNothing(); }
  }

  /** A chapter's place is accepted and is its own start, to the whole second, in the file the
      chapters are of. */
  lemma ChapterPlaceIsAccepted(wk: Work, i: nat)
    requires wk.kind == Movie || wk.kind == Audiobook || wk.kind == Album
    requires ChapterSource(wk.items).Some? && i < |ChapterSource(wk.items).value.chapters|
    ensures var start := ChapterSource(wk.items).value.chapters[i].start;
      PlaceInWork(wk, Candidates(wk)[i].token) ==
        Some(Spot(ChapterSource(wk.items).value.id, if start < 0.0 then 0.0 else start.Floor as real))
  {
    var start := ChapterSource(wk.items).value.chapters[i].start;
    ClockIsNoCode(start);
    ClockReadsBack(start);
  }

  lemma BookTokens(wk: Work, i: nat)
    requires wk.kind == Book && i < |Candidates(wk)|
    ensures Candidates(wk)[i].token == SectionToken(i + 1)
  {
  }

  /** A book's `i`th place is its `i`th section, counted from one. */
  lemma SectionPlaceIsAccepted(wk: Work, i: nat)
    requires wk.kind == Book && i < |Candidates(wk)|
    ensures Locators.ParseLocator(Some(SpellLocator(Candidates(wk)[i].token))) == Some(Locators.Chapter(i + 1))
  {
    assert Candidates(wk)[i].token == SectionToken(i + 1) by { BookTokens(wk, i); }
    SectionTokenReadsBack(i + 1);
  }

  // ── two places into a passage ─────────────────────────────────────────

  function MemberOrder(items: seq<Member>): (order: seq<nat>)
    ensures |order| == |items|
    ensures forall i :: 0 <= i < |order| ==> order[i] == items[i].id
  {
    seq(|items|, i requires 0 <= i < |items| => items[i].id)
  }

  /** One side read and put through the same mark the player makes; a blank side changes nothing. */
  function MarkSide(wk: Work, m: M.MarkPair, kind: M.Kind, token: string): Option<M.MarkPair> {
    if Trim(token) == "" then Some(m) else
    var spot := PlaceInWork(wk, token);
    if spot.None? then None
    else Some(M.SetMark(m, kind, M.Mark(spot.value.id, M.MarkSeconds(spot.value.seconds)), MemberOrder(wk.items)))
  }

  /** The marks two places come to: `to` alone starts at the top of its own file. */
  function MarksFrom(wk: Work, fromTok: string, toTok: string): Option<M.MarkPair> {
    var one := MarkSide(wk, M.UNMARKED, M.In, fromTok);
    if one.None? then None else
    var two := MarkSide(wk, one.value, M.Out, toTok);
    if two.None? || !two.value.Any() then None
    else if two.value.markIn.Some? then two
    else
      var end := two.value.markOut.value;
      Some(M.MarkPair(Some(M.Mark(end.item, 0.0)), if end.seconds == 0.0 then None else Some(end)))
  }

  datatype Minted = Minted(opens: nat, closes: Option<nat>, passage: M.SessionPassage)

  function MintOf(items: seq<Member>, m: M.MarkPair): Option<Minted> {
    if m.markIn.None? then None else
    var opens := MemberById(items, m.markIn.value.item);
    if opens.None? then None else
    var closes :=
      if m.markOut.Some? && m.markOut.value.item != m.markIn.value.item then MemberById(items, m.markOut.value.item) else None;
    Some(Minted(opens.value.id, if closes.Some? then Some(closes.value.id) else None, M.MarkedPassage(m).value))
  }

  /** timedPassageOf: the members the passage starts and ends in, and the passage itself. */
  function Mint(wk: Work, fromTok: string, toTok: string): Option<Minted> {
    var m := MarksFrom(wk, fromTok, toTok);
    if m.None? then None else MintOf(wk.items, m.value)
  }

  lemma SpotIsMember(wk: Work, token: string)
    ensures PlaceInWork(wk, token).Some? ==> PlaceInWork(wk, token).value.id in MemberOrder(wk.items)
  {
    var order := MemberOrder(wk.items);
    forall it | it in wk.items
      ensures it.id in order
    {
      var i :| 0 <= i < |wk.items| && wk.items[i] == it;
      assert order[i] == it.id;
    }
    SourceIsMember(wk.items);
    forall m | m in wk.items
      ensures WithId(wk.items, m.id).Some? && WithId(wk.items, m.id).value.id == m.id
    {
      WithIdFinds(wk.items, m);
    }
    WithIdIsMember(wk.items, wk.representative);
  }

  lemma {:induction false} WithIdIsMember(items: seq<Member>, id: nat)
    ensures WithId(items, id).Some? ==> WithId(items, id).value in items
  {
    if items != [] {
      WithIdIsMember(items[1..], id);
    }
  }

  function MarkOf(spot: Spot): M.Mark {
    M.Mark(spot.id, M.MarkSeconds(spot.seconds))
  }

  function Pair(x: M.Mark, y: M.Mark, order: seq<nat>): M.MarkPair {
    M.SetMark(M.SetMark(M.UNMARKED, M.In, x, order), M.Out, y, order)
  }

  lemma PairEitherWay(x: M.Mark, y: M.Mark, order: seq<nat>)
    requires x.item in order && y.item in order
    ensures Pair(x, y, order) == Pair(y, x, order)
    ensures Pair(x, y, order).markIn.Some? && M.WellMarked(Pair(x, y, order), order)
  {
    M.CompareIsTheOrder(x, y, order);
    M.CompareIsTheOrder(y, x, order);
  }

  lemma BothPlaces(wk: Work, a: string, b: string)
    requires Trim(a) != "" && Trim(b) != ""
    ensures MarksFrom(wk, a, b) ==
      if PlaceInWork(wk, a).None? || PlaceInWork(wk, b).None? then None
      else Some(Pair(MarkOf(PlaceInWork(wk, a).value), MarkOf(PlaceInWork(wk, b).value), MemberOrder(wk.items)))
  {
    SpotIsMember(wk, a);
    SpotIsMember(wk, b);
    if PlaceInWork(wk, a).Some? && PlaceInWork(wk, b).Some? {
      PairEitherWay(MarkOf(PlaceInWork(wk, a).value), MarkOf(PlaceInWork(wk, b).value), MemberOrder(wk.items));
    }
  }

  lemma BothEitherWay(wk: Work, a: string, b: string)
    requires Trim(a) != "" && Trim(b) != ""
    ensures MarksFrom(wk, a, b) == MarksFrom(wk, b, a)
    ensures MarksFrom(wk, a, b).None? <==> PlaceInWork(wk, a).None? || PlaceInWork(wk, b).None?
    ensures MarksFrom(wk, a, b).Some? ==> MarksFrom(wk, a, b).value.markIn.Some? && wk.items != []
  {
    BothPlaces(wk, a, b);
    BothPlaces(wk, b, a);
    SpotIsMember(wk, a);
    SpotIsMember(wk, b);
    var p, q := PlaceInWork(wk, a), PlaceInWork(wk, b);
    if p.Some? && q.Some? {
      PairEitherWay(MarkOf(p.value), MarkOf(q.value), MemberOrder(wk.items));
    }
  }

  /** Which way round the two places were given makes no difference. */
  lemma MintEitherWay(wk: Work, a: string, b: string)
    requires Trim(a) != "" && Trim(b) != ""
    ensures Mint(wk, a, b) == Mint(wk, b, a)
    ensures Mint(wk, a, b).None? <==> PlaceInWork(wk, a).None? || PlaceInWork(wk, b).None?
  {
    BothEitherWay(wk, a, b);
    var m := MarksFrom(wk, a, b);
    if m.Some? {
      assert MintOf(wk.items, m.value).Some?;
    }
  }

  lemma OnePlace(wk: Work, token: string, kind: M.Kind)
    requires Trim(token) != "" && PlaceInWork(wk, token).Some?
    ensures var m := MarkSide(wk, M.UNMARKED, kind, token).value;
      && M.WellMarked(m, MemberOrder(wk.items))
      && m == if kind == M.In then M.MarkPair(Some(MarkOf(PlaceInWork(wk, token).value)), None)
              else M.MarkPair(None, Some(MarkOf(PlaceInWork(wk, token).value)))
  {
    SpotIsMember(wk, token);
  }

  lemma FromAlone(wk: Work, token: string, blank: string)
    requires Trim(token) != "" && PlaceInWork(wk, token).Some? && Trim(blank) == ""
    ensures MarksFrom(wk, token, blank).Some?
    ensures var m := MarksFrom(wk, token, blank).value; m.markIn.Some? && M.WellMarked(m, MemberOrder(wk.items))
  {
    OnePlace(wk, token, M.In);
  }

  lemma ToAlone(wk: Work, blank: string, token: string)
    requires Trim(token) != "" && PlaceInWork(wk, token).Some? && Trim(blank) == ""
    ensures MarksFrom(wk, blank, token).Some?
    ensures var m := MarksFrom(wk, blank, token).value; m.markIn.Some? && M.WellMarked(m, MemberOrder(wk.items))
  {
    OnePlace(wk, token, M.Out);
    NeverBeforeTheStart(PlaceInWork(wk, token).value.seconds);
  }

  lemma NeverBeforeTheStart(x: real)
    ensures M.MarkSeconds(x) >= 0.0
  {
  }

  lemma BothAreInOrder(wk: Work, a: string, b: string)
    requires Trim(a) != "" && Trim(b) != "" && MarksFrom(wk, a, b).Some?
    ensures var m := MarksFrom(wk, a, b).value; m.markIn.Some? && M.WellMarked(m, MemberOrder(wk.items))
  {
    SpotIsMember(wk, a);
    SpotIsMember(wk, b);
    BothPlaces(wk, a, b);
    PairEitherWay(MarkOf(PlaceInWork(wk, a).value), MarkOf(PlaceInWork(wk, b).value), MemberOrder(wk.items));
  }

  /** What two places mint is a passage two ordered marks stand for, so its link reads back as
      any other's does. */
  lemma MintedMarksAreInOrder(wk: Work, fromTok: string, toTok: string)
    requires Mint(wk, fromTok, toTok).Some?
    ensures var m := MarksFrom(wk, fromTok, toTok).value;
      && M.WellMarked(m, MemberOrder(wk.items)) && m.markIn.Some?
      && Some(Mint(wk, fromTok, toTok).value.passage) == M.MarkedPassage(m)
  {
    if Trim(fromTok) != "" && Trim(toTok) != "" {
      BothAreInOrder(wk, fromTok, toTok);
    } else if Trim(fromTok) != "" {
      FromAlone(wk, fromTok, toTok);
    } else if Trim(toTok) != "" {
      ToAlone(wk, fromTok, toTok);
    }
  }

  /** Two chapters of a film or a record, whichever was given first, mint the stretch of that
      file from the earlier to the later, each to the whole second. */
  lemma TwoChaptersMint(wk: Work, i: nat, j: nat)
    requires wk.kind == Movie || wk.kind == Audiobook || wk.kind == Album
    requires ChapterSource(wk.items).Some?
    requires i < |ChapterSource(wk.items).value.chapters| && j < |ChapterSource(wk.items).value.chapters|
    requires var cs := ChapterSource(wk.items).value.chapters; 0 <= cs[i].start.Floor < cs[j].start.Floor
    ensures var source := ChapterSource(wk.items).value;
      var minted := Mint(wk, Candidates(wk)[i].token, Candidates(wk)[j].token);
      && minted == Mint(wk, Candidates(wk)[j].token, Candidates(wk)[i].token)
      && minted.Some? && minted.value.opens == source.id && minted.value.closes == None
      && minted.value.passage.t == Some(source.chapters[i].start.Floor as real)
      && minted.value.passage.end == Some(source.chapters[j].start.Floor as real)
      && minted.value.passage.until == None
  {
    var source := ChapterSource(wk.items).value;
    var a, b := Candidates(wk)[i].token, Candidates(wk)[j].token;
    ClockIsNoCode(source.chapters[i].start);
    ClockIsNoCode(source.chapters[j].start);
    MintEitherWay(wk, a, b);
    BothPlaces(wk, a, b);
    ChapterPlaceIsAccepted(wk, i);
    ChapterPlaceIsAccepted(wk, j);
    SpotIsMember(wk, a);
    SourceIsMember(wk.items);
    WithIdFinds(wk.items, source);
    var s, e := source.chapters[i].start.Floor, source.chapters[j].start.Floor;
    WholeSecondsStay(s);
    WholeSecondsStay(e);
    var x, y := M.Mark(source.id, s as real), M.Mark(source.id, e as real);
    M.CompareIsTheOrder(x, y, MemberOrder(wk.items));
    assert MarksFrom(wk, a, b) == Some(M.MarkPair(Some(x), Some(y)));
  }

  lemma WholeSecondsStay(n: nat)
    ensures M.MarkSeconds(n as real) == n as real
  {
    assert (n as real * 10.0 + 0.5).Floor == n * 10;
  }

  // ── two places in a book ──────────────────────────────────────────────

  /** One side of a book's passage: nothing when it is blank, the place's own spelling when it
      is one, and no answer when it is no place. */
  function TextSide(token: string): Option<string> {
    if Trim(token) == "" then Some("") else
    var place := Locators.ParseTrimmed(Trim(SpellLocator(token)));
    if place.None? then None else Some(Locators.FormatLocator(place.value))
  }

  /** A passage of a book: the item, and where it opens and closes. */
  datatype TextMinted = TextMinted(item: nat, opens: string, closes: string)

  /** The file a book's places are of. */
  function BookFile(wk: Work): Option<Member> {
    var source := ChapterSource(wk.items);
    if source.Some? then source else MemberById(wk.items, wk.representative)
  }

  /** textPassageOf: absent where it refuses. */
  function MintText(wk: Work, fromTok: string, toTok: string): Option<TextMinted> {
    var it := BookFile(wk);
    if it.None? then None else
    var opens, closes := TextSide(fromTok), TextSide(toTok);
    if opens.None? || closes.None? || (opens.value == "" && closes.value == "") then None
    else Some(TextMinted(it.value.id, opens.value, closes.value))
  }

  /** The canonical spelling of a place is spelled and trimmed as it is. */
  lemma FormattedIsSpelled(l: Locators.Locator)
    requires Locators.Placeable(l)
    ensures TextSide(Locators.FormatLocator(l)) == Some(Locators.FormatLocator(l))
    ensures var t := Locators.FormatLocator(l); t != "" && Trim(t) == t && SpellLocator(t) == t
  {
    var kind, rest := Locators.Kind(l), Locators.Rest(l);
    FormattedShape(l);
    ColonIsNoWord(kind, rest);
    Locators.FormattedIsRead(l);
  }

  lemma FormattedShape(l: Locators.Locator)
    requires Locators.Placeable(l)
    ensures var t := Locators.FormatLocator(l);
      && t == Locators.Kind(l) + (":" + Locators.Rest(l)) && t != "" && Trim(t) == t
  {
    var kind, rest := Locators.Kind(l), Locators.Rest(l);
    var t := kind + (":" + rest);
    RestEnds(l);
    assert t[|t| - 1] == rest[|rest| - 1];
    NothingToTrim(t, IsSpace);
  }

  lemma RestEnds(l: Locators.Locator)
    requires Locators.Placeable(l)
    ensures var rest := Locators.Rest(l); rest != "" && !IsSpace(rest[|rest| - 1])
  {
    Locators.RestReadsBack(l);
  }

  /** With a colon after the kind there is no other spelling to undo. */
  lemma ColonIsNoWord(kind: string, rest: string)
    requires kind in ["cfi", "ch", "pg", "pct"] && Trim(kind + (":" + rest)) == kind + (":" + rest)
    ensures SpellLocator(kind + (":" + rest)) == kind + (":" + rest)
  {
    var t := kind + (":" + rest);
    var low := Locators.ToLower(t);
    assert low[0] == kind[0] && low[1] == kind[1];
    if kind != "cfi" {
      assert low[..|kind|] == kind;
      assert KindOf(t) == Some(kind);
      assert t[|kind|..] == ":" + rest;
      assert WordAfter(":" + rest) == None;
    }
  }

  /** Two sections of a book mint the passage from the one to the other, in the book's own file,
      in the order they were given. */
  lemma TwoSectionsMint(wk: Work, i: nat, j: nat)
    requires wk.kind == Book && i < |Candidates(wk)| && j < |Candidates(wk)|
    ensures BookFile(wk).Some?
    ensures MintText(wk, Candidates(wk)[i].token, Candidates(wk)[j].token) ==
      Some(TextMinted(BookFile(wk).value.id, Locators.FormatLocator(Locators.Chapter(i + 1)),
        Locators.FormatLocator(Locators.Chapter(j + 1))))
  {
    BookTokens(wk, i);
    BookTokens(wk, j);
    SectionSide(i + 1);
    SectionSide(j + 1);
    SectionsHaveAFile(wk);
    assert TextSide(SectionToken(i + 1)).value != "";
  }

  lemma SectionsHaveAFile(wk: Work)
    requires wk.kind == Book && Candidates(wk) != []
    ensures BookFile(wk).Some?
  {
    assert wk.items != [];
  }

  lemma SectionSide(n: nat)
    requires n >= 1
    ensures TextSide(SectionToken(n)) == Some(Locators.FormatLocator(Locators.Chapter(n)))
    ensures Locators.FormatLocator(Locators.Chapter(n)) != ""
  {
    SectionTokenReadsBack(n);
    FormattedIsSpelled(Locators.Chapter(n));
    SectionIsNotBlank(n);
  }

  lemma SectionIsNotBlank(n: nat)
    ensures Trim(SectionToken(n)) != ""
  {
    SectionShape(n);
  }

  /** Whatever a book's passage was minted from, its own spelling mints it again. */
  lemma TextMintIsFixed(wk: Work, fromTok: string, toTok: string)
    requires MintText(wk, fromTok, toTok).Some?
    ensures var m := MintText(wk, fromTok, toTok).value; MintText(wk, m.opens, m.closes) == Some(m)
  {
    TextSideIsFixed(fromTok);
    TextSideIsFixed(toTok);
  }

  lemma TextSideIsFixed(token: string)
    requires TextSide(token).Some?
    ensures TextSide(TextSide(token).value) == TextSide(token)
  {
    if Trim(token) != "" {
      var v := Trim(SpellLocator(token));
      Locators.TrimmedIsPlaceable(v);
      FormattedIsSpelled(Locators.ParseTrimmed(v).value);
    }
  }
}
