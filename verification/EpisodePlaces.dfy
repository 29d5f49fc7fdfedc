/** Times in the episodes of a show, handed back as places (cmd/server/passage.go placeInWork and
    timedPassageOf): where each lands, and what two of them mint. */
module EpisodePlaces {
  import opened Options
  import opened Numerals
  import opened PlaceTokens
  import opened Places
  import opened Trimming
  import M = Marks

  /** "S03E22": a season and an episode, in two digits at least. */
  function CodeToken(season: nat, episode: nat): string {
    "S" + Pad2(season) + "E" + Pad2(episode)
  }

  /** "S03E22 14:14": and a time in it, to the second. */
  function TimeToken(season: nat, episode: nat, s: nat): string {
    CodeToken(season, episode) + (" " + Clock(s as real))
  }

  // ── the code and what follows it ──────────────────────────────────────

  /** Nothing, or a blank and a text with no blank to trim off it and no line break in it. */
  predicate Tail(tail: string, rest: string) {
    || (tail == "" && rest == "")
    || (tail == " " + rest && rest != "" && !IsSpace(rest[0]) && !IsSpace(rest[|rest| - 1]) && '\n' !in rest)
  }

  lemma CodeShape(season: nat, episode: nat, tail: string)
    ensures CodeToken(season, episode) + tail == ['S'] + (Pad2(season) + (['E'] + (Pad2(episode) + tail)))
  {
    LetterFirst("E", Pad2(episode), tail);
    LetterFirst("S", Pad2(season), "E" + Pad2(episode) + tail);
    var e := "E" + Pad2(episode);
    assert CodeToken(season, episode) == "S" + Pad2(season) + e;
    assert ("S" + Pad2(season) + e) + tail == "S" + Pad2(season) + (e + tail);
  }

  lemma LetterFirst(letter: string, digits: string, rest: string)
    requires |letter| == 1
    ensures letter + digits + rest == [letter[0]] + (digits + rest)
  {
  }

  lemma CodeIsTrim(season: nat, episode: nat, tail: string, rest: string)
    requires Tail(tail, rest)
    ensures var t := CodeToken(season, episode) + tail; t != "" && Trim(t) == t
  {
    var t := CodeToken(season, episode) + tail;
    assert t[0] == 'S';
    if tail == "" {
      var e := Pad2(episode);
      assert t[|t| - 1] == e[|e| - 1] && IsDigit(e[|e| - 1]);
    } else {
      assert t[|t| - 1] == rest[|rest| - 1];
    }
    NothingToTrim(t, IsSpace);
  }

  lemma TailIsTheRest(tail: string, rest: string)
    requires Tail(tail, rest)
    ensures SkipBlanks(tail) == rest && Trim(rest) == rest
    ensures tail == "" || (!IsDigit(tail[0]) && !IsWord(tail[0]))
  {
    if tail != "" {
      assert tail[1..] == rest;
      NothingToTrim(rest, IsSpace);
    }
  }

  /** A code in range is split off, whatever follows it; out of range it is none. */
  lemma CodeSplitsOff(season: nat, episode: nat, tail: string, rest: string)
    requires Tail(tail, rest)
    ensures SplitEpisodeCode(CodeToken(season, episode) + tail) ==
      if season <= 999 && episode <= 9999 then Some(Code(season, episode, rest)) else None
  {
    CodeShape(season, episode, tail);
    CodeIsTrim(season, episode, tail, rest);
    TailIsTheRest(tail, rest);
    NumberedReads('S', season, ['E'] + (Pad2(episode) + tail), {'S', 's'}, 3);
    NumberedReads('E', episode, tail, {'E', 'e'}, 4);
    Pad2Length(season);
    Pad2Length(episode);
  }

  lemma NumberedDigits(letter: char, digits: string, rest: string, letters: set<char>, most: nat)
    requires AllDigits(digits) && (rest == "" || !IsDigit(rest[0]))
    ensures PlaceTokens.Numbered([letter] + (digits + rest), letters, most) ==
      if letter in letters && 1 <= |digits| <= most then Some((NatValue(digits), rest)) else None
  {
    assert ([letter] + (digits + rest))[1..] == digits + rest;
    RunOf(digits, rest);
  }

  /** Which texts are a code: the letters in either case, one to three digits and one to four, and
      no letter, digit or underscore straight after. */
  lemma CodeExactly(s: char, season: string, e: char, episode: string, tail: string, rest: string)
    requires AllDigits(season) && AllDigits(episode) && !IsSpace(s)
    requires Tail(tail, rest) && (tail == "" ==> episode != "") && !IsDigit(e) && !IsSpace(e)
    ensures SplitEpisodeCode([s] + (season + ([e] + (episode + tail)))) ==
      if s in "Ss" && e in "Ee" && 1 <= |season| <= 3 && 1 <= |episode| <= 4
      then Some(Code(NatValue(season), NatValue(episode), rest)) else None
  {
    var t := [s] + (season + ([e] + (episode + tail)));
    EndsLike(t, [s] + (season + [e]), episode, tail, rest);
    NothingToTrim(t, IsSpace);
    TailIsTheRest(tail, rest);
    NumberedDigits(s, season, [e] + (episode + tail), {'S', 's'}, 3);
    NumberedDigits(e, episode, tail, {'E', 'e'}, 4);
    SplitByParts(t, PlaceTokens.Numbered(t, {'S', 's'}, 3), PlaceTokens.Numbered([e] + (episode + tail), {'E', 'e'}, 4));
  }

  lemma SplitByParts(t: string, a: Option<(nat, string)>, b: Option<(nat, string)>)
    requires Trim(t) == t && PlaceTokens.Numbered(t, {'S', 's'}, 3) == a
    requires a.Some? ==> PlaceTokens.Numbered(a.value.1, {'E', 'e'}, 4) == b
    ensures SplitEpisodeCode(t) ==
      if a.None? || b.None? || (b.value.1 != "" && IsWord(b.value.1[0])) || '\n' in SkipBlanks(b.value.1) then None
      else Some(Code(a.value.0, b.value.0, Trim(SkipBlanks(b.value.1))))
  {
  }

  lemma EndsLike(t: string, front: string, episode: string, tail: string, rest: string)
    requires t == front + (episode + tail) && Tail(tail, rest) && AllDigits(episode) && (tail == "" ==> episode != "")
    ensures t != "" && !IsSpace(t[|t| - 1])
  {
    if tail == "" {
      assert t[|t| - 1] == episode[|episode| - 1];
    } else {
      assert t[|t| - 1] == rest[|rest| - 1];
    }
  }

  /** A letter or an underscore straight after the digits, and it is no code. */
  lemma NoCodeInAWord(season: nat, episode: nat, tail: string)
    requires tail != "" && !IsSpace(tail[|tail| - 1]) && !IsDigit(tail[0])
    requires 'a' <= tail[0] <= 'z' || 'A' <= tail[0] <= 'Z' || tail[0] == '_'
    ensures SplitEpisodeCode(CodeToken(season, episode) + tail) == None
  {
    var t := CodeToken(season, episode) + tail;
    CodeShape(season, episode, tail);
    assert t[0] == 'S' && t[|t| - 1] == tail[|tail| - 1];
    NothingToTrim(t, IsSpace);
    NumberedReads('S', season, ['E'] + (Pad2(episode) + tail), {'S', 's'}, 3);
    NumberedReads('E', episode, tail, {'E', 'e'}, 4);
  }

  // ── the first member of a code ────────────────────────────────────────

  /** The `i`th member is the first with this code, one of no kind being taken for an episode. */
  predicate FirstOfCode(items: seq<Member>, i: nat, season: nat, episode: nat) {
    && i < |items| && HasCode(items[i], season, episode)
    && forall j :: 0 <= j < i ==> !HasCode(items[j], season, episode)
  }

  predicate HasCode(m: Member, season: nat, episode: nat) {
    m.kind in ["", "episode"] && m.season == season && m.episode == episode
  }

  lemma {:induction false} FindsTheFirst(items: seq<Member>, i: nat, season: nat, episode: nat)
    requires FirstOfCode(items, i, season, episode)
    ensures FindEpisode(items, season, episode) == Some(items[i])
  {
    if i > 0 {
      assert !HasCode(items[0], season, episode);
      FindsTheFirst(items[1..], i - 1, season, episode);
    }
  }

  lemma {:induction false} FindsNone(items: seq<Member>, season: nat, episode: nat)
    requires forall m :: m in items ==> !HasCode(m, season, episode)
    ensures FindEpisode(items, season, episode) == None
  {
    if items != [] {
      FindsNone(items[1..], season, episode);
    }
  }

  /** In the first member with the code at its start, or at the time that follows; refused when
      there is no such member, or what follows is no time. */
  lemma CodedPlace(wk: Work, i: nat, season: nat, episode: nat, tail: string, rest: string)
    requires Tail(tail, rest) && season <= 999 && episode <= 9999 && FirstOfCode(wk.items, i, season, episode)
    ensures PlaceInWork(wk, CodeToken(season, episode) + tail) ==
      if rest == "" then Some(Spot(wk.items[i].id, 0.0))
      else if ClockValue(rest).None? then None else Some(Spot(wk.items[i].id, ClockValue(rest).value))
  {
    CodeSplitsOff(season, episode, tail, rest);
    CodeIsTrim(season, episode, tail, rest);
    FindsTheFirst(wk.items, i, season, episode);
    FoundIsThere(wk.items, i);
  }

  lemma FoundIsThere(items: seq<Member>, i: nat)
    requires i < |items|
    ensures MemberById(items, items[i].id).Some? && MemberById(items, items[i].id).value.id == items[i].id
  {
    WithIdFinds(items, items[i]);
  }

  lemma NoSuchEpisode(wk: Work, season: nat, episode: nat, tail: string, rest: string)
    requires Tail(tail, rest) && season <= 999 && episode <= 9999 && forall m :: m in wk.items ==> !HasCode(m, season, episode)
    ensures PlaceInWork(wk, CodeToken(season, episode) + tail) == None
  {
    CodeSplitsOff(season, episode, tail, rest);
    CodeIsTrim(season, episode, tail, rest);
    FindsNone(wk.items, season, episode);
  }

  lemma ClockHasNoBreak(s: nat)
    ensures Tail(" " + Clock(s as real), Clock(s as real))
  {
    ClockIsTrim(s as real);
    JoinedIsDigits(ClockParts(s));
    JoinedEnds(ClockParts(s));
  }

  lemma {:induction false} JoinedIsDigits(parts: seq<string>)
    requires parts != [] && forall i :: 0 <= i < |parts| ==> parts[i] != "" && AllDigits(parts[i])
    ensures forall k :: 0 <= k < |Join(parts)| ==> IsDigit(Join(parts)[k]) || Join(parts)[k] == ':'
  {
    if |parts| > 1 {
      JoinedIsDigits(parts[1..]);
    }
  }

  /** A code and a time land at that time of the first member with the code; the code alone lands
      at its start. */
  lemma EpisodeTimeIsAccepted(wk: Work, i: nat, season: nat, episode: nat, s: nat)
    requires FirstOfCode(wk.items, i, season, episode) && season <= 999 && episode <= 9999
    ensures PlaceInWork(wk, TimeToken(season, episode, s)) == Some(Spot(wk.items[i].id, s as real))
    ensures PlaceInWork(wk, CodeToken(season, episode)) == Some(Spot(wk.items[i].id, 0.0))
  {
    ClockHasNoBreak(s);
    CodedPlace(wk, i, season, episode, " " + Clock(s as real), Clock(s as real));
    ClockReadsBack(s as real);
    ClockIsTrim(s as real);
    CodedPlace(wk, i, season, episode, "", "");
    assert CodeToken(season, episode) + "" == CodeToken(season, episode);
  }

  // ── a bare time ───────────────────────────────────────────────────────

  /** The `i`th member is the first with chapter marks, bonus material aside. */
  predicate FirstWithChapters(items: seq<Member>, i: nat) {
    && i < |items| && items[i].kind != "extra" && items[i].chapters != []
    && forall j :: 0 <= j < i ==> items[j].kind == "extra" || items[j].chapters == []
  }

  lemma {:induction false} SourceIsTheFirst(items: seq<Member>, i: nat)
    ensures FirstWithChapters(items, i) ==> ChapterSource(items) == Some(items[i])
    ensures (forall m :: m in items ==> m.kind == "extra" || m.chapters == []) ==> ChapterSource(items) == None
  {
    if items != [] {
      SourceIsTheFirst(items[1..], if i > 0 then i - 1 else 0);
      if FirstWithChapters(items, i) && i > 0 {
        assert FirstWithChapters(items[1..], i - 1);
      }
    }
  }

  /** The `i`th member is the first of that id. */
  predicate FirstOfId(items: seq<Member>, i: nat, id: nat) {
    i < |items| && items[i].id == id && forall j :: 0 <= j < i ==> items[j].id != id
  }

  lemma {:induction false} IdIsTheFirst(items: seq<Member>, i: nat, id: nat)
    ensures FirstOfId(items, i, id) ==> WithId(items, id) == Some(items[i])
    ensures (forall m :: m in items ==> m.id != id) ==> WithId(items, id) == None
  {
    if items != [] {
      IdIsTheFirst(items[1..], if i > 0 then i - 1 else 0, id);
      if FirstOfId(items, i, id) && i > 0 {
        assert FirstOfId(items[1..], i - 1, id);
      }
    }
  }

  /** A time with no code is refused of a show. Of any other work it lands, at that second, in the
      first member with chapters; with none, in the work's representative; and when that is no
      member, in the first. */
  lemma TimeIsAccepted(wk: Work, i: nat, s: nat)
    ensures var place := PlaceInWork(wk, Clock(s as real));
      && (wk.kind == Show || wk.items == [] ==> place == None)
      && (wk.kind != Show && FirstWithChapters(wk.items, i) ==> place == Some(Spot(wk.items[i].id, s as real)))
      && (wk.kind != Show && wk.items != [] && (forall m :: m in wk.items ==> m.kind == "extra" || m.chapters == []) ==>
            && (FirstOfId(wk.items, i, wk.representative) ==> place == Some(Spot(wk.representative, s as real)))
            && ((forall m :: m in wk.items ==> m.id != wk.representative) ==> place == Some(Spot(wk.items[0].id, s as real))))
  {
    ClockIsNoCode(s as real);
    ClockReadsBack(s as real);
    SourceIsTheFirst(wk.items, i);
    IdIsTheFirst(wk.items, i, wk.representative);
  }

  // ── what they mint ────────────────────────────────────────────────────

  lemma TokenIsThere(season: nat, episode: nat, s: nat)
    ensures Trim(TimeToken(season, episode, s)) != ""
  {
    ClockHasNoBreak(s);
    CodeIsTrim(season, episode, " " + Clock(s as real), Clock(s as real));
  }

  lemma RankIs(items: seq<Member>, i: nat)
    requires M.Distinct(MemberOrder(items)) && i < |items|
    ensures items[i].id in MemberOrder(items) && M.Rank(MemberOrder(items), items[i].id) == i
  {
    var order := MemberOrder(items);
    assert order[i] == items[i].id;
    M.FirstIsRank(order, i);
  }

  /** Two spots mint the passage from the one that is earlier in the work to the other. */
  lemma TwoSpotsMint(wk: Work, a: string, b: string, i: nat, j: nat, s: nat, e: nat)
    requires M.Distinct(MemberOrder(wk.items)) && i < |wk.items| && j < |wk.items| && (i < j || (i == j && s < e))
    requires Trim(a) != "" && PlaceInWork(wk, a) == Some(Spot(wk.items[i].id, s as real))
    requires Trim(b) != "" && PlaceInWork(wk, b) == Some(Spot(wk.items[j].id, e as real))
    ensures Mint(wk, a, b) == Mint(wk, b, a) == Some(Minted(
      wk.items[i].id, if i == j then None else Some(wk.items[j].id),
      M.SessionPassage(Some(s as real), Some(e as real), if i == j then None else Some(wk.items[j].id), "", "",
        if i == j then Some(e as real) else None)))
  {
    MintEitherWay(wk, a, b);
    BothPlaces(wk, a, b);
    WholeSecondsStay(s);
    WholeSecondsStay(e);
    RankIs(wk.items, i);
    RankIs(wk.items, j);
    var x, y := M.Mark(wk.items[i].id, s as real), M.Mark(wk.items[j].id, e as real);
    M.CompareIsTheOrder(x, y, MemberOrder(wk.items));
    assert MarksFrom(wk, a, b) == Some(M.MarkPair(Some(x), Some(y)));
    WithIdFinds(wk.items, wk.items[i]);
    WithIdFinds(wk.items, wk.items[j]);
  }

  /** Two times in two episodes, whichever was given first, mint a run: in at the one's time, until
      the other's member, and out at its time. */
  lemma TwoEpisodesMint(wk: Work, i: nat, j: nat, s: nat, e: nat)
    requires M.Distinct(MemberOrder(wk.items)) && i < j < |wk.items|
    requires FirstOfCode(wk.items, i, wk.items[i].season, wk.items[i].episode) && wk.items[i].season <= 999 && wk.items[i].episode <= 9999
    requires FirstOfCode(wk.items, j, wk.items[j].season, wk.items[j].episode) && wk.items[j].season <= 999 && wk.items[j].episode <= 9999
    ensures var a, b := TimeToken(wk.items[i].season, wk.items[i].episode, s), TimeToken(wk.items[j].season, wk.items[j].episode, e);
      Mint(wk, a, b) == Mint(wk, b, a) == Some(Minted(wk.items[i].id, Some(wk.items[j].id),
        M.SessionPassage(Some(s as real), Some(e as real), Some(wk.items[j].id), "", "", None)))
  {
    var m, n := wk.items[i], wk.items[j];
    EpisodeTimeIsAccepted(wk, i, m.season, m.episode, s);
    EpisodeTimeIsAccepted(wk, j, n.season, n.episode, e);
    TokenIsThere(m.season, m.episode, s);
    TokenIsThere(n.season, n.episode, e);
    TwoSpotsMint(wk, TimeToken(m.season, m.episode, s), TimeToken(n.season, n.episode, e), i, j, s, e);
  }

  /** A place alone in front: from it on. */
  lemma FromAloneMints(wk: Work, token: string, blank: string, i: nat, s: nat)
    requires i < |wk.items| && Trim(token) != "" && Trim(blank) == ""
    requires PlaceInWork(wk, token) == Some(Spot(wk.items[i].id, s as real))
    ensures Mint(wk, token, blank) ==
      Some(Minted(wk.items[i].id, None, M.SessionPassage(Some(s as real), None, None, "", "", None)))
  {
    WholeSecondsStay(s);
    FoundIsThere(wk.items, i);
    OnePlace(wk, token, M.In);
    assert MarksFrom(wk, token, blank) == Some(M.MarkPair(Some(M.Mark(wk.items[i].id, s as real)), None));
  }

  /** A place alone behind: from the top of its file to it. */
  lemma ToAloneMints(wk: Work, token: string, blank: string, i: nat, s: nat)
    requires i < |wk.items| && Trim(token) != "" && Trim(blank) == ""
    requires PlaceInWork(wk, token) == Some(Spot(wk.items[i].id, s as real))
    ensures Mint(wk, blank, token) == Some(Minted(wk.items[i].id, None,
      if s == 0 then M.SessionPassage(Some(0.0), None, None, "", "", None)
      else M.SessionPassage(Some(0.0), Some(s as real), None, "", "", Some(s as real))))
  {
    WholeSecondsStay(s);
    FoundIsThere(wk.items, i);
    OnePlace(wk, token, M.Out);
    var top, end := M.Mark(wk.items[i].id, 0.0), M.Mark(wk.items[i].id, s as real);
    assert MarksFrom(wk, blank, token) == Some(M.MarkPair(Some(top), if s == 0 then None else Some(end)));
  }
}
