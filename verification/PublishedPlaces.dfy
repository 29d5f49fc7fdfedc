/** What a work publishes, kind by kind (cmd/server/hyper.go placesOf), and what the two sides of a
    book's passage come to (cmd/server/passage.go textPassageOf). */
module PublishedPlaces {
  import opened Options
  import opened PlaceTokens
  import opened Places
  import opened EpisodePlaces
  import opened StableSort
  import opened Trimming
  import Locators
  import Numerals

  // ── a show ────────────────────────────────────────────────────────────

  function IsNumberedEpisode(): Member -> bool {
    (m: Member) => m.kind == "episode" && m.episode > 0
  }

  /** A show publishes its numbered episodes, in order: each its code at 0:00, under its name. */
  lemma {:induction false} ShowPublishes(items: seq<Member>)
    ensures var episodes := Filter(items, IsNumberedEpisode());
      && |Episodes(items)| == |episodes|
      && forall i :: 0 <= i < |episodes| ==>
           Episodes(items)[i] == Place("S" + Pad2(episodes[i].season) + ("E" + Pad2(episodes[i].episode) + " 0:00"), episodes[i].name)
  {
    if items != [] {
      var rest, last := items[..|items| - 1], items[|items| - 1];
      assert items == rest + [last];
      ShowPublishes(rest);
      FilterConcat(rest, [last], IsNumberedEpisode());
      assert Filter([last], IsNumberedEpisode()) == if IsNumberedEpisode()(last) then [last] else [];
    }
  }

  // ── what counts in chapters, and in sections ──────────────────────────

  /** The `i`th member is the first with a spine. */
  predicate FirstWithSections(items: seq<Member>, i: nat) {
    i < |items| && items[i].sections > 0 && forall j :: 0 <= j < i ==> items[j].sections == 0
  }

  lemma {:induction false} SectionsAreTheFirst(items: seq<Member>, i: nat)
    ensures FirstWithSections(items, i) ==> SectionsOf(items) == items[i].sections
    ensures (forall m :: m in items ==> m.sections == 0) ==> SectionsOf(items) == 0
  {
    if items != [] {
      SectionsAreTheFirst(items[1..], if i > 0 then i - 1 else 0);
      if FirstWithSections(items, i) && i > 0 {
        assert FirstWithSections(items[1..], i - 1);
      }
    }
  }

  lemma {:induction false} SectionsPublish(n: nat, titles: seq<ChapterMark>, i: nat)
    requires i < n && (titles == [] || n <= |titles|)
    ensures Sections(n, titles)[i] == Place("ch. " + Numerals.NatText(i + 1),
      if titles != [] && titles[i].title != "" then titles[i].title else "Section " + Numerals.NatText(i + 1))
  {
    if i < n - 1 {
      SectionsPublish(n - 1, titles, i);
    }
  }

  /** A film, an audiobook or a record publishes the starts of the chapters of the first member
      that has any, bonus material aside, each under its title or its number; a book the sections
      of that member, or of the first with a spine; and of a member of neither kind nothing. */
  lemma WorkPublishes(wk: Work, k: nat, i: nat)
    ensures (wk.kind == Movie || wk.kind == Audiobook || wk.kind == Album) && FirstWithChapters(wk.items, k) ==>
      var cs := wk.items[k].chapters;
      && |Candidates(wk)| == |cs|
      && (i < |cs| ==>
            Candidates(wk)[i] == Place(Clock(cs[i].start), if cs[i].title != "" then cs[i].title else "Chapter " + Pad2(i + 1)))
    ensures wk.kind == Book && FirstWithChapters(wk.items, k) ==>
      var cs := wk.items[k].chapters;
      && |Candidates(wk)| == |cs|
      && (i < |cs| ==> Candidates(wk)[i] == Place("ch. " + Numerals.NatText(i + 1),
            if cs[i].title != "" then cs[i].title else "Section " + Numerals.NatText(i + 1)))
    ensures wk.kind == Book && (forall m :: m in wk.items ==> m.kind == "extra" || m.chapters == []) && FirstWithSections(wk.items, k) ==>
      && |Candidates(wk)| == wk.items[k].sections
      && (i < |Candidates(wk)| ==>
            Candidates(wk)[i] == Place("ch. " + Numerals.NatText(i + 1), "Section " + Numerals.NatText(i + 1)))
    ensures wk.kind == OtherKind ==> Candidates(wk) == []
    ensures wk.kind != Show && (forall m :: m in wk.items ==> m.chapters == [] && m.sections == 0) ==> Candidates(wk) == []
  {
    SourceIsTheFirst(wk.items, k);
    SectionsAreTheFirst(wk.items, k);
    if wk.kind == Book && i < |Candidates(wk)| {
      var source := ChapterSource(wk.items);
      if source.Some? {
        SectionsPublish(|source.value.chapters|, source.value.chapters, i);
      } else {
        SectionsPublish(SectionsOf(wk.items), [], i);
      }
    }
  }

  // ── a book's passage ──────────────────────────────────────────────────

  /** Of two places in a book, one of them or neither: the passage opens and closes where the sides
      say, in the canonical spelling, in the book's file; two blanks are refused, and so is a side
      that is no place. */
  lemma TextMintExactly(wk: Work, fromTok: string, toTok: string, p: Locators.Locator, q: Locators.Locator)
    requires Locators.Placeable(p) && Locators.Placeable(q)
    requires fromTok == Locators.FormatLocator(p) && toTok == Locators.FormatLocator(q)
    ensures var it := BookFile(wk);
      && MintText(wk, fromTok, toTok) == (if it.None? then None else Some(TextMinted(it.value.id, fromTok, toTok)))
      && MintText(wk, fromTok, " ") == (if it.None? then None else Some(TextMinted(it.value.id, fromTok, "")))
      && MintText(wk, "", toTok) == (if it.None? then None else Some(TextMinted(it.value.id, "", toTok)))
      && MintText(wk, "", " ") == None
    ensures forall t: string :: Trim(t) != "" && Locators.ParseTrimmed(Trim(SpellLocator(t))).None? ==>
      MintText(wk, t, toTok) == MintText(wk, fromTok, t) == None
  {
    FormattedIsSpelled(p);
    FormattedIsSpelled(q);
    assert Trim(" ") == "" by { assert " "[1..] == ""; }
  }

  /** The file a book's places are of: the first member with chapters, then the representative, then
      the first member. */
  lemma BookFileIs(wk: Work, k: nat)
    ensures FirstWithChapters(wk.items, k) ==> BookFile(wk) == Some(wk.items[k])
    ensures (forall m :: m in wk.items ==> m.kind == "extra" || m.chapters == []) ==>
      && (FirstOfId(wk.items, k, wk.representative) ==> BookFile(wk) == Some(wk.items[k]))
      && (wk.items != [] && (forall m :: m in wk.items ==> m.id != wk.representative) ==> BookFile(wk) == Some(wk.items[0]))
      && (wk.items == [] ==> BookFile(wk) == None)
  {
    SourceIsTheFirst(wk.items, k);
    IdIsTheFirst(wk.items, k, wk.representative);
  }
}
