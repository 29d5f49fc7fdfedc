/** Text locators: the four spellings of a place in a book (web/passage.js parseLocator and
    formatLocator). */
module Locators {
  import opened Options
  import opened Numerals
  import opened Positions
  import opened PassageGrammar
  import opened Trimming

  datatype Locator = Cfi(cfi: string) | Chapter(n: nat) | Page(n: nat) | Percent(f: Seconds)

  /** What String.trim takes off. */
  predicate IsSpace(c: char) {
    var v := c as int;
    0x09 <= v <= 0x0D || v == 0x20 || v == 0xA0 || v == 0x1680 || 0x2000 <= v <= 0x200A ||
    v in {0x2028, 0x2029, 0x202F, 0x205F, 0x3000, 0xFEFF}
  }

  function Trim(s: string): string {
    Trimmed(s, IsSpace)
  }

  function ToLower(s: string): (r: string)
    ensures |r| == |s|
  {
    seq(|s|, i requires 0 <= i < |s| => if 'A' <= s[i] <= 'Z' then (s[i] as int + 32) as char else s[i])
  }

  predicate StartsWith(s: string, p: string) {
    p <= s
  }

  /** `^epubcfi\(.*\)$`: anything between the parentheses but a line break. */
  predicate IsCfi(v: string) {
    && 9 <= |v| && StartsWith(v, "epubcfi(") && v[|v| - 1] == ')'
    && forall i :: 8 <= i < |v| - 1 ==> v[i] as int !in {0x0A, 0x0D, 0x2028, 0x2029}
  }

  /** `^[1-9]\d*$` */
  function ParseCount(s: string): Option<nat> {
    if s != "" && AllDigits(s) && s[0] != '0' then Some(NatValue(s)) else None
  }

  /** `^(0(\.\d+)?|1(\.0+)?|\.\d+)$` */
  function ParseFraction(s: string): Option<Seconds> {
    if s == "" then None
    else if s[0] == '.' then
      if |s| == 1 || !AllDigits(s[1..]) then None else Some(Decimal(0, StripZeros(s[1..])))
    else if s[0] != '0' && s[0] != '1' then None
    else if |s| == 1 then Some(Decimal(DigitValue(s[0]), ""))
    else if s[1] != '.' || |s| == 2 || !AllDigits(s[2..]) then None
    else if s[0] == '1' then
      if StripZeros(s[2..]) == "" then Some(Decimal(1, "")) else None
    else Some(Decimal(0, StripZeros(s[2..])))
  }

  function ParseKind(kind: string, rest: string): Option<Locator> {
    if kind == "cfi" then if IsCfi(rest) then Some(Cfi(rest)) else None
    else if kind == "ch" then
      var n := ParseCount(rest);
      if n.Some? then Some(Chapter(n.value)) else None
    else if kind == "pg" then
      var n := ParseCount(rest);
      if n.Some? then Some(Page(n.value)) else None
    else if kind == "pct" then
      var f := ParseFraction(rest);
      if f.Some? then Some(Percent(f.value)) else None
    else None
  }

  function ParseTrimmed(v: string): Option<Locator> {
    if IsCfi(v) then Some(Cfi(v)) else
    var i := IndexOf(v, ':');
    if i == |v| then None else ParseKind(ToLower(v[..i]), v[i + 1..])
  }

  function ParseLocator(s: Option<string>): Option<Locator> {
    if s.None? then None else ParseTrimmed(Trim(s.value))
  }

  function Kind(l: Locator): string {
    match l
    case Cfi(_) => "cfi"
    case Chapter(_) => "ch"
    case Page(_) => "pg"
    case Percent(_) => "pct"
  }

  function Rest(l: Locator): string {
    match l
    case Cfi(cfi) => cfi
    case Chapter(n) => NatText(n)
    case Page(n) => NatText(n)
    case Percent(f) => DecimalText(f)
  }

  function FormatLocator(l: Locator): string {
    Kind(l) + ":" + Rest(l)
  }

  // ── what is read ──────────────────────────────────────────────────────

  lemma SpacesExactly(c: char)
    ensures IsSpace(c) <==> c as int in {
      9, 10, 11, 12, 13, 32, 160, 0x1680, 0x2000, 0x2001, 0x2002, 0x2003, 0x2004, 0x2005, 0x2006, 0x2007, 0x2008, 0x2009,
      0x200A, 0x2028, 0x2029, 0x202F, 0x205F, 0x3000, 0xFEFF}
  {
  }

  /** Latin capitals become small letters, and nothing else changes. */
  lemma LowerExactly(s: string, i: nat)
    requires i < |s|
    ensures ToLower(s)[i] as int ==
      if 'A' <= s[i] && s[i] <= 'Z' then 'a' as int + (s[i] as int - 'A' as int) else s[i] as int
  {
  }

  lemma LineBreaks(c: char)
    requires c as int in {0x0A, 0x0D, 0x2028, 0x2029}
    ensures c in "\n\r\U{2028}\U{2029}"
  {
    var s := "\n\r\U{2028}\U{2029}";
    assert s[0] as int == 0x0A && s[1] as int == 0x0D && s[2] as int == 0x2028 && s[3] as int == 0x2029;
  }

  /** A cfi is "epubcfi(", any text without a line break, and ")". */
  lemma CfiExactly(v: string)
    ensures var k := |v| - 1;
      IsCfi(v) <==>
        8 <= k && v[..8] == "epubcfi(" && v[k] == ')' && forall c :: c in v[8..k] ==> c !in "\n\r\U{2028}\U{2029}"
  {
    if |v| >= 9 {
      var body := v[8..|v| - 1];
      assert StartsWith(v, "epubcfi(") <==> v[..8] == "epubcfi(";
      forall c | IsCfi(v) && c in body
        ensures c !in "\n\r\U{2028}\U{2029}"
      {
        var j :| 0 <= j < |body| && body[j] == c;
        assert v[8 + j] == c;
      }
      forall i | 8 <= i < |v| - 1 && v[i] as int in {0x0A, 0x0D, 0x2028, 0x2029}
        ensures v[i] in body && v[i] in "\n\r\U{2028}\U{2029}"
      {
        assert body[i - 8] == v[i];
        LineBreaks(v[i]);
      }
    }
  }

  /** A share of the whole is 0 or 1, either with a point and digits (zeros alone after a 1), or a
      point and digits. */
  lemma FractionExactly(s: string)
    ensures ParseFraction(s).Some? <==>
      || s == "0" || s == "1"
      || (2 <= |s| && s[0] == '.' && AllDigits(s[1..]))
      || (3 <= |s| && s[0] == '0' && s[1] == '.' && AllDigits(s[2..]))
      || (3 <= |s| && s[0] == '1' && s[1] == '.' && forall i :: 2 <= i < |s| ==> s[i] == '0')
    ensures var share := ParseFraction(s);
      && (share.Some? && s[0] == '1' ==> Value(share.value) == 1.0)
      && (share.Some? && s[0] == '.' ==> Value(share.value) == FracValue(s[1..]))
      && (share.Some? && s[0] == '0' ==> Value(share.value) == if s == "0" then 0.0 else FracValue(s[2..]))
  {
    if 3 <= |s| && AllDigits(s[2..]) {
      ZerosStrip(s[2..]);
      assert (forall i :: 2 <= i < |s| ==> s[i] == '0') <==> forall i :: 0 <= i < |s[2..]| ==> s[2..][i] == '0';
      StripZerosKeepsValue(s[2..]);
    }
    if 2 <= |s| && AllDigits(s[1..]) {
      StripZerosKeepsValue(s[1..]);
    }
  }

  lemma {:induction false} ZerosStrip(frac: string)
    requires AllDigits(frac)
    ensures StripZeros(frac) == "" <==> forall i :: 0 <= i < |frac| ==> frac[i] == '0'
  {
    if frac != "" {
      ZerosStrip(frac[..|frac| - 1]);
    }
  }

  /** How each kind is spelled. */
  lemma FormatExactly(l: Locator)
    ensures FormatLocator(l) ==
      match l
      case Cfi(cfi) => "cfi:" + cfi
      case Chapter(n) => "ch:" + NatText(n)
      case Page(n) => "pg:" + NatText(n)
      case Percent(f) => "pct:" + DecimalText(f)
  {
    assert "cfi" + ":" == "cfi:" && "ch" + ":" == "ch:" && "pg" + ":" == "pg:" && "pct" + ":" == "pct:";
  }

  /** The places a book can have: a real cfi, a count from one, a share of the whole. */
  predicate Placeable(l: Locator) {
    match l
    case Cfi(cfi) => IsCfi(cfi)
    case Chapter(n) => 1 <= n
    case Page(n) => 1 <= n
    case Percent(f) => f.whole == 0 || f == Decimal(1, "")
  }

  lemma CountReadsBack(n: nat)
    ensures ParseCount(NatText(n)) == if n == 0 then None else Some(n)
  {
    NatReadsBack(n);
  }

  lemma CanonicalStripsToItself(d: Seconds)
    ensures StripZeros(d.frac) == d.frac
  {
  }

  lemma FractionReadsBack(f: Seconds)
    requires f.whole == 0 || f == Decimal(1, "")
    ensures ParseFraction(DecimalText(f)) == Some(f)
  {
    var s := DecimalText(f);
    CanonicalStripsToItself(f);
    assert NatText(f.whole) == [DigitChar(f.whole)];
    if f.frac != "" {
      assert s[1] == '.' && s[2..] == f.frac;
    }
  }

  lemma SplitsAtColon(kind: string, rest: string)
    requires kind in ["cfi", "ch", "pg", "pct"]
    ensures var v := kind + ":" + rest;
      IndexOf(v, ':') == |kind| && ToLower(v[..|kind|]) == kind && v[|kind| + 1..] == rest && !IsCfi(v)
  {
    var v := kind + ":" + rest;
    assert v[|kind|] == ':' && v[..|kind|] == kind;
    assert forall k :: 0 <= k < |kind| ==> v[k] == kind[k] != ':';
    assert v[0] != 'e';
  }

  lemma RestReadsBack(l: Locator)
    requires Placeable(l)
    ensures ParseKind(Kind(l), Rest(l)) == Some(l)
    ensures Rest(l) != "" && !IsSpace(Rest(l)[|Rest(l)| - 1])
  {
    match l {
      case Cfi(cfi) =>
      case Chapter(n) => CountReadsBack(n);
      case Page(n) => CountReadsBack(n);
      case Percent(f) => FractionReadsBack(f);
    }
  }

  lemma FormattedIsRead(l: Locator)
    requires Placeable(l)
    ensures ParseTrimmed(FormatLocator(l)) == Some(l)
  {
    RestReadsBack(l);
    SplitsAtColon(Kind(l), Rest(l));
  }

  lemma FormattedIsTrim(l: Locator)
    requires Placeable(l)
    ensures Trim(FormatLocator(l)) == FormatLocator(l)
  {
    var t, rest := FormatLocator(l), Rest(l);
    RestReadsBack(l);
    assert t[|t| - 1] == rest[|rest| - 1];
    NothingToTrim(t, IsSpace);
  }

  /** The canonical spelling of every place reads back as that place. */
  lemma FormattedReadsBack(l: Locator)
    requires Placeable(l)
    ensures ParseLocator(Some(FormatLocator(l))) == Some(l)
  {
    FormattedIsTrim(l);
    FormattedIsRead(l);
  }

  lemma TrimmedIsPlaceable(v: string)
    requires ParseTrimmed(v).Some?
    ensures Placeable(ParseTrimmed(v).value)
  {
    if !IsCfi(v) {
      var rest := v[IndexOf(v, ':') + 1..];
      if ParseCount(rest).Some? {
        NatTextOfValue(rest);
      }
    }
  }

  /** What is read is placeable, so its canonical spelling is a fixed point. */
  lemma ParsedIsPlaceable(s: Option<string>)
    requires ParseLocator(s).Some?
    ensures Placeable(ParseLocator(s).value)
    ensures ParseLocator(Some(FormatLocator(ParseLocator(s).value))) == ParseLocator(s)
  {
    TrimmedIsPlaceable(Trim(s.value));
    FormattedReadsBack(ParseLocator(s).value);
  }

  lemma {:induction false} NatTextOfValue(s: string)
    requires s != "" && AllDigits(s) && s[0] != '0'
    ensures NatValue(s) > 0
  {
    if |s| > 1 {
      NatTextOfValue(s[..|s| - 1]);
    }
  }

  /** A text passage built from two places survives its link, locators and all. */
  lemma TextPassageRoundTrip(from: Locator, to: Locator)
    requires Placeable(from) && Placeable(to)
    ensures var p := NOTHING.(opens := Some(FormatLocator(from)), closes := Some(FormatLocator(to)));
      var back := Parse(Some(Query(Some(p))));
      back == Some(p) && ParseLocator(back.value.opens) == Some(from) && ParseLocator(back.value.closes) == Some(to)
  {
    RoundTripExactly(NOTHING.(opens := Some(FormatLocator(from)), closes := Some(FormatLocator(to))));
    FormattedReadsBack(from);
    FormattedReadsBack(to);
  }
}
