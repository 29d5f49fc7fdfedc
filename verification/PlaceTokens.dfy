/** The place tokens a work publishes, and the readers that take them back: clock times
    (internal/works/progress.go Clock, cmd/server/passage.go parseClock), episode codes
    (splitEpisodeCode) and sections (spellLocator). */
module PlaceTokens {
  import opened Options
  import opened Numerals
  import opened Positions
  import opened Trimming
  import Locators

  // ── spaces ────────────────────────────────────────────────────────────

  /** What strings.TrimSpace takes off. */
  predicate IsSpace(c: char) {
    var v := c as int;
    0x09 <= v <= 0x0D || v == 0x20 || v == 0x85 || v == 0xA0 || v == 0x1680 || 0x2000 <= v <= 0x200A ||
    v in {0x2028, 0x2029, 0x202F, 0x205F, 0x3000}
  }

  function Trim(s: string): string {
    Trimmed(s, IsSpace)
  }

  /** `\s`, which is less than TrimSpace knows. */
  predicate IsBlank(c: char) {
    c as int in {0x09, 0x0A, 0x0C, 0x0D, 0x20}
  }

  lemma SpacesExactly(c: char)
    ensures IsSpace(c) <==> c as int in {
      9, 10, 11, 12, 13, 32, 133, 160, 0x1680, 0x2000, 0x2001, 0x2002, 0x2003, 0x2004, 0x2005, 0x2006, 0x2007, 0x2008,
      0x2009, 0x200A, 0x2028, 0x2029, 0x202F, 0x205F, 0x3000}
    ensures IsBlank(c) <==> c in "\t\n\r " || c as int == 12
  {
  }

  function SkipBlanks(s: string): (r: string)
    ensures |r| <= |s|
  {
    if s != [] && IsBlank(s[0]) then SkipBlanks(s[1..]) else s
  }

  // ── clock times ───────────────────────────────────────────────────────

  function Pad2(n: nat): (s: string)
    ensures s != "" && AllDigits(s)
  {
    if n < 10 then "0" + NatText(n) else NatText(n)
  }

  function Join(parts: seq<string>): string
    requires parts != []
  {
    if |parts| == 1 then parts[0] else parts[0] + ([':'] + Join(parts[1..]))
  }

  /** Hours past the hour, minutes and seconds, each but the first in two digits. */
  function PartsOf(h: nat, m: nat, r: nat): (parts: seq<string>)
    ensures 2 <= |parts| <= 3
    ensures forall i :: 0 <= i < |parts| ==> parts[i] != "" && AllDigits(parts[i])
  {
    if h > 0 then [NatText(h), Pad2(m), Pad2(r)] else [NatText(m), Pad2(r)]
  }

  function ClockParts(s: nat): seq<string> {
    PartsOf(s / 3600, s % 3600 / 60, s % 60)
  }

  /** "43:12", or "1:02:03" past the hour: whole seconds, and never before the start. */
  function Clock(sec: real): string {
    Join(ClockParts(if sec < 0.0 then 0 else sec.Floor))
  }

  lemma JoinedParts(a: string, b: string, c: string)
    ensures Join([a, b]) == a + ([':'] + b)
    ensures Join([a, b, c]) == a + ([':'] + (b + ([':'] + c)))
  {
    assert [a, b][1..] == [b] && [a, b, c][1..] == [b, c] && [b, c][1..] == [c];
    assert Join([b, c]) == b + ([':'] + c);
  }

  lemma HoursAndMinutes(s: nat)
    ensures s < 3600 ==> s / 3600 == 0 && s % 3600 / 60 == s / 60
    ensures s >= 3600 ==> s / 3600 > 0
  {
  }

  /** How a time is spelled: minutes and seconds, the seconds in two digits; past the hour, hours,
      and the minutes in two digits too. */
  lemma ClockExactly(s: nat)
    ensures Clock(s as real) ==
      if s < 3600 then NatText(s / 60) + ([':'] + Pad2(s % 60))
      else NatText(s / 3600) + ([':'] + (Pad2(s % 3600 / 60) + ([':'] + Pad2(s % 60))))
  {
    assert (s as real).Floor == s;
    HoursAndMinutes(s);
    if s < 3600 {
      JoinedParts(NatText(s / 60), Pad2(s % 60), "");
    } else {
      JoinedParts(NatText(s / 3600), Pad2(s % 3600 / 60), Pad2(s % 60));
    }
  }

  function Split(s: string, c: char): (parts: seq<string>)
    ensures parts != []
    decreases |s|
  {
    var i := IndexOf(s, c);
    if i == |s| then [s] else [s[..i]] + Split(s[i + 1..], c)
  }

  /** A plain decimal: digits, with or without a point among them. */
  function ParseNumber(s: string): Option<real> {
    var i := IndexOf(s, '.');
    NumberOf(s[..i], if i == |s| then "" else s[i + 1..])
  }

  /** What stands before a point and after it, as one number. */
  function NumberOf(whole: string, frac: string): Option<real> {
    if !AllDigits(whole) || !AllDigits(frac) || whole + frac == "" then None
    else Some(NatValue(whole) as real + FracValue(frac))
  }

  predicate IsWhole(v: real) {
    v == v.Floor as real
  }

  /** One part of a time: only the last may have a fraction. */
  function PartValue(part: string, last: bool): Option<real> {
    var v := ParseNumber(Trim(part));
    if v.Some? && (last || IsWhole(v.value)) then v else None
  }

  function Values(parts: seq<string>): (values: seq<Option<real>>)
    ensures |values| == |parts|
  {
    seq(|parts|, i requires 0 <= i < |parts| => PartValue(parts[i], i == |parts| - 1))
  }

  function Carry(before: real, v: real): real {
    before * 60.0 + v
  }

  /** What the values from the `i`th on add to what came before, each the sixtieth of the last;
      nothing when one is absent. */
  function Total(values: seq<Option<real>>, i: nat, before: real): Option<real>
    requires i <= |values|
    decreases |values| - i
  {
    if i == |values| then Some(before)
    else if values[i].None? then None
    else Total(values, i + 1, Carry(before, values[i].value))
  }

  function ValueOf(parts: seq<string>): Option<real> {
    if |parts| > 3 then None else Total(Values(parts), 0, 0.0)
  }

  function ClockValue(s: string): Option<real> {
    ValueOf(Split(Trim(s), ':'))
  }

  /** parseClock as it is written. */
  method ParseClock(s: string) returns (r: Option<real>)
    ensures r == ClockValue(s)
  {
    r := AddParts(Split(Trim(s), ':'));
  }

  method AddParts(parts: seq<string>) returns (r: Option<real>)
    ensures r == ValueOf(parts)
  {
    if |parts| > 3 { return None; }
    ghost var values := Values(parts);
    var total := 0.0;
    for i := 0 to |parts|
      invariant Total(values, 0, 0.0) == Total(values, i, total)
    {
      var v := PartValue(parts[i], i == |parts| - 1);
      assert values[i] == v;
      if v.None? { return None; }
      total := Carry(total, v.value);
    }
    return Some(total);
  }

  predicate Free(s: string, c: char) {
    forall i :: 0 <= i < |s| ==> s[i] != c
  }

  lemma IndexAfter(a: string, c: char, rest: string)
    requires Free(a, c)
    ensures IndexOf(a, c) == |a|
    ensures IndexOf(a + ([c] + rest), c) == |a|
  {
    var s := a + ([c] + rest);
    assert forall i :: 0 <= i < |a| ==> s[i] == a[i];
    assert s[|a|] == c;
  }

  lemma SplitOne(a: string, c: char)
    requires Free(a, c)
    ensures Split(a, c) == [a]
  {
    IndexAfter(a, c, "");
  }

  lemma SplitFirst(a: string, c: char, rest: string)
    requires Free(a, c)
    ensures Split(a + ([c] + rest), c) == [a] + Split(rest, c)
  {
    IndexAfter(a, c, rest);
    PartsOfJoin(a, c, rest);
    SplitAt(a + ([c] + rest), c, a, rest);
  }

  lemma PartsOfJoin(a: string, c: char, rest: string)
    ensures var s := a + ([c] + rest); s[..|a|] == a && s[|a| + 1..] == rest
  {
    var s := a + ([c] + rest);
    assert s[|a|..] == [c] + rest;
  }

  lemma SplitAt(s: string, c: char, a: string, rest: string)
    requires IndexOf(s, c) == |a| < |s| && s[..|a|] == a && s[|a| + 1..] == rest
    ensures Split(s, c) == [a] + Split(rest, c)
  {
  }

  lemma DigitsAreFree(s: string, c: char)
    requires AllDigits(s) && !IsDigit(c)
    ensures Free(s, c)
  {
  }

  /** A run of digits is its number, and nothing is trimmed off it. */
  lemma DigitsParse(s: string, last: bool)
    requires s != "" && AllDigits(s)
    ensures PartValue(s, last) == Some(NatValue(s) as real)
  {
    NothingToTrim(s, IsSpace);
    DigitsAreFree(s, '.');
    IndexAfter(s, '.', "");
    assert s[..|s|] == s;
    assert s + "" == s;
    assert FracValue("") == 0.0;
  }

  lemma Pad2ReadsBack(n: nat)
    ensures NatValue(Pad2(n)) == n
  {
    NatReadsBack(n);
    if n < 10 {
      var s := Pad2(n);
      assert s == ['0', DigitChar(n)];
      assert s[..1] == ['0'] && ['0'][..0] == [];
      assert NatValue(['0']) == 0;
    }
  }

  /** Digits joined by colons split where they were joined, and nothing is trimmed off them. */
  lemma {:induction false} JoinedDigits(parts: seq<string>)
    requires parts != [] && forall i :: 0 <= i < |parts| ==> parts[i] != "" && AllDigits(parts[i])
    ensures Split(Join(parts), ':') == parts
  {
    DigitsAreFree(parts[0], ':');
    if |parts| == 1 {
      SplitOne(parts[0], ':');
    } else {
      var rest := Join(parts[1..]);
      calc {
        Split(Join(parts), ':');
        Split(parts[0] + ([':'] + rest), ':');
        { SplitFirst(parts[0], ':', rest); }
        [parts[0]] + Split(rest, ':');
        { JoinedDigits(parts[1..]); }
        [parts[0]] + parts[1..];
        parts;
      }
    }
  }

  lemma {:induction false} JoinedEnds(parts: seq<string>)
    requires parts != [] && forall i :: 0 <= i < |parts| ==> parts[i] != "" && AllDigits(parts[i])
    ensures var t := Join(parts); t != "" && IsDigit(t[0]) && IsDigit(t[|t| - 1])
  {
    if |parts| > 1 {
      JoinedEnds(parts[1..]);
    }
  }

  lemma ClockIsTrim(sec: real)
    ensures var t := Clock(sec); t != "" && IsDigit(t[0]) && Trim(t) == t
  {
    JoinedEnds(ClockParts(if sec < 0.0 then 0 else sec.Floor));
    NothingToTrim(Clock(sec), IsSpace);
  }

  lemma Totals(x: nat, y: nat, z: nat)
    ensures Total([Some(y as real), Some(z as real)], 0, 0.0) == Some((y * 60 + z) as real)
    ensures Total([Some(x as real), Some(y as real), Some(z as real)], 0, 0.0) == Some(((x * 60 + y) * 60 + z) as real)
  {
    var u, v, w := x as real, y as real, z as real;
    var two, three := [Some(v), Some(w)], [Some(u), Some(v), Some(w)];
    assert Total(two, 1, Carry(0.0, v)) == Total(two, 2, Carry(Carry(0.0, v), w));
    assert Total(three, 2, Carry(Carry(0.0, u), v)) == Total(three, 3, Carry(Carry(Carry(0.0, u), v), w));
    assert Total(three, 1, Carry(0.0, u)) == Total(three, 2, Carry(Carry(0.0, u), v));
  }

  lemma TwoValues(m: string, s: string)
    requires m != "" && AllDigits(m) && s != "" && AllDigits(s)
    ensures Values([m, s]) == [Some(NatValue(m) as real), Some(NatValue(s) as real)]
  {
    DigitsParse(m, false);
    DigitsParse(s, true);
  }

  lemma ThreeValues(h: string, m: string, s: string)
    requires h != "" && AllDigits(h) && m != "" && AllDigits(m) && s != "" && AllDigits(s)
    ensures Values([h, m, s]) == [Some(NatValue(h) as real), Some(NatValue(m) as real), Some(NatValue(s) as real)]
  {
    DigitsParse(h, false);
    DigitsParse(m, false);
    DigitsParse(s, true);
  }

  /** So many sixties and so many over. */
  lemma TwoPartsValue(m: string, s: string, x: nat, y: nat)
    requires m != "" && AllDigits(m) && s != "" && AllDigits(s)
    requires NatValue(m) == x && NatValue(s) == y
    ensures ValueOf([m, s]) == Some((x * 60 + y) as real)
  {
    TwoValues(m, s);
    Totals(0, x, y);
  }

  lemma ThreePartsValue(h: string, m: string, s: string, x: nat, y: nat, z: nat)
    requires h != "" && AllDigits(h) && m != "" && AllDigits(m) && s != "" && AllDigits(s)
    requires NatValue(h) == x && NatValue(m) == y && NatValue(s) == z
    ensures ValueOf([h, m, s]) == Some(((x * 60 + y) * 60 + z) as real)
  {
    ThreeValues(h, m, s);
    Totals(x, y, z);
  }

  lemma Sexagesimal(s: nat)
    ensures s == (s / 3600 * 60 + s % 3600 / 60) * 60 + s % 60
  {
    var q, t := s / 3600, s % 3600;
    var d := s / 60 - 60 * q - t / 60;
    assert s == 3600 * q + t && t == 60 * (t / 60) + t % 60 && s == 60 * (s / 60) + s % 60;
    assert 60 * d == t % 60 - s % 60;
    assert -60 < 60 * d < 60;
  }

  lemma NumberedParts(h: nat, m: nat, r: nat)
    ensures ValueOf(PartsOf(h, m, r)) == Some(((h * 60 + m) * 60 + r) as real)
  {
    Pad2ReadsBack(m);
    Pad2ReadsBack(r);
    if h > 0 {
      NatReadsBack(h);
      ThreePartsValue(NatText(h), Pad2(m), Pad2(r), h, m, r);
    } else {
      NatReadsBack(m);
      TwoPartsValue(NatText(m), Pad2(r), m, r);
    }
  }

  lemma PrintedSeconds(s: nat)
    ensures ValueOf(ClockParts(s)) == Some(s as real)
  {
    NumberedParts(s / 3600, s % 3600 / 60, s % 60);
    Sexagesimal(s);
  }

  /** A printed time reads back as the whole second it was printed for. */
  lemma ClockReadsBack(sec: real)
    ensures ClockValue(Clock(sec)) == Some(if sec < 0.0 then 0.0 else sec.Floor as real)
  {
    var s := if sec < 0.0 then 0 else sec.Floor;
    JoinedDigits(ClockParts(s));
    ClockIsTrim(sec);
    PrintedSeconds(s);
  }

  lemma PointNumber(whole: string, frac: string)
    requires AllDigits(whole)
    ensures ParseNumber(whole + (['.'] + frac)) == NumberOf(whole, frac)
  {
    DigitsAreFree(whole, '.');
    IndexAfter(whole, '.', frac);
    PartsOfJoin(whole, '.', frac);
  }

  lemma PointIsTrim(whole: string, frac: string)
    requires AllDigits(whole) && AllDigits(frac)
    ensures var s := whole + (['.'] + frac); Trim(s) == s
  {
    var s := whole + (['.'] + frac);
    assert s[|s| - 1] == (['.'] + frac)[|frac|];
    NothingToTrim(s, IsSpace);
  }

  /** A text with a point, and digits on both sides of it or on one: only the last part may have a
      fraction. */
  lemma PointParses(whole: string, frac: string, last: bool)
    requires AllDigits(whole) && AllDigits(frac) && whole + frac != ""
    ensures PartValue(whole + (['.'] + frac), last) == if last || FracValue(frac) == 0.0 then NumberOf(whole, frac) else None
  {
    PointIsTrim(whole, frac);
    PointNumber(whole, frac);
    WholeOrNot(whole, frac);
  }

  lemma WholeOrNot(whole: string, frac: string)
    requires AllDigits(whole) && AllDigits(frac) && whole + frac != ""
    ensures NumberOf(whole, frac).Some? && (IsWhole(NumberOf(whole, frac).value) <==> FracValue(frac) == 0.0)
  {
    FracIsPart(frac);
    WholeAndPart(NatValue(whole), FracValue(frac));
  }

  lemma {:induction false} FracIsPart(frac: string)
    requires AllDigits(frac)
    ensures 0.0 <= FracValue(frac) < 1.0
  {
    if frac != "" {
      FracIsPart(frac[1..]);
    }
  }

  lemma WholeAndPart(n: nat, x: real)
    requires 0.0 <= x < 1.0
    ensures IsWhole(n as real + x) <==> x == 0.0
  {
    assert (n as real + x).Floor == n;
  }

  /** Bare seconds are that many seconds. */
  lemma SecondsReadBack(n: nat)
    ensures ClockValue(NatText(n)) == Some(n as real)
  {
    var s := NatText(n);
    NatReadsBack(n);
    NothingToTrim(s, IsSpace);
    DigitsAreFree(s, ':');
    SplitOne(s, ':');
    DigitsParse(s, true);
    OneValue(s);
  }

  /** And so are they with a fraction: the number the digits on both sides of the point are. */
  lemma FractionReadsBack(whole: string, frac: string)
    requires AllDigits(whole) && AllDigits(frac) && whole + frac != ""
    ensures ClockValue(whole + (['.'] + frac)) == NumberOf(whole, frac)
  {
    var s := whole + (['.'] + frac);
    PointIsTrim(whole, frac);
    DigitsAreFree(whole, ':');
    DigitsAreFree(frac, ':');
    SplitOne(s, ':');
    PointParses(whole, frac, true);
    OneValue(s);
  }

  lemma NumberIsSum(whole: string, frac: string)
    requires AllDigits(whole) && AllDigits(frac) && whole + frac != ""
    ensures NumberOf(whole, frac) == Some(NatValue(whole) as real + FracValue(frac))
  {
  }

  lemma OneValue(s: string)
    ensures ValueOf([s]) == PartValue(s, true)
  {
    var v := Values([s]);
    assert v[0].Some? ==> Total(v, 1, Carry(0.0, v[0].value)) == Some(v[0].value);
  }

  /** A number is digits, with or without a point, and at least one of them. */
  lemma NumberExactly(s: string)
    ensures ParseNumber(s).Some? <==>
      (s != "" && AllDigits(s)) || exists k :: 0 <= k < |s| && s[k] == '.' && AllDigits(s[..k]) && AllDigits(s[k + 1..]) && |s| > 1
  {
    var i := IndexOf(s, '.');
    if i < |s| {
      assert s[i] == '.' && !IsDigit('.');
      forall k | i < k < |s|
        ensures !AllDigits(s[..k])
      {
        assert s[..k][i] == '.';
      }
    } else {
      assert s[..i] == s;
    }
  }

  /** More than three parts are no time; and neither is a fraction anywhere but in the last, or a
      part that is no plain decimal. */
  lemma RefusedTimes(parts: seq<string>, i: nat)
    requires i < |parts|
    ensures |parts| > 3 ==> ValueOf(parts) == None
    ensures ParseNumber(Trim(parts[i])).None? ==> ValueOf(parts) == None
    ensures i < |parts| - 1 && ParseNumber(Trim(parts[i])).Some? && !IsWhole(ParseNumber(Trim(parts[i])).value) ==> ValueOf(parts) == None
  {
    if PartValue(parts[i], i == |parts| - 1).None? {
      NoneIsNone(Values(parts), i, 0, 0.0);
    }
  }

  lemma {:induction false} NoneIsNone(values: seq<Option<real>>, i: nat, k: nat, before: real)
    requires k <= i < |values| && values[i].None?
    ensures Total(values, k, before) == None
    decreases i - k
  {
    if k < i && values[k].Some? {
      NoneIsNone(values, i, k + 1, Carry(before, values[k].value));
    }
  }

  lemma ClockOfNothing()
    ensures Clock(0.0) == "0:00"
  {
    assert NatText(0) == "0" && Pad2(0) == "00";
    assert ClockParts(0) == ["0", "00"];
    assert ["0", "00"][1..] == ["00"];
  }

  // ── episode codes ─────────────────────────────────────────────────────

  function DigitRun(s: string): (n: nat)
    ensures n <= |s| && AllDigits(s[..n])
    ensures n < |s| ==> !IsDigit(s[n])
  {
    if s == [] || !IsDigit(s[0]) then 0 else 1 + DigitRun(s[1..])
  }

  predicate IsWord(c: char) {
    IsDigit(c) || 'A' <= c <= 'Z' || 'a' <= c <= 'z' || c == '_'
  }

  /** A letter, then a run of one to `most` digits: the number, and what comes after it. */
  function Numbered(t: string, letters: set<char>, most: nat): Option<(nat, string)> {
    if t == "" || t[0] !in letters then None else
    var n := DigitRun(t[1..]);
    if n == 0 || n > most then None else Some((NatValue(t[1..][..n]), t[1..][n..]))
  }

  datatype Code = Code(season: nat, episode: nat, rest: string)

  /** The code at the front of a token, and what follows it: S, one to three digits, E, one to
      four, then no letter, digit or underscore. */
  function SplitEpisodeCode(token: string): Option<Code> {
    var s := Numbered(Trim(token), {'S', 's'}, 3);
    if s.None? then None else
    var e := Numbered(s.value.1, {'E', 'e'}, 4);
    if e.None? || (e.value.1 != "" && IsWord(e.value.1[0])) then None else
    var rest := SkipBlanks(e.value.1);
    if '\n' in rest then None else Some(Code(s.value.0, e.value.0, Trim(rest)))
  }

  function EpisodeToken(season: nat, episode: nat): string {
    "S" + Pad2(season) + ("E" + Pad2(episode) + " 0:00")
  }

  lemma RunOf(digits: string, rest: string)
    requires AllDigits(digits) && (rest == "" || !IsDigit(rest[0]))
    ensures DigitRun(digits + rest) == |digits|
    ensures (digits + rest)[..|digits|] == digits && (digits + rest)[|digits|..] == rest
  {
    var s := digits + rest;
    var n := DigitRun(s);
    assert forall i :: 0 <= i < |digits| ==> s[i] == digits[i];
    assert forall i :: 0 <= i < n ==> IsDigit(s[..n][i]) && s[..n][i] == s[i];
    assert rest != "" ==> s[|digits|] == rest[0];
  }

  lemma {:induction false} TextLength(n: nat)
    ensures |NatText(n)| == if n < 10 then 1 else 1 + |NatText(n / 10)|
  {
  }

  lemma Pad2Length(n: nat)
    ensures |Pad2(n)| <= 3 <==> n <= 999
    ensures |Pad2(n)| <= 4 <==> n <= 9999
  {
    TextLength(n);
    TextLength(n / 10);
    TextLength(n / 10 / 10);
    TextLength(n / 10 / 10 / 10);
    if n > 9999 {
      TextLength(n / 10 / 10 / 10 / 10);
    }
  }

  lemma NumberedReads(letter: char, n: nat, rest: string, letters: set<char>, most: nat)
    requires letter in letters && (rest == "" || !IsDigit(rest[0]))
    ensures Numbered([letter] + (Pad2(n) + rest), letters, most) == if |Pad2(n)| <= most then Some((n, rest)) else None
  {
    var t := [letter] + (Pad2(n) + rest);
    assert t[1..] == Pad2(n) + rest;
    RunOf(Pad2(n), rest);
    Pad2ReadsBack(n);
  }

  const START: string := " 0:00"

  lemma StartIsTheRest()
    ensures SkipBlanks(START) == "0:00" && Trim("0:00") == "0:00" && '\n' !in "0:00"
    ensures !IsWord(START[0])
  {
    assert START[1..] == "0:00";
    NothingToTrim("0:00", IsSpace);
  }

  lemma TokenShape(season: nat, episode: nat)
    ensures EpisodeToken(season, episode) == ['S'] + (Pad2(season) + (['E'] + (Pad2(episode) + START)))
  {
    var e := "E" + Pad2(episode) + START;
    assert e == ['E'] + (Pad2(episode) + START);
    assert "S" + Pad2(season) + e == ['S'] + (Pad2(season) + e);
  }

  lemma TokenIsTrim(season: nat, episode: nat)
    ensures Trim(EpisodeToken(season, episode)) == EpisodeToken(season, episode)
  {
    var t := EpisodeToken(season, episode);
    assert t[0] == 'S' && t[|t| - 1] == '0';
    NothingToTrim(t, IsSpace);
  }

  /** A published episode token is taken for its code exactly when the season has at most three
      digits and the episode at most four; and then it names that season and episode, at 0:00. */
  lemma EpisodeTokenReadsBack(season: nat, episode: nat)
    ensures SplitEpisodeCode(EpisodeToken(season, episode)) ==
      if season <= 999 && episode <= 9999 then Some(Code(season, episode, "0:00")) else None
  {
    TokenShape(season, episode);
    TokenIsTrim(season, episode);
    StartIsTheRest();
    NumberedReads('S', season, ['E'] + (Pad2(episode) + START), {'S', 's'}, 3);
    NumberedReads('E', episode, START, {'E', 'e'}, 4);
    Pad2Length(season);
    Pad2Length(episode);
  }

  /** No episode token, in range or out of it, is a time. */
  lemma EpisodeTokenIsNoTime(season: nat, episode: nat)
    ensures ClockValue(EpisodeToken(season, episode)) == None
  {
    TokenIsTrim(season, episode);
    var head := TokenHead(season, episode);
    TokenAtColon(season, episode);
    SplitFirst(head, ':', "00");
    SplitOne("00", ':');
    NoNumber(head);
    assert Values([head, "00"])[0] == None;
  }

  /** What stands before a token's colon. */
  function TokenHead(season: nat, episode: nat): string {
    "S" + Pad2(season) + ("E" + Pad2(episode) + " 0")
  }

  lemma TokenAtColon(season: nat, episode: nat)
    ensures EpisodeToken(season, episode) == TokenHead(season, episode) + ([':'] + "00")
    ensures Free(TokenHead(season, episode), ':')
  {
    DigitsAreFree(Pad2(season), ':');
    DigitsAreFree(Pad2(episode), ':');
    var e := "E" + Pad2(episode) + " 0";
    assert "E" + Pad2(episode) + " 0:00" == e + ([':'] + "00");
    assert "S" + Pad2(season) + (e + ([':'] + "00")) == ("S" + Pad2(season) + e) + ([':'] + "00");
  }

  lemma NoNumber(s: string)
    requires s != "" && s[0] == 'S' && !IsSpace(s[|s| - 1])
    ensures forall last :: PartValue(s, last) == None
  {
    NothingToTrim(s, IsSpace);
    var i := IndexOf(s, '.');
    assert i > 0 && s[..i][0] == 'S';
  }

  lemma ClockIsNoCode(sec: real)
    ensures SplitEpisodeCode(Clock(sec)) == None
    ensures Clock(sec) != "" && Trim(Clock(sec)) == Clock(sec)
  {
    ClockIsTrim(sec);
    NoLetterNoCode(Clock(sec));
  }

  lemma NoLetterNoCode(t: string)
    requires t != "" && IsDigit(t[0]) && Trim(t) == t
    ensures SplitEpisodeCode(t) == None
  {
  }

  // ── sections ──────────────────────────────────────────────────────────

  const KINDS: seq<string> := ["ch", "pg", "pct"]

  /** Which of the kinds a token begins with, whatever its case. */
  function KindOf(t: string): Option<string> {
    var low := Locators.ToLower(t);
    if "ch" <= low then Some("ch") else if "pg" <= low then Some("pg") else if "pct" <= low then Some("pct") else None
  }

  /** What follows the kind: a dot perhaps, blanks, and one word to the end. */
  function WordAfter(after: string): Option<string> {
    var dotted := if after != "" && after[0] == '.' then after[1..] else after;
    var word := SkipBlanks(dotted);
    if word == dotted || word == "" || (exists c :: c in word && IsBlank(c)) then None else Some(word)
  }

  /** "ch. 7" and "ch 7" into "ch:7"; anything else as it came, trimmed. */
  function SpellLocator(token: string): string {
    var t := Trim(token);
    var k := KindOf(t);
    if k.None? then t else
    var word := WordAfter(t[|k.value|..]);
    if word.None? then t else k.value + ":" + word.value
  }

  /** Blanks, at least one, and then a word to the end. */
  predicate BlanksAndWord(gap: string, word: string) {
    && gap != "" && (forall i :: 0 <= i < |gap| ==> IsBlank(gap[i]))
    && word != "" && (forall i :: 0 <= i < |word| ==> !IsBlank(word[i]))
  }

  lemma {:induction false} BlanksAreSkipped(gap: string, word: string)
    requires (forall i :: 0 <= i < |gap| ==> IsBlank(gap[i])) && word != "" && !IsBlank(word[0])
    ensures SkipBlanks(gap + word) == word
  {
    if gap == "" {
      assert gap + word == word;
    } else {
      assert (gap + word)[1..] == gap[1..] + word;
      BlanksAreSkipped(gap[1..], word);
    }
  }

  /** A kind is spelled with a dot or without, and blanks before its word; without the blanks the
      text is left as it came. */
  lemma WordExactly(gap: string, word: string)
    requires BlanksAndWord(gap, word)
    ensures WordAfter(gap + word) == Some(word) && WordAfter("." + (gap + word)) == Some(word)
    ensures word[0] != '.' ==> WordAfter(word) == None && WordAfter("." + word) == None
    ensures WordAfter(gap + word + gap) == None && WordAfter(gap) == None
  {
    BlanksAreSkipped(gap, word);
    assert ("." + (gap + word))[1..] == gap + word && ("." + word)[1..] == word;
    assert gap[0] != '.';
    assert forall c :: c in word ==> !IsBlank(c);
    BlanksAreSkipped("", word);
    BlanksAreSkipped(gap, word + gap);
    assert gap + word + gap == gap + (word + gap);
    assert (word + gap)[|word|] == gap[0] && gap[0] in word + gap;
    AllBlanks(gap);
  }

  lemma {:induction false} AllBlanks(gap: string)
    requires forall i :: 0 <= i < |gap| ==> IsBlank(gap[i])
    ensures SkipBlanks(gap) == ""
  {
    if gap != "" {
      AllBlanks(gap[1..]);
    }
  }

  function SectionToken(n: nat): string {
    "ch. " + NatText(n)
  }

  lemma DigitsAreNoBlanks(digits: string)
    requires AllDigits(digits) && digits != ""
    ensures SkipBlanks(digits) == digits && SkipBlanks(" " + digits) == digits
    ensures !exists c :: c in digits && IsBlank(c)
  {
    assert (" " + digits)[1..] == digits;
  }

  lemma WordAfterDot(n: nat)
    ensures WordAfter(". " + NatText(n)) == Some(NatText(n))
  {
    var digits := NatText(n);
    assert (". " + digits)[1..] == " " + digits;
    DigitsAreNoBlanks(digits);
  }

  lemma SectionShape(n: nat)
    ensures var t := SectionToken(n); Trim(t) == t && KindOf(t) == Some("ch") && t[2..] == ". " + NatText(n)
  {
    var t := SectionToken(n);
    NothingToTrim(t, IsSpace);
    assert Locators.ToLower(t)[..2] == "ch";
    assert t[..2] == "ch" && t == "ch" + (". " + NatText(n));
  }

  lemma SectionSpelled(n: nat)
    ensures SpellLocator(SectionToken(n)) == "ch:" + NatText(n)
  {
    SectionShape(n);
    WordAfterDot(n);
  }

  lemma ChapterSpelled(n: nat)
    ensures Locators.FormatLocator(Locators.Chapter(n)) == "ch:" + NatText(n)
  {
    assert "ch" + ":" == "ch:";
  }

  /** A published section reads back as that section of the book. */
  lemma SectionTokenReadsBack(n: nat)
    requires n >= 1
    ensures SpellLocator(SectionToken(n)) == Locators.FormatLocator(Locators.Chapter(n))
    ensures Locators.ParseLocator(Some(SpellLocator(SectionToken(n)))) == Some(Locators.Chapter(n))
  {
    SectionSpelled(n);
    ChapterSpelled(n);
    Locators.FormattedReadsBack(Locators.Chapter(n));
  }
}
