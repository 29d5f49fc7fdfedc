/** The passage grammar of a deep link's query: web/passage.js's parsePassage and
    passageQuery, which internal/passage spells the same way on the server. */
module PassageGrammar {
  import opened Options
  import opened Numerals
  import opened UrlEncoding
  import Utf8

  /** What a query says about where a work is entered and left. `opens` and `closes` are the
      text bounds the query names `from` and `to`. */
  datatype Passage = Passage(
    t: Option<Seconds>, end: Option<Seconds>, until: Option<nat>, untilEp: Option<string>,
    ep: Option<string>, opens: Option<string>, closes: Option<string>)

  const NOTHING := Passage(None, None, None, None, None, None, None)

  // ── reading ───────────────────────────────────────────────────────────

  /** URLSearchParams.get: the value of the first pair of that name. */
  function Get(pairs: seq<(string, string)>, name: string): Option<string> {
    if pairs == [] then None
    else if pairs[0].0 == name then Some(pairs[0].1)
    else Get(pairs[1..], name)
  }

  function NonEmpty(v: Option<string>): Option<string> {
    if v == Some("") then None else v
  }

  function ParseSeconds(v: Option<string>): Option<Seconds> {
    if v.None? then None else ParseDecimal(v.value)
  }

  function ParseItemId(v: Option<string>): Option<nat> {
    if v.None? || v.value == "" || !AllDigits(v.value) then None else Some(NatValue(v.value))
  }

  function DropMark(q: string): string {
    if q != [] && q[0] == '?' then q[1..] else q
  }

  /** An end at or before the start is no bound. */
  predicate NoBound(t: Option<Seconds>, end: Option<Seconds>) {
    t.Some? && end.Some? && Value(end.value) <= Value(t.value)
  }

  function Read(pairs: seq<(string, string)>): Option<Passage> {
    var t, end := ParseSeconds(Get(pairs, "t")), ParseSeconds(Get(pairs, "end"));
    var untilRaw := NonEmpty(Get(pairs, "until"));
    var until := ParseItemId(untilRaw);
    var p := Passage(
      t, if NoBound(t, end) then None else end,
      until, if until.None? then untilRaw else None,
      NonEmpty(Get(pairs, "ep")), NonEmpty(Get(pairs, "from")), NonEmpty(Get(pairs, "to")));
    if p == NOTHING then None else Some(p)
  }

  /** parsePassage. The second question mark dropped is URLSearchParams' own. */
  function Parse(query: Option<string>): Option<Passage> {
    if query.None? then None else
    var q := DropMark(query.value);
    if q == "" then None else Read(ParseForm(Utf8.Encode(DropMark(q))))
  }

  // ── printing ──────────────────────────────────────────────────────────

  function Given(name: string, value: Option<string>): seq<(string, string)> {
    if value.None? then [] else [(name, value.value)]
  }

  function SecondsText(s: Option<Seconds>): Option<string> {
    if s.None? then None else Some(DecimalText(s.value))
  }

  function UntilText(p: Passage): Option<string> {
    if p.until.Some? then Some(NatText(p.until.value)) else p.untilEp
  }

  /** The fields a passage is printed from: only the present ones, in the one order. */
  function Fields(p: Passage): seq<(string, string)> {
    Given("t", SecondsText(p.t)) + (Given("end", SecondsText(p.end)) + (Given("until", UntilText(p)) +
    (Given("ep", p.ep) + (Given("from", p.opens) + (Given("to", p.closes) + [])))))
  }

  function Query(p: Option<Passage>): string {
    if p.None? || Fields(p.value) == [] then "" else "?" + FormText(Fields(p.value))
  }

  function Join(parts: seq<string>): string {
    if parts == [] then "" else if |parts| == 1 then parts[0] else parts[0] + "&" + Join(parts[1..])
  }

  predicate Spelled(parts: seq<string>, fields: seq<(string, string)>) {
    |parts| == |fields| && forall i :: 0 <= i < |parts| ==> parts[i] == FieldText(fields[i])
  }

  lemma {:induction false} JoinIsFormText(parts: seq<string>, fields: seq<(string, string)>)
    requires Spelled(parts, fields)
    ensures Join(parts) == FormText(fields)
  {
    if 2 <= |parts| {
      JoinIsFormText(parts[1..], fields[1..]);
    }
  }

  lemma NumberPart(name: string, s: string)
    requires forall i :: 0 <= i < |s| ==> IsDigit(s[i]) || s[i] == '.'
    ensures name + "=" + s == FieldText((name, s))
  {
    UnreservedIsItself(s);
  }

  lemma SixInOrder<T>(a: seq<T>, b: seq<T>, c: seq<T>, d: seq<T>, e: seq<T>, f: seq<T>)
    ensures (a + b + c) + d + e + f == a + (b + (c + (d + (e + (f + [])))))
  {
  }

  lemma FieldsInOrder(p: Passage)
    ensures Fields(p) == Given("t", SecondsText(p.t)) + Given("end", SecondsText(p.end)) + Given("until", UntilText(p)) +
      Given("ep", p.ep) + Given("from", p.opens) + Given("to", p.closes)
  {
    SixInOrder(Given("t", SecondsText(p.t)), Given("end", SecondsText(p.end)), Given("until", UntilText(p)),
      Given("ep", p.ep), Given("from", p.opens), Given("to", p.closes));
  }

  /** passageQuery as it is written: a list of parts pushed one at a time, numbers as they
      are and words through encodeURIComponent. */
  method PassageQuery(p: Option<Passage>) returns (q: string)
    ensures q == Query(p)
  {
    if p.None? { return ""; }
    var v := p.value;
    ghost var fields: seq<(string, string)>;
    var parts: seq<string>;
    parts, fields := PushTimes(v);
    parts, fields := PushWord(parts, fields, "ep", v.ep);
    parts, fields := PushWord(parts, fields, "from", v.opens);
    parts, fields := PushWord(parts, fields, "to", v.closes);
    FieldsInOrder(v);
    JoinIsFormText(parts, fields);
    q := if parts == [] then "" else "?" + Join(parts);
  }

  method PushTimes(v: Passage) returns (parts: seq<string>, ghost fields: seq<(string, string)>)
    ensures fields == Given("t", SecondsText(v.t)) + Given("end", SecondsText(v.end)) + Given("until", UntilText(v))
    ensures Spelled(parts, fields)
  {
    parts, fields := [], [];
    parts, fields := PushNumber(parts, fields, "t", SecondsText(v.t));
    parts, fields := PushNumber(parts, fields, "end", SecondsText(v.end));
    if v.until.Some? {
      parts, fields := PushNumber(parts, fields, "until", Some(NatText(v.until.value)));
    } else {
      parts, fields := PushWord(parts, fields, "until", v.untilEp);
    }
  }

  method PushNumber(parts: seq<string>, ghost fields: seq<(string, string)>, name: string, number: Option<string>)
    returns (parts': seq<string>, ghost fields': seq<(string, string)>)
    requires Spelled(parts, fields)
    requires number.Some? ==> forall i :: 0 <= i < |number.value| ==> IsDigit(number.value[i]) || number.value[i] == '.'
    ensures fields' == fields + Given(name, number) && Spelled(parts', fields')
  {
    parts' := parts;
    fields' := fields + Given(name, number);
    if number.Some? {
      NumberPart(name, number.value);
      parts' := parts' + [name + "=" + number.value];
    }
  }

  method PushWord(parts: seq<string>, ghost fields: seq<(string, string)>, name: string, word: Option<string>)
    returns (parts': seq<string>, ghost fields': seq<(string, string)>)
    requires Spelled(parts, fields)
    ensures fields' == fields + Given(name, word) && Spelled(parts', fields')
  {
    parts' := parts;
    fields' := fields + Given(name, word);
    if word.Some? { parts' := parts' + [name + "=" + EncodeComponent(word.value)]; }
  }

  // ── the pair of them ──────────────────────────────────────────────────

  /** The passages a link can say exactly. */
  predicate WellFormed(p: Passage) {
    && p != NOTHING
    && !(p.until.Some? && p.untilEp.Some?)
    && (p.untilEp.Some? ==> !AllDigits(p.untilEp.value))
    && Some("") !in {p.ep, p.opens, p.closes}
    && !NoBound(p.t, p.end)
  }

  lemma GetAfterGiven(name: string, value: Option<string>, rest: seq<(string, string)>)
    ensures forall n ::
      Get(Given(name, value) + rest, n) == (if n == name && value.Some? then value else Get(rest, n))
  {
    if value.None? {
      assert Given(name, value) + rest == rest;
    } else {
      assert (Given(name, value) + rest)[1..] == rest;
    }
  }

  lemma FieldsHold(p: Passage)
    ensures var f := Fields(p);
      && Get(f, "t") == SecondsText(p.t) && Get(f, "end") == SecondsText(p.end)
      && Get(f, "until") == UntilText(p) && Get(f, "ep") == p.ep
      && Get(f, "from") == p.opens && Get(f, "to") == p.closes
  {
    var f6 := Given("to", p.closes) + [];
    var f5 := Given("from", p.opens) + f6;
    var f4 := Given("ep", p.ep) + f5;
    var f3 := Given("until", UntilText(p)) + f4;
    var f2 := Given("end", SecondsText(p.end)) + f3;
    GetAfterGiven("to", p.closes, []);
    GetAfterGiven("from", p.opens, f6);
    GetAfterGiven("ep", p.ep, f5);
    GetAfterGiven("until", UntilText(p), f4);
    GetAfterGiven("end", SecondsText(p.end), f3);
    GetAfterGiven("t", SecondsText(p.t), f2);
  }

  /** What any passage at all, printed and read back, becomes. */
  function Normal(p: Passage): Option<Passage> {
    var ep := NonEmpty(p.untilEp);
    var id := if p.until.Some? then p.until else ParseItemId(ep);
    var n := Passage(
      p.t, if NoBound(p.t, p.end) then None else p.end,
      id, if id.Some? then None else ep,
      NonEmpty(p.ep), NonEmpty(p.opens), NonEmpty(p.closes));
    if n == NOTHING then None else Some(n)
  }

  lemma SecondsReadBack(s: Option<Seconds>)
    ensures ParseSeconds(SecondsText(s)) == s
  {
    if s.Some? { DecimalReadsBack(s.value); }
  }

  lemma FieldsRead(p: Passage)
    ensures Read(Fields(p)) == Normal(p)
  {
    FieldsHold(p);
    SecondsReadBack(p.t);
    SecondsReadBack(p.end);
    if p.until.Some? { NatReadsBack(p.until.value); }
  }

  predicate Named(f: seq<(string, string)>) {
    forall i :: 0 <= i < |f| ==> f[i].0 != "" && AllUnreserved(f[i].0) && f[i].0[0] != '?'
  }

  lemma GivenNamed(name: string, value: Option<string>, rest: seq<(string, string)>)
    requires name in ["t", "end", "until", "ep", "from", "to"] && Named(rest)
    ensures Named(Given(name, value) + rest)
  {
  }

  lemma FieldsNamed(p: Passage)
    ensures Named(Fields(p)) && (Fields(p) == [] ==> p == NOTHING)
  {
    var f6 := Given("to", p.closes) + [];
    var f5 := Given("from", p.opens) + f6;
    var f4 := Given("ep", p.ep) + f5;
    var f3 := Given("until", UntilText(p)) + f4;
    GivenNamed("to", p.closes, []);
    GivenNamed("from", p.opens, f6);
    GivenNamed("ep", p.ep, f5);
    GivenNamed("until", UntilText(p), f4);
    GivenNamed("end", SecondsText(p.end), f3);
    GivenNamed("t", SecondsText(p.t), Given("end", SecondsText(p.end)) + f3);
  }

  lemma FormTextParses(f: seq<(string, string)>)
    requires f != [] && Named(f)
    ensures Parse(Some("?" + FormText(f))) == Read(f)
  {
    var text := FormText(f);
    assert text[0] == FieldText(f[0])[0] == f[0].0[0];
    assert DropMark("?" + text) == text;
    ParseFormReadsFormText(f);
  }

  /** And with no question mark in front of it. */
  lemma BareTextParses(f: seq<(string, string)>)
    requires f != [] && Named(f)
    ensures Parse(Some(FormText(f))) == Read(f)
  {
    var text := FormText(f);
    assert text[0] == FieldText(f[0])[0] == f[0].0[0];
    assert DropMark(text) == text;
    ParseFormReadsFormText(f);
  }

  /** How the link of a run is spelled: in, out, and the member it is until. */
  lemma RunIsSpelled(t: Seconds, end: Seconds, until: nat)
    ensures Query(Some(Passage(Some(t), Some(end), Some(until), None, None, None, None))) ==
      "?" + ("t=" + DecimalText(t) + "&" + ("end=" + DecimalText(end) + "&" + ("until=" + NatText(until))))
  {
    var p := Passage(Some(t), Some(end), Some(until), None, None, None, None);
    NumberPart("t", DecimalText(t));
    NumberPart("end", DecimalText(end));
    NumberPart("until", NatText(until));
    FieldsInOrder(p);
    var a, b, c := ("t", DecimalText(t)), ("end", DecimalText(end)), ("until", NatText(until));
    assert Fields(p) == [a, b, c];
    assert [a, b, c][1..] == [b, c] && [b, c][1..] == [c];
    assert FormText([b, c]) == FieldText(b) + "&" + FieldText(c);
    assert FormText([a, b, c]) == FieldText(a) + "&" + FormText([b, c]);
    assert "t" + "=" == "t=" && "end" + "=" == "end=" && "until" + "=" == "until=";
  }

  /** Printing and reading back any passage gives its normal form: an end that is no bound,
      an empty word and a doubled or all-digit `until` are the only things a link loses. */
  lemma PrintedReadsBack(p: Passage)
    ensures Parse(Some(Query(Some(p)))) == Normal(p)
  {
    FieldsNamed(p);
    if Fields(p) != [] {
      FormTextParses(Fields(p));
      FieldsRead(p);
    }
  }

  /** The round trip holds for the well-formed passages and for no others. */
  lemma RoundTripExactly(p: Passage)
    ensures Parse(Some(Query(Some(p)))) == Some(p) <==> WellFormed(p)
  {
    PrintedReadsBack(p);
  }

  /** Whatever query a link carries, what is read out of it is well formed, so printing it
      once gives a spelling that never changes again. */
  lemma ParsedIsFixed(query: Option<string>)
    requires Parse(query).Some?
    ensures WellFormed(Parse(query).value)
    ensures Parse(Some(Query(Parse(query)))) == Parse(query)
  {
    RoundTripExactly(Parse(query).value);
  }

  /** Two different well-formed passages never share a link. */
  lemma OneSpellingEach(a: Passage, b: Passage)
    requires WellFormed(a) && WellFormed(b) && Query(Some(a)) == Query(Some(b))
    ensures a == b
  {
    RoundTripExactly(a);
    RoundTripExactly(b);
  }

  /** The bound of a run belongs to its last item, and is dropped all the same when its
      number is not past the first item's start: a run keeps its end exactly when the end
      is greater. */
  lemma RunKeepsEndExactly(t: Seconds, end: Seconds, until: nat)
    ensures var p := Passage(Some(t), Some(end), Some(until), None, None, None, None);
      && (Parse(Some(Query(Some(p)))) == Some(p) <==> Value(t) < Value(end))
      && (Value(end) <= Value(t) ==> Parse(Some(Query(Some(p)))) == Some(p.(end := None)))
  {
    PrintedReadsBack(Passage(Some(t), Some(end), Some(until), None, None, None, None));
  }
}
