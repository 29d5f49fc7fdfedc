/** The two halves of a query string: encodeURIComponent (percent-encoding, section 2.1 of
    RFC 3986) and the application/x-www-form-urlencoded parser URLSearchParams runs
    (section 5.1 of the WHATWG URL Standard). */
module UrlEncoding {
  import opened Positions
  import opened Utf8

  const AMPERSAND: Byte := 0x26
  const EQUALS: Byte := 0x3D
  const PLUS: Byte := 0x2B
  const PERCENT: Byte := 0x25
  const SPACE: Byte := 0x20

  // ── printing ──────────────────────────────────────────────────────────

  /** What encodeURIComponent leaves as it is. */
  predicate Unreserved(c: char) {
    'a' <= c <= 'z' || 'A' <= c <= 'Z' || '0' <= c <= '9' || c in "-_.!~*'()"
  }

  predicate AllUnreserved(s: string) {
    forall i :: 0 <= i < |s| ==> Unreserved(s[i])
  }

  function HexDigit(n: int): char
    requires 0 <= n < 16
  {
    if n < 10 then ('0' as int + n) as char else ('A' as int + n - 10) as char
  }

  function EncodeBytes(bs: seq<Byte>): string {
    if bs == [] then "" else ['%', HexDigit(bs[0] / 16), HexDigit(bs[0] % 16)] + EncodeBytes(bs[1..])
  }

  function EncodeOne(c: char): string {
    if Unreserved(c) then [c] else EncodeBytes(EncodeChar(c))
  }

  function EncodeComponent(s: string): string {
    if s == [] then "" else EncodeOne(s[0]) + EncodeComponent(s[1..])
  }

  function FieldText(field: (string, string)): string {
    field.0 + "=" + EncodeComponent(field.1)
  }

  /** name=value&name=value&… */
  function FormText(fields: seq<(string, string)>): string {
    if fields == [] then ""
    else if |fields| == 1 then FieldText(fields[0])
    else FieldText(fields[0]) + "&" + FormText(fields[1..])
  }

  // ── parsing ───────────────────────────────────────────────────────────

  predicate IsHex(b: Byte) {
    0x30 <= b <= 0x39 || 0x41 <= b <= 0x46 || 0x61 <= b <= 0x66
  }

  function HexValue(b: Byte): (n: Byte)
    requires IsHex(b)
    ensures n < 16
  {
    if b <= 0x39 then b - 0x30 else if b <= 0x46 then b - 0x41 + 10 else b - 0x61 + 10
  }

  /** An escape that is not % and two hex digits stands for itself. */
  function PercentDecode(bs: seq<Byte>): seq<Byte> {
    if bs == [] then []
    else if bs[0] == PERCENT && 3 <= |bs| && IsHex(bs[1]) && IsHex(bs[2]) then
      [HexValue(bs[1]) * 16 + HexValue(bs[2])] + PercentDecode(bs[3..])
    else [bs[0]] + PercentDecode(bs[1..])
  }

  function PlusToSpace(bs: seq<Byte>): (r: seq<Byte>)
    ensures |r| == |bs|
  {
    seq(|bs|, i requires 0 <= i < |bs| => if bs[i] == PLUS then SPACE else bs[i])
  }

  function FormDecode(bs: seq<Byte>): string {
    Decode(PercentDecode(PlusToSpace(bs)))
  }

  function After(bs: seq<Byte>, i: nat): (r: seq<Byte>)
    requires i <= |bs|
    ensures bs != [] ==> |r| < |bs|
  {
    if i == |bs| then [] else bs[i + 1..]
  }

  /** A piece with no `=` is a name with an empty value. */
  function ParseField(piece: seq<Byte>): (string, string) {
    var i := IndexOf(piece, EQUALS);
    (FormDecode(piece[..i]), FormDecode(After(piece, i)))
  }

  function ParseForm(bs: seq<Byte>): seq<(string, string)>
    decreases |bs|
  {
    if bs == [] then [] else
    var i := IndexOf(bs, AMPERSAND);
    (if i == 0 then [] else [ParseField(bs[..i])]) + ParseForm(After(bs, i))
  }

  // ── what is printed reads back ────────────────────────────────────────

  /** The characters a printed name or value is made of. */
  predicate OnTheWire(s: string) {
    forall i :: 0 <= i < |s| ==> Unreserved(s[i]) || s[i] == '%'
  }

  lemma {:induction false} AsciiBytes(s: string)
    requires forall i :: 0 <= i < |s| ==> s[i] as int < 0x80
    ensures |Encode(s)| == |s|
    ensures forall i :: 0 <= i < |s| ==> Encode(s)[i] == s[i] as int
  {
    if s != [] {
      AsciiBytes(s[1..]);
      assert Encode(s) == [s[0] as int] + Encode(s[1..]);
    }
  }

  lemma {:induction false} EncodeBytesOnTheWire(bs: seq<Byte>)
    ensures OnTheWire(EncodeBytes(bs))
  {
    if bs != [] {
      EncodeBytesOnTheWire(bs[1..]);
    }
  }

  lemma {:induction false} EncodeComponentOnTheWire(s: string)
    ensures OnTheWire(EncodeComponent(s))
  {
    if s != [] {
      EncodeBytesOnTheWire(EncodeChar(s[0]));
      EncodeComponentOnTheWire(s[1..]);
    }
  }

  lemma {:induction false} UnreservedIsItself(s: string)
    requires AllUnreserved(s)
    ensures EncodeComponent(s) == s
  {
    if s != [] {
      UnreservedIsItself(s[1..]);
    }
  }

  lemma PlusToSpaceConcat(a: seq<Byte>, b: seq<Byte>)
    ensures PlusToSpace(a + b) == PlusToSpace(a) + PlusToSpace(b)
  {
  }

  lemma {:induction false} EscapesDecode(bs: seq<Byte>, rest: seq<Byte>)
    ensures PercentDecode(PlusToSpace(Encode(EncodeBytes(bs))) + rest) == bs + PercentDecode(rest)
  {
    if bs == [] {
      assert PlusToSpace(Encode(EncodeBytes(bs))) + rest == rest;
      assert bs + PercentDecode(rest) == PercentDecode(rest);
    } else {
      var rest' := PlusToSpace(Encode(EncodeBytes(bs[1..]))) + rest;
      EscapesDecode(bs[1..], rest);
      OneEscapeDecodes(bs[0], rest');
      FirstEscape(bs, rest);
      assert bs == [bs[0]] + bs[1..];
      Regrouped([bs[0]], bs[1..], PercentDecode(rest));
    }
  }

  lemma FirstEscape(bs: seq<Byte>, rest: seq<Byte>)
    requires bs != []
    ensures PlusToSpace(Encode(EncodeBytes(bs))) + rest ==
      PlusToSpace(Encode(['%', HexDigit(bs[0] / 16), HexDigit(bs[0] % 16)])) + (PlusToSpace(Encode(EncodeBytes(bs[1..]))) + rest)
  {
    var escape := ['%', HexDigit(bs[0] / 16), HexDigit(bs[0] % 16)];
    var more := EncodeBytes(bs[1..]);
    EncodeConcat(escape, more);
    PlusToSpaceConcat(Encode(escape), Encode(more));
    Regrouped(PlusToSpace(Encode(escape)), PlusToSpace(Encode(more)), rest);
  }

  lemma Regrouped(a: seq<Byte>, b: seq<Byte>, c: seq<Byte>)
    ensures (a + b) + c == a + (b + c)
  {
  }

  lemma OneEscapeDecodes(b: Byte, tail: seq<Byte>)
    ensures PercentDecode(PlusToSpace(Encode(['%', HexDigit(b / 16), HexDigit(b % 16)])) + tail) == [b] + PercentDecode(tail)
  {
    var escape := ['%', HexDigit(b / 16), HexDigit(b % 16)];
    AsciiBytes(escape);
    var all := PlusToSpace(Encode(escape)) + tail;
    assert all[3..] == tail;
    assert all[0] == PERCENT && all[1] == HexDigit(b / 16) as int && all[2] == HexDigit(b % 16) as int;
  }

  lemma {:induction false} ComponentDecodes(s: string)
    ensures PercentDecode(PlusToSpace(Encode(EncodeComponent(s)))) == Encode(s)
  {
    if s != [] {
      var head, more := EncodeOne(s[0]), EncodeComponent(s[1..]);
      EncodeConcat(head, more);
      PlusToSpaceConcat(Encode(head), Encode(more));
      ComponentDecodes(s[1..]);
      var tail := PlusToSpace(Encode(more));
      if Unreserved(s[0]) {
        AsciiBytes(head);
        assert PlusToSpace(Encode(head)) + tail == [s[0] as int] + tail;
        assert ([s[0] as int] + tail)[1..] == tail;
      } else {
        EscapesDecode(EncodeChar(s[0]), tail);
      }
    }
  }

  lemma FormDecodeReadsComponent(s: string)
    ensures FormDecode(Encode(EncodeComponent(s))) == s
  {
    ComponentDecodes(s);
    DecodeReadsEncode(s);
  }

  lemma WireBytes(s: string)
    requires OnTheWire(s)
    ensures |Encode(s)| == |s|
    ensures forall i :: 0 <= i < |s| ==> Encode(s)[i] !in {AMPERSAND, EQUALS, PLUS}
  {
    AsciiBytes(s);
  }

  lemma IndexOfSeparator(a: seq<Byte>, b: Byte, rest: seq<Byte>)
    requires forall i :: 0 <= i < |a| ==> a[i] != b
    ensures IndexOf(a + [b] + rest, b) == |a| && IndexOf(a, b) == |a|
    ensures After(a + [b] + rest, |a|) == rest && (a + [b] + rest)[..|a|] == a
  {
    var s := a + [b] + rest;
    assert forall k :: 0 <= k < |a| ==> s[k] == a[k];
    assert s[|a|] == b;
  }

  /** One printed field as bytes: the two halves with an equals sign between, and no
      ampersand anywhere. */
  lemma FieldBytes(field: (string, string))
    requires AllUnreserved(field.0)
    ensures Encode(FieldText(field)) == Encode(field.0) + [EQUALS] + Encode(EncodeComponent(field.1))
    ensures AMPERSAND !in Encode(FieldText(field))
    ensures ParseField(Encode(FieldText(field))) == field
  {
    FieldSpelled(field);
    EncodeComponentOnTheWire(field.1);
    WireBytes(field.0);
    WireBytes(EncodeComponent(field.1));
    FieldParses(field, Encode(field.0), Encode(EncodeComponent(field.1)));
  }

  lemma FieldSpelled(field: (string, string))
    ensures Encode(FieldText(field)) == Encode(field.0) + [EQUALS] + Encode(EncodeComponent(field.1))
  {
    EncodeConcat(field.0 + "=", EncodeComponent(field.1));
    EncodeConcat(field.0, "=");
    AsciiBytes("=");
    assert Encode("=") == [EQUALS];
  }

  lemma FieldParses(field: (string, string), name: seq<Byte>, value: seq<Byte>)
    requires AllUnreserved(field.0) && name == Encode(field.0) && value == Encode(EncodeComponent(field.1))
    requires EQUALS !in name
    ensures ParseField(name + [EQUALS] + value) == field
  {
    IndexOfSeparator(name, EQUALS, value);
    var piece := name + [EQUALS] + value;
    assert piece[..|name|] == name && piece[|name| + 1..] == value;
    UnreservedIsItself(field.0);
    FormDecodeReadsComponent(field.0);
    FormDecodeReadsComponent(field.1);
  }

  lemma ParseFormStep(first: seq<Byte>, rest: seq<Byte>)
    requires first != [] && AMPERSAND !in first
    ensures ParseForm(first) == [ParseField(first)]
    ensures ParseForm(first + [AMPERSAND] + rest) == [ParseField(first)] + ParseForm(rest)
  {
    IndexOfSeparator(first, AMPERSAND, rest);
    assert first[..|first|] == first;
  }

  /** The parser reads back every list of named values, whatever the values hold. */
  lemma {:induction false} ParseFormReadsFormText(fields: seq<(string, string)>)
    requires forall i :: 0 <= i < |fields| ==> AllUnreserved(fields[i].0)
    ensures ParseForm(Encode(FormText(fields))) == fields
  {
    if fields != [] {
      FieldBytes(fields[0]);
      var first := Encode(FieldText(fields[0]));
      if |fields| == 1 {
        ParseFormStep(first, []);
      } else {
        var rest := FormText(fields[1..]);
        FormTextBytes(fields);
        ParseFormReadsFormText(fields[1..]);
        ParseFormStep(first, Encode(rest));
        assert [fields[0]] + fields[1..] == fields;
      }
    }
  }

  lemma FormTextBytes(fields: seq<(string, string)>)
    requires 2 <= |fields|
    ensures Encode(FormText(fields)) == Encode(FieldText(fields[0])) + [AMPERSAND] + Encode(FormText(fields[1..]))
  {
    EncodeConcat(FieldText(fields[0]) + "&", FormText(fields[1..]));
    EncodeConcat(FieldText(fields[0]), "&");
    AsciiBytes("&");
    assert Encode("&") == [AMPERSAND];
  }
}
