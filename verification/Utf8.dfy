/** UTF-8, both directions, as the browser's URL machinery applies it: the encoder
    encodeURIComponent runs, and the lossy decoder of the Encoding Standard (an invalid
    sequence becomes U+FFFD, one per maximal subpart). */
module Utf8 {
  type Byte = b: int | 0 <= b < 256

  const REPLACEMENT: char := '\U{FFFD}'

  function EncodeChar(c: char): seq<Byte> {
    var v := c as int;
    if v < 0x80 then [v]
    else if v < 0x800 then [0xC0 + v / 64, 0x80 + v % 64]
    else if v < 0x1_0000 then [0xE0 + v / 4096, 0x80 + v / 64 % 64, 0x80 + v % 64]
    else [0xF0 + v / 262144, 0x80 + v / 4096 % 64, 0x80 + v / 64 % 64, 0x80 + v % 64]
  }

  /** One character of each length, as section 3 of RFC 3629 has it. */
  lemma KnownBytes()
    ensures EncodeChar('A') == [0x41] && EncodeChar('\U{E9}') == [0xC3, 0xA9]
    ensures EncodeChar('\U{20AC}') == [0xE2, 0x82, 0xAC] && EncodeChar('\U{1F3AC}') == [0xF0, 0x9F, 0x8E, 0xAC]
  {
  }

  function Encode(s: string): seq<Byte> {
    if s == [] then [] else EncodeChar(s[0]) + Encode(s[1..])
  }

  predicate Between(bs: seq<Byte>, i: nat, lo: int, hi: int) {
    i < |bs| && lo <= bs[i] <= hi
  }

  predicate Continues(bs: seq<Byte>, i: nat) {
    Between(bs, i, 0x80, 0xBF)
  }

  function Tail(bs: seq<Byte>, i: nat): int
    requires i < |bs|
  {
    (bs[i] as int) - 0x80
  }

  /** The first scalar of a byte string and how many bytes it took. */
  function DecodeOne(bs: seq<Byte>): (r: (char, nat))
    requires bs != []
    ensures 1 <= r.1 <= |bs|
  {
    var b := bs[0];
    if b < 0x80 then (b as char, 1)
    else if 0xC2 <= b <= 0xDF then
      if !Continues(bs, 1) then (REPLACEMENT, 1)
      else (((b - 0xC0) * 64 + Tail(bs, 1)) as char, 2)
    else if 0xE0 <= b <= 0xEF then
      if !Between(bs, 1, if b == 0xE0 then 0xA0 else 0x80, if b == 0xED then 0x9F else 0xBF) then (REPLACEMENT, 1)
      else if !Continues(bs, 2) then (REPLACEMENT, 2)
      else (((b - 0xE0) * 4096 + Tail(bs, 1) * 64 + Tail(bs, 2)) as char, 3)
    else if 0xF0 <= b <= 0xF4 then
      if !Between(bs, 1, if b == 0xF0 then 0x90 else 0x80, if b == 0xF4 then 0x8F else 0xBF) then (REPLACEMENT, 1)
      else if !Continues(bs, 2) then (REPLACEMENT, 2)
      else if !Continues(bs, 3) then (REPLACEMENT, 3)
      else (((b - 0xF0) * 262144 + Tail(bs, 1) * 4096 + Tail(bs, 2) * 64 + Tail(bs, 3)) as char, 4)
    else (REPLACEMENT, 1)
  }

  function Decode(bs: seq<Byte>): string
    decreases |bs|
  {
    if bs == [] then [] else
    var (c, used) := DecodeOne(bs);
    [c] + Decode(bs[used..])
  }

  lemma DecodeTwo(v: int, rest: seq<Byte>)
    requires 0x80 <= v < 0x800
    ensures DecodeOne([0xC0 + v / 64, 0x80 + v % 64] + rest) == (v as char, 2)
  {
    var bs: seq<Byte> := [0xC0 + v / 64, 0x80 + v % 64] + rest;
    assert bs[0] == 0xC0 + v / 64 && bs[1] == 0x80 + v % 64;
    assert 2 <= v / 64 < 32;
  }

  lemma DecodeThree(v: int, rest: seq<Byte>)
    requires 0x800 <= v < 0xD800 || 0xE000 <= v < 0x1_0000
    ensures DecodeOne([0xE0 + v / 4096, 0x80 + v / 64 % 64, 0x80 + v % 64] + rest) == (v as char, 3)
  {
    var a, b, c := v / 4096, v / 64 % 64, v % 64;
    assert v == a * 4096 + b * 64 + c;
    var bs: seq<Byte> := [0xE0 + a, 0x80 + b, 0x80 + c] + rest;
    assert bs[0] == 0xE0 + a && bs[1] == 0x80 + b && bs[2] == 0x80 + c;
  }

  lemma FourDigits(v: nat)
    ensures v == v / 262144 * 262144 + v / 4096 % 64 * 4096 + v / 64 % 64 * 64 + v % 64
  {
    var q := v / 64;
    var r := q / 64;
    assert v / 4096 == r && v / 262144 == r / 64;
  }

  lemma DecodeFour(v: int, rest: seq<Byte>)
    requires 0x1_0000 <= v < 0x11_0000
    ensures DecodeOne([0xF0 + v / 262144, 0x80 + v / 4096 % 64, 0x80 + v / 64 % 64, 0x80 + v % 64] + rest) == (v as char, 4)
  {
    var a, b, c, d := v / 262144, v / 4096 % 64, v / 64 % 64, v % 64;
    FourDigits(v);
    var bs: seq<Byte> := [0xF0 + a, 0x80 + b, 0x80 + c, 0x80 + d] + rest;
    assert bs[0] == 0xF0 + a && bs[1] == 0x80 + b && bs[2] == 0x80 + c && bs[3] == 0x80 + d;
  }

  lemma DecodeOneReadsEncodeChar(c: char, rest: seq<Byte>)
    ensures DecodeOne(EncodeChar(c) + rest) == (c, |EncodeChar(c)|)
  {
    var v := c as int;
    if 0x80 <= v < 0x800 {
      DecodeTwo(v, rest);
    } else if 0x800 <= v < 0x1_0000 {
      DecodeThree(v, rest);
    } else if 0x1_0000 <= v {
      DecodeFour(v, rest);
    }
  }

  /** Every string of Unicode scalars survives the trip through its bytes. */
  lemma {:induction false} DecodeReadsEncode(s: string)
    ensures Decode(Encode(s)) == s
  {
    if s != [] {
      var rest := Encode(s[1..]);
      DecodeOneReadsEncodeChar(s[0], rest);
      assert (EncodeChar(s[0]) + rest)[|EncodeChar(s[0])|..] == rest;
      DecodeReadsEncode(s[1..]);
    }
  }

  lemma {:induction false} EncodeConcat(a: string, b: string)
    ensures Encode(a + b) == Encode(a) + Encode(b)
  {
    if a == [] {
      assert a + b == b;
    } else {
      assert (a + b)[0] == a[0] && (a + b)[1..] == a[1..] + b;
      EncodeConcat(a[1..], b);
    }
  }
}
