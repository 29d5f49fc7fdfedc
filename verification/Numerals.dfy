/** Numbers as the grammar spells them: naturals in decimal digits, and non-negative
    decimals ("4740", "79.5") held exactly rather than as floats. */
module Numerals {
  import opened Options
  import opened Positions

  predicate IsDigit(c: char) {
    '0' <= c <= '9'
  }

  /** `^\d+$` without the demand for at least one digit. */
  predicate AllDigits(s: string) {
    forall i :: 0 <= i < |s| ==> IsDigit(s[i])
  }

  function DigitValue(c: char): (d: nat)
    requires IsDigit(c)
    ensures d < 10
  {
    c as int - '0' as int
  }

  function DigitChar(d: nat): (c: char)
    requires d < 10
    ensures IsDigit(c) && DigitValue(c) == d
  {
    ('0' as int + d) as char
  }

  function NatText(n: nat): (s: string)
    ensures s != [] && AllDigits(s)
    ensures n > 0 ==> s[0] != '0'
  {
    if n < 10 then [DigitChar(n)] else NatText(n / 10) + [DigitChar(n % 10)]
  }

  function NatValue(s: string): nat
    requires AllDigits(s)
  {
    if s == [] then 0 else 10 * NatValue(s[..|s| - 1]) + DigitValue(s[|s| - 1])
  }

  lemma {:induction false} NatReadsBack(n: nat)
    ensures NatValue(NatText(n)) == n
  {
    if n >= 10 {
      var s := NatText(n);
      assert s[..|s| - 1] == NatText(n / 10);
      NatReadsBack(n / 10);
    }
  }

  // ── decimals ──────────────────────────────────────────────────────────

  /** A non-negative decimal in its one canonical form: no zeros at the end of the fraction. */
  datatype Decimal = Decimal(whole: nat, frac: string) {
    predicate Canonical() {
      AllDigits(frac) && (frac != [] ==> frac[|frac| - 1] != '0')
    }
  }

  type Seconds = d: Decimal | d.Canonical() witness Decimal(0, "")

  function FracValue(frac: string): real
    requires AllDigits(frac)
  {
    if frac == [] then 0.0 else (DigitValue(frac[0]) as real + FracValue(frac[1..])) / 10.0
  }

  /** A number with its point moved `k` places to the right. */
  function Shift(x: real, k: nat): real {
    if k == 0 then x else 10.0 * Shift(x, k - 1)
  }

  lemma {:induction false} ShiftSum(x: real, y: real, k: nat)
    ensures Shift(x + y, k) == Shift(x, k) + Shift(y, k)
  {
    if k > 0 {
      ShiftSum(x, y, k - 1);
    }
  }

  lemma {:induction false} ShiftTenth(x: real, k: nat)
    ensures Shift(x / 10.0, k + 1) == Shift(x, k)
  {
    if k > 0 {
      ShiftTenth(x, k - 1);
    }
  }

  /** The first digit counts for itself moved past all the others. */
  lemma {:induction false} FirstDigit(s: string)
    requires s != "" && AllDigits(s)
    ensures NatValue(s) as real == Shift(DigitValue(s[0]) as real, |s| - 1) + NatValue(s[1..]) as real
  {
    if |s| > 1 {
      var init := s[..|s| - 1];
      FirstDigit(init);
      assert s[1..][..|s| - 2] == init[1..];
    }
  }

  /** A fraction is its digits, the point moved as many places as there are. */
  lemma {:induction false} FracIsDigits(frac: string)
    requires AllDigits(frac)
    ensures Shift(FracValue(frac), |frac|) == NatValue(frac) as real
  {
    if frac != "" {
      var d, x, k := DigitValue(frac[0]) as real, FracValue(frac[1..]), |frac| - 1;
      FracIsDigits(frac[1..]);
      FirstDigit(frac);
      ShiftTenth(d + x, k);
      ShiftSum(d, x, k);
    }
  }

  /** The number a decimal stands for. */
  function Value(d: Seconds): real {
    d.whole as real + FracValue(d.frac)
  }

  /** JavaScript's String(n) for the numbers the grammar admits (no exponent spellings). */
  function DecimalText(d: Seconds): string {
    NatText(d.whole) + (if d.frac == [] then "" else "." + d.frac)
  }

  function StripZeros(frac: string): (r: string)
    requires AllDigits(frac)
    ensures Decimal(0, r).Canonical() && |r| <= |frac|
  {
    if frac != [] && frac[|frac| - 1] == '0' then StripZeros(frac[..|frac| - 1]) else frac
  }

  /** `^\d+(\.\d+)?$`, and the number it spells; anything else is absent. */
  function ParseDecimal(v: string): (r: Option<Seconds>) {
    var i := IndexOf(v, '.');
    if i == 0 || !AllDigits(v[..i]) then None
    else if i == |v| then Some(Decimal(NatValue(v), ""))
    else if i + 1 == |v| || !AllDigits(v[i + 1..]) then None
    else Some(Decimal(NatValue(v[..i]), StripZeros(v[i + 1..])))
  }

  /** Digits, one point, and digits. */
  predicate PointAt(v: string, k: int) {
    0 < k < |v| - 1 && v[k] == '.' && AllDigits(v[..k]) && AllDigits(v[k + 1..])
  }

  lemma PointIsFirst(v: string, k: int)
    requires PointAt(v, k)
    ensures IndexOf(v, '.') == k
  {
    forall j | 0 <= j < k
      ensures v[j] != '.'
    {
      assert IsDigit(v[..k][j]);
    }
  }

  /** Which texts are a decimal: digits, or digits on both sides of one point. */
  lemma DecimalExactly(v: string)
    ensures ParseDecimal(v).Some? <==> (v != "" && AllDigits(v)) || exists k :: PointAt(v, k)
  {
    var i := IndexOf(v, '.');
    assert v[..|v|] == v;
    if i < |v| {
      assert ParseDecimal(v).Some? <==> PointAt(v, i);
      assert !IsDigit(v[i]);
    }
    if k :| PointAt(v, k) {
      PointIsFirst(v, k);
    }
  }

  /** And which number it is. */
  lemma DecimalIs(v: string, k: int)
    ensures v != "" && AllDigits(v) ==> ParseDecimal(v) == Some(Decimal(NatValue(v), ""))
    ensures PointAt(v, k) ==> ParseDecimal(v) == Some(Decimal(NatValue(v[..k]), StripZeros(v[k + 1..])))
  {
    assert v[..|v|] == v;
    if PointAt(v, k) {
      PointIsFirst(v, k);
    }
  }

  lemma IndexOfAfterDigits(a: string, rest: string)
    requires AllDigits(a) && (rest == [] || rest[0] == '.')
    ensures IndexOf(a + rest, '.') == |a|
  {
    var s := a + rest;
    assert forall k :: 0 <= k < |a| ==> s[k] == a[k] && IsDigit(a[k]);
    assert rest != [] ==> s[|a|] == '.';
  }

  lemma DecimalReadsBack(d: Seconds)
    ensures ParseDecimal(DecimalText(d)) == Some(d)
  {
    var w := NatText(d.whole);
    NatReadsBack(d.whole);
    var rest := if d.frac == [] then "" else "." + d.frac;
    IndexOfAfterDigits(w, rest);
    var v := w + rest;
    assert v[..|w|] == w;
    if d.frac == [] {
      assert v == w;
    } else {
      assert v[|w| + 1..] == d.frac;
    }
  }

  /** Trailing zeros change the spelling and not the number. */
  lemma {:induction false} StripZerosKeepsValue(frac: string)
    requires AllDigits(frac)
    ensures FracValue(StripZeros(frac)) == FracValue(frac)
  {
    if frac != [] && frac[|frac| - 1] == '0' {
      var shorter := frac[..|frac| - 1];
      assert shorter + ['0'] == frac;
      ZeroAddsNothing(shorter);
      StripZerosKeepsValue(shorter);
    }
  }

  lemma {:induction false} ZeroAddsNothing(frac: string)
    requires AllDigits(frac)
    ensures FracValue(frac + ['0']) == FracValue(frac)
  {
    if frac == [] {
      assert (frac + ['0'])[1..] == [];
    } else {
      assert (frac + ['0'])[1..] == frac[1..] + ['0'];
      ZeroAddsNothing(frac[1..]);
    }
  }
}
