/** Taking the spaces off both ends of a text, given what counts as one. */
module Trimming {
  function TrimLeft(s: string, space: char -> bool): string {
    if s != [] && space(s[0]) then TrimLeft(s[1..], space) else s
  }

  function TrimRight(s: string, space: char -> bool): string {
    if s != [] && space(s[|s| - 1]) then TrimRight(s[..|s| - 1], space) else s
  }

  function Trimmed(s: string, space: char -> bool): string {
    TrimRight(TrimLeft(s, space), space)
  }

  predicate AllSpaces(s: string, space: char -> bool) {
    forall i :: 0 <= i < |s| ==> space(s[i])
  }

  lemma {:induction false} LeftIsTrimmed(s: string, space: char -> bool)
    ensures var r := TrimLeft(s, space);
      && |r| <= |s| && s[|s| - |r|..] == r && AllSpaces(s[..|s| - |r|], space) && (r != "" ==> !space(r[0]))
  {
    if s != [] && space(s[0]) {
      LeftIsTrimmed(s[1..], space);
      var n := |s| - |TrimLeft(s, space)|;
      assert s[n..] == s[1..][n - 1..];
      assert forall i :: 0 < i < n ==> s[i] == s[1..][..n - 1][i - 1];
    }
  }

  lemma {:induction false} RightIsTrimmed(s: string, space: char -> bool)
    ensures var r := TrimRight(s, space);
      && |r| <= |s| && s[..|r|] == r && AllSpaces(s[|r|..], space) && (r != "" ==> !space(r[|r| - 1]))
  {
    if s != [] && space(s[|s| - 1]) {
      RightIsTrimmed(s[..|s| - 1], space);
      var n := |TrimRight(s, space)|;
      assert s[..n] == s[..|s| - 1][..n];
      assert forall i :: n <= i < |s| - 1 ==> s[i] == s[..|s| - 1][n..][i - n];
    }
  }

  /** What is left stands in the text with nothing but spaces on either side, and neither begins nor
      ends with one. */
  lemma TrimmedExactly(s: string, space: char -> bool)
    ensures var r := Trimmed(s, space);
      && (exists i, j :: 0 <= i <= j <= |s| && r == s[i..j] && AllSpaces(s[..i], space) && AllSpaces(s[j..], space))
      && (r != "" ==> !space(r[0]) && !space(r[|r| - 1]))
  {
    var left := TrimLeft(s, space);
    var r := Trimmed(s, space);
    LeftIsTrimmed(s, space);
    RightIsTrimmed(left, space);
    var i := |s| - |left|;
    var j := i + |r|;
    assert s[i..j] == left[..|r|] && s[j..] == left[|r|..];
    assert AllSpaces(s[..i], space) && AllSpaces(s[j..], space);
  }

  lemma NothingToTrim(s: string, space: char -> bool)
    requires s == "" || (!space(s[0]) && !space(s[|s| - 1]))
    ensures Trimmed(s, space) == s
  {
  }
}
