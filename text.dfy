/** Ordinal, case-insensitive comparison of strings, as .NET's
    `StringComparison.OrdinalIgnoreCase` does it for ASCII letters. */
module Text {

  /** Maps 'A'..'Z' to 'a'..'z' and leaves every other character alone. */
  function LowerAscii(c: char): (d: char)
    ensures 'A' <= c <= 'Z' ==> 'a' <= d <= 'z' && d as int - c as int == 32
    ensures !('A' <= c <= 'Z') ==> d == c
  {
    if 'A' <= c <= 'Z' then (c as int + 32) as char else c
  }

  /** The case-folded form of a string: the canonical spelling that
      case-insensitive equality compares. */
  function FoldCase(s: string): (r: string)
    ensures |r| == |s|
    ensures forall i :: 0 <= i < |s| ==> r[i] == LowerAscii(s[i])
  {
    seq(|s|, i requires 0 <= i < |s| => LowerAscii(s[i]))
  }

  predicate EqualsIgnoreCase(a: string, b: string) {
    FoldCase(a) == FoldCase(b)
  }

  /** Case-insensitive equality is an equivalence that differs from plain
      equality only in letter case, character by character. */
  lemma {:induction false} EqualsIgnoreCaseCharwise(a: string, b: string)
    ensures EqualsIgnoreCase(a, b) <==>
      |a| == |b| && forall i :: 0 <= i < |a| ==> LowerAscii(a[i]) == LowerAscii(b[i])
  {
    if |a| == |b| && forall i :: 0 <= i < |a| ==> LowerAscii(a[i]) == LowerAscii(b[i]) {
      assert forall i :: 0 <= i < |a| ==> FoldCase(a)[i] == FoldCase(b)[i];
    }
  }

  /** Two strings whose characters at some position differ other than in
      case are unequal. */
  lemma CharDiffers(a: string, b: string, k: nat)
    requires k < |a| && k < |b| && LowerAscii(a[k]) != LowerAscii(b[k])
    ensures !EqualsIgnoreCase(a, b)
  {
    assert FoldCase(a)[k] != FoldCase(b)[k];
  }
}
