/**
 * `String.prototype.trim` as the task editor uses it: strip the characters
 * ECMAScript counts as WhiteSpace or LineTerminator from both ends.
 */
module JsText {

  /** ECMAScript WhiteSpace (tab, VT, FF, space, NBSP, BOM, category Zs) and LineTerminator (LF, CR, LS, PS). */
  predicate IsJsWhitespace(c: char)
  {
    c == '\t' || c == '\U{000B}' || c == '\U{000C}' || c == ' ' || c == '\U{00A0}' || c == '\U{FEFF}'
    || c == '\U{1680}' || ('\U{2000}' <= c <= '\U{200A}') || c == '\U{202F}' || c == '\U{205F}' || c == '\U{3000}'
    || c == '\n' || c == '\r' || c == '\U{2028}' || c == '\U{2029}'
  }

  /** Every character of `s` is whitespace. */
  predicate IsBlank(s: string)
  {
    forall i :: 0 <= i < |s| ==> IsJsWhitespace(s[i])
  }

  /** Scanning forward from `from`, the position of the first non-whitespace character (or `|s|`). */
  function StartOfText(s: string, from: nat): (k: nat)
    requires from <= |s|
    ensures from <= k <= |s|
    ensures forall m :: from <= m < k ==> IsJsWhitespace(s[m])
    ensures k == |s| || !IsJsWhitespace(s[k])
    decreases |s| - from
  {
    if from == |s| || !IsJsWhitespace(s[from]) then from else StartOfText(s, from + 1)
  }

  /** Scanning back from `hi`, no further than `lo`, the end of the last non-whitespace character (or `lo`). */
  function EndOfText(s: string, lo: nat, hi: nat): (k: nat)
    requires lo <= hi <= |s|
    ensures lo <= k <= hi
    ensures forall m :: k <= m < hi ==> IsJsWhitespace(s[m])
    ensures k == lo || !IsJsWhitespace(s[k - 1])
    decreases hi
  {
    if hi == lo || !IsJsWhitespace(s[hi - 1]) then hi else EndOfText(s, lo, hi - 1)
  }

  /** `s.trim()`: no longer than `s`, and neither starting nor ending with whitespace. */
  function Trim(s: string): (r: string)
    ensures |r| <= |s|
    ensures r != "" ==> !IsJsWhitespace(r[0]) && !IsJsWhitespace(r[|r| - 1])
  {
    var i := StartOfText(s, 0);
    s[i..EndOfText(s, i, |s|)]
  }

  /**
   * The trimmed string is the slice `s[i..j]`: it starts and ends on a
   * non-whitespace character, and everything cut off around it is whitespace.
   */
  lemma TrimIsCore(s: string) returns (i: nat, j: nat)
    ensures i <= j <= |s| && Trim(s) == s[i..j]
    ensures forall m :: 0 <= m < i ==> IsJsWhitespace(s[m])
    ensures forall m :: j <= m < |s| ==> IsJsWhitespace(s[m])
    ensures i < j ==> !IsJsWhitespace(s[i]) && !IsJsWhitespace(s[j - 1])
  {
    i := StartOfText(s, 0);
    j := EndOfText(s, i, |s|);
  }

  /** `s.trim()` is empty exactly when `s` is all whitespace. */
  lemma TrimEmptyIffBlank(s: string)
    ensures Trim(s) == "" <==> IsBlank(s)
  {
    var i, j := TrimIsCore(s);
    if Trim(s) == "" {
      forall m | 0 <= m < |s| ensures IsJsWhitespace(s[m]) {
        if m >= i {
          assert m >= j;
        }
      }
    } else {
      assert s[i] == Trim(s)[0];
    }
  }

  /** A string whose trim is non-empty is itself non-empty. */
  lemma TrimNonEmptyImpliesNonEmpty(s: string)
    requires Trim(s) != ""
    ensures s != ""
  {
  }
}
