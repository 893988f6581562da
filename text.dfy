/**
 * The few string facts the dashboard relies on: decimal rendering of
 * non-negative integers (template literals such as `${i + 1}`) and the
 * characters JavaScript's `.` in a regular expression refuses to match.
 */
module Text {

  predicate IsDigit(c: char) {
    '0' <= c <= '9'
  }

  predicate AllDigits(s: string) {
    forall i :: 0 <= i < |s| ==> IsDigit(s[i])
  }

  function Digit(d: nat): (c: char)
    requires d < 10
    ensures IsDigit(c)
  {
    ('0' as int + d) as char
  }

  /** How JavaScript turns a non-negative integer into a string. */
  function NatToString(n: nat): (s: string)
    ensures |s| > 0 && AllDigits(s)
    ensures n < 10 <==> |s| == 1
    decreases n
  {
    if n < 10 then [Digit(n)] else NatToString(n / 10) + [Digit(n % 10)]
  }

  /** Different numbers print differently. */
  lemma {:induction false} NatToStringInjective(a: nat, b: nat)
    requires NatToString(a) == NatToString(b)
    ensures a == b
    decreases a
  {
    var s := NatToString(a);
    if a >= 10 && b >= 10 {
      assert s[|s| - 1] == Digit(a % 10) == Digit(b % 10);
      assert NatToString(a / 10) == s[..|s| - 1] == NatToString(b / 10);
      NatToStringInjective(a / 10, b / 10);
    }
  }

  /** In `x + "-" + u` with digit-only parts, the dash sits right after `x`. */
  lemma OnlyDash(x: string, u: string, i: nat)
    requires AllDigits(x) && AllDigits(u)
    requires i < |x + "-" + u| && (x + "-" + u)[i] == '-'
    ensures i == |x|
  {
    var s := x + "-" + u;
    assert i < |x| ==> s[i] == x[i];
    assert i > |x| ==> s[i] == u[i - |x| - 1];
    assert i != |x| ==> IsDigit(s[i]);
  }

  /**
   * Two strings `x + "-" + u` and `y + "-" + v` whose four parts are all
   * digits split at the same dash.
   */
  lemma DashSplitUnique(x: string, u: string, y: string, v: string)
    requires AllDigits(x) && AllDigits(u) && AllDigits(y) && AllDigits(v)
    requires x + "-" + u == y + "-" + v
    ensures x == y && u == v
  {
    var s := x + "-" + u;
    assert (y + "-" + v)[|y|] == '-';
    OnlyDash(x, u, |y|);
    assert x == s[..|x|] == y;
    assert u == s[|x| + 1..] == v;
  }

  /** The characters the regular-expression `.` does not match. */
  predicate IsLineTerminator(c: char) {
    c == '\n' || c == '\r' || c == '\U{2028}' || c == '\U{2029}'
  }

  predicate NoLineTerminator(s: string) {
    forall i :: 0 <= i < |s| ==> !IsLineTerminator(s[i])
  }
}
