/** The two Java string operations the closure naming relies on. */
module Strings {

  predicate IsDigit(c: char) {
    '0' <= c <= '9'
  }

  /** `String.lastIndexOf(char)`: the greatest index holding `c`, or -1. */
  function LastIndexOf(s: string, c: char): (r: int)
    ensures -1 <= r < |s|
    ensures r >= 0 ==> s[r] == c
    ensures forall j :: r < j < |s| ==> s[j] != c
  {
    if |s| == 0 then -1
    else if s[|s| - 1] == c then |s| - 1
    else LastIndexOf(s[..|s| - 1], c)
  }

  function DigitChar(d: nat): (c: char)
    requires d < 10
    ensures IsDigit(c)
  {
    (d + '0' as int) as char
  }

  /** Decimal rendering of a natural number, as `"" + n` gives it in Java. */
  function DecimalString(n: nat): (r: string)
    ensures |r| >= 1
    ensures |r| == 1 <==> n < 10
    ensures forall i :: 0 <= i < |r| ==> IsDigit(r[i])
  {
    if n < 10 then [DigitChar(n)] else DecimalString(n / 10) + [DigitChar(n % 10)]
  }

  /** Different numbers have different renderings. */
  lemma {:induction false} DecimalStringInjective(a: nat, b: nat)
    requires DecimalString(a) == DecimalString(b)
    ensures a == b
  {
    if a >= 10 && b >= 10 {
      var sa, sb := DecimalString(a), DecimalString(b);
      assert sa[|sa| - 1] == DigitChar(a % 10) && sb[|sb| - 1] == DigitChar(b % 10);
      assert a % 10 == b % 10;
      assert sa[..|sa| - 1] == DecimalString(a / 10);
      assert sb[..|sb| - 1] == DecimalString(b / 10);
      DecimalStringInjective(a / 10, b / 10);
    } else if a < 10 && b < 10 {
      assert DecimalString(a)[0] == DigitChar(a);
    }
  }

  /** A string ending in a non-digit followed by the rendering of `n` determines `n`. */
  lemma TrailingNumberDetermined(x1: string, x2: string, n1: nat, n2: nat)
    requires |x1| > 0 && |x2| > 0 && !IsDigit(x1[|x1| - 1]) && !IsDigit(x2[|x2| - 1])
    requires x1 + DecimalString(n1) == x2 + DecimalString(n2)
    ensures n1 == n2
  {
    var d1, d2 := DecimalString(n1), DecimalString(n2);
    var w := x1 + d1;
    var len := |w|;
    assert w == x2 + d2;
    // the last non-digit of w closes both renderings, so they have one length
    assert !IsDigit(w[len - |d1| - 1]) && !IsDigit(w[len - |d2| - 1]);
    assert forall j :: len - |d1| <= j < len ==> IsDigit(w[j]);
    assert forall j :: len - |d2| <= j < len ==> IsDigit(w[j]);
    assert d1 == w[len - |d1|..] == d2;
    DecimalStringInjective(n1, n2);
  }
}
