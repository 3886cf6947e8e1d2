/** Decimal rendering of integers, as Java's string concatenation `"R" + row` performs it. */
module Text {

  predicate IsDigit(c: char) {
    '0' <= c <= '9'
  }

  predicate AllDigits(s: string) {
    forall i :: 0 <= i < |s| ==> IsDigit(s[i])
  }

  function DigitChar(d: nat): (c: char)
    requires d < 10
    ensures IsDigit(c) && c as int - '0' as int == d
  {
    (d + '0' as int) as char
  }

  /** The decimal digits of `n`, most significant first, without leading zeros. */
  function NatToString(n: nat): (s: string)
    ensures |s| > 0 && AllDigits(s)
    ensures s[0] == '0' ==> n == 0
    decreases n
  {
    if n < 10 then [DigitChar(n)] else NatToString(n / 10) + [DigitChar(n % 10)]
  }

  /** `Integer.toString`: a minus sign in front of the digits of a negative number. */
  function IntToString(n: int): (s: string)
    ensures n >= 0 ==> s == NatToString(n)
    ensures n < 0 ==> s == "-" + NatToString(-n)
  {
    if n < 0 then "-" + NatToString(-n) else NatToString(n)
  }

  /** The number a string of decimal digits denotes (the inverse of NatToString). */
  function DecimalValue(s: string): nat
    requires AllDigits(s)
  {
    if s == [] then 0 else DecimalValue(s[..|s| - 1]) * 10 + (s[|s| - 1] as int - '0' as int)
  }

  lemma {:induction false} DecimalRoundTrip(n: nat)
    ensures DecimalValue(NatToString(n)) == n
    decreases n
  {
    if n >= 10 {
      var s := NatToString(n);
      assert s[..|s| - 1] == NatToString(n / 10);
      DecimalRoundTrip(n / 10);
    }
  }

  lemma NatToStringInjective(a: nat, b: nat)
    requires NatToString(a) == NatToString(b)
    ensures a == b
  {
    DecimalRoundTrip(a);
    DecimalRoundTrip(b);
  }

  /** The length of the longest prefix of `s` made of decimal digits. */
  function DigitRun(s: string): (n: nat)
    ensures n <= |s|
  {
    if s != [] && IsDigit(s[0]) then 1 + DigitRun(s[1..]) else 0
  }

  lemma {:induction false} DigitRunOfJoined(digits: string, rest: string)
    requires AllDigits(digits)
    requires rest != [] && !IsDigit(rest[0])
    ensures DigitRun(digits + rest) == |digits|
  {
    if digits != [] {
      assert (digits + rest)[1..] == digits[1..] + rest;
      DigitRunOfJoined(digits[1..], rest);
    }
  }

  /** Equal strings with prefixes and suffixes of equal lengths have equal middles. */
  lemma SameFrameSameContent(p1: string, m1: string, q1: string, p2: string, m2: string, q2: string)
    requires |p1| == |p2| && |q1| == |q2|
    requires p1 + m1 + q1 == p2 + m2 + q2
    ensures m1 == m2
  {
    var w := p1 + m1 + q1;
    assert m1 == w[|p1|..|w| - |q1|];
    assert m2 == (p2 + m2 + q2)[|p2|..|w| - |q2|];
  }

  /**
   * Two digit strings joined by a separator that starts with a non-digit can be split
   * back apart: the rendering `a sep b` determines both numbers.
   */
  lemma {:induction false} JoinedNatsInjective(a: nat, b: nat, c: nat, d: nat, sep: string)
    requires |sep| > 0 && !IsDigit(sep[0])
    requires NatToString(a) + sep + NatToString(b) == NatToString(c) + sep + NatToString(d)
    ensures a == c && b == d
  {
    var sa, sb, sc, sd := NatToString(a), NatToString(b), NatToString(c), NatToString(d);
    var w := sa + sep + sb;
    assert w == sa + (sep + sb) && sc + sep + sd == sc + (sep + sd);
    DigitRunOfJoined(sa, sep + sb);
    DigitRunOfJoined(sc, sep + sd);
    assert sa == w[..|sa|] == sc;
    assert sb == w[|sa| + |sep|..] == sd;
    NatToStringInjective(a, c);
    NatToStringInjective(b, d);
  }
}
