/**
 * The JavaScript string operations the modelled code relies on: decimal
 * rendering of integers (`toString`), `padStart(2, '0')`, `startsWith` and
 * `indexOf`, each with the inverse or characterisation that pins it down.
 */
module Text {

  predicate IsDigit(c: char) {
    '0' <= c <= '9'
  }

  predicate AllDigits(s: string) {
    forall i :: 0 <= i < |s| ==> IsDigit(s[i])
  }

  function DigitChar(d: nat): (c: char)
    requires d < 10
    ensures IsDigit(c) && c as int - '0' as int == d
  {
    ('0' as int + d) as char
  }

  function DigitValue(c: char): nat
    requires IsDigit(c)
  {
    c as int - '0' as int
  }

  /** Decimal digits of `n` without leading zeros (`n.toString()`). */
  function NatToString(n: nat): (s: string)
    ensures 1 <= |s| && AllDigits(s)
    ensures |s| == 1 <==> n < 10
    ensures n < 100 ==> |s| <= 2
  {
    if n < 10 then [DigitChar(n)] else NatToString(n / 10) + [DigitChar(n % 10)]
  }

  /** Reads a run of decimal digits back as a number. */
  function ParseNat(s: string): nat
    requires AllDigits(s)
  {
    if s == [] then 0 else ParseNat(s[..|s| - 1]) * 10 + DigitValue(s[|s| - 1])
  }

  /** Parsing undoes rendering. */
  lemma {:induction false} ParseNatToString(n: nat)
    ensures ParseNat(NatToString(n)) == n
  {
    if n >= 10 {
      var s := NatToString(n / 10);
      ParseNatToString(n / 10);
      var t := s + [DigitChar(n % 10)];
      assert t[..|t| - 1] == s;
    }
  }

  /** Rendering is injective: distinct numbers print differently. */
  lemma NatToStringInjective(a: nat, b: nat)
    requires NatToString(a) == NatToString(b)
    ensures a == b
  {
    ParseNatToString(a);
    ParseNatToString(b);
  }

  /** A leading zero does not change the value read. */
  lemma {:induction false} ParseNatLeadingZero(s: string)
    requires AllDigits(s)
    ensures AllDigits("0" + s) && ParseNat("0" + s) == ParseNat(s)
  {
    if s != [] {
      var t := "0" + s;
      assert t[..|t| - 1] == "0" + s[..|s| - 1];
      ParseNatLeadingZero(s[..|s| - 1]);
    }
  }

  /** `i.toString()` for any integer. */
  function IntToString(i: int): (s: string)
    ensures 0 <= i ==> s == NatToString(i)
    ensures i < 0 ==> s == "-" + NatToString(-i)
  {
    if i < 0 then "-" + NatToString(-i) else NatToString(i)
  }

  /** Neither rendering contains the letter `x` (used to split `WxH` keys). */
  lemma IntToStringHasNoX(i: int)
    ensures forall j :: 0 <= j < |IntToString(i)| ==> IntToString(i)[j] != 'x'
  {
  }

  lemma IntToStringInjective(a: int, b: int)
    requires IntToString(a) == IntToString(b)
    ensures a == b
  {
    var s := IntToString(a);
    assert (a < 0 <==> s[0] == '-') && (b < 0 <==> s[0] == '-');
    if a < 0 {
      assert NatToString(-a) == s[1..] == NatToString(-b);
      NatToStringInjective(-a, -b);
    } else {
      NatToStringInjective(a, b);
    }
  }

  /** `i.toString().padStart(2, '0')`. */
  function PadTwo(i: int): string {
    var t := IntToString(i);
    if |t| < 2 then "0" + t else t
  }

  /** Two digits that read back as the number, for every value below 100. */
  lemma PadTwoRoundTrip(n: int)
    requires 0 <= n < 100
    ensures |PadTwo(n)| == 2 && AllDigits(PadTwo(n)) && ParseNat(PadTwo(n)) == n
  {
    ParseNatToString(n);
    if n < 10 {
      ParseNatLeadingZero(NatToString(n));
    }
  }

  /** `s.startsWith(p)`. */
  predicate StartsWith(s: string, p: string) {
    |p| <= |s| && s[..|p|] == p
  }

  predicate OccursAt(s: string, p: string, j: int) {
    0 <= j && j + |p| <= |s| && s[j..j + |p|] == p
  }

  function IndexOfFrom(s: string, p: string, from: nat): (r: int)
    requires from <= |s| + 1
    ensures r == -1 || (from <= r && OccursAt(s, p, r))
    ensures r != -1 ==> forall j :: from <= j < r ==> !OccursAt(s, p, j)
    ensures r == -1 ==> forall j :: from <= j ==> !OccursAt(s, p, j)
    decreases |s| + 1 - from
  {
    if from + |p| > |s| then -1
    else if s[from..from + |p|] == p then from
    else IndexOfFrom(s, p, from + 1)
  }

  /** `s.indexOf(p)`: the first position where `p` occurs in `s`, or -1. */
  function IndexOf(s: string, p: string): (r: int)
    ensures r == -1 || OccursAt(s, p, r)
    ensures r != -1 ==> forall j :: 0 <= j < r ==> !OccursAt(s, p, j)
    ensures r == -1 <==> forall j :: !OccursAt(s, p, j)
  {
    IndexOfFrom(s, p, 0)
  }

  /** `s.indexOf(p) > -1`. */
  predicate Contains(s: string, p: string) {
    IndexOf(s, p) > -1
  }
}
