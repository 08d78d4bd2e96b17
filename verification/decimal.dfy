/** Decimal text of integers, as Python's `str(n)` writes it and `int(s)`
    reads it back for a string of ASCII digits. */
module Decimal {

  /** An ASCII decimal digit. */
  predicate IsDigit(ch: char) {
    '0' <= ch <= '9'
  }

  predicate AllDigits(s: string) {
    forall i :: 0 <= i < |s| ==> IsDigit(s[i])
  }

  function DigitValue(ch: char): nat
    requires IsDigit(ch)
  {
    ch as int - '0' as int
  }

  function DigitChar(d: nat): (ch: char)
    requires d < 10
    ensures IsDigit(ch) && DigitValue(ch) == d
  {
    ('0' as int + d) as char
  }

  /** A digit string in the form `str` produces: no leading zero unless the
      whole string is "0". */
  predicate Canonical(s: string) {
    |s| > 0 && AllDigits(s) && (s[0] == '0' ==> |s| == 1)
  }

  /** `str(n)` for a non-negative integer. */
  function NatStr(n: nat): (s: string)
    ensures Canonical(s)
    ensures s == "0" <==> n == 0
    decreases n
  {
    if n < 10 then [DigitChar(n)] else NatStr(n / 10) + [DigitChar(n % 10)]
  }

  /** `str(n)` for any integer: a minus sign, then the digits of `-n`. */
  function IntStr(n: int): (s: string)
    ensures 0 <= n ==> Canonical(s)
    ensures n < 0 ==> |s| > 1 && s[0] == '-' && Canonical(s[1..])
  {
    if n < 0 then "-" + NatStr(-n) else NatStr(n)
  }

  /** `int(s)` for a string of ASCII digits (leading zeros allowed). */
  function Value(s: string): (n: nat)
    requires AllDigits(s)
    decreases |s|
  {
    if s == [] then 0 else Value(s[..|s| - 1]) * 10 + DigitValue(s[|s| - 1])
  }

  /** Leading zeros dropped, keeping at least one digit. */
  function StripLeadingZeros(s: string): (r: string)
    requires AllDigits(s)
    ensures Canonical(r) <== |s| > 0
    ensures |r| <= |s| && r == s[|s| - |r|..]
    decreases |s|
  {
    if |s| > 1 && s[0] == '0' then StripLeadingZeros(s[1..]) else s
  }

  /** `int(str(n)) == n`. */
  lemma {:induction false} ValueOfNatStr(n: nat)
    ensures Value(NatStr(n)) == n
    decreases n
  {
    if n >= 10 {
      var s := NatStr(n);
      assert s[..|s| - 1] == NatStr(n / 10);
      ValueOfNatStr(n / 10);
    }
  }

  /** A digit string that does not start with '0' has a positive value. */
  lemma {:induction false} ValuePositive(s: string)
    requires AllDigits(s) && |s| > 0 && s[0] != '0'
    ensures Value(s) > 0
    decreases |s|
  {
    if |s| > 1 {
      ValuePositive(s[..|s| - 1]);
    }
  }

  /** `str(int(s)) == s` for a canonical digit string. */
  lemma {:induction false} NatStrOfValue(s: string)
    requires Canonical(s)
    ensures NatStr(Value(s)) == s
    decreases |s|
  {
    if |s| > 1 {
      var t := s[..|s| - 1];
      ValuePositive(t);
      NatStrOfValue(t);
      assert s == t + [s[|s| - 1]];
    }
  }

  /** A leading zero does not change the value. */
  lemma {:induction false} ValueLeadingZero(t: string)
    requires AllDigits(t)
    ensures Value("0" + t) == Value(t)
    decreases |t|
  {
    if t != [] {
      var u := "0" + t;
      assert u[..|u| - 1] == "0" + t[..|t| - 1];
      ValueLeadingZero(t[..|t| - 1]);
    }
  }

  /** `str(int(s))` is `s` without its leading zeros: the text `int` loses. */
  lemma {:induction false} NatStrOfValueStrips(s: string)
    requires AllDigits(s) && |s| > 0
    ensures NatStr(Value(s)) == StripLeadingZeros(s)
    decreases |s|
  {
    if |s| > 1 && s[0] == '0' {
      assert s == "0" + s[1..];
      ValueLeadingZero(s[1..]);
      NatStrOfValueStrips(s[1..]);
    } else {
      NatStrOfValue(s);
    }
  }

  /** The decimal text of `n` has exactly three digits iff `n` is in 100..999. */
  lemma NatStrThreeDigits(n: nat)
    ensures |NatStr(n)| == 3 <==> 100 <= n <= 999
  {
    if n >= 10 {
      var m := n / 10;
      assert |NatStr(n)| == |NatStr(m)| + 1;
      if m >= 10 {
        assert |NatStr(m)| == |NatStr(m / 10)| + 1;
        if m / 10 >= 10 {
          assert |NatStr(m / 10)| == |NatStr(m / 100)| + 1;
        }
      }
    }
  }

  /** The three digits of a number in 100..999, most significant first. */
  lemma NatStrHundreds(n: nat)
    requires 100 <= n <= 999
    ensures NatStr(n) == [DigitChar(n / 100), DigitChar(n / 10 % 10), DigitChar(n % 10)]
  {
    assert NatStr(n) == NatStr(n / 10) + [DigitChar(n % 10)];
    assert NatStr(n / 10) == NatStr(n / 100) + [DigitChar(n / 10 % 10)];
    assert n / 10 / 10 == n / 100;
  }
}
