/** Decimal printing and scanning of natural numbers, as `%d` does both ways. */
module Decimal {

  predicate IsDigit(c: char) {
    '0' <= c <= '9'
  }

  predicate AllDigits(s: string) {
    forall i :: 0 <= i < |s| ==> IsDigit(s[i])
  }

  function DigitChar(d: nat): (c: char)
    requires d < 10
    ensures IsDigit(c)
  {
    '0' + d as char
  }

  function DigitValue(c: char): (d: nat)
    requires IsDigit(c)
    ensures d < 10 && DigitChar(d) == c
  {
    (c - '0') as nat
  }

  /** The decimal digits of n, most significant first. */
  function Print(n: nat): (s: string)
    ensures |s| > 0 && AllDigits(s)
  {
    if n < 10 then [DigitChar(n)] else Print(n / 10) + [DigitChar(n % 10)]
  }

  /** The number a string of digits stands for. */
  function Value(s: string): nat
    requires AllDigits(s)
  {
    if s == [] then 0 else 10 * Value(s[..|s| - 1]) + DigitValue(s[|s| - 1])
  }

  lemma {:induction false} ValueOfPrint(n: nat)
    ensures Value(Print(n)) == n
  {
    if n < 10 {
      assert Print(n)[..0] == [];
    } else {
      var head, last := Print(n / 10), DigitChar(n % 10);
      assert Print(n)[..|Print(n)| - 1] == head;
      assert DigitValue(last) == n % 10;
      ValueOfPrint(n / 10);
    }
  }

  lemma PrintInjective(m: nat, n: nat)
    requires Print(m) == Print(n)
    ensures m == n
  {
    ValueOfPrint(m);
    ValueOfPrint(n);
  }

  lemma PrintLength(n: nat)
    ensures n < 10 ==> |Print(n)| == 1
    ensures 10 <= n < 100 ==> |Print(n)| == 2
    ensures 100 <= n < 1000 ==> |Print(n)| == 3
    ensures 1000 <= n ==> |Print(n)| >= 4
  {
    if n >= 1000 {
      assert |Print(n)| == |Print(n / 10)| + 1;
      assert |Print(n / 10)| == |Print(n / 10 / 10)| + 1;
      assert |Print(n / 10 / 10)| == |Print(n / 10 / 10 / 10)| + 1;
    } else if n >= 100 {
      assert |Print(n)| == |Print(n / 10)| + 1;
      assert |Print(n / 10)| == |Print(n / 10 / 10)| + 1;
    }
  }

  /** Length of the longest prefix of s that consists of digits. */
  function DigitRun(s: string): (n: nat)
    ensures n <= |s| && AllDigits(s[..n])
    ensures n < |s| ==> !IsDigit(s[n])
  {
    if s == [] || !IsDigit(s[0]) then 0
    else
      var n := 1 + DigitRun(s[1..]);
      assert s[..n] == [s[0]] + s[1..][..n - 1];
      n
  }

  lemma {:induction false} DigitRunOfDigits(s: string)
    requires AllDigits(s)
    ensures DigitRun(s) == |s|
  {
    if s != [] {
      DigitRunOfDigits(s[1..]);
    }
  }

  /** Scanning `%d`: an optional sign, then the longest run of digits; nothing without a digit. */
  function ScanInt(s: string): int {
    var signed := s != [] && (s[0] == '-' || s[0] == '+');
    var rest := if signed then s[1..] else s;
    var n := DigitRun(rest);
    if n == 0 then 0
    else if signed && s[0] == '-' then 0 - (Value(rest[..n]) as int)
    else Value(rest[..n])
  }

  lemma ScanPrinted(n: nat)
    ensures ScanInt(Print(n)) == n
  {
    DigitRunOfDigits(Print(n));
    assert IsDigit(Print(n)[0]);
    assert Print(n)[..|Print(n)|] == Print(n);
    ValueOfPrint(n);
  }

}
