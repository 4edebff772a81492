/** Decimal notation of integers: Python's str() and int() on plain ASCII decimals. */
module Decimal {
  predicate IsDigit(c: char) {
    '0' <= c <= '9'
  }

  predicate IsNumeral(s: string) {
    s != "" && forall i :: 0 <= i < |s| ==> IsDigit(s[i])
  }

  function Digit(n: nat): char
    requires n < 10
  {
    "0123456789"[n]
  }

  function DigitValue(c: char): nat
    requires IsDigit(c)
  {
    (c - '0') as nat
  }

  function PrintNat(n: nat): (s: string)
    ensures IsNumeral(s)
    ensures s[0] == '0' <==> n == 0
    ensures n == 0 ==> s == "0"
  {
    if n < 10 then [Digit(n)] else PrintNat(n / 10) + [Digit(n % 10)]
  }

  function ParseNat(s: string): nat
    requires IsNumeral(s)
  {
    var init, last := s[..|s| - 1], DigitValue(s[|s| - 1]);
    if init == "" then last else 10 * ParseNat(init) + last
  }

  function PrintInt(n: int): string {
    if n < 0 then "-" + PrintNat(-n) else PrintNat(n)
  }

  predicate IsSign(c: char) {
    c == '+' || c == '-'
  }

  predicate IsInteger(s: string) {
    s != "" && IsNumeral(if IsSign(s[0]) then s[1..] else s)
  }

  function ParseInt(s: string): int
    requires IsInteger(s)
  {
    if s[0] == '-' then 0 - ParseNat(s[1..]) else if s[0] == '+' then ParseNat(s[1..]) else ParseNat(s)
  }

  /** The decimals that str() prints: no plus sign, no needless leading zero, no minus zero. */
  predicate IsCanonical(s: string)
    requires IsInteger(s)
  {
    if s[0] == '-' then s[1] != '0' else s[0] != '+' && (s[0] == '0' ==> |s| == 1)
  }

  lemma DigitOfValue(c: char)
    requires IsDigit(c)
    ensures DigitValue(c) < 10 && Digit(DigitValue(c)) == c
  {
  }

  lemma ValueOfDigit(n: nat)
    requires n < 10
    ensures IsDigit(Digit(n)) && DigitValue(Digit(n)) == n
  {
  }

  lemma LastDigit(p: nat, d: nat)
    requires d < 10
    ensures (10 * p + d) / 10 == p && (10 * p + d) % 10 == d
  {
  }

  lemma ParseBoth(init: string, c: char)
    requires IsNumeral(init) && IsDigit(c)
    ensures IsNumeral(init + [c]) && ParseNat(init + [c]) == 10 * ParseNat(init) + DigitValue(c)
  {
    assert (init + [c])[..|init|] == init;
  }

  lemma {:induction false} ParsePrintNat(n: nat)
    ensures ParseNat(PrintNat(n)) == n
  {
    hide Digit, DigitValue;
    ValueOfDigit(n % 10);
    if n < 10 {
      assert PrintNat(n) == [Digit(n)];
    } else {
      ParsePrintNat(n / 10);
      ParseBoth(PrintNat(n / 10), Digit(n % 10));
    }
  }

  lemma {:induction false} PrintParseNat(s: string)
    requires IsNumeral(s)
    requires s[0] == '0' ==> |s| == 1
    ensures PrintNat(ParseNat(s)) == s
  {
    hide Digit, DigitValue;
    var init, c := s[..|s| - 1], s[|s| - 1];
    DigitOfValue(c);
    assert s == init + [c];
    if init != "" {
      PrintParseNat(init);
      assert init[0] != '0' && ParseNat(init) != 0;
      LastDigit(ParseNat(init), DigitValue(c));
    }
  }

  lemma ParsePrintInt(n: int)
    ensures IsInteger(PrintInt(n)) && IsCanonical(PrintInt(n))
    ensures ParseInt(PrintInt(n)) == n
  {
    hide PrintNat, ParseNat;
    if n < 0 {
      ParsePrintNat(-n);
      assert PrintInt(n)[1..] == PrintNat(-n);
    } else {
      ParsePrintNat(n);
      assert IsDigit(PrintNat(n)[0]);
      if PrintNat(n)[0] == '0' {
        assert n == 0;
      }
    }
  }

  /** Printing undoes parsing exactly on the canonical decimals. */
  lemma PrintParseInt(s: string)
    requires IsInteger(s)
    ensures PrintInt(ParseInt(s)) == s <==> IsCanonical(s)
  {
    if IsCanonical(s) {
      if s[0] == '-' {
        PrintParseNat(s[1..]);
        assert ParseNat(s[1..]) != 0;
        assert s == "-" + s[1..];
      } else {
        PrintParseNat(s);
      }
    } else {
      ParsePrintInt(ParseInt(s));
    }
  }

  lemma PrintIntInjective(m: int, n: int)
    ensures PrintInt(m) == PrintInt(n) <==> m == n
  {
    ParsePrintInt(m);
    ParsePrintInt(n);
  }
}
