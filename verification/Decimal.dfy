/** Decimal integers, as fmt prints and scans them. */
module Decimal {
  import opened Prelude

  predicate IsDigit(c: char) {
    '0' <= c <= '9'
  }

  function DigitChar(d: nat): (c: char)
    requires d < 10
    ensures IsDigit(c)
  {
    ['0', '1', '2', '3', '4', '5', '6', '7', '8', '9'][d]
  }

  function DigitValue(c: char): (d: nat)
    requires IsDigit(c)
    ensures d < 10
  {
    (c as int) - ('0' as int)
  }

  /** `%d` of a non-negative number. */
  function Print(n: nat): (s: string)
    ensures s != [] && forall i | 0 <= i < |s| :: IsDigit(s[i])
  {
    if n < 10 then [DigitChar(n)] else Print(n / 10) + [DigitChar(n % 10)]
  }

  function LeadingDigits(s: string): (r: string)
    ensures r <= s && forall i | 0 <= i < |r| :: IsDigit(r[i])
  {
    if s == [] || !IsDigit(s[0]) then [] else [s[0]] + LeadingDigits(s[1..])
  }

  function Value(digits: string): nat
    requires forall i | 0 <= i < |digits| :: IsDigit(digits[i])
  {
    if digits == [] then 0 else Value(digits[..|digits| - 1]) * 10 + DigitValue(digits[|digits| - 1])
  }

  function SkipBlanks(s: string): string {
    if s != [] && s[0] == ' ' then SkipBlanks(s[1..]) else s
  }

  /** `Sscanf(s, "%d", &n)`: None when nothing is scanned and n keeps its value. */
  function Scan(s: string): Option<int> {
    var t := SkipBlanks(s);
    if t != [] && t[0] == '-' then
      (var d := LeadingDigits(t[1..]); if d == [] then None else Some(0 - Value(d) as int))
    else
      var d := LeadingDigits(if t != [] && t[0] == '+' then t[1..] else t);
      if d == [] then None else Some(Value(d))
  }

  lemma {:induction false} AllLeadingDigits(s: string)
    requires forall i | 0 <= i < |s| :: IsDigit(s[i])
    ensures LeadingDigits(s) == s
  {
    if s != [] {
      AllLeadingDigits(s[1..]);
    }
  }

  lemma DigitRoundTrip(d: nat)
    requires d < 10
    ensures DigitValue(DigitChar(d)) == d
  {
  }

  lemma {:induction false} PrintValue(n: nat)
    ensures Value(Print(n)) == n
  {
    if n < 10 {
      DigitRoundTrip(n);
      assert Print(n)[..0] == [];
    } else {
      PrintValue(n / 10);
      DigitRoundTrip(n % 10);
      var s := Print(n / 10);
      assert (s + [DigitChar(n % 10)])[..|s|] == s;
    }
  }

  /** Scanning what was printed gives the number back. */
  lemma ScanPrint(n: nat)
    ensures Scan(Print(n)) == Some(n)
  {
    AllLeadingDigits(Print(n));
    PrintValue(n);
    assert IsDigit(Print(n)[0]);
  }

  lemma {:induction false} LeadingDigitsStop(digits: string, rest: string)
    requires forall i | 0 <= i < |digits| :: IsDigit(digits[i])
    requires rest == [] || !IsDigit(rest[0])
    ensures LeadingDigits(digits + rest) == digits
  {
    if digits == [] {
      assert digits + rest == rest;
    } else {
      assert (digits + rest)[1..] == digits[1..] + rest;
      LeadingDigitsStop(digits[1..], rest);
    }
  }

  /** Scanning stops where the digits do. */
  lemma ScanStops(n: nat, rest: string)
    requires rest == [] || !IsDigit(rest[0])
    ensures Scan(Print(n) + rest) == Some(n)
  {
    var s := Print(n) + rest;
    LeadingDigitsStop(Print(n), rest);
    PrintValue(n);
    assert IsDigit(s[0]);
  }

  lemma ScanMinus(t: string, d: string)
    requires d == LeadingDigits(t) && d != []
    ensures Scan("-" + t) == Some(0 - Value(d) as int)
  {
    assert SkipBlanks("-" + t) == "-" + t;
    assert ("-" + t)[1..] == t;
  }

  lemma ScanPlus(t: string, d: string)
    requires d == LeadingDigits(t) && d != []
    ensures Scan("+" + t) == Some(Value(d))
  {
    assert SkipBlanks("+" + t) == "+" + t;
    assert ("+" + t)[1..] == t;
  }

  /** A sign in front is read. */
  lemma ScanSignedDigits(d: string, rest: string)
    requires d != [] && forall i | 0 <= i < |d| :: IsDigit(d[i])
    requires rest == [] || !IsDigit(rest[0])
    ensures Scan("-" + (d + rest)) == Some(0 - Value(d) as int) && Scan("+" + (d + rest)) == Some(Value(d))
  {
    LeadingDigitsStop(d, rest);
    ScanMinus(d + rest, d);
    ScanPlus(d + rest, d);
  }
}
