/** Whole numbers written in decimal, and read back. */
module Decimal {
  import opened Options
  import opened Strings

  function DigitChar(d: nat): char
    requires d < 10
  {
    '0' + d as char
  }

  function DigitValue(c: char): nat
    requires IsDigit(c)
  {
    (c - '0') as nat
  }

  function NatText(n: nat): (s: string)
    ensures s != "" && forall i :: 0 <= i < |s| ==> IsDigit(s[i])
  {
    if n < 10 then [DigitChar(n)] else NatText(n / 10) + [DigitChar(n % 10)]
  }

  function IntText(n: int): string {
    if n < 0 then "-" + NatText(-n) else NatText(n)
  }

  predicate AllDigits(s: string) {
    forall i :: 0 <= i < |s| ==> IsDigit(s[i])
  }

  function NatValue(s: string): nat
    requires AllDigits(s)
  {
    if s == "" then 0 else 10 * NatValue(s[..|s| - 1]) + DigitValue(s[|s| - 1])
  }

  function ParseNat(s: string): Option<nat> {
    if s != "" && AllDigits(s) then Some(NatValue(s)) else None
  }

  function ParseInt(s: string): Option<int> {
    if s != "" && s[0] == '-' then
      match ParseNat(s[1..])
      case None => None
      case Some(n) => var m := n as int; Some(0 - m)
    else if s != "" && s[0] == '+' then
      match ParseNat(s[1..])
      case None => None
      case Some(n) => var m: int := n; Some(m)
    else
      match ParseNat(s)
      case None => None
      case Some(n) => var m: int := n; Some(m)
  }

  lemma {:induction false} NatRoundTrip(n: nat)
    ensures AllDigits(NatText(n)) && NatValue(NatText(n)) == n
  {
    if n >= 10 {
      NatRoundTrip(n / 10);
      var s := NatText(n);
      assert s[..|s| - 1] == NatText(n / 10);
    } else {
      assert NatText(n)[..0] == "";
    }
  }

  lemma ParseNatText(n: nat)
    ensures ParseNat(NatText(n)) == Some(n)
  {
    NatRoundTrip(n);
  }

  /** A number written is the number read back. */
  lemma ParseIntText(n: int)
    ensures ParseInt(IntText(n)) == Some(n)
  {
    if n < 0 {
      ParseNatText(-n);
      assert IntText(n)[1..] == NatText(-n);
    } else {
      ParseNatText(n);
    }
  }

  /** A leading zero counts for nothing. */
  lemma {:induction false} LeadingZero(s: string)
    requires AllDigits(s)
    ensures AllDigits("0" + s) && NatValue("0" + s) == NatValue(s)
  {
    var all := "0" + s;
    if s == "" {
      assert all[..|all| - 1] == "";
    } else {
      assert all[..|all| - 1] == "0" + s[..|s| - 1];
      LeadingZero(s[..|s| - 1]);
    }
  }

  lemma MinusIs(s: string)
    ensures ParseInt("-" + s) == (if s != "" && AllDigits(s) then Some(0 - NatValue(s)) else None)
  {
    hide NatValue, AllDigits;
    assert ("-" + s)[1..] == s;
  }

  lemma PlusIs(s: string)
    ensures ParseInt("+" + s) == (if s != "" && AllDigits(s) then Some(NatValue(s) as int) else None)
  {
    hide NatValue, AllDigits;
    assert ("+" + s)[1..] == s;
  }

  lemma UnsignedIs(s: string)
    requires s == "" || (s[0] != '-' && s[0] != '+')
    ensures ParseInt(s) == (if s != "" && AllDigits(s) then Some(NatValue(s) as int) else None)
  {
    hide NatValue, AllDigits;
  }

  /** A number may carry one sign, and is nothing else but digits. */
  lemma SignedIs(s: string)
    requires AllDigits(s) && s != ""
    ensures ParseInt("-" + s) == Some(0 - NatValue(s)) && ParseInt("+" + s) == Some(NatValue(s) as int) && ParseInt(s) == Some(NatValue(s) as int)
  {
    hide NatValue, ParseInt;
    MinusIs(s);
    PlusIs(s);
    UnsignedIs(s);
  }
}
