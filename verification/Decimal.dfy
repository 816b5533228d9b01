/** Decimal integers as `strconv` writes and reads them. */
module Decimal {
  import opened Basics

  function Digit(n: nat): char
    requires n < 10
  {
    ('0' as int + n) as char
  }

  function Digits(n: nat): (s: string)
    ensures s != "" && forall i :: 0 <= i < |s| ==> '0' <= s[i] <= '9'
    ensures n > 0 ==> s[0] != '0'
  {
    if n < 10 then [Digit(n)] else Digits(n / 10) + [Digit(n % 10)]
  }

  function FormatInt(i: int): string {
    if i < 0 then "-" + Digits(-i) else Digits(i)
  }

  function Value(s: string): nat
    requires forall i :: 0 <= i < |s| ==> '0' <= s[i] <= '9'
  {
    if s == "" then 0 else Value(s[..|s| - 1]) * 10 + (s[|s| - 1] as int - '0' as int)
  }

  const MaxInt64: int := 0x7FFF_FFFF_FFFF_FFFF

  predicate AllDigits(s: string) { s != "" && forall i :: 0 <= i < |s| ==> '0' <= s[i] <= '9' }

  /** Base ten, 64 bits: an optional sign, digits, and the range check. */
  function ParseInt(s: string): Option<int> {
    var neg := s != "" && s[0] == '-';
    var t := if s != "" && (s[0] == '-' || s[0] == '+') then s[1..] else s;
    if !AllDigits(t) then None
    else
      var v: int := if neg then 0 - Value(t) else Value(t);
      if -MaxInt64 - 1 <= v <= MaxInt64 then Some(v) else None
  }

  lemma {:induction false} ValueDigits(n: nat)
    ensures Value(Digits(n)) == n
  {
    var s := Digits(n);
    if n < 10 {
      assert s[..|s| - 1] == "";
    } else {
      assert s[..|s| - 1] == Digits(n / 10) && s[|s| - 1] == Digit(n % 10);
      ValueDigits(n / 10);
    }
  }

  lemma ParseDigits(t: string, v: int)
    requires AllDigits(t) && Value(t) == v
    ensures v <= MaxInt64 ==> ParseInt(t) == Some(v)
    ensures v <= MaxInt64 + 1 ==> ParseInt("-" + t) == Some(-v)
  {
    assert ("-" + t)[1..] == t;
  }

  /** Reading back what was written gives the number, for every 64-bit integer. */
  lemma ParseFormat(i: int)
    requires -MaxInt64 - 1 <= i <= MaxInt64
    ensures ParseInt(FormatInt(i)) == Some(i)
  {
    var n := if i < 0 then -i else i;
    ValueDigits(n);
    ParseDigits(Digits(n), n);
  }

  lemma Samples()
    ensures FormatInt(10) == "10" && FormatInt(11) == "11" && FormatInt(-1) == "-1"
  {
    TwoDigits(1, 0);
    TwoDigits(1, 1);
    assert Digits(1) == "1";
    assert [Digit(1), Digit(0)] == "10" && [Digit(1), Digit(1)] == "11";
  }

  lemma TwoDigits(a: nat, b: nat)
    requires 1 <= a < 10 && b < 10
    ensures Digits(10 * a + b) == [Digit(a), Digit(b)]
  {
    assert (10 * a + b) / 10 == a && (10 * a + b) % 10 == b;
    assert Digits(a) == [Digit(a)];
  }
}
