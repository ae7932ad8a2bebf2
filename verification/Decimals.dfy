/** Decimal integers, printed and read back. */
module Decimals {
  import opened GoStrings

  predicate Int64(n: int) { -0x8000_0000_0000_0000 <= n < 0x8000_0000_0000_0000 }

  function FormatNat(n: nat): string {
    var digit := [('0' + (n % 10) as char)];
    if n < 10 then digit else FormatNat(n / 10) + digit
  }

  function FormatInt(n: int): string {
    if n < 0 then "-" + FormatNat(-n) else FormatNat(n)
  }

  predicate IsDigit(c: char) { '0' <= c <= '9' }

  predicate AllDigits(s: string) { forall i :: 0 <= i < |s| ==> IsDigit(s[i]) }

  function NatOf(s: string): nat
    requires AllDigits(s)
  {
    if s == "" then 0 else NatOf(s[..|s| - 1]) * 10 + (s[|s| - 1] - '0') as int
  }

  function ParseInt64(s: string): Option<int> {
    var signed := s != "" && (s[0] == '-' || s[0] == '+');
    var digits := if signed then s[1..] else s;
    if digits == "" || !AllDigits(digits) then None
    else
      var v: int := NatOf(digits);
      var n := if signed && s[0] == '-' then -v else v;
      if Int64(n) then Some(n) else None
  }

  lemma {:induction false} FormatNatDigits(n: nat)
    ensures FormatNat(n) != "" && AllDigits(FormatNat(n)) && NatOf(FormatNat(n)) == n
  {
    var digit := [('0' + (n % 10) as char)];
    if n >= 10 {
      FormatNatDigits(n / 10);
      assert FormatNat(n)[..|FormatNat(n)| - 1] == FormatNat(n / 10);
    } else {
      assert NatOf("") == 0;
      assert digit[..0] == "";
    }
  }

  lemma DigitsRead(digits: string)
    requires digits != "" && AllDigits(digits)
    ensures ParseInt64(digits) == if Int64(NatOf(digits)) then Some(NatOf(digits)) else None
  {
    assert IsDigit(digits[0]);
  }

  lemma DigitsAreBytes(digits: string)
    requires AllDigits(digits)
    ensures '|' !in digits && IsBytes(digits) && '|' !in "-" + digits && IsBytes("-" + digits)
  {
  }

  /** Reading a printed integer gives it back exactly when it fits in 64 bits. */
  lemma ParseFormat(n: int)
    ensures ParseInt64(FormatInt(n)) ==
      if -9_223_372_036_854_775_808 <= n <= 9_223_372_036_854_775_807 then Some(n) else None
    ensures '|' !in FormatInt(n) && IsBytes(FormatInt(n)) && (AllDigits(FormatInt(n)) <==> n >= 0)
  {
    var magnitude: nat := if n < 0 then -n else n;
    FormatNatDigits(magnitude);
    DigitsAreBytes(FormatNat(magnitude));
    if n < 0 {
      SignsRead(FormatNat(magnitude));
    } else {
      DigitsRead(FormatNat(magnitude));
    }
  }

  /** A sign may stand in front of any digits, and only there; a plus changes nothing. */
  lemma SignsRead(digits: string)
    requires digits != "" && AllDigits(digits)
    ensures ParseInt64("+" + digits) == ParseInt64(digits)
    ensures ParseInt64("-" + digits) == if Int64(0 - NatOf(digits)) then Some(0 - NatOf(digits)) else None
    ensures ParseInt64("+") == None && ParseInt64("-") == None && ParseInt64("") == None
  {
    assert ("+" + digits)[1..] == digits && ("-" + digits)[1..] == digits;
    assert IsDigit(digits[0]);
  }
}
