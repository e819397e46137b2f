/** Decimal integers as `fmt` prints them with %d and `strconv.Atoi` reads them. */
module Decimal {
  import opened Wrappers

  const MAX_INT: int := 0x7fff_ffff_ffff_ffff
  const MIN_INT: int := -0x8000_0000_0000_0000

  predicate IsDigit(c: char) {
    '0' <= c <= '9'
  }

  ghost predicate AllDigits(s: string) {
    forall i :: 0 <= i < |s| ==> IsDigit(s[i])
  }

  function Digit(n: nat): char
    requires n < 10
  {
    ('0' as int + n) as char
  }

  function NatToString(n: nat): (s: string)
    ensures s != "" && AllDigits(s)
    ensures s[0] == '0' ==> n == 0
  {
    if n < 10 then [Digit(n)] else NatToString(n / 10) + [Digit(n % 10)]
  }

  function IntToString(n: int): string {
    if n < 0 then "-" + NatToString(-n) else NatToString(n)
  }

  function ParseNat(s: string): Option<nat> {
    if s == "" then Some(0)
    else if !IsDigit(s[|s| - 1]) then None
    else
      match ParseNat(s[..|s| - 1])
      case None => None
      case Some(n) => Some(10 * n + (s[|s| - 1] as int - '0' as int))
  }

  /** `strconv.Atoi` on a 64-bit platform: an optional sign, at least one digit,
      nothing else, and a value that fits. */
  function Atoi(s: string): Option<int> {
    var negative := s != "" && s[0] == '-';
    var digits := if s != "" && (s[0] == '-' || s[0] == '+') then s[1..] else s;
    if digits == "" then None
    else
      match ParseNat(digits)
      case None => None
      case Some(n) =>
        var v: int := if negative then -(n as int) else n as int;
        if MIN_INT <= v <= MAX_INT then Some(v) else None
  }

  lemma {:induction false} ParseNatToString(n: nat)
    ensures ParseNat(NatToString(n)) == Some(n)
  {
    var s := NatToString(n);
    if n < 10 {
      assert s[..|s| - 1] == "";
    } else {
      ParseNatToString(n / 10);
      assert s[..|s| - 1] == NatToString(n / 10);
    }
  }

  lemma NatToStringInjective(m: nat, n: nat)
    requires NatToString(m) == NatToString(n)
    ensures m == n
  {
    ParseNatToString(m);
    ParseNatToString(n);
  }

  lemma NatFirst(n: nat)
    ensures NatToString(n)[0] != '-' && NatToString(n)[0] != '+'
  {
    assert IsDigit(NatToString(n)[0]);
  }

  lemma AtoiUnsigned(s: string, n: nat)
    requires s != "" && s[0] != '-' && s[0] != '+' && ParseNat(s) == Some(n) && n <= MAX_INT
    ensures Atoi(s) == Some(n)
  {
  }

  lemma AtoiNegative(s: string, n: nat)
    requires s != "" && ParseNat(s) == Some(n) && MIN_INT <= -(n as int)
    ensures Atoi("-" + s) == Some(-(n as int))
  {
    assert ("-" + s)[1..] == s;
  }

  /** Printing an integer and reading it back is the identity; zero is printed as one
      digit, other numbers without leading zeros, and a sign is for negative ones. */
  lemma AtoiOfIntToString(n: int)
    requires MIN_INT <= n <= MAX_INT
    ensures Atoi(IntToString(n)) == Some(n)
    ensures IntToString(n) == "0" <==> n == 0
    ensures n != 0 ==> var digits := IntToString(n)[if n < 0 then 1 else 0..]; digits != "" && AllDigits(digits) && digits[0] != '0'
  {
    if n < 0 {
      ParseNatToString(-n);
      AtoiNegative(NatToString(-n), -n);
    } else {
      ParseNatToString(n);
      NatFirst(n);
      AtoiUnsigned(NatToString(n), n);
    }
  }

  lemma {:induction false} ParseNatIff(s: string)
    ensures ParseNat(s).Some? <==> AllDigits(s)
  {
    if s != "" {
      var init := s[..|s| - 1];
      ParseNatIff(init);
      assert AllDigits(s) <==> AllDigits(init) && IsDigit(s[|s| - 1]);
    }
  }

  lemma {:induction false} LeadingZero(s: string)
    ensures ParseNat("0" + s) == ParseNat(s)
  {
    var t := "0" + s;
    if s == "" {
      assert t[..0] == "";
    } else {
      assert t[..|t| - 1] == "0" + s[..|s| - 1];
      LeadingZero(s[..|s| - 1]);
    }
  }

  lemma AtoiPlain(s: string)
    requires s != "" && s[0] != '-' && s[0] != '+'
    ensures Atoi(s) == if ParseNat(s).Some? && ParseNat(s).value <= MAX_INT then Some(ParseNat(s).value) else None
  {
  }

  lemma AtoiSigned(sign: char, s: string)
    requires s != "" && (sign == '-' || sign == '+')
    ensures Atoi([sign] + s) ==
      if ParseNat(s).None? then None
      else if sign == '-' then (if ParseNat(s).value <= -MIN_INT then Some(-(ParseNat(s).value as int)) else None)
      else if ParseNat(s).value <= MAX_INT then Some(ParseNat(s).value) else None
  {
    assert ([sign] + s)[1..] == s;
  }

  /** A text of digits, with a sign or without one, is read iff its value fits; nothing else is. */
  lemma AtoiIff(s: string)
    requires s != ""
    ensures Atoi("") == Atoi("+") == Atoi("-") == None
    ensures AllDigits(s) ==>
      && ParseNat(s).Some?
      && Atoi(s) == Atoi("+" + s) == (if ParseNat(s).value <= MAX_INT then Some(ParseNat(s).value) else None)
      && Atoi("-" + s) == if ParseNat(s).value <= -MIN_INT then Some(-(ParseNat(s).value as int)) else None
    ensures !AllDigits(s) ==> Atoi("+" + s) == Atoi("-" + s) == None
    ensures !AllDigits(s) && s[0] != '+' && s[0] != '-' ==> Atoi(s) == None
  {
    ParseNatIff(s);
    AtoiSigned('+', s);
    AtoiSigned('-', s);
    assert AllDigits(s) ==> IsDigit(s[0]);
    if s[0] != '+' && s[0] != '-' {
      AtoiPlain(s);
    }
  }
}
