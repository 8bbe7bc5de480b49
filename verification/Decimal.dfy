/** Decimal user ids as map keys: `strconv.Itoa`, `strconv.Atoi` and `isNumericUser`. */
module Decimal {
  import opened Options

  const MAX_INT := 0x7fff_ffff_ffff_ffff

  predicate IsDigit(c: char) {
    '0' <= c <= '9'
  }

  function Digit(d: nat): (c: char)
    requires d < 10
    ensures IsDigit(c) && DigitValue(c) == d && c as int == '0' as int + d
  {
    '0' + d as char
  }

  function DigitValue(c: char): (d: nat)
    requires IsDigit(c)
    ensures d < 10
  {
    (c - '0') as int
  }

  predicate AllDigits(s: string) {
    forall i :: 0 <= i < |s| ==> IsDigit(s[i])
  }

  // A loop over the runes: a non-empty string of ASCII digits.
  method IsNumericUser(user: string) returns (numeric: bool)
    ensures numeric == Numeric(user)
  {
    if user == "" {
      return false;
    }
    for i := 0 to |user|
      invariant AllDigits(user[..i])
    {
      if !IsDigit(user[i]) {
        return false;
      }
    }
    assert user[..|user|] == user;
    return true;
  }

  predicate Numeric(user: string) {
    user != "" && AllDigits(user)
  }

  function Value(s: string): nat
    requires AllDigits(s)
  {
    if s == "" then 0 else Value(s[..|s| - 1]) * 10 + DigitValue(s[|s| - 1])
  }

  function Itoa(n: int): string {
    if n < 0 then "-" + Digits(-n) else Digits(n)
  }

  function Digits(n: nat): string {
    if n < 10 then [Digit(n)] else Digits(n / 10) + [Digit(n % 10)]
  }

  // An optional sign and at least one digit, within 64 bits.
  function Atoi(s: string): Option<int> {
    var signed := s != "" && (s[0] == '-' || s[0] == '+');
    var digits := if signed then s[1..] else s;
    if digits == "" || !AllDigits(digits) then None
    else
      var magnitude: int := Value(digits);
      var v := if signed && s[0] == '-' then -magnitude else magnitude;
      if -MAX_INT - 1 <= v <= MAX_INT then Some(v) else None
  }

  lemma {:induction false} DigitsRoundTrip(n: nat)
    ensures AllDigits(Digits(n)) && Digits(n) != "" && Value(Digits(n)) == n
  {
    if n >= 10 {
      DigitsRoundTrip(n / 10);
      assert Digits(n)[..|Digits(n)| - 1] == Digits(n / 10);
    } else {
      assert Digits(n)[..0] == "";
    }
  }

  // Parsing undoes printing for every 64-bit integer; a non-negative one prints as a
  // numeric user.
  lemma AtoiItoa(n: int)
    requires -MAX_INT - 1 <= n <= MAX_INT
    ensures Atoi(Itoa(n)) == Some(n)
    ensures n >= 0 ==> Numeric(Itoa(n))
  {
    DigitsRoundTrip(if n < 0 then -n else n);
    if n < 0 {
      assert Itoa(n)[0] == '-' && Itoa(n)[1..] == Digits(-n);
    } else {
      AtoiDigits(Digits(n));
    }
  }

  lemma AtoiDigits(s: string)
    requires Numeric(s)
    ensures Atoi(s) == if Value(s) <= MAX_INT then Some(Value(s) as int) else None
  {
    assert IsDigit(s[0]);
  }

  // Exactly what parses: digits, or a sign and digits, as long as the number fits 64 bits.
  lemma AtoiExactly(s: string)
    requires Numeric(s)
    ensures Atoi(s) == Atoi("+" + s) == if Value(s) <= 0x7fff_ffff_ffff_ffff then Some(Value(s) as int) else None
    ensures Atoi("-" + s) == if Value(s) <= 0x8000_0000_0000_0000 then Some(-(Value(s) as int)) else None
  {
    AtoiDigits(s);
    assert ("+" + s)[1..] == s && ("-" + s)[1..] == s;
  }

  lemma AtoiOfOthers(s: string)
    requires !Numeric(s) && (s == "" || (s[0] != '+' && s[0] != '-') || !Numeric(s[1..]))
    ensures Atoi(s) == None
  {
  }

  // A key as `fmt.Sprint(id)` produces it for an id of the panel.
  predicate Canonical(user: string) {
    Atoi(user).Some? && Itoa(Atoi(user).value) == user
  }

  lemma {:induction false} LeadingZero(s: string)
    requires AllDigits(s)
    ensures AllDigits("0" + s) && Value("0" + s) == Value(s)
  {
    if s == "" {
      assert "0"[..0] == "";
    } else {
      var front := s[..|s| - 1];
      LeadingZero(front);
      assert ("0" + s)[..|s|] == "0" + front;
    }
  }

  // Every id has a second numeric key, which is not canonical ...
  lemma NumericIsNotCanonical(n: nat)
    requires n <= MAX_INT
    ensures Numeric("0" + Itoa(n)) && Atoi("0" + Itoa(n)) == Atoi(Itoa(n)) == Some(n)
    ensures Canonical(Itoa(n)) && !Canonical("0" + Itoa(n))
  {
    AtoiItoa(n);
    DigitsRoundTrip(n);
    LeadingZero(Digits(n));
  }

  // ... and every number beyond 64 bits prints as a numeric user that does not parse.
  lemma NumericMayNotParse(n: nat)
    requires n > MAX_INT
    ensures Numeric(Digits(n)) && Atoi(Digits(n)) == None
  {
    DigitsRoundTrip(n);
    assert IsDigit(Digits(n)[0]);
  }
}
