/** Decimal printing and reading of integers, as `strconv.Itoa` and
    `strconv.Atoi` do it on 64-bit integers. */
module Decimal {
  import opened Lists

  const MIN_INT: int := -0x8000_0000_0000_0000
  const MAX_INT: int := 0x7fff_ffff_ffff_ffff

  predicate InRange(i: int) {
    MIN_INT <= i <= MAX_INT
  }

  predicate IsDigit(c: char) {
    '0' <= c <= '9'
  }

  predicate AllDigits(s: string) {
    forall i :: 0 <= i < |s| ==> IsDigit(s[i])
  }

  function DigitOf(n: nat): (c: char)
    requires n < 10
    ensures IsDigit(c) && c as int - '0' as int == n
  {
    ('0' as int + n) as char
  }

  function Digits(n: nat): (s: string)
    ensures s != [] && AllDigits(s)
  {
    if n < 10 then [DigitOf(n)] else Digits(n / 10) + [DigitOf(n % 10)]
  }

  function Value(s: string): (n: nat)
    requires AllDigits(s)
  {
    if s == [] then 0
    else Value(s[..|s| - 1]) * 10 + (s[|s| - 1] as int - '0' as int)
  }

  lemma {:induction false} ValueOfDigits(n: nat)
    ensures Value(Digits(n)) == n
  {
    if n < 10 {
      assert Digits(n)[..0] == [];
    } else {
      ValueOfDigits(n / 10);
      assert Digits(n)[..|Digits(n)| - 1] == Digits(n / 10);
    }
  }

  /** Leading zeros do not change the value. */
  lemma {:induction false} LeadingZero(s: string)
    requires AllDigits(s)
    ensures AllDigits("0" + s) && Value("0" + s) == Value(s)
  {
    var z := "0" + s;
    if s == [] {
      assert z[..0] == [];
    } else {
      LeadingZero(s[..|s| - 1]);
      assert z[..|z| - 1] == "0" + s[..|s| - 1];
    }
  }

  function Itoa(i: int): (s: string)
    ensures s != []
  {
    if i < 0 then "-" + Digits(-i) else Digits(i)
  }

  /** A sign is optional, then at least one digit and nothing else; a value
      outside the 64-bit range is an error. */
  function Atoi(s: string): Option<int>
  {
    var signed := s != [] && (s[0] == '-' || s[0] == '+');
    var body := if signed then s[1..] else s;
    if body == [] || !AllDigits(body) then None
    else
      var magnitude: int := Value(body);
      var i := if signed && s[0] == '-' then -magnitude else magnitude;
      if InRange(i) then Some(i) else None
  }

  lemma AtoiOfItoa(i: int)
    requires InRange(i)
    ensures Atoi(Itoa(i)) == Some(i)
  {
    if i < 0 {
      ValueOfDigits(-i);
      assert Itoa(i)[1..] == Digits(-i);
    } else {
      ValueOfDigits(i);
      assert IsDigit(Itoa(i)[0]);
    }
  }

  /** No leading zeros are printed. */
  lemma {:induction false} DigitsAreCanonical(n: nat)
    ensures Digits(n)[0] == '0' ==> |Digits(n)| == 1
    ensures n > 0 ==> Digits(n)[0] != '0'
  {
    if n >= 10 {
      DigitsAreCanonical(n / 10);
    }
  }

  /** What is printed is the only string without leading zeros and with that
      value. */
  lemma {:induction false} CanonicalIsUnique(s: string, n: nat)
    requires s != [] && AllDigits(s) && (s[0] == '0' ==> |s| == 1) && Value(s) == n
    ensures s == Digits(n)
  {
    var front := s[..|s| - 1];
    if front == [] {
      assert Value(front) == 0 && s == [s[0]];
    } else {
      ValueIsPositive(front);
      CanonicalIsUnique(front, Value(front));
      assert s == front + [s[|s| - 1]];
    }
  }

  lemma {:induction false} ValueIsPositive(s: string)
    requires s != [] && AllDigits(s) && s[0] != '0'
    ensures Value(s) > 0
  {
    if |s| > 1 {
      ValueIsPositive(s[..|s| - 1]);
    } else {
      assert s[..0] == [];
    }
  }

  /** Reading accepts digits with or without a sign, leading zeros included, as
      long as the value fits in 64 bits, and nothing else. */
  lemma AtoiAccepts(s: string, i: int)
    ensures Atoi(s) == Some(i) <==>
            -0x8000_0000_0000_0000 <= i < 0x8000_0000_0000_0000
            && exists digits ::
                 && digits != [] && AllDigits(digits)
                 && ((i == Value(digits) && s in {digits, "+" + digits})
                     || (i == 0 - Value(digits) && s == "-" + digits))
  {
    if Atoi(s) == Some(i) {
      var digits := if s[0] == '-' || s[0] == '+' then s[1..] else s;
      assert s == digits || s == [s[0]] + digits;
    }
    if digits :| digits != [] && AllDigits(digits) && s in {digits, "+" + digits, "-" + digits} {
      assert IsDigit(digits[0]) && IsDigit(digits[|digits| - 1]);
      if s != digits {
        assert s[1..] == digits;
      }
    }
  }
}
