/** Decimal numbers as the wire carries them: strconv.Itoa and strconv.Atoi. Integers
    are unbounded here. */
module Decimal {
  import opened Text

  datatype Number = NotANumber | Number(value: int)

  predicate IsDigit(b: char) {
    '0' <= b <= '9'
  }

  function DigitOf(n: nat): (b: char)
    requires n < 10
    ensures IsDigit(b)
  {
    '0' + n as char
  }

  /** A nat without sign or leading zeros. */
  function Digits(n: nat): (s: string)
    ensures s != "" && (forall b | b in s :: IsDigit(b))
    ensures |s| == 1 <==> n < 10
  {
    if n < 10 then [DigitOf(n)] else Digits(n / 10) + [DigitOf(n % 10)]
  }

  function Itoa(n: int): string {
    if n < 0 then "-" + Digits(-n) else Digits(n)
  }

  /** The value of a digit string, most significant digit first. */
  function Magnitude(s: string): nat
    requires forall b | b in s :: IsDigit(b)
  {
    if s == "" then 0
    else
      assert IsDigit(s[|s| - 1]);
      10 * Magnitude(s[..|s| - 1]) + (s[|s| - 1] as int - '0' as int)
  }

  predicate AllDigits(s: string) {
    s != "" && forall b | b in s :: IsDigit(b)
  }

  /** An optional sign and at least one digit; leading zeros are fine. */
  function Atoi(s: string): Number {
    if AllDigits(s) then Number(Magnitude(s))
    else if s != "" && s[0] == '+' && AllDigits(s[1..]) then Number(Magnitude(s[1..]))
    else if s != "" && s[0] == '-' && AllDigits(s[1..]) then Number(0 - Magnitude(s[1..]))
    else NotANumber
  }

  /** What callers that ignore the error see. */
  function AtoiOrZero(s: string): int {
    match Atoi(s)
    case Number(n) => n
    case NotANumber => 0
  }

  lemma {:induction false} MagnitudeOfDigits(n: nat)
    ensures Magnitude(Digits(n)) == n
    decreases n
  {
    if n >= 10 {
      MagnitudeOfDigits(n / 10);
      var s := Digits(n);
      assert s[..|s| - 1] == Digits(n / 10);
    } else {
      assert Magnitude([DigitOf(n)][..0]) == 0;
    }
  }

  /** Reading back a printed number. */
  lemma AtoiOfItoa(n: int)
    ensures Atoi(Itoa(n)) == Number(n)
  {
    hide Digits, Magnitude;
    if n < 0 {
      MagnitudeOfDigits(-n);
      assert Itoa(n)[1..] == Digits(-n);
      assert Itoa(n)[0] == '-' && !IsDigit('-');
    } else {
      MagnitudeOfDigits(n);
    }
  }

  lemma ItoaInjective(m: int, n: int)
    requires Itoa(m) == Itoa(n)
    ensures m == n
  {
    AtoiOfItoa(m);
    AtoiOfItoa(n);
  }

  /** A printed number holds only digits and a minus sign, so trimming leaves it alone. */
  lemma ItoaPlain(n: int)
    ensures Itoa(n) != "" && TrimSpace(Itoa(n)) == Itoa(n)
    ensures forall b | b in Itoa(n) :: IsDigit(b) || b == '-'
  {
    var s := Itoa(n);
    assert s[0] in s && s[|s| - 1] in s;
  }
}
