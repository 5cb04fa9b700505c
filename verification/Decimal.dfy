/** Decimal numerals as the operator writes them (%d, strconv.Itoa) and reads them (strconv.Atoi). */
module Decimal {
  import opened Wrappers

  const MAX_INT64: int := 0x7FFF_FFFF_FFFF_FFFF
  const MIN_INT64: int := -9223372036854775808

  predicate IsDigit(c: char) { '0' <= c <= '9' }

  function DigitChar(d: nat): (c: char)
    requires d < 10
    ensures IsDigit(c) && c as int - '0' as int == d
  {
    ('0' as int + d) as char
  }

  function Itoa(n: nat): (s: string)
    ensures s != "" && forall c <- s :: IsDigit(c)
  {
    if n < 10 then [DigitChar(n)] else Itoa(n / 10) + [DigitChar(n % 10)]
  }

  /** The number a digit string denotes; None when it is empty or holds anything else. */
  function Value(s: string): Option<nat> {
    if s == "" || !IsDigit(s[|s| - 1]) then None
    else
      var d := s[|s| - 1] as int - '0' as int;
      if |s| == 1 then Some(d)
      else match Value(s[..|s| - 1])
        case None => None
        case Some(v) => Some(10 * v + d)
  }

  /** strconv.Atoi: an optional sign, digits, and a result that fits 64 bits. */
  function Atoi(s: string): (r: Option<int>)
    ensures r.Some? ==> MIN_INT64 <= r.value <= MAX_INT64
  {
    var digits := if s != "" && (s[0] == '+' || s[0] == '-') then s[1..] else s;
    match Value(digits)
    case None => None
    case Some(v) =>
      var signed: int := if s != "" && s[0] == '-' then -(v as int) else v as int;
      if MIN_INT64 <= signed <= MAX_INT64 then Some(signed) else None
  }

  lemma {:induction false} ValueItoa(n: nat)
    ensures Value(Itoa(n)) == Some(n)
  {
    if n >= 10 {
      ValueItoa(n / 10);
      var s := Itoa(n);
      assert s[..|s| - 1] == Itoa(n / 10);
    }
  }

  /** Reading back what was written. */
  lemma {:induction false} AtoiItoa(n: nat)
    requires n <= MAX_INT64
    ensures Atoi(Itoa(n)) == Some(n)
  {
    ValueItoa(n);
    assert IsDigit(Itoa(n)[0]);
  }

  lemma ItoaInjective(a: nat, b: nat)
    requires Itoa(a) == Itoa(b)
    ensures a == b
  {
    ValueItoa(a);
    ValueItoa(b);
  }

  lemma {:induction false} ValueDigits(s: string)
    requires Value(s).Some?
    ensures forall c <- s :: IsDigit(c)
  {
    if |s| > 1 {
      ValueDigits(s[..|s| - 1]);
      assert s == s[..|s| - 1] + [s[|s| - 1]];
    }
  }

  /** A string Atoi accepts is made of digits after an optional sign. */
  lemma AtoiAlphabet(s: string)
    requires Atoi(s).Some?
    ensures forall c <- s :: IsDigit(c) || c == '+' || c == '-'
  {
    var signed := s != "" && (s[0] == '+' || s[0] == '-');
    ValueDigits(if signed then s[1..] else s);
    if signed {
      assert s == [s[0]] + s[1..];
    }
  }
}
