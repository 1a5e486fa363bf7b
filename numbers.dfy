/**
  JavaScript Number values in the shape the counters produce them: a
  mathematical integer or the NaN value, with the `+` operator and the
  decimal `ToString` conversion that `parseInt` applies to a number before
  reading it back.
 */
module Numbers {

  /** An integer-valued Number, or NaN. */
  datatype Num = Int(i: int) | NaN

  /** The `+` operator on two Numbers: NaN as soon as either operand is NaN. */
  function Add(a: Num, b: Num): Num {
    if a.Int? && b.Int? then Int(a.i + b.i) else NaN
  }

  /** NaN poisons every sum it takes part in, on either side. */
  lemma AddNaN(a: Num)
    ensures Add(NaN, a) == NaN && Add(a, NaN) == NaN
  {
  }

  /** Adding 0 changes no Number, NaN included. */
  lemma AddZero(a: Num)
    ensures Add(a, Int(0)) == a
  {
  }

  /** Sums may be regrouped: two shifts in a row are one shift by their total. */
  lemma AddAssociative(a: Num, b: Num, c: Num)
    ensures Add(Add(a, b), c) == Add(a, Add(b, c))
  {
  }


  predicate IsDigit(c: char) {
    '0' <= c <= '9'
  }

  predicate AllDigits(s: string) {
    forall k :: 0 <= k < |s| ==> IsDigit(s[k])
  }

  /** The value of a digit character (the code-unit offset from '0'). */
  function DigitValue(c: char): int {
    c as int - '0' as int
  }

  function DigitChar(d: nat): (c: char)
    requires d < 10
    ensures IsDigit(c) && DigitValue(c) == d
  {
    ('0' as int + d) as char
  }

  /**
    The mathematical value of a string of decimal digits, most significant
    first. It is only ever applied to strings that are all digits.
   */
  function DecimalValue(s: string): int
    decreases |s|
  {
    if s == [] then 0 else 10 * DecimalValue(s[..|s| - 1]) + DigitValue(s[|s| - 1])
  }

  /** The decimal digits of `n`, without leading zeros. */
  function NatDigits(n: nat): (s: string)
    ensures |s| > 0 && AllDigits(s)
    ensures DecimalValue(s) == n
    ensures n > 0 ==> s[0] != '0'
    ensures n == 0 ==> s == "0"
  {
    if n < 10 then
      [DigitChar(n)]
    else
      var s := NatDigits(n / 10) + [DigitChar(n % 10)];
      assert s[..|s| - 1] == NatDigits(n / 10);
      s
  }

  /** `ToString` of a Number: an optional minus sign and the digits, or "NaN". */
  function ToString(x: Num): (s: string)
    ensures x.Int? && x.i >= 0 ==> AllDigits(s) && |s| > 0 && DecimalValue(s) == x.i
    ensures x.Int? && x.i > 0 ==> s[0] != '0'
    ensures x == Int(0) ==> s == "0"
    ensures x.Int? && x.i < 0 ==> |s| > 1 && s[0] == '-' && AllDigits(s[1..]) && DecimalValue(s[1..]) == -x.i
    ensures x.Int? && x.i < 0 ==> s[1] != '0'
    ensures x.NaN? ==> s == "NaN"
  {
    match x
    case NaN => "NaN"
    case Int(i) =>
      if i < 0 then
        var s := "-" + NatDigits(-i);
        assert s[1..] == NatDigits(-i);
        s
      else NatDigits(i)
  }
}
