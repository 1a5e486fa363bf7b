/**
  The reusable counter hook `useCounter(initialValue = 0)`: a value cell and
  an `increment(amount = 0)` that stores `parseInt(value, 10) +
  parseInt(amount, 10)`. The amount is a Number when it comes from the
  Decrement and Increment buttons, and the raw text of a number input when
  it comes from the second demo component.
 */
module UseCounter {
  import opened Numbers
  import opened Parsing

  /** What `increment` is handed: a Number, or the text of an input element. */
  datatype Amount = Number(n: Num) | Text(s: string)

  const DefaultInitialValue: Num := Int(0)
  const DefaultAmount: Amount := Number(Int(0))

  /** The string `parseInt` reads from an amount: a Number's `ToString`, or the text itself. */
  function AmountText(a: Amount): string {
    match a
    case Number(n) => ToString(n)
    case Text(s) => s
  }

  /** The Number an amount stands for once `parseInt(amount, 10)` has read it. */
  function ParseAmount(a: Amount): Num {
    match a
    case Number(n) => n
    case Text(s) => ParseInt(s)
  }

  /** The value that `increment(amount)` stores when the cell holds `value`. */
  function NextValue(value: Num, amount: Amount): Num {
    Add(value, ParseAmount(amount))
  }

  /** `parseInt(amount, 10)` gives the Number the amount stands for. */
  lemma ParseAmountIsParseInt(a: Amount)
    ensures ParseInt(AmountText(a)) == ParseAmount(a)
  {
    if a.Number? {
      ParseIntOfToString(a.n);
    }
  }

  /** NextValue is exactly `parseInt(value, 10) + parseInt(amount, 10)`. */
  lemma NextValueIsParseIntSum(value: Num, amount: Amount)
    ensures Add(ParseInt(ToString(value)), ParseInt(AmountText(amount))) == NextValue(value, amount)
  {
    ParseIntOfToString(value);
    ParseAmountIsParseInt(amount);
  }

  /** The value after handing each amount to `increment` in turn. */
  function Increments(value: Num, amounts: seq<Amount>): Num
    decreases |amounts|
  {
    if amounts == [] then value else Increments(NextValue(value, amounts[0]), amounts[1..])
  }

  /** The hook's state cell, created by `useCounter(initialValue)`. */
  class Counter {
    var value: Num

    constructor (initialValue: Num := DefaultInitialValue)
      ensures value == initialValue
    {
      value := initialValue;
    }

    /** `increment(amount)`: overwrite the cell with the parsed sum. */
    method Increment(amount: Amount := DefaultAmount)
      modifies this
      ensures value == NextValue(old(value), amount)
    {
      NextValueIsParseIntSum(value, amount);
      value := Add(ParseInt(ToString(value)), ParseInt(AmountText(amount)));
    }
  }

  /** An integer amount is added to an integer value. */
  lemma IncrementByInteger(v: int, n: int)
    ensures NextValue(Int(v), Number(Int(n))) == Int(v + n)
  {
  }

  /** `increment()` with the default amount 0 leaves the value as it was. */
  lemma DefaultAmountKeepsValue(value: Num)
    ensures NextValue(value, DefaultAmount) == value
  {
  }

  /** Typed text adds the Number its signed digit prefix spells. */
  lemma TextAmountAddsPrefix(v: int, s: string, k: int)
    requires ParseInt(s) == Int(k)
    ensures NextValue(Int(v), Text(s)) == Int(v + k)
  {
  }

  /** Text with no leading digits turns the value into NaN. */
  lemma NonNumericTextPoisons(value: Num, s: string)
    requires ParseInt(s) == NaN
    ensures NextValue(value, Text(s)) == NaN
  {
  }

  /** Once the value is NaN, no sequence of increments brings a number back. */
  lemma {:induction false} NaNIsAbsorbing(amounts: seq<Amount>)
    ensures Increments(NaN, amounts) == NaN
    decreases |amounts|
  {
    if amounts != [] {
      NaNIsAbsorbing(amounts[1..]);
    }
  }

  /** A Decrement click undoes an Increment click, and the other way round. */
  lemma IncrementThenDecrement(value: Num)
    ensures Increments(value, [Number(Int(1)), Number(Int(-1))]) == value
    ensures Increments(value, [Number(Int(-1)), Number(Int(1))]) == value
  {
    assert [Number(Int(1)), Number(Int(-1))][1..] == [Number(Int(-1))];
    assert [Number(Int(-1)), Number(Int(1))][1..] == [Number(Int(1))];
  }

  predicate IsClick(a: Amount) {
    a == Number(Int(1)) || a == Number(Int(-1))
  }

  /**
    After any sequence of button clicks the value is the starting value plus
    the number of Increment clicks minus the number of Decrement clicks.
   */
  lemma {:induction false} ClicksCount(v: int, clicks: seq<Amount>)
    requires forall k :: 0 <= k < |clicks| ==> IsClick(clicks[k])
    ensures Increments(Int(v), clicks)
         == Int(v + multiset(clicks)[Number(Int(1))] - multiset(clicks)[Number(Int(-1))])
    decreases |clicks|
  {
    if clicks != [] {
      var c, rest := clicks[0], clicks[1..];
      var step: int := if c == Number(Int(1)) then 1 else -1;
      assert c == Number(Int(step));
      assert NextValue(Int(v), c) == Int(v + step) by {
        IncrementByInteger(v, step);
      }
      assert Increments(Int(v), clicks) == Increments(NextValue(Int(v), c), rest);
      assert v + multiset(clicks)[Number(Int(1))] - multiset(clicks)[Number(Int(-1))]
          == v + step + multiset(rest)[Number(Int(1))] - multiset(rest)[Number(Int(-1))] by {
        assert clicks == [c] + rest;
        assert multiset(clicks) == multiset{c} + multiset(rest);
      }
      ClicksCount(v + step, rest);
    }
  }

  /** The amounts a number input hands to `increment`, one per change event, in order. */
  function TextAmounts(texts: seq<string>): seq<Amount> {
    seq(|texts|, k requires 0 <= k < |texts| => Text(texts[k]))
  }

  /** The sum of the integers the texts parse to. */
  function ParsedSum(texts: seq<string>): int
    requires forall k :: 0 <= k < |texts| ==> ParseInt(texts[k]).Int?
    decreases |texts|
  {
    if texts == [] then 0 else ParseInt(texts[0]).i + ParsedSum(texts[1..])
  }

  /**
    Every change event adds the whole text the input then holds: when each
    text parses to an integer, the value ends at the start plus the sum of
    all of them, not plus the last one.
   */
  lemma {:induction false} IncrementsByTexts(v: int, texts: seq<string>)
    requires forall k :: 0 <= k < |texts| ==> ParseInt(texts[k]).Int?
    ensures Increments(Int(v), TextAmounts(texts)) == Int(v + ParsedSum(texts))
    decreases |texts|
  {
    if texts != [] {
      var rest := texts[1..];
      assert TextAmounts(texts)[0] == Text(texts[0]);
      assert TextAmounts(texts)[1..] == TextAmounts(rest);
      assert forall k :: 0 <= k < |rest| ==> ParseInt(rest[k]).Int? by {
        forall k | 0 <= k < |rest| ensures ParseInt(rest[k]).Int? {
          assert rest[k] == texts[k + 1];
        }
      }
      IncrementsByTexts(v + ParseInt(texts[0]).i, rest);
    }
  }

  /**
    The second demo component: a counter that starts at 50 and is
    incremented by whatever the number input holds, here after its first
    change event.
   */
  method NumberInputChange(text: string) returns (shown: Num)
    ensures shown == Add(Int(50), ParseInt(text))
  {
    var counter := new Counter(Int(50));
    counter.Increment(Text(text));
    shown := counter.value;
  }

  /**
    Two change events add both texts: typing "1" and then "12" into the
    input of the 50-counter shows 50 + 1 + 12 = 63, not 62.
   */
  lemma TwoChangesAddBoth(first: string, second: string, a: int, b: int)
    requires ParseInt(first) == Int(a) && ParseInt(second) == Int(b)
    ensures Increments(Int(50), TextAmounts([first, second])) == Int(50 + a + b)
  {
    var texts := [first, second];
    IncrementsByTexts(50, texts);
    assert ParsedSum([second]) == b by {
      assert [second][0] == second && [second][1..] == [];
    }
    assert ParsedSum(texts) == a + ParsedSum([second]) by {
      assert texts[0] == first && texts[1..] == [second];
    }
  }

  /** Typing "1" and then "12" into the input of the 50-counter shows 63, not 62. */
  lemma TypingOneThenTwelve()
    ensures Increments(Int(50), TextAmounts(["1", "12"])) == Int(63)
  {
    assert ParseInt("1") == Int(1) by {
      ParseIntOfNumeral("", "", "1", "");
    }
    assert ParseInt("12") == Int(12) by {
      assert DecimalValue("12") == 12 by { assert "12"[..1] == "1"; }
      ParseIntOfNumeral("", "", "12", "");
    }
    TwoChangesAddBoth("1", "12", 1, 12);
  }
}
