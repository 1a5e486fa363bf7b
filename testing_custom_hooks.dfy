/**
  The copy of the counter hook that the hook test exercises. It keeps its
  own value cell and writes its own parse-and-add expression; its
  `Increment` is proved to make the same transition as `UseCounter`'s.
 */
module TestingCustomHooks {
  import opened Numbers
  import opened Parsing
  import UseCounter

  /** The hook, which this file exports under the name App. */
  class App {
    var value: Num

    constructor (initialValue: Num := Int(0))
      ensures value == initialValue
    {
      value := initialValue;
    }

    /** `increment(amount = 0)`, the same transition as `UseCounter.Counter.Increment`. */
    method Increment(amount: UseCounter.Amount := UseCounter.DefaultAmount)
      modifies this
      ensures value == UseCounter.NextValue(old(value), amount)
    {
      UseCounter.NextValueIsParseIntSum(value, amount);
      value := Add(ParseInt(ToString(value)), ParseInt(UseCounter.AmountText(amount)));
    }
  }

  /** The hook test: created with the default the value is 0, and `increment(1)` makes it 1. */
  method HookTest() returns (initial: Num, updated: Num)
    ensures initial == Int(0)
    ensures updated == Int(1)
  {
    var hook := new App();
    initial := hook.value;
    hook.Increment(UseCounter.Number(Int(1)));
    updated := hook.value;
  }

  /** Text without leading digits makes the value NaN, and a later increment keeps it NaN. */
  method PoisonedByText(initialValue: Num, text: string, later: UseCounter.Amount) returns (poisoned: Num, after: Num)
    requires ParseInt(text) == NaN
    ensures poisoned == NaN && after == NaN
  {
    var hook := new App(initialValue);
    hook.Increment(UseCounter.Text(text));
    poisoned := hook.value;
    hook.Increment(later);
    after := hook.value;
  }
}
