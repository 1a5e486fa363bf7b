/**
  The counter context: a provider that owns one state record, starting at
  `{ count: 0 }`, and hands out `updateContext`, which replaces the record
  with the shallow, right-biased merge `{ ...state, ...newValue }`.
 */
module CounterContext {
  import opened Numbers

  /** A state record: field names mapped to their Number values. */
  type State = map<string, Num>

  const CountField: string := "count"

  /** `defaultState`, the provider's initial record. */
  const DefaultState: State := map[CountField := Int(0)]

  /** `{ ...state, ...newValue }`: every field of `newValue` wins, the others are kept. */
  function Merge<V>(state: map<string, V>, newValue: map<string, V>): (r: map<string, V>)
    ensures r.Keys == state.Keys + newValue.Keys
    ensures forall f :: f in newValue ==> r[f] == newValue[f]
    ensures forall f :: f in state && f !in newValue ==> r[f] == state[f]
  {
    state + newValue
  }

  /** The provider's state cell. */
  class CounterProvider {
    var state: State

    /** The record always has a count: the default has one and merging never drops a field. */
    ghost predicate Valid()
      reads this
    {
      CountField in state
    }

    constructor ()
      ensures Valid()
      ensures state == DefaultState
    {
      state := DefaultState;
    }

    /**
      A consumer's button, `updateContext({ count: context.count + delta })`,
      with `delta` -1 for Decrement and 1 for Increment; it needs the count
      that `Valid` guarantees.
     */
    method Click(delta: int)
      requires Valid()
      modifies this
      ensures Valid()
      ensures state == Merge(old(state), ClickUpdate(old(state), delta))
    {
      UpdateContext(ClickUpdate(state, delta));
    }

    /** `updateContext(newValue)`. */
    method UpdateContext(newValue: State)
      modifies this
      ensures old(Valid()) ==> Valid()
      ensures state == Merge(old(state), newValue)
    {
      state := Merge(state, newValue);
    }
  }

  /** Merging the empty record changes nothing. */
  lemma MergeEmptyIsIdentity<V>(state: map<string, V>)
    ensures Merge(state, map[]) == state
  {
  }

  /** Merging the same record a second time changes nothing more. */
  lemma MergeIsIdempotent<V>(state: map<string, V>, newValue: map<string, V>)
    ensures Merge(Merge(state, newValue), newValue) == Merge(state, newValue)
  {
  }

  /** `updateContext({ count: n })` makes the count `n`. */
  lemma MergeSetsCount(state: State, n: Num)
    ensures Merge(state, map[CountField := n])[CountField] == n
  {
  }

  /** The partial record a consumer's Decrement or Increment button hands to `updateContext`. */
  function ClickUpdate(state: State, delta: int): State
    requires CountField in state
  {
    map[CountField := Add(state[CountField], Int(delta))]
  }

  /** A Decrement click followed by an Increment click leaves the record as it was. */
  lemma DecrementThenIncrementRestores(state: State)
    requires CountField in state
    ensures var afterDecrement := Merge(state, ClickUpdate(state, -1));
            Merge(afterDecrement, ClickUpdate(afterDecrement, 1)) == state
  {
    var afterDecrement := Merge(state, ClickUpdate(state, -1));
    AddAssociative(state[CountField], Int(-1), Int(1));
    AddZero(state[CountField]);
    assert Merge(afterDecrement, ClickUpdate(afterDecrement, 1)) == state[CountField := state[CountField]];
  }

  /** The state after a sequence of button clicks, each +1 or -1. */
  function AfterClicks(state: State, clicks: seq<bool>): (r: State)
    requires CountField in state
    ensures CountField in r
    decreases |clicks|
  {
    if clicks == [] then state
    else AfterClicks(Merge(state, ClickUpdate(state, if clicks[0] then 1 else -1)), clicks[1..])
  }

  /**
    From a record holding only a count `c` (the default record has c = 0),
    after any sequence of clicks (true for Increment, false for Decrement)
    the count is `c` plus the number of Increment clicks minus the number of
    Decrement clicks.
   */
  lemma {:induction false} ClicksCount(state: State, c: int, clicks: seq<bool>)
    requires state == map[CountField := Int(c)]
    ensures AfterClicks(state, clicks) == map[CountField := Int(c + multiset(clicks)[true] - multiset(clicks)[false])]
    decreases |clicks|
  {
    if clicks != [] {
      var b, rest := clicks[0], clicks[1..];
      var step: int := if b then 1 else -1;
      var next := Merge(state, ClickUpdate(state, step));
      assert next == map[CountField := Int(c + step)];
      ClicksCount(next, c + step, rest);
      assert c + multiset(clicks)[true] - multiset(clicks)[false]
          == c + step + multiset(rest)[true] - multiset(rest)[false] by {
        assert clicks == [b] + rest;
        assert multiset(clicks) == multiset{b} + multiset(rest);
      }
    }
  }
}
