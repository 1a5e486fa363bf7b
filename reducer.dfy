/**
  The reducer of the reducer demo: a pure transition from a state record and
  an action to the next state record. INCREMENT and DECREMENT rebuild the
  record with `count` one higher or one lower and every other field copied;
  any other action type hands the state back as it is.
 */
module Reducer {
  import opened Numbers

  /** The action types: the two the reducer knows and every other tag. */
  datatype ActionType = IncrementType | DecrementType | OtherType(tag: string)

  /** An action object, `{ type }`. */
  datatype Action = Action(kind: ActionType)

  /** The two action objects the demo dispatches. */
  const INCREMENT: Action := Action(IncrementType)
  const DECREMENT: Action := Action(DecrementType)

  /** A state record: field names mapped to their Number values. */
  type State = map<string, Num>

  const CountField: string := "count"

  /** The demo's initial state, `{ count: 0 }`. */
  const InitialState: State := map[CountField := Int(0)]

  /** `state.count` as an operand of `+`: a missing field reads as undefined, which adds to NaN. */
  function CountOperand(s: State): Num {
    if CountField in s then s[CountField] else NaN
  }

  /** `{ ...state, count: state.count + delta }`. */
  function WithCountShifted(s: State, delta: int): State {
    s[CountField := Add(CountOperand(s), Int(delta))]
  }

  function Reduce(s: State, a: Action): (r: State)
    ensures a.kind.OtherType? ==> r == s
    ensures !a.kind.OtherType? ==> r.Keys == s.Keys + {CountField}
    ensures forall f :: f in s && f != CountField ==> f in r && r[f] == s[f]
    ensures a.kind == IncrementType && CountField in s && s[CountField].Int?
            ==> r[CountField] == Int(s[CountField].i + 1)
    ensures a.kind == DecrementType && CountField in s && s[CountField].Int?
            ==> r[CountField] == Int(s[CountField].i - 1)
    ensures !a.kind.OtherType? && (CountField !in s || s[CountField].NaN?) ==> r[CountField] == NaN
  {
    match a.kind
    case IncrementType => WithCountShifted(s, 1)
    case DecrementType => WithCountShifted(s, -1)
    case OtherType(_) => s
  }

  /** The state after dispatching each action in turn. */
  function Run(s: State, actions: seq<Action>): State
    decreases |actions|
  {
    if actions == [] then s else Run(Reduce(s, actions[0]), actions[1..])
  }

  /** The number of INCREMENTs minus the number of DECREMENTs. */
  function Net(actions: seq<Action>): int {
    multiset(actions)[INCREMENT] as int - multiset(actions)[DECREMENT]
  }

  /** DECREMENT undoes INCREMENT and INCREMENT undoes DECREMENT on a record with a count. */
  lemma IncrementDecrementRoundTrip(s: State)
    requires CountField in s
    ensures Reduce(Reduce(s, INCREMENT), DECREMENT) == s
    ensures Reduce(Reduce(s, DECREMENT), INCREMENT) == s
  {
  }

  /** There is no clamping at zero: DECREMENT from 0 gives -1. */
  lemma DecrementBelowZero()
    ensures Reduce(InitialState, DECREMENT)[CountField] == Int(-1)
  {
  }

  /** Two shifts of the count add up. */
  lemma ShiftTwice(s: State, d1: int, d2: int)
    requires CountField in s
    ensures WithCountShifted(WithCountShifted(s, d1), d2) == WithCountShifted(s, d1 + d2)
  {
    AddAssociative(s[CountField], Int(d1), Int(d2));
  }

  /** One dispatch shifts the count by +1, -1 or (for any other type) 0. */
  lemma ReduceShifts(s: State, a: Action)
    requires CountField in s
    ensures Reduce(s, a) == WithCountShifted(s, Net([a]))
  {
    assert multiset([a]) == multiset{a};
    if a.kind.OtherType? {
      AddZero(s[CountField]);
      assert s[CountField := Add(s[CountField], Int(0))] == s;
    }
  }

  /**
    Dispatching any sequence of actions to a record with a count moves the
    count by the number of INCREMENTs minus the number of DECREMENTs and
    leaves every other field alone.
   */
  lemma {:induction false} RunShiftsCount(s: State, actions: seq<Action>)
    requires CountField in s
    ensures Run(s, actions) == WithCountShifted(s, Net(actions))
    decreases |actions|
  {
    if actions == [] {
      AddZero(s[CountField]);
      assert s[CountField := Add(s[CountField], Int(0))] == s;
    } else {
      var a, rest := actions[0], actions[1..];
      ReduceShifts(s, a);
      RunShiftsCount(WithCountShifted(s, Net([a])), rest);
      ShiftTwice(s, Net([a]), Net(rest));
      assert Net(actions) == Net([a]) + Net(rest) by {
        assert actions == [a] + rest;
        assert multiset(actions) == multiset([a]) + multiset(rest);
      }
    }
  }

  /** From `{ count: 0 }`, the count is #INCREMENT - #DECREMENT and the record has no other field. */
  lemma CountFromInitialState(actions: seq<Action>)
    ensures Run(InitialState, actions) == map[CountField := Int(Net(actions))]
  {
    RunShiftsCount(InitialState, actions);
  }

  /** The final state depends only on which actions were dispatched, not on their order. */
  lemma RunIgnoresOrder(s: State, actions: seq<Action>, reordered: seq<Action>)
    requires CountField in s
    requires multiset(reordered) == multiset(actions)
    ensures Run(s, reordered) == Run(s, actions)
  {
    RunShiftsCount(s, actions);
    RunShiftsCount(s, reordered);
  }
}
