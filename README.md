# React hooks overview: the counter logic, modelled and proved in Dafny

The repository is a set of small React demos of state-management hooks. Under
the JSX sit three pieces of logic, and this project models exactly those:

- **The reducer** (`src/use-reducer/reducer.js`): a pure transition
  `(state, action) -> state`. `INCREMENT` and `DECREMENT` rebuild the record
  with `count` one higher or one lower and all other fields copied; any
  other action type returns the state itself. Module `Reducer`, with a left
  fold `Run` standing for a sequence of `dispatch` calls.
- **The counter context** (`src/use-context/counter-context.js`): a provider
  owning one record, starting at `{ count: 0 }`, and `updateContext`, which
  replaces it with the shallow right-biased merge `{ ...state, ...newValue }`.
  Module `CounterContext`: the pure `Merge` and a class `CounterProvider`
  whose `state` field `UpdateContext` overwrites.
- **The counter hook** (`src/custom-hook/use-counter.js` and its copy
  `src/testing-custom-hooks/index.js`): a value cell and
  `increment(amount = 0)`, which stores
  `parseInt(value, 10) + parseInt(amount, 10)`. Modules `UseCounter` (class
  `Counter`, transition `NextValue`) and `TestingCustomHooks` (class `App`,
  whose `Increment` writes the expression out again and is proved to make
  the same transition).

Supporting modules: `Numbers` gives JavaScript Numbers as the counters
produce them, an integer or NaN (`Num`), with `+` and `ToString`; `Parsing`
gives `parseInt(s, 10)` as section 19.2.5 of ECMA-262 defines it: skip
leading white space, read an optional sign, take the longest run of decimal
digits, NaN when that run is empty.

Record fields are a `map<string, Num>`, so "every other field is unchanged"
can be stated. Reading a missing `count` gives `undefined`, and
`undefined + 1` is NaN; the model reads a missing count as NaN for the same
result. Because `parseInt` first converts its argument to a string, the
model writes `parseInt(value, 10)` as `ParseInt(ToString(value))` and proves
that this gives back every integer and NaN (`Parsing.ParseIntOfToString`).
The hook's transition `UseCounter.NextValue` adds the value to the Number the
amount stands for, and `UseCounter.NextValueIsParseIntSum` proves it equal to
the source's `parseInt(value, 10) + parseInt(amount, 10)`; both hooks'
`Increment` methods store the source's expression. In the model the hook's
value is therefore always an integer or NaN; the type `Num` states this
(JavaScript's Infinity is left out, see below).

Callers cited as property sources, not modelled as views: the buttons in
`src/custom-hook/index.js:11-12` pass `-1` and `1`; the number input in
`src/custom-hook/component-2.js:12` passes its raw text; the consumer buttons in
`src/use-context/index.js:16-17` pass `{ count: context.count - 1 }` and
`{ count: context.count + 1 }`; the reducer demo starts from `{ count: 0 }`
(`src/use-reducer/index.js:6-8`), but the reducer spreads whatever record it
gets and touches only `count`, so the model allows any other fields.

## Model

| member | source | states |
|---|---|---|
| Numbers.Add | src/custom-hook/use-counter.js:10 | no contract of its own: it is the definition of `+` on integers and NaN, and `AddNaN`, `AddZero` and `AddAssociative` state its laws |
| Numbers.AddNaN | src/custom-hook/use-counter.js:10 | NaN on either side of `+` gives NaN |
| Numbers.AddZero | src/custom-hook/use-counter.js:10 | adding 0 leaves every Number unchanged, NaN included, which is why `increment()` keeps the value |
| Numbers.AddAssociative | src/use-reducer/reducer.js:6-8 | sums regroup, so a shift by `d1` and then by `d2` is one shift by `d1 + d2`, NaN included |
| Numbers.DecimalValue | src/custom-hook/use-counter.js:10 | no contract of its own: the integer a digit run spells in radix 10, most significant digit first; `NatDigits` and `ParseIntOfToString` state its relation to `ToString` |
| Numbers.NatDigits | src/custom-hook/use-counter.js:10 | the decimal text of a non-negative integer is a non-empty run of digits whose value is that integer, "0" for 0 and otherwise with no leading zero |
| Numbers.ToString | src/custom-hook/use-counter.js:10 | 0 becomes "0", a positive integer its digits without leading zeros, a negative one a minus sign and the digits of its magnitude without leading zeros, NaN becomes "NaN" |
| Parsing.ParseInt | src/custom-hook/use-counter.js:10 | no contract of its own; `ParseIntOfNumeral` and `ParseIntNoDigits` together fix its value on every string, and `ParseIntOfToString` on the string of every Number |
| Parsing.TrimStart | src/custom-hook/use-counter.js:10 | no contract of its own; `TrimStartSplits` and `TrimStartOf` state what it removes |
| Parsing.ParseSigned | src/custom-hook/use-counter.js:10 | no contract of its own; `ParseSignedOf` states how it reads each of the three signs |
| Parsing.ParseDigits | src/custom-hook/use-counter.js:10 | no contract of its own; `ParseDigitsOf` states the reading of a digit run, and `ParseIntNoDigits` the NaN of an empty one |
| Parsing.DigitPrefixLength | src/custom-hook/use-counter.js:10 | the digit prefix is no longer than the text; `DigitPrefixIsLongest` and `DigitPrefixOf` state that it is the longest run of digits |
| Parsing.Negate | src/custom-hook/use-counter.js:10 | no contract of its own: the sign product for a leading `-`, NaN staying NaN; `ParseSignedOf` and `ParseIntOfNumeral` state its effect |
| Parsing.DigitPrefixIsLongest | src/custom-hook/use-counter.js:10 | the prefix DigitPrefixLength measures is all digits and is followed by the end or a non-digit, so it is the longest digit prefix |
| Parsing.TrimStartSplits | src/custom-hook/use-counter.js:10 | trimming splits the text into leading white space and a rest that is empty or starts with a non-space |
| Parsing.TrimStartOf | src/custom-hook/use-counter.js:10 | white space followed by text not starting with a space trims to that text |
| Parsing.DigitPrefixOf | src/custom-hook/use-counter.js:10 | digits followed by a non-digit (or nothing) have exactly those digits as their digit prefix |
| Parsing.ParseSignedOf | src/custom-hook/use-counter.js:10 | a leading `-` negates the digits' reading, a leading `+` is dropped, and with no sign the digits are read directly |
| Parsing.ParseDigitsOf | src/custom-hook/use-counter.js:10 | a digit run followed by a non-digit reads as the value of that run |
| Parsing.TrimNumeral | src/custom-hook/use-counter.js:10 | white space before a sign and a digit is removed and nothing else is |
| Parsing.ParseIntOfNumeral | src/custom-hook/use-counter.js:10 | white space, an optional sign, a non-empty digit run and anything not starting with a digit parse to the signed value of the run |
| Parsing.ParseIntNoDigits | src/custom-hook/use-counter.js:10 | text whose first character after white space and sign is not a digit parses to NaN |
| Parsing.ParseIntOfToString | src/custom-hook/use-counter.js:10 | `parseInt` of the string form of any integer or NaN gives that same integer or NaN back |
| Parsing.ParseIntWholeNumeral | src/custom-hook/component-2.js:12 | "42" reads as 42 |
| Parsing.ParseIntNegativeNumeral | src/custom-hook/component-2.js:12 | "-12" reads as -12 |
| Parsing.ParseIntStopsAtPoint | src/custom-hook/component-2.js:12 | "3.7" reads as 3 |
| Parsing.ParseIntStopsAtExponent | src/custom-hook/component-2.js:12 | "1e3" reads as 1 |
| Parsing.ParseIntSkipsSpaceAndSign | src/custom-hook/component-2.js:12 | " \t+7 apples" reads as 7 |
| Parsing.ParseIntEmptyIsNaN | src/custom-hook/component-2.js:12 | "" reads as NaN |
| Parsing.ParseIntWordIsNaN | src/custom-hook/component-2.js:12 | "abc" reads as NaN |
| Parsing.ParseIntDetachedSignIsNaN | src/custom-hook/component-2.js:12 | "- 5" reads as NaN |
| UseCounter.AmountText | src/custom-hook/use-counter.js:10 | no contract of its own: the string `parseInt` reads from an amount; `ParseAmountIsParseInt` states what that reading gives |
| UseCounter.ParseAmount | src/custom-hook/use-counter.js:10 | no contract of its own: the Number an amount stands for; `ParseAmountIsParseInt` proves it equal to `parseInt(amount, 10)` |
| UseCounter.ParseAmountIsParseInt | src/custom-hook/use-counter.js:10 | `parseInt(amount, 10)`, which first turns a Number amount into its string, gives back the Number a Number amount holds |
| UseCounter.NextValue | src/custom-hook/use-counter.js:10 | no contract of its own: the reference transition, the value plus the Number the amount stands for; `NextValueIsParseIntSum` proves it equal to `parseInt(value, 10) + parseInt(amount, 10)`, and `IncrementByInteger`, `DefaultAmountKeepsValue` and `NonNumericTextPoisons` state its cases |
| UseCounter.NextValueIsParseIntSum | src/custom-hook/use-counter.js:10 | NextValue equals `parseInt(value, 10) + parseInt(amount, 10)` for every value and amount |
| UseCounter.Increments | src/custom-hook/use-counter.js:10 | no contract of its own: successive `increment` calls; `NaNIsAbsorbing`, `IncrementThenDecrement`, `ClicksCount` and `IncrementsByTexts` state its results |
| UseCounter.Counter.constructor | src/custom-hook/use-counter.js:3-4 | the cell starts at the initial value, 0 when none is given |
| UseCounter.Counter.Increment | src/custom-hook/use-counter.js:10 | the cell is overwritten with `parseInt(value, 10) + parseInt(amount, 10)`, which is NextValue of its old value; the default amount is 0 |
| UseCounter.IncrementByInteger | src/custom-hook/use-counter.js:10 | increment by an integer `n` takes an integer value `v` to `v + n` |
| UseCounter.DefaultAmountKeepsValue | src/custom-hook/use-counter.js:10 | `increment()` with the default amount 0 leaves any value unchanged |
| UseCounter.TextAmountAddsPrefix | src/custom-hook/component-2.js:12 | typed text whose signed digit prefix spells `k` adds `k` to an integer value |
| UseCounter.NonNumericTextPoisons | src/custom-hook/use-counter.js:10 | text that parses to NaN makes the value NaN |
| UseCounter.NaNIsAbsorbing | src/custom-hook/use-counter.js:10 | once the value is NaN, every later sequence of increments leaves it NaN |
| UseCounter.IncrementThenDecrement | src/custom-hook/index.js:11-12 | increment(1) then increment(-1), or the reverse, gives back the starting value |
| UseCounter.ClicksCount | src/custom-hook/index.js:11-12 | after any sequence of ±1 clicks from integer `v`, the value is `v` + #increments − #decrements |
| UseCounter.NumberInputChange | src/custom-hook/component-2.js:4-12 | the second component starts at 50 and shows 50 plus the parsed input text after its first change event |
| UseCounter.TextAmounts | src/custom-hook/component-2.js:12 | no contract of its own: one `Text` amount per change event; `IncrementsByTexts` and `TwoChangesAddBoth` state their effect |
| UseCounter.IncrementsByTexts | src/custom-hook/component-2.js:12 | when each text of a run of change events parses to an integer, the value ends at the start plus the sum of all of them: every event adds the whole current text again |
| UseCounter.TwoChangesAddBoth | src/custom-hook/component-2.js:4-12 | two change events on the 50-counter whose texts parse to `a` and `b` show `50 + a + b`: both texts are added |
| UseCounter.TypingOneThenTwelve | src/custom-hook/component-2.js:4-12 | typing "1" and then "12" into the input of the 50-counter shows 63, not 62 |
| TestingCustomHooks.App.constructor | src/testing-custom-hooks/index.js:3-4 | the cell starts at the initial value, 0 when none is given |
| TestingCustomHooks.App.Increment | src/testing-custom-hooks/index.js:10 | its own parse-and-add expression makes the same transition as `UseCounter.NextValue` |
| TestingCustomHooks.HookTest | src/testing-custom-hooks/index.test.js:4-16 | a hook created with the default holds 0 and holds 1 after increment(1) |
| TestingCustomHooks.PoisonedByText | src/testing-custom-hooks/index.js:10 | text that parses to NaN makes the value NaN, and any later increment keeps it NaN |
| Reducer.Reduce | src/use-reducer/reducer.js:3-12 | INCREMENT adds 1 to an integer count and DECREMENT subtracts 1; both keep every other field and give a NaN count when the count is missing or NaN; any other action returns the state itself |
| Reducer.CountOperand | src/use-reducer/reducer.js:6-8 | no contract of its own: `state.count` as an operand of `+`, NaN when the field is missing; `Reduce` states the resulting count |
| Reducer.WithCountShifted | src/use-reducer/reducer.js:6-8 | no contract of its own: `{ ...state, count: state.count + d }`; `ShiftTwice` and `RunShiftsCount` state how shifts combine |
| Reducer.Run | src/use-reducer/index.js:11-17 | no contract of its own: a sequence of `dispatch` calls; `RunShiftsCount`, `CountFromInitialState` and `RunIgnoresOrder` state its result |
| Reducer.ShiftTwice | src/use-reducer/reducer.js:6-8 | on a record with a count, a shift by `d1` and then by `d2` is one shift by `d1 + d2` |
| Reducer.IncrementDecrementRoundTrip | src/use-reducer/reducer.js:5-8 | on a record with a count, INCREMENT then DECREMENT (or the reverse) gives back the same record |
| Reducer.DecrementBelowZero | src/use-reducer/reducer.js:7-8 | DECREMENT from `{ count: 0 }` gives count −1: there is no clamping |
| Reducer.ReduceShifts | src/use-reducer/reducer.js:4-11 | one dispatch on a record with a count shifts the count by +1 for INCREMENT, −1 for DECREMENT and 0 for any other type |
| Reducer.RunShiftsCount | src/use-reducer/reducer.js:4-11 | any action sequence on a record with a count moves the count by #INCREMENT − #DECREMENT and changes nothing else |
| Reducer.CountFromInitialState | src/use-reducer/index.js:6-11 | from `{ count: 0 }` the state after any actions is `{ count: #INCREMENT − #DECREMENT }` |
| Reducer.RunIgnoresOrder | src/use-reducer/reducer.js:4-11 | two action sequences with the same actions in a different order end in the same state |
| CounterContext.Merge | src/use-context/counter-context.js:8 | the merged record has the union of the keys, every key of the update holds the update's value, and every other key keeps its old value |
| CounterContext.CounterProvider.constructor | src/use-context/counter-context.js:3-7 | the provider's record starts as `{ count: 0 }` |
| CounterContext.CounterProvider.UpdateContext | src/use-context/counter-context.js:8 | the record becomes the merge of the old record and the update, and it keeps a count |
| CounterContext.CounterProvider.Click | src/use-context/index.js:16-17 | on a provider whose record has a count, a button click merges `{ count: count + delta }` into the record, and the record keeps its count |
| CounterContext.MergeEmptyIsIdentity | src/use-context/counter-context.js:8 | merging `{}` leaves the record unchanged |
| CounterContext.MergeIsIdempotent | src/use-context/counter-context.js:8 | merging the same update twice gives the same record as merging it once |
| CounterContext.MergeSetsCount | src/use-context/counter-context.js:8 | merging `{ count: n }` makes the count `n` |
| CounterContext.ClickUpdate | src/use-context/index.js:16-17 | no contract of its own: the partial record `{ count: context.count + delta }` a button passes; `MergeSetsCount` and `ClicksCount` state its effect |
| CounterContext.DecrementThenIncrementRestores | src/use-context/index.js:16-17 | a Decrement click then an Increment click gives back the same record |
| CounterContext.AfterClicks | src/use-context/index.js:16-17 | clicking never removes the count from the record |
| CounterContext.ClicksCount | src/use-context/index.js:16-17 | from a record `{ count: c }`, any click sequence gives `{ count: c + #increments − #decrements }` |

## Left out

- The view components and their JSX (`src/App.js`, `src/use-state/index.js`, `src/use-effect/index.js`, the demo `index.js` files, `src/custom-hook/component-2.js`, `src/testing-components/index.js`): rendering and event wiring. Their handlers appear only as callers of the modelled operations.
- The `document.title` effects in `src/use-effect/index.js:7-9`, `src/custom-hook/use-counter.js:6-8` and `src/testing-custom-hooks/index.js:6-8`: DOM side effects run after rendering.
- React's runtime: re-render scheduling, batching, `useReducer`'s dispatch queue, and context subscription and broadcast to consumers. Each store is one cell updated synchronously.
- Stale closures: `increment` and the context buttons read the value captured at the last render, so two updates in one event would both start from the same value. The model always reads the current cell.
- The context's fallback value `[defaultState, () => {}]` (`src/use-context/counter-context.js:4`), seen only by consumers outside a provider; the demo has none.
- The reducer's default `state = {}` (`src/use-reducer/reducer.js:3`), which applies only when the state is undefined; React never passes that here.
- The bodies of `./action-types` and `./actions`, which are not part of this model; the action types are two distinct abstract tags plus any other tag.
- Record fields whose values are not Numbers: the reducer and the merge never look at them, but a `count` holding a string would concatenate under `+`.
- JavaScript Number details: precision above 2^53, negative zero (`parseInt("-0")` gives 0 here), the exponential `ToString` of magnitudes of 10^21 and more, digit runs beyond the largest double, which `parseInt` rounds to Infinity (whose `ToString` "Infinity" the next `parseInt` reads as NaN), and Number amounts or values that are not integers.
- Parsing.ParseInt: white space is the ASCII part of ECMA-262's StrWhiteSpaceChar (tab, line feed, vertical tab, form feed, carriage return, space); the other Unicode spaces and line terminators are not skipped.
