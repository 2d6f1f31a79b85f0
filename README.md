# Option container: a Dafny model

This project models the `Option<T>` container of the `ooptional` TypeScript
library (`index.ts`). An Option is a closed two-variant sum type. `Some`
holds one value and `None` holds nothing. The model covers the static
factories `some`, `none`, `of` and `ofThrowable`, and every synchronous
combinator of the `Some` and `None` classes. It also proves the laws that
tie those operations together.

Three modules:

- `JsValues` (`js_values.dfy`) holds the JavaScript notions the container
  works with. `Nullable<T>` is a value of type `T | null | undefined`.
  `Thrown` is a value raised by `throw`: an Error with a message, or any
  other value. `Outcome<R>` is what a callback call did: it returned or it
  threw.
- `Optional` (`option.dfy`) holds the datatype `Option<T> = Some(value) | None`
  with one member function per combinator, and the factories as
  module-level functions.
- `OptionLaws` (`option_laws.dfy`) holds the lemmas. They cover the `of` and
  `toNullable` round trips, the map and filter laws, the monad laws of
  `flatMap`, fallbacks written as folds, and equality.

How the source's behaviour is represented:

- Every callback is a Dafny function returning an `Outcome`. No synchronous
  member of `index.ts` catches except `ofThrowable`, so every combinator
  passes a callback's `Threw` through unchanged. The `:-` operator expresses this.
- Laziness means the result does not depend on a callback the combinator
  does not call. For example, `Some(v).getOrElse(f)` is `v` even for an `f`
  that throws.
- `unwrap` on None returns `Threw` carrying the Error it throws: one with
  the message "No value in Option" by default, one with the given string,
  or the given Error itself.
- `equals` takes its comparator as a parameter. The default `===` is
  modelled by `StrictEquality`, Dafny equality on a type that has it. That
  agrees with `===` only where `===` is value equality (see "## Left out").
  `DefaultEquals` is `equals` called with that default.

Two facts about `index.ts` that the older API under `tests/` contradicts:

- `some` does no null check at run time (index.ts:33-34). A `some` that
  throws on null is not part of this model. The type parameter `T` is meant
  to range over non-nullable types, as `T extends NonNullable<unknown>`
  says (index.ts:17).
- `map`, `filter` and `flatMap` let callback exceptions propagate
  (index.ts:454-456, 464-470, 515-517), as
  `src/option/map.test.ts:24-40` also shows.

## Model

| member | source | states |
|---|---|---|
| Optional.UnwrapFailure | index.ts:563-569 | With no argument, unwrap on None throws an Error whose message is "No value in Option". With a string, it throws an Error carrying that string. With an Error, it throws that Error. |
| Optional.Option.IsSome | index.ts:416-422 | `isSome` and `isNone` exclude each other and together cover both variants. |
| Optional.Option.Unwrap | index.ts:424-426 | Unwrap returns exactly on Some, and then returns the contained value. On None it throws `UnwrapFailure(arg)`. |
| Optional.Option.GetOrElse | index.ts:428-430 | On Some it returns the contained value without calling the fallback. On None it returns whatever the fallback returns or throws. |
| Optional.Option.OrElse | index.ts:579-581 | On Some it returns the option itself. On None it returns the fallback's result. |
| Optional.Option.Satisfies | index.ts:444-446 | On Some(v) the result is `predicate(v)`. On None it is false, whatever the predicate. |
| Optional.Option.Map | index.ts:452-456 | None passes through. On Some(v) the result is `of(mapper(v))`, so a nullish result gives None. A throw from the mapper propagates. |
| Optional.Option.Filter | index.ts:464-470 | The result is the option itself or None. It is Some exactly when `satisfies` returns true. It throws exactly when `satisfies` throws, with the same value. |
| Optional.Option.Reduce | index.ts:480-482 | On Some(v) the result is `reducer(initial, v)`. On None it is `initial`. |
| Optional.Option.Fold | index.ts:496-498 | On Some(v) the result is `ifSome(v)`. On None it is `ifNone()`. |
| Optional.Option.Match | index.ts:530-532 | On Some(v) the result is `ifSome(v)`. On None it is `ifNone()`. |
| Optional.Option.Equals | index.ts:488-494 | None equals exactly the options that are None. Some never equals None, whatever the comparator. Two Somes are related by the comparator's result on their values. |
| Optional.Option.FlatMap | index.ts:515-517 | On Some(v) the result is `mapper(v)` itself, with no re-wrapping. None passes through. |
| Optional.Option.ToNullable | index.ts:545-547 | The result is never `undefined`, and `of` maps it back to the same option. |
| Optional.Option.ToUndefined | index.ts:549-551 | The result is never `null`, and `of` maps it back to the same option. |
| Optional.MakeSome | index.ts:32-35 | `some(v)` is Some and holds `v`. |
| Optional.MakeNone | index.ts:43-45 | `none()` is None. |
| Optional.Of | index.ts:57-63 | `of(x)` is None exactly when `x` is null or undefined. Otherwise it is Some holding `x`. |
| Optional.OfThrowable | index.ts:75-81 | If the thunk throws, the result is None. Otherwise it is `of` of the returned value. |
| Optional.StrictEquality | index.ts:488 | The default comparator never throws and holds exactly for equal values. |
| Optional.DefaultEquals | src/option/equals.test.ts:4-32 | Equals with the default comparator never throws. It holds exactly when the two options are equal. |
| OptionLaws.OfSurjective | index.ts:57-63 | For every option there is a nullable value that `of` maps to it. |
| OptionLaws.OfToNullable | index.ts:665-667 | `of(x).toNullable()` gives back `x` whenever `x` is not undefined. `of(undefined).toNullable()` is null. |
| OptionLaws.OfToUndefined | index.ts:669-671 | `of(x).toUndefined()` gives back `x` whenever `x` is not null. `of(null).toUndefined()` is undefined. |
| OptionLaws.OfThrowableNone | src/option/of-throwable.test.ts:9-21 | `ofThrowable(f)` is None exactly when `f` throws or returns null or undefined. |
| OptionLaws.MapIdentity | index.ts:454-456 | Mapping with the identity mapper returns the same option. |
| OptionLaws.MapIsFlatMapOf | index.ts:454-456 | `map(f)` is `flatMap` of `v => of(f(v))`, so a throw from `f` propagates either way. |
| OptionLaws.MapIgnoresMapperOnNone | index.ts:595-597 | On None, map returns None whatever the mapper, including one that would throw. |
| OptionLaws.MapPropagatesThrow | src/option/map.test.ts:24-40 | A mapper that throws on the contained value makes map throw the same value. |
| OptionLaws.MapSomeIff | src/option/map.test.ts:42-52 | Map yields Some exactly when the option is Some and the mapper returns a value that is not null or undefined. |
| OptionLaws.MapCompose | index.ts:454-456 | For mappers that do not throw, two maps in a row equal one map with the composed mapper. A nullish intermediate result ends the chain. |
| OptionLaws.FilterIdempotent | index.ts:464-470 | Filtering a filter's result again with the same predicate gives the same result. |
| OptionLaws.FilterFilter | index.ts:464-470 | Two filters in a row equal one filter with the short-circuit conjunction of the two predicates. |
| OptionLaws.FilterNone | index.ts:603-605 | On None, filter returns None whatever the predicate. |
| OptionLaws.FlatMapLeftIdentity | index.ts:515-517 | `some(v).flatMap(f)` equals `f(v)`. |
| OptionLaws.FlatMapRightIdentity | index.ts:635-637 | `o.flatMap(some)` equals `o` on both variants. |
| OptionLaws.FlatMapAssociative | index.ts:515-517 | Nested flatMaps can be regrouped, and a throw surfaces the same way in both groupings. |
| OptionLaws.GetOrElseIsFold | index.ts:571-573 | `getOrElse(f)` equals a fold that returns the value on Some and calls `f` on None. |
| OptionLaws.ReduceIsFold | index.ts:611-613 | `reduce(init, r)` equals a fold applying `r` to `init` and the value, with `init` on None. |
| OptionLaws.MatchIsFold | index.ts:650-652 | `match` and `fold` agree on both variants for every pair of branches. |
| OptionLaws.FallbacksLazyOnSome | index.ts:428-438 | On Some, getOrElse and orElse return the same result for every fallback. |
| OptionLaws.UnwrapAgreesWithGetOrElse | index.ts:424-430 | Where unwrap succeeds, getOrElse returns the same value for every fallback. Unwrap fails exactly when `toNullable()` is null. |
| OptionLaws.EqualsRespectsTag | index.ts:627-629 | Equals holds only between options with the same tag, whatever the comparator. |
| OptionLaws.EqualsSymmetric | index.ts:488-494 | A symmetric comparator makes equals symmetric. |
| OptionLaws.EqualsReflexive | index.ts:488-494 | A reflexive comparator makes every option equal itself. |
| OptionLaws.EqualsTransitive | index.ts:488-494 | A comparator that is transitive on true results makes equals transitive on true results. |
| OptionLaws.EqualsScenarios | src/option/equals.test.ts:4-62 | On strings: two Nones are equal, and None differs from Some. `===` tells "foo" from "bar". A length comparator relates them. A comparator that always returns true still does not make Some equal None. |

## Left out

- The `*Async` combinators and `ofThrowableAsync` (index.ts:93-99, 432-521, 541-543, 575-641, 661-663). They await a promise around the same branch on the tag. Dafny has no promises.
- Object identity. A test that expects the same instance (`toBe`) is modelled as value equality. `===` on two distinct objects (src/option/equals.test.ts:34-38) cannot be expressed, so the default comparator is equality on a type that has it.
- StrictEquality: it matches `===` only where `===` is value equality: strings, booleans, and numbers other than NaN. Dafny equality is reflexive, but `NaN === NaN` is false, so `of(NaN).equals(of(NaN))` is false at index.ts:488. NaN is not modelled, and neither is `0 === -0`.
- DefaultEquals: it inherits the limits of StrictEquality above, so "equal exactly when the options are equal" holds only for types whose `===` is value equality.
- Some's `get()` (index.ts:412-414). It is the datatype's `value` field, which is defined only on Some, just as `get` is declared only on Some.
- TypeScript-only typing: overload signatures, `NonNullable` constraints and `this is Some<T>` type guards (index.ts:2, 32-33, 111, 452-460).
- MakeSome: `some(null)` reached by bypassing the static types is not modelled, and index.ts:33-34 has no runtime check to model. `T` is meant to range over non-nullable types (index.ts:17). Nothing in Dafny enforces that. When `T` is itself a `Nullable<U>`, `MakeSome(Null)` is a Some, and `Of(Val(Null))` is `Some(Null)`. `Nullable` does not flatten nested nullish values the way a JavaScript union does.
- The older API exercised only by the tests under `tests/`: `ofNullable`, a `some` that throws on null, a `map` and `filter` that swallow exceptions, and a `getOrElse` with a plain value. index.ts implements none of these.
- How often a callback runs, and its side effects. Callbacks are pure functions here, so "called at most once" reads as "the result depends only on the callbacks the branch calls".
