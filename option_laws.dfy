/**
  Laws of the Option container: how the factories, the tag tests, the
  transformations, the fallbacks and equality relate to one another.
 */
module OptionLaws {
  import opened JsValues
  import opened Optional

  // ---------------------------------------------------------------- factories

  /** Every option is what `of` yields for some nullable value. */
  lemma OfSurjective<T>(o: Option<T>)
    ensures exists x: Nullable<T> :: Of(x) == o
  {
    var x := o.ToNullable();
    assert Of(x) == o;
  }

  /** `of(x).toNullable()` gives back `x` for every `x` but `undefined`, and
      `of(undefined).toNullable()` is `null`. */
  lemma OfToNullable<T>(x: Nullable<T>)
    ensures !x.Undefined? ==> Of(x).ToNullable() == x
    ensures x.Undefined? ==> Of(x).ToNullable() == Null
  {
  }

  /** `of(x).toUndefined()` gives back `x` for every `x` but `null`. */
  lemma OfToUndefined<T>(x: Nullable<T>)
    ensures !x.Null? ==> Of(x).ToUndefined() == x
    ensures x.Null? ==> Of(x).ToUndefined() == Undefined
  {
  }

  /** `ofThrowable(f)` is None exactly when `f` throws or returns a nullish value. */
  lemma OfThrowableNone<T>(thunk: () -> Outcome<Nullable<T>>)
    ensures OfThrowable(thunk).IsNone() <==> thunk().Threw? || thunk().value.IsNullish()
  {
  }

  // ---------------------------------------------------------------------- map

  /** Mapping with a mapper that returns its argument unchanged is the identity. */
  lemma MapIdentity<T>(o: Option<T>)
    ensures o.Map((v: T) => Returned(Val(v))) == Returned(o)
  {
  }

  /** `map(f)` is `flatMap` of `f` followed by `of`. */
  lemma MapIsFlatMapOf<T, U>(o: Option<T>, mapper: T -> Outcome<Nullable<U>>)
    ensures o.Map(mapper) == o.FlatMap((v: T) => var x :- mapper(v); Returned(Of(x)))
  {
  }

  /** On None, map yields None whatever the mapper, even one that would throw.
      A restatement of one clause of `Map`, mirroring src/option/map.test.ts:9-22. */
  lemma MapIgnoresMapperOnNone<T, U>(f: T -> Outcome<Nullable<U>>, g: T -> Outcome<Nullable<U>>)
    ensures None.Map(f) == None.Map(g) == Returned(None)
  {
  }

  /** A mapper that throws on the contained value makes map throw the same value.
      A restatement of one clause of `Map`, mirroring src/option/map.test.ts:24-40. */
  lemma MapPropagatesThrow<T, U>(v: T, mapper: T -> Outcome<Nullable<U>>, e: Thrown)
    requires mapper(v) == Threw(e)
    ensures Some(v).Map(mapper) == Threw(e)
  {
  }

  /** Map yields Some exactly when the option is Some and the mapper returns a
      value that is neither null nor undefined. */
  lemma MapSomeIff<T, U>(o: Option<T>, mapper: T -> Outcome<Nullable<U>>)
    ensures (o.Map(mapper).Returned? && o.Map(mapper).value.IsSome()) <==>
            (o.IsSome() && mapper(o.value).Returned? && mapper(o.value).value.Val?)
  {
  }

  /** Mapping twice with mappers that do not throw is mapping once with their
      composition, where a nullish intermediate result ends the chain. */
  lemma MapCompose<T, U, W>(o: Option<T>, f: T -> Nullable<U>, g: U -> Nullable<W>)
    ensures
      (var m :- o.Map((v: T) => Returned(f(v))); m.Map((u: U) => Returned(g(u))))
      == o.Map((v: T) => Returned(match f(v) case Val(u) => g(u) case _ => Null))
  {
  }

  // ------------------------------------------------------------------- filter

  /** Filtering the result of a filter with the same predicate changes nothing. */
  lemma FilterIdempotent<T>(o: Option<T>, test: T -> Outcome<bool>)
    ensures o.Filter(test).Returned? ==> o.Filter(test).value.Filter(test) == o.Filter(test)
  {
  }

  /** Two filters in a row are one filter with the short-circuit conjunction of
      their predicates. */
  lemma FilterFilter<T>(o: Option<T>, p: T -> Outcome<bool>, q: T -> Outcome<bool>)
    ensures (var m :- o.Filter(p); m.Filter(q))
            == o.Filter((v: T) => var a :- p(v); if a then q(v) else Returned(false))
  {
  }

  /** Filter only ever removes: it never turns None into Some.
      A restatement of one clause of `Filter`, mirroring src/option/filter.test.ts:14-27. */
  lemma FilterNone<T>(test: T -> Outcome<bool>)
    ensures None.Filter(test) == Returned(None)
  {
  }

  // ---------------------------------------------------------------- flat map

  /** flatMap of Some(v) is the mapper's own result for v: the left-identity
      monad law, a restatement of one clause of `FlatMap`. */
  lemma FlatMapLeftIdentity<T, U>(v: T, mapper: T -> Outcome<Option<U>>)
    ensures MakeSome(v).FlatMap(mapper) == mapper(v)
  {
  }

  /** flatMap with `some` is the identity. */
  lemma FlatMapRightIdentity<T>(o: Option<T>)
    ensures o.FlatMap((v: T) => Returned(MakeSome(v))) == Returned(o)
  {
  }

  /** Nested flatMaps can be regrouped. */
  lemma FlatMapAssociative<T, U, W>(o: Option<T>, f: T -> Outcome<Option<U>>, g: U -> Outcome<Option<W>>)
    ensures (var m :- o.FlatMap(f); m.FlatMap(g))
            == o.FlatMap((v: T) => var m :- f(v); m.FlatMap(g))
  {
  }

  // --------------------------------------------------------------- fallbacks

  /** `getOrElse(f)` is a fold that returns the value on Some and calls `f` on None. */
  lemma GetOrElseIsFold<T>(o: Option<T>, other: () -> Outcome<T>)
    ensures o.GetOrElse(other) == o.Fold((v: T) => Returned(v), other)
  {
  }

  /** `reduce(init, r)` is a fold that applies `r` to `init` and the value. */
  lemma ReduceIsFold<T, U>(o: Option<T>, initial: U, reducer: (U, T) -> Outcome<U>)
    ensures o.Reduce(initial, reducer)
            == o.Fold((v: T) => reducer(initial, v), () => Returned(initial))
  {
  }

  /** `match` and `fold` agree on both variants. */
  lemma MatchIsFold<T, U>(o: Option<T>, ifSome: T -> Outcome<U>, ifNone: () -> Outcome<U>)
    ensures o.Match(ifSome, ifNone) == o.Fold(ifSome, ifNone)
  {
  }

  /** On Some, neither fallback matters: getOrElse and orElse ignore them.
      A restatement of the Some clauses of `GetOrElse` and `OrElse`, mirroring
      src/option/get-or-else.test.ts:4-7 and src/option/or-else.test.ts:4-7. */
  lemma FallbacksLazyOnSome<T>(v: T, f1: () -> Outcome<T>, f2: () -> Outcome<T>,
                               g1: () -> Outcome<Option<T>>, g2: () -> Outcome<Option<T>>)
    ensures Some(v).GetOrElse(f1) == Some(v).GetOrElse(f2) == Returned(v)
    ensures Some(v).OrElse(g1) == Some(v).OrElse(g2) == Returned(Some(v))
  {
  }

  /** Where unwrap succeeds, getOrElse returns the same value for any fallback;
      unwrap fails exactly on the options whose `toNullable()` is null. */
  lemma UnwrapAgreesWithGetOrElse<T>(o: Option<T>, arg: UnwrapArg, other: () -> Outcome<T>)
    ensures o.Unwrap(arg).Returned? ==> o.GetOrElse(other) == o.Unwrap(arg)
    ensures o.Unwrap(arg).Threw? <==> o.ToNullable() == Null
  {
  }

  // ----------------------------------------------------------------- equality

  /** Equality only ever holds between options with the same tag, whatever the
      comparator says. */
  lemma EqualsRespectsTag<T>(a: Option<T>, b: Option<T>, comparator: (T, T) -> Outcome<bool>)
    ensures a.Equals(b, comparator) == Returned(true) ==> a.IsSome() == b.IsSome()
  {
  }

  /** With a symmetric comparator, equals is symmetric. */
  lemma EqualsSymmetric<T>(a: Option<T>, b: Option<T>, comparator: (T, T) -> Outcome<bool>)
    requires forall x, y :: comparator(x, y) == comparator(y, x)
    ensures a.Equals(b, comparator) == b.Equals(a, comparator)
  {
  }

  /** With a reflexive comparator, every option equals itself. */
  lemma EqualsReflexive<T>(a: Option<T>, comparator: (T, T) -> Outcome<bool>)
    requires forall x :: comparator(x, x) == Returned(true)
    ensures a.Equals(a, comparator) == Returned(true)
  {
  }

  /** With a comparator that is transitive on true results, equals is transitive
      on true results. */
  lemma EqualsTransitive<T>(a: Option<T>, b: Option<T>, c: Option<T>, comparator: (T, T) -> Outcome<bool>)
    requires forall x, y, z :: comparator(x, y) == Returned(true) && comparator(y, z) == Returned(true)
                               ==> comparator(x, z) == Returned(true)
    ensures a.Equals(b, comparator) == Returned(true) && b.Equals(c, comparator) == Returned(true)
            ==> a.Equals(c, comparator) == Returned(true)
  {
  }

  /** The cases the equality tests pin down, on strings: same and different
      values with `===`, a comparator on lengths and one that always agrees. */
  lemma EqualsScenarios()
    ensures DefaultEquals(MakeNone<string>(), MakeNone())
    ensures !DefaultEquals(MakeNone(), Of(Val("foo")))
    ensures DefaultEquals(Of(Val("foo")), Of(Val("foo")))
    ensures !DefaultEquals(Of(Val("foo")), Of(Val("bar")))
    ensures Of(Val("foo")).Equals(Of(Val("bar")), (a: string, b: string) => Returned(|a| == |b|)) == Returned(true)
    ensures Of(Val("foo")).Equals(MakeNone(), (a: string, b: string) => Returned(true)) == Returned(false)
  {
  }
}
