/**
  The Option container: a closed two-variant sum type whose `Some` holds one
  value and whose `None` holds nothing, with its static factories and the
  synchronous combinators of the `Some` and `None` classes.

  Every callback a combinator takes is a Dafny function that yields an
  `Outcome`: the callback either returns a value or throws. No combinator
  catches what a callback throws, so a `Threw` comes out of the combinator
  unchanged; among the synchronous members only `OfThrowable` catches. A
  callback a combinator does not call cannot influence its result, which is
  how laziness shows up here.
 */
module Optional {
  import opened JsValues

  /** The message of the Error thrown by `unwrap` on None when no argument is given. */
  const NoValueMessage: string := "No value in Option"

  /** The optional argument of `unwrap`: absent, a message string, or an Error. */
  datatype UnwrapArg = NoArg | Message(text: string) | Raise(error: ErrorObject)

  /** The value `unwrap` throws on None for the given argument. */
  function UnwrapFailure(arg: UnwrapArg): (e: ErrorObject)
    ensures arg.NoArg? ==> e.message == NoValueMessage
    ensures arg.Message? ==> e.message == arg.text
    ensures arg.Raise? ==> e == arg.error
  {
    match arg
    case NoArg => Error(NoValueMessage)
    case Message(s) => Error(s)
    case Raise(err) => err
  }

  datatype Option<+T> = Some(value: T) | None {

    /** The tag test of the `Some` variant; it and `IsNone` exclude each other
        and between them cover both variants. */
    predicate IsSome(): (r: bool)
      ensures r != IsNone()
    {
      Some?
    }

    predicate IsNone()
    {
      None?
    }

    /** The contained value, or the failure chosen by `arg` when there is none. */
    function Unwrap(arg: UnwrapArg): (r: Outcome<T>)
      ensures r.Returned? <==> IsSome()
      ensures r.Returned? ==> r.value == value
      ensures r.Threw? ==> r.error == UnwrapFailure(arg)
    {
      match this
      case Some(v) => Returned(v)
      case None => Threw(UnwrapFailure(arg))
    }

    /** The contained value; the fallback is called only on None. */
    function GetOrElse(other: () -> Outcome<T>): (r: Outcome<T>)
      ensures IsSome() ==> r == Returned(value)
      ensures IsNone() ==> r == other()
    {
      match this
      case Some(v) => Returned(v)
      case None => other()
    }

    /** This option when it is Some; otherwise the option the fallback yields. */
    function OrElse(other: () -> Outcome<Option<T>>): (r: Outcome<Option<T>>)
      ensures IsSome() ==> r == Returned(this)
      ensures IsNone() ==> r == other()
    {
      match this
      case Some(_) => Returned(this)
      case None => other()
    }

    /** Whether the contained value satisfies the predicate; false on None. */
    function Satisfies(test: T -> Outcome<bool>): (r: Outcome<bool>)
      ensures IsSome() ==> r == test(value)
      ensures IsNone() ==> r == Returned(false)
    {
      match this
      case Some(v) => test(v)
      case None => Returned(false)
    }

    /** `of(mapper(v))` on Some(v), so a nullish result gives None; None passes through. */
    function Map<U>(mapper: T -> Outcome<Nullable<U>>): (r: Outcome<Option<U>>)
      ensures IsNone() ==> r == Returned(None)
      ensures IsSome() && mapper(value).Threw? ==> r == Threw(mapper(value).error)
      ensures IsSome() && mapper(value).Returned? ==> r == Returned(Of(mapper(value).value))
    {
      match this
      case Some(v) =>
        var x :- mapper(v);
        Returned(Of(x))
      case None => Returned(None)
    }

    /** This option when it holds a value satisfying the predicate, None otherwise. */
    function Filter(test: T -> Outcome<bool>): (r: Outcome<Option<T>>)
      ensures r.Returned? ==> r.value == this || r.value == None
      ensures r.Returned? ==> (r.value.IsSome() <==> Satisfies(test) == Returned(true))
      ensures r.Threw? <==> Satisfies(test).Threw?
      ensures r.Threw? ==> r.error == Satisfies(test).error
    {
      match this
      case Some(v) =>
        var keep :- test(v);
        if keep then Returned(this) else Returned(MakeNone())
      case None => Returned(None)
    }

    /** `reducer(initial, v)` on Some(v); `initial` on None. */
    function Reduce<U>(initial: U, reducer: (U, T) -> Outcome<U>): (r: Outcome<U>)
      ensures IsSome() ==> r == reducer(initial, value)
      ensures IsNone() ==> r == Returned(initial)
    {
      match this
      case Some(v) => reducer(initial, v)
      case None => Returned(initial)
    }

    /** Exactly one of the two branches is called: `ifSome(v)` on Some(v), `ifNone()` on None. */
    function Fold<U>(ifSome: T -> Outcome<U>, ifNone: () -> Outcome<U>): (r: Outcome<U>)
      ensures IsSome() ==> r == ifSome(value)
      ensures IsNone() ==> r == ifNone()
    {
      match this
      case Some(v) => ifSome(v)
      case None => ifNone()
    }

    /** The deprecated name of `Fold`, forwarding to it on both variants. */
    function Match<U>(ifSome: T -> Outcome<U>, ifNone: () -> Outcome<U>): (r: Outcome<U>)
      ensures IsSome() ==> r == ifSome(value)
      ensures IsNone() ==> r == ifNone()
    {
      Fold(ifSome, ifNone)
    }

    /** Whether both options are None, or both are Some with values the comparator
        relates. The comparator is consulted only when both are Some. */
    function Equals(other: Option<T>, comparator: (T, T) -> Outcome<bool>): (r: Outcome<bool>)
      ensures IsNone() ==> r == Returned(other.IsNone())
      ensures IsSome() && other.IsNone() ==> r == Returned(false)
      ensures IsSome() && other.IsSome() ==> r == comparator(value, other.value)
    {
      match this
      case Some(v) =>
        if other.IsNone() then Returned(false) else comparator(v, other.value)
      case None => Returned(other.IsNone())
    }

    /** `mapper(v)` itself on Some(v), with no re-wrapping; None passes through. */
    function FlatMap<U>(mapper: T -> Outcome<Option<U>>): (r: Outcome<Option<U>>)
      ensures IsSome() ==> r == mapper(value)
      ensures IsNone() ==> r == Returned(None)
    {
      match this
      case Some(v) => mapper(v)
      case None => Returned(None)
    }

    /** The contained value, or `null`; `of` takes it back to this option. */
    function ToNullable(): (r: Nullable<T>)
      ensures Of(r) == this
      ensures !r.Undefined?
    {
      match this
      case Some(v) => Val(v)
      case None => Null
    }

    /** The contained value, or `undefined`; `of` takes it back to this option. */
    function ToUndefined(): (r: Nullable<T>)
      ensures Of(r) == this
      ensures !r.Null?
    {
      match this
      case Some(v) => Val(v)
      case None => Undefined
    }
  }

  /** `Option.some`: a Some holding the given value. */
  function MakeSome<T>(value: T): (r: Option<T>)
    ensures r.IsSome() && r.value == value
  {
    Some(value)
  }

  /** `Option.none`: the empty option. */
  function MakeNone<T>(): (r: Option<T>)
    ensures r.IsNone()
  {
    None
  }

  /** `Option.of`: None exactly for `null` and `undefined`, otherwise Some of the value. */
  function Of<T>(value: Nullable<T>): (r: Option<T>)
    ensures r.IsNone() <==> value.IsNullish()
    ensures r.IsSome() ==> value == Val(r.value)
  {
    if value.Undefined? || value.Null? then MakeNone() else MakeSome(value.value)
  }

  /** `Option.ofThrowable`: None when the thunk throws, otherwise `of` of what it returned. */
  function OfThrowable<T>(thunk: () -> Outcome<Nullable<T>>): (r: Option<T>)
    ensures thunk().Threw? ==> r.IsNone()
    ensures thunk().Returned? ==> r == Of(thunk().value)
  {
    match thunk()
    case Returned(x) => Of(x)
    case Threw(_) => MakeNone()
  }

  /** The default comparator of `equals`, strict equality `===`, which never throws.
      Dafny equality agrees with `===` where `===` is value equality (strings,
      booleans, numbers other than NaN); NaN is not modelled. */
  function StrictEquality<T(==)>(a: T, b: T): (r: Outcome<bool>)
    ensures r.Returned? && (r.value <==> a == b)
  {
    Returned(a == b)
  }

  /** `o.equals(other)` with the default comparator: it never throws, and it holds
      exactly when the two options are equal. */
  function DefaultEquals<T(==)>(o: Option<T>, other: Option<T>): (r: bool)
    ensures r <==> o == other
  {
    o.Equals(other, (a, b) => StrictEquality(a, b)).value
  }
}
