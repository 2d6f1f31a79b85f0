/**
  The JavaScript runtime notions the Option container is built on: a value
  that may be `null` or `undefined`, a value raised by `throw`, and what a
  call of a user-supplied callback did (it returned, or it threw).
 */
module JsValues {

  /** A value of type `T | null | undefined`. */
  datatype Nullable<+T> = Null | Undefined | Val(value: T) {

    /** True for `null` and `undefined`, the two values `of` collapses to None. */
    predicate IsNullish() {
      Null? || Undefined?
    }
  }

  /** A value raised by `throw`: an Error object carrying its message, or any
      other value (a thrown string, number, ...), described by its text. */
  datatype Thrown = Error(message: string) | NonError(text: string)

  /** An Error object: what `unwrap` accepts as the error to throw. */
  type ErrorObject = t: Thrown | t.Error? witness Error("")

  /** What a call of a callback did. A combinator that does not catch lets a
      `Threw` through unchanged; `:-` on an Outcome expresses exactly that. */
  datatype Outcome<+R> = Returned(value: R) | Threw(error: Thrown) {

    predicate IsFailure() {
      Threw?
    }

    function PropagateFailure<U>(): Outcome<U>
      requires Threw?
    {
      Threw(error)
    }

    function Extract(): R
      requires Returned?
    {
      value
    }
  }
}
