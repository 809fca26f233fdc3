/** Results that may be missing. */
module Wrappers {

  datatype Option<T> = None | Some(value: T)

  /** What a parser makes of its input: nothing, or a value and the rest of the input. */
  datatype Parsed<T> = Bad | Ok(value: T, rest: string) {
    predicate IsFailure() {
      Bad?
    }

    function PropagateFailure<U>(): Parsed<U>
      requires Bad?
    {
      Bad
    }

    function Extract(): (T, string)
      requires Ok?
    {
      (value, rest)
    }
  }
}
