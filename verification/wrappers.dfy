/**
 Failure-carrying datatypes used by every module: an optional value, and the
 result of a Python call that either returns a value or raises an `Exc`.
 */
module Wrappers {
  import opened Errors

  datatype Option<+T> = None | Some(value: T) {
    function GetOr(default: T): T {
      match this
      case Some(v) => v
      case None => default
    }
  }

  /** What a call produced: its return value, or the exception it raised. */
  datatype Result<+T> = Ok(value: T) | Err(exc: Exc) {
    predicate IsFailure() {
      Err?
    }

    function PropagateFailure<U>(): Result<U>
      requires Err?
    {
      Err(exc)
    }

    function Extract(): T
      requires Ok?
    {
      value
    }
  }

  /** Python truthiness of an optional string: `None` and `""` are false. */
  predicate Truthy(o: Option<string>) {
    o.Some? && o.value != ""
  }

  /** Python truthiness of an optional list: `None` and `[]` are false. */
  predicate TruthyList<T>(o: Option<seq<T>>) {
    o.Some? && |o.value| > 0
  }
}
