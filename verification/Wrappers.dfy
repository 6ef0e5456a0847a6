/** The types and small functions shared by all modules. */
module Wrappers {

  datatype Option<+T> = None | Some(value: T)

  datatype Result<+T, +E> = Ok(value: T) | Err(error: E)

  /** True when no value occurs at two positions of `s`. */
  predicate NoDup<T(==)>(s: seq<T>) {
    forall i, j | 0 <= i < j < |s| :: s[i] != s[j]
  }

  function Last<T>(s: seq<T>): T
    requires |s| > 0
  {
    s[|s| - 1]
  }

  function Min(x: nat, y: nat): nat {
    if x < y then x else y
  }

  function SaturatingSub(x: nat, y: nat): nat {
    if x < y then 0 else x - y
  }
}
