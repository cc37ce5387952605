/** Shared vocabulary: optional values and the clock units the servers use. */
module Prelude {

  datatype Option<+T> = None | Some(value: T)

  /** Milliseconds, as `Date.now()` returns them. */
  const SECOND_MS: int := 1000
  const MINUTE_MS: int := 60 * SECOND_MS
  const HOUR_MS: int := 60 * MINUTE_MS

  /** Every element of `s` is distinct. */
  predicate NoDup<T(==)>(s: seq<T>)
  {
    forall i, j :: 0 <= i < j < |s| ==> s[i] != s[j]
  }

  /** The elements of `s` as a set. */
  function Elems<T>(s: seq<T>): set<T>
  {
    set x | x in s
  }
}
