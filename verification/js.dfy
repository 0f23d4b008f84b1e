/**
 * The few JavaScript value semantics both services rely on: opaque scalars
 * compared only for equality, and array reads that yield `undefined` outside
 * the array's bounds.
 */
module Js {
  import opened Wrappers

  /**
   * A scalar as the services see it: a cell of a parsed CSV row, a GraphQL
   * `Float` argument or a number or string of a parsed JSON response. The
   * services only copy such values or compare them with `==`, so nothing but
   * equality is modelled.
   */
  type Value(==)

  /** The array read `s[i]`: the element when `i` is an index of `s`, `undefined` otherwise (including every negative `i`). */
  function At<T>(s: seq<T>, i: int): (r: Option<T>)
    ensures r.Some? <==> 0 <= i < |s|
    ensures r.Some? ==> r.value == s[i]
  {
    if 0 <= i < |s| then Some(s[i]) else None
  }

  /** Every element of `s`, each read as a defined value. */
  function Defined<T>(s: seq<T>): (r: seq<Option<T>>)
    ensures |r| == |s|
    ensures forall i :: 0 <= i < |s| ==> r[i] == Some(s[i])
  {
    seq(|s|, i requires 0 <= i < |s| => Some(s[i]))
  }

  /** `k` reads that all yielded `undefined`. */
  function Undefined<T>(k: nat): (r: seq<Option<T>>)
    ensures |r| == k
    ensures forall i :: 0 <= i < k ==> r[i].None?
  {
    seq(k, i => None)
  }
}
