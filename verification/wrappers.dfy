/** Small types and functions shared by the other modules. */
module Wrappers {
  datatype Option<+T> = None | Some(value: T)

  /** Some element of a non-empty set, always the same one. */
  ghost function AnyOf<T>(s: set<T>): (x: T)
    requires s != {}
    ensures x in s
  {
    var x :| x in s;
    x
  }

  /** Some element of a non-empty set, not always the same one: iteration in an order left open. */
  method Pick<T>(s: set<T>) returns (x: T)
    requires s != {}
    ensures x in s
  {
    x :| x in s;
  }

  function Elems<T>(s: seq<T>): (r: set<T>)
    ensures s == [] ==> r == {}
    ensures forall x :: x in s ==> x in r
    ensures forall x :: x in r ==> x in s
  {
    set x | x in s
  }
}
