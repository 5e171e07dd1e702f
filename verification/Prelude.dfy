/** Small things shared by several models. */
module Prelude {

  datatype Option<+T> = None | Some(value: T)

  /** An element of a non-empty set: a set's iteration order is not fixed, so any may come next. */
  method Any<T>(s: set<T>) returns (x: T)
    requires s != {}
    ensures x in s
  {
    x :| x in s;
  }

  /** The same choice, inside proofs. */
  lemma AnyElement<T>(s: set<T>) returns (x: T)
    requires s != {}
    ensures x in s
  {
    x :| x in s;
  }

  function Min(a: int, b: int): int {
    if a <= b then a else b
  }

  function Max(a: int, b: int): int {
    if a >= b then a else b
  }

  lemma {:induction false} SubsetSize<T>(a: set<T>, b: set<T>)
    requires a <= b
    ensures |a| <= |b| && (|a| == |b| ==> a == b)
  {
    if a != {} {
      var x := AnyElement(a);
      SubsetSize(a - {x}, b - {x});
    }
  }
}
