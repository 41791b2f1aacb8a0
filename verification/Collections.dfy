/** What the other modules share: an optional value, the smaller and the larger of two numbers, sequences without
    repeats, and the iteration of an unordered container. */
module Collections {

  datatype Option<+T> = None | Some(value: T)

  function Min(a: int, b: int): int {
    if a < b then a else b
  }

  function Max(a: int, b: int): int {
    if a < b then b else a
  }

  predicate Distinct<T(==)>(s: seq<T>) {
    forall i, j :: 0 <= i < j < |s| ==> s[i] != s[j]
  }

  /** The element an unordered set is iterated to next: any of them. */
  method AnyOf<T(==)>(elements: set<T>) returns (e: T)
    requires elements != {}
    ensures e in elements
  {
    e :| e in elements;
  }
}
