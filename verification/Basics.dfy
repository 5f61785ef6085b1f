/** What the models share. */
module Basics {

  datatype Option<+T> = None | Some(value: T)

  // Times are whole nanoseconds.
  const MILLISECOND: int := 1_000_000
  const SECOND: int := 1_000_000_000

  function Max(a: int, b: int): int {
    if a >= b then a else b
  }

  lemma {:induction false} SubsetIsSmaller<T>(a: set<T>, b: set<T>)
    requires a <= b
    ensures |a| <= |b|
  {
    assert b == a + (b - a);
  }
}
