/** Shared by every module: an optional value, and the size of a subset. */
module Common {
  datatype Option<+T> = None | Some(value: T)

  lemma SubsetSize<T>(a: set<T>, b: set<T>)
    requires a <= b
    ensures |a| <= |b|
  {
    assert b == a + (b - a);
  }
}
