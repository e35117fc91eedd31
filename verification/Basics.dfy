/** What several modules need and none owns. */
module Basics {

  type Byte = x: int | 0 <= x < 256

  datatype Option<T> = None | Some(value: T)

  lemma SubsetSize<T>(a: set<T>, b: set<T>)
    requires a <= b
    ensures |a| <= |b|
  {
    assert b == a + (b - a);
  }
}
