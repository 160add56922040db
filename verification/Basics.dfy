/** What several modules share. */
module Basics {

  datatype Option<+T> = None | Some(value: T)

  function Members<T(==)>(s: seq<T>): set<T> {
    set x | x in s
  }

  lemma SubsetIsSmaller<T>(small: set<T>, big: set<T>)
    requires small <= big
    ensures |small| <= |big|
  {
    assert big == small + (big - small);
  }
}
