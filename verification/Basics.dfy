/** What several modules share. */
module Basics {
  const EXTENT_SIZE: nat := 0x40_0000   // kExtentSize
  const PER_GROUP: nat := 4   // size classes per group, kNSlabsPerGrp
  const CACHED: nat := 40     // size classes served by caches, kNSlabsCached

  datatype Option<+T> = None | Some(value: T)

  /** No element twice. */
  predicate Distinct<T(==)>(s: seq<T>) {
    forall i, j | 0 <= i < j < |s| :: s[i] != s[j]
  }

  lemma {:induction false} SubsetSize<T>(a: set<T>, b: set<T>)
    requires a <= b
    ensures |a| <= |b|
  {
    if a != {} {
      var x :| x in a;
      SubsetSize(a - {x}, b - {x});
    }
  }
}
