/** What every part of the model shares. */
module Common {

  datatype Option<+T> = None | Some(value: T)

  /** math.MaxInt64 */
  const MAX_INT64: int := 0x7FFF_FFFF_FFFF_FFFF

  lemma SubsetSize<T>(a: set<T>, b: set<T>)
    requires a <= b
    ensures |a| <= |b| && (|a| == |b| ==> a == b)
  {
    assert b == a + (b - a);
  }
}
