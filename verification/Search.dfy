/** The binary search that the servers share. */
module Search {

  predicate Sorted(a: seq<int>) { forall i, j | 0 <= i < j < |a| :: a[i] <= a[j] }

  /** The first index whose entry is not below the value. */
  method LowerBound(a: seq<int>, value: int) returns (r: nat)
    requires Sorted(a)
    ensures r <= |a|
    ensures forall k | 0 <= k < r :: a[k] < value
    ensures forall k | r <= k < |a| :: value <= a[k]
  {
    var i, j := 0, |a|;
    while i < j
      invariant i <= j <= |a|
      invariant forall k | 0 <= k < i :: a[k] < value
      invariant forall k | j <= k < |a| :: value <= a[k]
    {
      var k := i + (j - i) / 2;
      if value > a[k] { i := k + 1; } else { j := k; }
    }
    return i;
  }
}
