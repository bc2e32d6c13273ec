/**
 * Which positions of a sequence of years open a new yearly bucket when
 * buckets are looked up with `===`: a position whose year equals no
 * earlier year. A NaN year equals nothing, so it always opens one.
 */
module FirstAppearance {
  import opened Dates

  predicate IsFirstOfYear(ks: seq<Year>, i: int)
    requires 0 <= i < |ks|
  {
    forall j :: 0 <= j < i ==> !SameYear(ks[j], ks[i])
  }

  /** The positions that open a bucket, in increasing order. */
  function FirstIndices(ks: seq<Year>): (r: seq<nat>)
    ensures forall k :: 0 <= k < |r| ==> r[k] < |ks| && IsFirstOfYear(ks, r[k])
    ensures forall k, l :: 0 <= k < l < |r| ==> r[k] < r[l]
    ensures forall i :: 0 <= i < |ks| && IsFirstOfYear(ks, i) ==> i in r
    decreases |ks|
  {
    if ks == [] then []
    else
      var p := ks[..|ks| - 1];
      assert forall i :: 0 <= i < |p| ==> (IsFirstOfYear(p, i) <==> IsFirstOfYear(ks, i));
      FirstIndices(p) + (if IsFirstOfYear(ks, |ks| - 1) then [|ks| - 1] else [])
  }

  /** The buckets' years are pairwise different. */
  lemma FirstYearsDistinct(ks: seq<Year>, k: nat, l: nat)
    requires k < l < |FirstIndices(ks)|
    ensures !SameYear(ks[FirstIndices(ks)[k]], ks[FirstIndices(ks)[l]])
  {
  }

  /** Every known year has the bucket opened by its first occurrence; k is that bucket. */
  lemma {:induction false} KnownYearHasFirst(ks: seq<Year>, j: nat) returns (k: nat)
    requires j < |ks| && ks[j].Known?
    ensures k < |FirstIndices(ks)| && FirstIndices(ks)[k] <= j && SameYear(ks[FirstIndices(ks)[k]], ks[j])
    decreases j
  {
    var F := FirstIndices(ks);
    if IsFirstOfYear(ks, j) {
      k :| 0 <= k < |F| && F[k] == j;
    } else {
      var j' :| 0 <= j' < j && SameYear(ks[j'], ks[j]);
      k := KnownYearHasFirst(ks, j');
    }
  }
}
