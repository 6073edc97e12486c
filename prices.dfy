/** The nearby-snapshot fallback of the price oracle: choosing a stored bucket close to a target. */
module Prices {
  import opened Wrappers

  function Abs(x: int): (r: nat)
    ensures r == x || r == -x
  {
    if x < 0 then -x else x
  }

  /** Bucket `b` is close enough to `target`. */
  predicate Within(b: int, target: int, maxAge: int) {
    Abs(b - target) <= maxAge
  }

  /** `buckets[i]` is the answer `pickNearbyBucket` (`src/lib/prices.ts`) is meant to give: it qualifies, no qualifying bucket
      is strictly closer, and every earlier qualifying bucket is strictly farther
      (ties go to the earliest in list order). */
  ghost predicate IsNearest(target: int, buckets: seq<int>, maxAge: int, i: int) {
    && 0 <= i < |buckets|
    && Within(buckets[i], target, maxAge)
    && (forall j :: 0 <= j < |buckets| && Within(buckets[j], target, maxAge) ==>
          Abs(buckets[i] - target) <= Abs(buckets[j] - target))
    && (forall j :: 0 <= j < i && Within(buckets[j], target, maxAge) ==>
          Abs(buckets[j] - target) > Abs(buckets[i] - target))
  }

  /** At most one position is the nearest one, so the answer is determined. */
  lemma NearestIsUnique(target: int, buckets: seq<int>, maxAge: int, i: int, j: int)
    requires IsNearest(target, buckets, maxAge, i) && IsNearest(target, buckets, maxAge, j)
    ensures i == j
  {
  }

  /** `pickNearbyBucket(target, buckets, maxAge)`: a single pass keeping the closest
      qualifying bucket seen so far, replaced only by a strictly closer one. */
  method PickNearbyBucket(target: int, buckets: seq<int>, maxAge: int) returns (closest: Option<int>)
    ensures closest.None? <==> forall j :: 0 <= j < |buckets| ==> !Within(buckets[j], target, maxAge)
    ensures closest.Some? ==>
      exists i :: IsNearest(target, buckets, maxAge, i) && buckets[i] == closest.value
  {
    closest := None;
    var minDiff := 0;
    ghost var at := -1;
    for k := 0 to |buckets|
      invariant closest.None? <==> forall j :: 0 <= j < k ==> !Within(buckets[j], target, maxAge)
      invariant closest.Some? ==>
        && 0 <= at < k && buckets[at] == closest.value && minDiff == Abs(closest.value - target)
        && IsNearest(target, buckets[..k], maxAge, at)
    {
      var diff := Abs(buckets[k] - target);
      if diff <= maxAge && (closest.None? || diff < minDiff) {
        minDiff := diff;
        closest := Some(buckets[k]);
        at := k;
      }
      assert buckets[..k + 1][..k] == buckets[..k];
    }
    assert buckets[..|buckets|] == buckets;
  }

  /** The two cases of `src/lib/__tests__/prices-fallback.test.ts`. */
  method NearbyBucketExamples() {
    var a := PickNearbyBucket(1000, [900, 1100], 200);
    ghost var w :| IsNearest(1000, [900, 1100], 200, w) && [900, 1100][w] == a.value;
    assert IsNearest(1000, [900, 1100], 200, 0);
    NearestIsUnique(1000, [900, 1100], 200, w, 0);
    assert a == Some(900);
    var b := PickNearbyBucket(1000, [2000], 200);
    assert !Within(2000, 1000, 200);
    assert b == None;
  }
}
