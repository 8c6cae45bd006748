/** Capacity growth of the particle world's collider and force buffers.
    Each resource class keeps an integer capacity; when the live count reaches
    it, the capacity is doubled until it strictly exceeds the count. */
module Growth {

  function Pow2(k: nat): (r: nat)
    ensures r >= 1
  {
    if k == 0 then 1 else 2 * Pow2(k - 1)
  }

  /** The capacity that "while (count >= cap) cap *= 2" ends with. */
  function GrownCapacity(count: nat, cap: nat): (r: nat)
    requires cap > 0
    ensures r > count && r >= cap
    ensures r == cap || r <= 2 * count
    decreases if count < cap then 0 else count - cap + 1
  {
    if count < cap then cap else GrownCapacity(count, 2 * cap)
  }

  /** Number of doublings the growth loop performs. */
  function Doublings(count: nat, cap: nat): (k: nat)
    requires cap > 0
    decreases if count < cap then 0 else count - cap + 1
  {
    if count < cap then 0 else 1 + Doublings(count, 2 * cap)
  }

  /** The growth loop of MPParticleWorldImplGPU.Update. */
  method GrowCapacity(count: nat, cap: nat) returns (newCap: nat)
    requires cap > 0
    ensures newCap > count
    ensures newCap == GrownCapacity(count, cap)
  {
    newCap := cap;
    while count >= newCap
      invariant newCap > 0
      invariant GrownCapacity(count, newCap) == GrownCapacity(count, cap)
      decreases count - newCap
    {
      newCap := newCap * 2;
    }
  }

  lemma {:induction false} DoubledTwice(cap: nat, k: nat)
    requires k > 0
    ensures cap * Pow2(k) == (2 * cap) * Pow2(k - 1)
  {
    calc {
      cap * Pow2(k);
      cap * (2 * Pow2(k - 1));
      (2 * cap) * Pow2(k - 1);
    }
  }

  /** The grown capacity is the old one times 2^k, k being the number of doublings. */
  lemma {:induction false} GrownIsPowerOfTwoMultiple(count: nat, cap: nat)
    requires cap > 0
    ensures GrownCapacity(count, cap) == cap * Pow2(Doublings(count, cap))
    decreases if count < cap then 0 else count - cap + 1
  {
    if count >= cap {
      GrownIsPowerOfTwoMultiple(count, 2 * cap);
      DoubledTwice(cap, Doublings(count, cap));
    }
  }

  /** cap * 2^k is the grown capacity exactly when it is the first power-of-two
      multiple of cap that exceeds count. */
  lemma {:induction false} GrownCapacityIsSmallestDoubling(count: nat, cap: nat, k: nat)
    requires cap > 0
    ensures GrownCapacity(count, cap) == cap * Pow2(k)
        <==> count < cap * Pow2(k) && (k == 0 || cap * Pow2(k - 1) <= count)
    decreases k
  {
    if k > 0 {
      var p := Pow2(k - 1);
      assert Pow2(k) == 2 * p;
      ScaledPowers(cap, p);
      if count >= cap {
        GrownCapacityIsSmallestDoubling(count, 2 * cap, k - 1);
        if k - 1 > 0 {
          assert p == 2 * Pow2(k - 2);
          ScaledPowers(cap, Pow2(k - 2));
        }
      }
    }
  }

  /** The products the doubling argument needs, kept away from the solver's
      non-linear reasoning. */
  lemma ScaledPowers(cap: nat, p: nat)
    requires cap > 0 && p >= 1
    ensures cap * (2 * p) == (2 * cap) * p == 2 * (cap * p)
    ensures cap * p >= cap
  {
  }

  /** Growing for c' and then for c >= c' ends where growing for c does. */
  lemma {:induction false} GrowthComposes(c: nat, c': nat, cap: nat)
    requires cap > 0 && c' <= c
    ensures GrownCapacity(c, GrownCapacity(c', cap)) == GrownCapacity(c, cap)
    decreases if c' < cap then 0 else c' - cap + 1
  {
    if c' >= cap {
      GrowthComposes(c, c', 2 * cap);
    }
  }

  /** Growing twice is growing once for the larger count. */
  lemma GrowthOfTwoUpdates(c1: nat, c2: nat, cap: nat)
    requires cap > 0
    ensures GrownCapacity(c2, GrownCapacity(c1, cap)) == GrownCapacity(if c1 < c2 then c2 else c1, cap)
  {
    if c1 <= c2 {
      GrowthComposes(c2, c1, cap);
    }
  }

  /** Capacity after each of a sequence of updates with live counts `counts`. */
  function CapacityTrace(counts: seq<nat>, cap: nat): (caps: seq<nat>)
    requires cap > 0
    ensures |caps| == |counts|
    decreases |counts|
  {
    if counts == [] then []
    else
      var next := GrownCapacity(counts[0], cap);
      [next] + CapacityTrace(counts[1..], next)
  }

  function MaxOf(counts: seq<nat>, floor: nat): (m: nat)
    ensures m >= floor
    ensures forall i :: 0 <= i < |counts| ==> counts[i] <= m
    ensures m == floor || exists i :: 0 <= i < |counts| && counts[i] == m
  {
    if counts == [] then floor
    else
      var rest := MaxOf(counts[1..], floor);
      if counts[0] < rest then rest else counts[0]
  }

  /** After update i, the capacity is the initial one grown for the largest count so far. */
  lemma {:induction false} CapacityFollowsRunningMaximum(counts: seq<nat>, cap: nat, i: nat)
    requires cap > 0 && i < |counts|
    ensures CapacityTrace(counts, cap)[i] == GrownCapacity(MaxOf(counts[..i + 1], 0), cap)
    decreases i
  {
    var next := GrownCapacity(counts[0], cap);
    if i == 0 {
      assert counts[..1] == [counts[0]];
    } else {
      CapacityFollowsRunningMaximum(counts[1..], next, i - 1);
      var m := MaxOf(counts[1..][..i], 0);
      assert counts[..i + 1] == [counts[0]] + counts[1..][..i];
      GrowthOfTwoUpdates(counts[0], m, cap);
      assert m <= MaxOf(counts[..i + 1], 0);
    }
  }

  /** Every capacity exceeds its count, and capacities never decrease. */
  lemma {:induction false} CapacityNeverDecreases(counts: seq<nat>, cap: nat)
    requires cap > 0
    ensures forall i :: 0 <= i < |counts| ==> CapacityTrace(counts, cap)[i] > counts[i]
    ensures forall i :: 0 <= i < |counts| ==> CapacityTrace(counts, cap)[i] >= cap
    ensures forall i, j :: 0 <= i < j < |counts| ==> CapacityTrace(counts, cap)[i] <= CapacityTrace(counts, cap)[j]
    decreases |counts|
  {
    if counts != [] {
      var next := GrownCapacity(counts[0], cap);
      CapacityNeverDecreases(counts[1..], next);
    }
  }

  /** Ten colliders and then three hundred, starting from 256: 256 and then 512. */
  lemma GrowthScenario()
    ensures CapacityTrace([10, 300], 256) == [256, 512]
    ensures GrownCapacity(300, 256) != 257 && GrownCapacity(300, 256) != 1024
  {
  }
}
