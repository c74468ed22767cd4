/** prometheus/accumulating_bucket.go: a bucket that retains up to
    maximumSize samples, evicting through an injected policy when full. */
module AccumulatingBuckets {
  import opened Wrappers
  import opened Sorting

  /** A retained sample; the priority is the negated insertion clock. */
  datatype Item = Item(priority: int, value: real)

  /** An eviction policy, given the full retained queue, chooses the one item
      to remove (by its position in the queue). */
  type EvictionPolicy = seq<Item> -> nat

  /** The policy removes exactly one existing element of any non-empty queue. */
  ghost predicate ValidPolicy(policy: EvictionPolicy) {
    forall q: seq<Item> :: q != [] ==> policy(q) < |q|
  }

  /** The queue after the policy has run on it. */
  function Evict(policy: EvictionPolicy, q: seq<Item>): seq<Item>
    requires ValidPolicy(policy) && q != []
  {
    var i := policy(q);
    q[..i] + q[i + 1..]
  }

  /** Eviction removes exactly one element and keeps the rest. */
  lemma EvictRemovesOne(policy: EvictionPolicy, q: seq<Item>)
    requires ValidPolicy(policy) && q != []
    ensures |Evict(policy, q)| == |q| - 1
    ensures multiset(Evict(policy, q)) + multiset{q[policy(q)]} == multiset(q)
  {
    var i := policy(q);
    assert q == q[..i] + [q[i]] + q[i + 1..];
  }

  function Values(q: seq<Item>): (r: seq<real>)
    ensures |r| == |q|
    ensures forall i | 0 <= i < |q| :: r[i] == q[i].value
  {
    if q == [] then [] else [q[0].value] + Values(q[1..])
  }

  /** Go's int() of a float: truncation toward zero. */
  function TruncDiv(a: int, b: int): int
    requires b > 0
  {
    if a >= 0 then a / b else -((-a) / b)
  }

  /** The position ValueForIndex reads: (count - 1) * (index / observations),
      truncated. */
  function TargetIndex(count: nat, index: int, observations: nat): int
    requires observations > 0
  {
    TruncDiv((count - 1) * index, observations)
  }

  /** For 0 <= index <= observations the target position is a valid position
      of the sorted samples. */
  lemma TargetInRange(count: nat, index: int, observations: nat)
    requires count > 0 && observations > 0 && 0 <= index <= observations
    ensures 0 <= TargetIndex(count, index, observations) < count
  {
    var a := (count - 1) * index;
    MulMonotone(count - 1, 0, index);
    MulMonotone(count - 1, index, observations);
    MulMonotone(observations, count - 1, count);
    assert (count - 1) * observations < count * observations by {
      assert count * observations - (count - 1) * observations == observations;
    }
    DivBelow(a, observations, count);
  }

  lemma MulMonotone(x: nat, y: int, z: int)
    requires y <= z
    ensures x * y <= x * z
  {
    assert x * z - x * y == x * (z - y);
  }

  lemma DivBelow(a: nat, d: nat, c: nat)
    requires d > 0 && a < c * d
    ensures a / d < c
  {
    var q, r := a / d, a % d;
    assert a == q * d + r && 0 <= r;
    assert (q - c) * d == q * d - c * d;
    assert (q - c) * d < 0;
  }

  /** The answer ValueForIndex computes from the retained values: NaN (None)
      for an empty bucket, otherwise the value at the target position of
      the ascending sort. */
  function ValueAt(values: seq<real>, index: int, observations: nat): Option<real>
    requires values != [] ==> observations > 0 && 0 <= TargetIndex(|values|, index, observations) < |values|
  {
    if values == [] then None
    else Some(Sort(RealLe, values)[TargetIndex(|values|, index, observations)])
  }

  /** ValueAt is NaN exactly for an empty bucket; otherwise it is the value at
      the target position of any ascending arrangement of the retained
      values, and so one of them. */
  lemma ValueAtMeaning(values: seq<real>, index: int, observations: nat)
    requires values != [] ==> observations > 0 && 0 <= TargetIndex(|values|, index, observations) < |values|
    ensures ValueAt(values, index, observations).None? <==> values == []
    ensures values != [] ==> ValueAt(values, index, observations).value in values
    ensures forall s :: values != [] && |s| == |values| && Sorted(RealLe, s) && multiset(s) == multiset(values) ==>
              ValueAt(values, index, observations) == Some(s[TargetIndex(|values|, index, observations)])
  {
    if values != [] {
      RealLeTotalOrder();
      SortSortedPermutation(RealLe, values);
      var sorted := Sort(RealLe, values);
      var t := TargetIndex(|values|, index, observations);
      assert sorted[t] in multiset(values);
      forall s | |s| == |values| && Sorted(RealLe, s) && multiset(s) == multiset(values)
        ensures ValueAt(values, index, observations) == Some(s[t])
      {
        SortedUnique(RealLe, s, sorted);
      }
    }
  }

  /** The copy loop of ValueForIndex: a fresh slice of the retained values. */
  method CopyValues(elements: seq<Item>) returns (a: array<real>)
    ensures fresh(a) && a[..] == Values(elements)
  {
    a := new real[|elements|];
    for i := 0 to |elements|
      invariant a[..i] == Values(elements)[..i]
    {
      a[i] := elements[i].value;
    }
  }

  class AccumulatingBucket {
    var elements: seq<Item>
    const evictionPolicy: EvictionPolicy
    const maximumSize: nat
    var observations: nat

    ghost predicate Valid()
      reads this
    {
      && 1 <= maximumSize
      && |elements| <= maximumSize
      && ValidPolicy(evictionPolicy)
    }

    /** AccumulatingBucketBuilder's product: empty, no observations. */
    constructor (evictionPolicy: EvictionPolicy, maximumSize: nat)
      requires ValidPolicy(evictionPolicy) && maximumSize >= 1
      ensures Valid()
      ensures elements == [] && observations == 0
      ensures this.evictionPolicy == evictionPolicy && this.maximumSize == maximumSize
    {
      elements := [];
      this.evictionPolicy := evictionPolicy;
      this.maximumSize := maximumSize;
      observations := 0;
    }

    /** Add: count the observation; if the queue is full let the policy
        evict one item; then push the new item. `now` is the clock reading. */
    method Add(value: real, now: int)
      requires Valid()
      modifies this
      ensures Valid()
      ensures observations == old(observations) + 1
      ensures elements == (if |old(elements)| == maximumSize then Evict(evictionPolicy, old(elements))
                           else old(elements)) + [Item(-now, value)]
    {
      observations := observations + 1;
      var size := |elements|;
      var v := Item(-1 * now, value);
      if size == maximumSize {
        elements := Evict(evictionPolicy, elements);
        EvictRemovesOne(evictionPolicy, old(elements));
      }
      elements := elements + [v];
    }

    /** ValueForIndex: copy the retained values, sort them, read the target
        position. Go panics unless observations > 0 and the truncated target
        is a valid position; that is the precondition. */
    method ValueForIndex(index: int) returns (r: Option<real>)
      requires elements != [] ==> observations > 0 && 0 <= TargetIndex(|elements|, index, observations) < |elements|
      ensures r == ValueAt(Values(elements), index, observations)
    {
      var elementCount := |elements|;
      if elementCount == 0 {
        return None;
      }
      var sortedElements := CopyValues(elements);
      var sorted := Sort(RealLe, sortedElements[..]);
      var targetIndex := TargetIndex(elementCount, index, observations);
      r := Some(sorted[targetIndex]);
    }

    method Observations() returns (n: nat)
      ensures n == observations
    {
      n := observations;
    }

    /** Reset as written: pops while the counter is below the shrinking
        length, so only ceil(n/2) of n items go; zeroes the counter.
        The queue's Pop is modelled as removing its last item. */
    method Reset()
      requires Valid()
      modifies this
      ensures Valid()
      ensures observations == 0
      ensures elements == old(elements)[..|old(elements)| / 2]
    {
      var i := 0;
      while i < |elements|
        invariant |elements| + i == |old(elements)|
        invariant i <= |elements| + 1
        invariant elements == old(elements)[..|elements|]
      {
        elements := elements[..|elements| - 1];
        i := i + 1;
      }
      observations := 0;
    }

    /** Reset as intended: every retained item is removed. */
    method ResetCorrected()
      requires Valid()
      modifies this
      ensures Valid()
      ensures observations == 0 && elements == []
    {
      while 0 < |elements|
        invariant |elements| <= old(|elements|)
      {
        elements := elements[..|elements| - 1];
      }
      observations := 0;
    }
  }

  /** The eviction policy used by the scenarios below: drop the head of the queue. */
  function DropHead(q: seq<Item>): nat { 0 }

  /** Feeding more values than the capacity, under any policy that removes
      one item: every value is counted, at most maximumSize are retained, and
      exactly maximumSize once it has filled. */
  method FillPastCapacity(policy: EvictionPolicy, maximumSize: nat, values: seq<real>) returns (retained: nat, observations: nat)
    requires ValidPolicy(policy) && maximumSize >= 1
    ensures observations == |values|
    ensures retained == if |values| <= maximumSize then |values| else maximumSize
  {
    var b := new AccumulatingBucket(policy, maximumSize);
    for i := 0 to |values|
      invariant b.Valid() && b.maximumSize == maximumSize
      invariant b.observations == i
      invariant |b.elements| == if i <= maximumSize then i else maximumSize
    {
      b.Add(values[i], i);
    }
    retained := |b.elements|;
    observations := b.Observations();
  }

  /** Reset as written leaves samples behind: two added, one survives, while
      the counter reads zero. ValueForIndex then has observations == 0 with a
      non-empty queue, and the Go code divides by zero there. */
  method ResetLeavesSamples() returns (retained: nat, observations: nat)
    ensures retained == 1 && observations == 0
  {
    var b := new AccumulatingBucket(DropHead, 10);
    b.Add(1.0, 1);
    b.Add(2.0, 2);
    b.Reset();
    retained := |b.elements|;
    observations := b.Observations();
  }

  /** With the intended reset, a reset bucket answers NaN. */
  method ResetCorrectedAnswersNaN(values: seq<real>) returns (r: Option<real>)
    ensures r == None
  {
    var b := new AccumulatingBucket(DropHead, 10);
    for i := 0 to |values|
      invariant b.Valid() && b.maximumSize == 10
    {
      b.Add(values[i], i);
    }
    b.ResetCorrected();
    r := b.ValueForIndex(0);
  }
}
