/**
 * A bucket that keeps no samples: it tallies how many values were added and
 * the extrema seen, and answers quantile queries through an index estimator.
 */
module TallyingBuckets {
  import opened Wrappers
  import opened RealFacts

  /** math.MaxFloat64, the largest finite double, written out exactly. */
  const MaxFloat64: real := 179769313486231570814527423731704356798070567525844996598917476803157260780028538760589558632766878171540458953514382464234321326889464182768467546703537516986049910576551282076245490090389328944075868508455133942304583236903222948165808559332123348274797826204144723168738177180919299881250404026184124858368.0

  /** math.SmallestNonzeroFloat64 = 2^-1074, written out exactly. */
  const SmallestNonzeroFloat64: real := 1.0 / 202402253307310618352495346718917307049556649764142118356901358027430339567995346891960383701437124495187077864316811911389808737385793476867013399940738509921517424276566361364466907742093216341239767678472745068562007483424692698618103355649159556340810056512358769552333414615230502532186327508646006263307707741093494784.0

  lemma FloatLimitsOrdered()
    ensures 0.0 < SmallestNonzeroFloat64 < 1.0 < MaxFloat64
  {
  }

  /** Estimates the value at `index` from the extrema and the count; None is NaN. */
  type IndexEstimator = (real, real, int, int) -> Option<real>

  function Min(a: real, b: real): (r: real)
    ensures r <= a && r <= b && (r == a || r == b)
  {
    if a <= b then a else b
  }

  function Max(a: real, b: real): (r: real)
    ensures a <= r && b <= r && (r == a || r == b)
  {
    if a <= b then b else a
  }

  /** The average of the two extrema, as the average reducer computes it over {minimum, maximum}. */
  function Midpoint(minimum: real, maximum: real): (r: real)
    ensures minimum <= maximum ==> minimum <= r <= maximum
    ensures r - minimum == maximum - r
  {
    (minimum + maximum) / 2.0
  }

  /** Wraps an estimator so that an empty bucket answers NaN. */
  function EmptyFilter(e: IndexEstimator): (f: IndexEstimator)
    ensures forall minimum, maximum, index :: f(minimum, maximum, index, 0) == None
    ensures forall minimum, maximum, index, observations :: observations != 0 ==>
      f(minimum, maximum, index, observations) == e(minimum, maximum, index, observations)
  {
    (minimum: real, maximum: real, index: int, observations: int) =>
      if observations == 0 then None else e(minimum, maximum, index, observations)
  }

  function MinimumOf(minimum: real, maximum: real, index: int, observations: int): Option<real>
  {
    Some(minimum)
  }

  function MaximumOf(minimum: real, maximum: real, index: int, observations: int): Option<real>
  {
    Some(maximum)
  }

  function AverageOf(minimum: real, maximum: real, index: int, observations: int): Option<real>
  {
    Some(Midpoint(minimum, maximum))
  }

  /**
   * The uniform guess: a single observation answers the minimum; otherwise
   * the location index/observations picks the maximum above two thirds, the
   * minimum below one third and the midpoint in between. With no
   * observations the float division gives +Inf, -Inf or NaN (for index 0),
   * which the comparisons send to the maximum, the minimum and the midpoint.
   */
  function UniformOf(minimum: real, maximum: real, index: int, observations: int): Option<real>
  {
    if observations == 1 then Some(minimum)
    else if observations == 0 then
      if index > 0 then Some(maximum)
      else if index < 0 then Some(minimum)
      else Some(Midpoint(minimum, maximum))
    else
      var location := index as real / observations as real;
      if location > UpperThird then Some(maximum)
      else if location < LowerThird then Some(minimum)
      else Some(Midpoint(minimum, maximum))
  }

  const MinimumEstimator: IndexEstimator := EmptyFilter(MinimumOf)
  const MaximumEstimator: IndexEstimator := EmptyFilter(MaximumOf)
  const AverageEstimator: IndexEstimator := EmptyFilter(AverageOf)
  const UniformEstimator: IndexEstimator := EmptyFilter(UniformOf)

  const LowerThird: real := 1.0 / 3.0
  const UpperThird: real := 2.0 * LowerThird

  /** Every canned estimator answers NaN for an empty bucket and a number otherwise. */
  lemma CannedEstimators(minimum: real, maximum: real, index: int, observations: int)
    ensures observations == 0 <==> MinimumEstimator(minimum, maximum, index, observations) == None
    ensures observations == 0 <==> MaximumEstimator(minimum, maximum, index, observations) == None
    ensures observations == 0 <==> AverageEstimator(minimum, maximum, index, observations) == None
    ensures observations == 0 <==> UniformEstimator(minimum, maximum, index, observations) == None
    ensures observations != 0 ==>
      MinimumEstimator(minimum, maximum, index, observations) == Some(minimum) &&
      MaximumEstimator(minimum, maximum, index, observations) == Some(maximum) &&
      AverageEstimator(minimum, maximum, index, observations) == Some((minimum + maximum) / 2.0)
    ensures UniformEstimator(minimum, maximum, index, 1) == Some(minimum)
  {
  }

  /** For more than one observation, the thirds of the location are decided
      exactly by integer arithmetic on index and observations. */
  lemma UniformThirds(minimum: real, maximum: real, index: int, observations: int)
    requires observations > 1
    ensures UniformEstimator(minimum, maximum, index, observations) ==
      if 3 * index > 2 * observations then Some(maximum)
      else if 3 * index < observations then Some(minimum)
      else Some(Midpoint(minimum, maximum))
  {
    var i, n := index as real, observations as real;
    assert UpperThird == 2.0 / 3.0;
    QuotientAbove(i, n, 2.0 / 3.0);
    QuotientBelow(2.0 * n, 3.0, i);
    assert i / n > UpperThird <==> 3 * index > 2 * observations;
    QuotientBelow(i, n, 1.0 / 3.0);
    QuotientAbove(n, 3.0, i);
    assert i / n < LowerThird <==> 3 * index < observations;
  }

  /** A quotient exceeds c exactly when the dividend exceeds c times the divisor. */
  lemma QuotientAbove(a: real, d: real, c: real)
    requires d > 0.0
    ensures a / d > c <==> a > c * d
  {
    var q := a / d;
    assert q * d == a;
    assert (q - c) * d == a - c * d;
    if q > c {
      ProductPositive(q - c, d);
    } else {
      ProductNonNegative(c - q, d);
    }
  }

  /** A quotient is below c exactly when the dividend is below c times the divisor. */
  lemma QuotientBelow(a: real, d: real, c: real)
    requires d > 0.0
    ensures a / d < c <==> a < c * d
  {
    var q := a / d;
    assert q * d == a;
    assert (c - q) * d == c * d - a;
    if q < c {
      ProductPositive(c - q, d);
    } else {
      ProductNonNegative(q - c, d);
    }
  }

  /** Uniform over [0, 100] with three observations: lowest, middle and top index. */
  lemma UniformOverThree()
    ensures UniformEstimator(0.0, 100.0, 0, 3) == Some(0.0)
    ensures UniformEstimator(0.0, 100.0, 1, 3) == Some(50.0)
    ensures UniformEstimator(0.0, 100.0, 2, 3) == Some(50.0)
    ensures UniformEstimator(0.0, 100.0, 3, 3) == Some(100.0)
    ensures UniformEstimator(7.0, 100.0, 5, 1) == Some(7.0)
  {
  }

  /** A negative count flips the sign of the location, as float division does:
      index 1 of -3 is at -1/3 and index 0 of -1 at zero, both below a third. */
  lemma UniformNegativeCounts()
    ensures UniformEstimator(0.0, 100.0, 1, -3) == Some(0.0)
    ensures UniformEstimator(0.0, 100.0, 0, -1) == Some(0.0)
    ensures UniformEstimator(0.0, 100.0, -4, -3) == Some(100.0)
  {
  }

  /** The smallest value added, folded from math.MaxFloat64 in order of addition. */
  function Smallest(added: seq<real>): real
  {
    if added == [] then MaxFloat64 else Min(added[|added| - 1], Smallest(added[..|added| - 1]))
  }

  /** The largest value added, folded from math.SmallestNonzeroFloat64 in order of addition. */
  function Largest(added: seq<real>): real
  {
    if added == [] then SmallestNonzeroFloat64 else Max(added[|added| - 1], Largest(added[..|added| - 1]))
  }

  /** Smallest is a lower bound of the values, and is one of them unless the start value is smaller. */
  lemma {:induction false} SmallestIsMinimum(added: seq<real>)
    ensures Smallest(added) <= MaxFloat64
    ensures forall i :: 0 <= i < |added| ==> Smallest(added) <= added[i]
    ensures Smallest(added) == MaxFloat64 || Smallest(added) in added
  {
    if added != [] {
      var init := added[..|added| - 1];
      SmallestIsMinimum(init);
      assert added == init + [added[|added| - 1]];
    }
  }

  /** Largest is an upper bound of the values, and is one of them unless the start value is larger. */
  lemma {:induction false} LargestIsMaximum(added: seq<real>)
    ensures SmallestNonzeroFloat64 <= Largest(added)
    ensures forall i :: 0 <= i < |added| ==> added[i] <= Largest(added)
    ensures Largest(added) == SmallestNonzeroFloat64 || Largest(added) in added
  {
    if added != [] {
      var init := added[..|added| - 1];
      LargestIsMaximum(init);
      assert added == init + [added[|added| - 1]];
    }
  }

  /** Once something was added, the tallied minimum does not exceed the tallied maximum. */
  lemma ExtremaOrdered(added: seq<real>)
    requires added != []
    ensures Smallest(added) <= Largest(added)
  {
    SmallestIsMinimum(added);
    LargestIsMaximum(added);
    assert Smallest(added) <= added[0] <= Largest(added);
  }

  class TallyingBucket {
    const estimator: IndexEstimator
    var largestObserved: real
    var observations: nat
    var smallestObserved: real
    /** The values added since construction or the last Reset. */
    ghost var added: seq<real>

    ghost predicate Valid()
      reads this
    {
      observations == |added| &&
      smallestObserved == Smallest(added) &&
      largestObserved == Largest(added)
    }

    /** DefaultTallyingBucket: an empty bucket reporting the minimum. */
    constructor Default()
      ensures Valid() && added == [] && observations == 0
      ensures estimator == MinimumEstimator
      ensures smallestObserved == MaxFloat64 && largestObserved == SmallestNonzeroFloat64
    {
      estimator := MinimumEstimator;
      largestObserved := SmallestNonzeroFloat64;
      smallestObserved := MaxFloat64;
      observations := 0;
      added := [];
    }

    /** CustomTallyingBucket: an empty bucket with the given estimator. */
    constructor Custom(estimator: IndexEstimator)
      ensures Valid() && added == [] && observations == 0
      ensures this.estimator == estimator
      ensures smallestObserved == MaxFloat64 && largestObserved == SmallestNonzeroFloat64
    {
      this.estimator := estimator;
      largestObserved := SmallestNonzeroFloat64;
      smallestObserved := MaxFloat64;
      observations := 0;
      added := [];
    }

    /** Counts the value and widens the extrema to include it. */
    method Add(value: real)
      requires Valid()
      modifies this
      ensures Valid() && added == old(added) + [value]
      ensures observations == old(observations) + 1
      ensures smallestObserved == Min(value, old(smallestObserved))
      ensures largestObserved == Max(value, old(largestObserved))
    {
      observations := observations + 1;
      smallestObserved := Min(value, smallestObserved);
      largestObserved := Max(value, largestObserved);
      added := added + [value];
      assert added[..|added| - 1] == old(added);
    }

    function Observations(): (r: nat)
      reads this
      requires Valid()
      ensures r == |added|
    {
      observations
    }

    /** Hands the tallied extrema and count to the estimator. */
    method ValueForIndex(index: int) returns (r: Option<real>)
      ensures r == estimator(smallestObserved, largestObserved, index, observations)
    {
      r := estimator(smallestObserved, largestObserved, index, observations);
    }

    /** Forgets every observation: the extrema return to their starting values. */
    method Reset()
      modifies this
      ensures Valid() && added == [] && observations == 0
      ensures smallestObserved == MaxFloat64 && largestObserved == SmallestNonzeroFloat64
    {
      largestObserved := SmallestNonzeroFloat64;
      observations := 0;
      smallestObserved := MaxFloat64;
      added := [];
    }
  }

  /** In a valid bucket that holds observations, the minimum does not exceed the maximum. */
  lemma ValidBucketOrdered(b: TallyingBucket)
    requires b.Valid() && b.observations > 0
    ensures b.smallestObserved <= b.largestObserved
  {
    ExtremaOrdered(b.added);
  }

  /**
   * A default bucket fed the given values reports their minimum for any
   * index, and NaN once it has been reset.
   */
  method MinimumThenReset(values: seq<real>, index: int) returns (before: Option<real>, after: Option<real>)
    requires values != [] && forall i :: 0 <= i < |values| ==> values[i] <= MaxFloat64
    ensures before.Some? && before.value in values
    ensures forall i :: 0 <= i < |values| ==> before.value <= values[i]
    ensures after == None
  {
    var b := new TallyingBucket.Default();
    var i := 0;
    while i < |values|
      invariant 0 <= i <= |values|
      invariant b.Valid() && b.added == values[..i]
      invariant b.estimator == MinimumEstimator
    {
      b.Add(values[i]);
      i := i + 1;
    }
    assert values[..i] == values;
    before := b.ValueForIndex(index);
    SmallestIsMinimum(values);
    b.Reset();
    after := b.ValueForIndex(index);
  }
}
