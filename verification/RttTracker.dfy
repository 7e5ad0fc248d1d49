/**
  The RTT ring buffer and its weighted mean (core/client/hft_client.go:468-529). Go's float64
  is a real number here, so rounding is not modelled; the final conversion truncates.
 */
module RttTracker {
  const MAX_INT64: int := 0x7FFF_FFFF_FFFF_FFFF

  /** The last m samples, newest first. */
  function Window(history: seq<int>, m: nat): (w: seq<int>)
    ensures |w| == if |history| < m then |history| else m
    ensures forall i :: 0 <= i < |w| ==> w[i] == history[|history| - 1 - i]
  {
    if history == [] || m == 0 then []
    else [history[|history| - 1]] + Window(history[..|history| - 1], m - 1)
  }

  function Pow(base: real, n: nat): real {
    if n == 0 then 1.0 else base * Pow(base, n - 1)
  }

  /** The sum of the first n samples of a window, each weighted by the decay to the power of its age. */
  function WeightedSum(w: seq<int>, decay: real, n: nat): real
    requires n <= |w|
  {
    if n == 0 then 0.0 else WeightedSum(w, decay, n - 1) + w[n - 1] as real * Pow(decay, n - 1)
  }

  function Weights(decay: real, n: nat): real {
    if n == 0 then 0.0 else Weights(decay, n - 1) + Pow(decay, n - 1)
  }

  /** Conversion of a float to an integer, toward zero. */
  function Truncate(x: real): int {
    if x >= 0.0 then x.Floor else -((-x).Floor)
  }

  function Average(w: seq<int>, decay: real): int
    requires decay >= 0.0
  {
    if w == [] then MAX_INT64
    else
      WeightsPositive(decay, |w|);
      Truncate(WeightedSum(w, decay, |w|) / Weights(decay, |w|))
  }

  lemma {:induction false} PowNonNegative(decay: real, n: nat)
    requires decay >= 0.0
    ensures Pow(decay, n) >= 0.0
  {
    if n > 0 {
      PowNonNegative(decay, n - 1);
    }
  }

  lemma {:induction false} WeightsPositive(decay: real, n: nat)
    requires decay >= 0.0 && n > 0
    ensures Weights(decay, n) >= 1.0
  {
    if n > 1 {
      WeightsPositive(decay, n - 1);
      PowNonNegative(decay, n - 1);
    } else {
      assert Weights(decay, 0) == 0.0;
    }
  }

  lemma {:induction false} SumAtLeast(w: seq<int>, decay: real, n: nat, lo: real)
    requires decay >= 0.0 && n <= |w|
    requires forall i :: 0 <= i < |w| ==> lo <= w[i] as real
    ensures lo * Weights(decay, n) <= WeightedSum(w, decay, n)
  {
    if n > 0 {
      SumAtLeast(w, decay, n - 1, lo);
      PowNonNegative(decay, n - 1);
      Distribute(lo, Weights(decay, n - 1), Pow(decay, n - 1));
      Scale(lo, w[n - 1] as real, Pow(decay, n - 1));
    }
  }

  lemma {:induction false} SumAtMost(w: seq<int>, decay: real, n: nat, hi: real)
    requires decay >= 0.0 && n <= |w|
    requires forall i :: 0 <= i < |w| ==> w[i] as real <= hi
    ensures WeightedSum(w, decay, n) <= hi * Weights(decay, n)
  {
    if n > 0 {
      SumAtMost(w, decay, n - 1, hi);
      PowNonNegative(decay, n - 1);
      Distribute(hi, Weights(decay, n - 1), Pow(decay, n - 1));
      Scale(w[n - 1] as real, hi, Pow(decay, n - 1));
    }
  }

  /**
    The weights, from the newest sample on: it weighs 1, and every older one the decay times what it
    would weigh if the newest were not there.
   */
  lemma {:induction false} EachOlderDecays(x: int, w: seq<int>, decay: real)
    ensures WeightedSum([x] + w, decay, |w| + 1) == x as real + decay * WeightedSum(w, decay, |w|)
    ensures Weights(decay, |w| + 1) == 1.0 + decay * Weights(decay, |w|)
  {
    SumShifts([x] + w, w, decay, |w|);
    WeightsShift(decay, |w|);
  }

  lemma {:induction false} SumShifts(longer: seq<int>, w: seq<int>, decay: real, n: nat)
    requires |longer| == |w| + 1 && n <= |w|
    requires forall i :: 0 <= i < |w| ==> longer[i + 1] == w[i]
    ensures WeightedSum(longer, decay, n + 1) == longer[0] as real + decay * WeightedSum(w, decay, n)
  {
    if n == 0 {
      NewestWeighsOne(longer, decay);
      assert WeightedSum(w, decay, 0) == 0.0;
    } else {
      SumShifts(longer, w, decay, n - 1);
      assert longer[n - 1 + 1] == w[n - 1];
      ShiftOne(longer[0] as real, decay, w[n - 1] as real, Pow(decay, n - 1), Pow(decay, n),
               WeightedSum(w, decay, n - 1), WeightedSum(w, decay, n),
               WeightedSum(longer, decay, n), WeightedSum(longer, decay, n + 1));
    }
  }

  lemma {:induction false} WeightsShift(decay: real, n: nat)
    ensures Weights(decay, n + 1) == 1.0 + decay * Weights(decay, n)
  {
    if n == 0 {
      NewestWeighsOne([0], decay);
      assert Weights(decay, 0) == 0.0;
    } else {
      WeightsShift(decay, n - 1);
      ShiftOne(1.0, decay, 1.0, Pow(decay, n - 1), Pow(decay, n),
               Weights(decay, n - 1), Weights(decay, n), Weights(decay, n), Weights(decay, n + 1));
    }
  }

  lemma NewestWeighsOne(w: seq<int>, decay: real)
    requires w != []
    ensures WeightedSum(w, decay, 1) == w[0] as real && Weights(decay, 1) == 1.0
  {
    assert Pow(decay, 0) == 1.0 && WeightedSum(w, decay, 0) == 0.0 && Weights(decay, 0) == 0.0;
  }

  lemma ShiftOne(x: real, d: real, a: real, p: real, p': real, sum: real, sum': real, shifted: real, shifted': real)
    requires p' == d * p && sum' == sum + a * p
    requires shifted == x + d * sum && shifted' == shifted + a * p'
    ensures shifted' == x + d * sum'
  {
    Distribute(d, sum, a * p);
    assert a * (d * p) == d * (a * p);
  }

  /** The result is the quotient of the two sums without its fraction, and the largest duration if there is no sample. */
  lemma AverageIsQuotient(w: seq<int>, decay: real)
    requires decay >= 0.0
    ensures w == [] ==> Average(w, decay) == 9_223_372_036_854_775_807
    ensures w != [] ==>
              && Weights(decay, |w|) >= 1.0
              && var q := WeightedSum(w, decay, |w|) / Weights(decay, |w|);
                 if q >= 0.0 then q - 1.0 < Average(w, decay) as real <= q
                 else q <= Average(w, decay) as real < q + 1.0
  {
    if w != [] {
      WeightsPositive(decay, |w|);
    }
  }

  lemma Distribute(a: real, x: real, y: real)
    ensures a * (x + y) == a * x + a * y
  {
  }

  lemma Scale(a: real, b: real, p: real)
    requires a <= b && p >= 0.0
    ensures a * p <= b * p
  {
  }

  lemma QuotientBetween(lo: int, s: real, hi: int, w: real)
    requires w > 0.0 && lo as real * w <= s <= hi as real * w
    ensures lo as real <= s / w <= hi as real
  {
    var q := s / w;
    assert q * w == s;
    Cancel(lo as real, q, w);
    Cancel(q, hi as real, w);
  }

  lemma Cancel(a: real, b: real, w: real)
    requires w > 0.0 && a * w <= b * w
    ensures a <= b
  {
    assert (b - a) * w >= 0.0;
  }

  lemma TruncateBetween(lo: int, x: real, hi: int)
    requires lo as real <= x <= hi as real
    ensures lo <= Truncate(x) <= hi
  {
  }

  /**
    For any non-negative decay and samples of any sign, the average lies between any bounds on
    the samples of the window, so between the smallest and the largest.
   */
  lemma AverageBetween(w: seq<int>, decay: real, lo: int, hi: int)
    requires decay >= 0.0 && w != []
    requires forall i :: 0 <= i < |w| ==> lo <= w[i] <= hi
    ensures lo <= Average(w, decay) <= hi
  {
    WeightsPositive(decay, |w|);
    SumAtLeast(w, decay, |w|, lo as real);
    SumAtMost(w, decay, |w|, hi as real);
    QuotientBetween(lo, WeightedSum(w, decay, |w|), hi, Weights(decay, |w|));
    TruncateBetween(lo, WeightedSum(w, decay, |w|) / Weights(decay, |w|), hi);
  }

  /** A new sample comes first and pushes out the oldest of a full window. */
  lemma WindowAppend(history: seq<int>, x: int, m: nat)
    requires m > 0
    ensures |Window(history + [x], m)| == if |Window(history, m)| < m then |Window(history, m)| + 1 else m
    ensures Window(history + [x], m)[0] == x
    ensures forall i :: 0 < i < |Window(history + [x], m)| ==> Window(history + [x], m)[i] == Window(history, m)[i - 1]
  {
  }

  lemma NextIndex(index: int, m: nat)
    requires 0 <= index < m
    ensures (index + 1) % m == if index + 1 == m then 0 else index + 1
  {
  }

  /** Where a buffer of size m whose next slot is `index` keeps the sample of age i. */
  function Slot(index: int, i: int, m: int): int {
    if index - i - 1 < 0 then index - i - 1 + m else index - i - 1
  }

  /** The buffer holds the window, newest first, behind its next slot. */
  ghost predicate Holds(buffer: seq<int>, index: int, w: seq<int>) {
    forall i :: 0 <= i < |w| ==>
      0 <= Slot(index, i, |buffer|) < |buffer| && buffer[Slot(index, i, |buffer|)] == w[i]
  }

  /** Writing the next slot and moving on keeps the buffer in step with the window. */
  lemma WriteHolds(buffer: seq<int>, index: int, next: int, before: seq<int>, after: seq<int>, x: int)
    requires 0 <= index < |buffer| && Holds(buffer, index, before)
    requires next == if index + 1 == |buffer| then 0 else index + 1
    requires 0 < |after| <= |buffer| && |after| <= |before| + 1 && after[0] == x
    requires forall i :: 0 < i < |after| ==> after[i] == before[i - 1]
    ensures Holds(buffer[index := x], next, after)
  {
    var m := |buffer|;
    forall i | 0 <= i < |after|
      ensures 0 <= Slot(next, i, m) < m && buffer[index := x][Slot(next, i, m)] == after[i]
    {
      if i > 0 {
        assert Slot(next, i, m) == Slot(index, i - 1, m);
      }
    }
  }

  /** A sample written to the next slot of a buffer in step with its history. */
  lemma SampleAdded(buffer: seq<int>, index: int, history: seq<int>, x: int)
    requires 0 <= index < |buffer| && Holds(buffer, index, Window(history, |buffer|))
    ensures Holds(buffer[index := x], (index + 1) % |buffer|, Window(history + [x], |buffer|))
    ensures |Window(history + [x], |buffer|)| ==
            if |Window(history, |buffer|)| < |buffer| then |Window(history, |buffer|)| + 1 else |buffer|
  {
    NextIndex(index, |buffer|);
    WindowAppend(history, x, |buffer|);
    WriteHolds(buffer, index, (index + 1) % |buffer|, Window(history, |buffer|), Window(history + [x], |buffer|), x);
  }

  class RttTracker {
    var samples: array<int>
    var index: int
    var count: int
    const maxSamples: nat
    const decayFactor: real

    /** Every sample ever added. */
    ghost var history: seq<int>

    ghost predicate Valid()
      reads this, samples
    {
      && samples.Length == maxSamples
      && count == |Window(history, maxSamples)|
      && (maxSamples > 0 ==> 0 <= index < maxSamples)
      && Holds(samples[..], index, Window(history, maxSamples))
    }

    constructor (maxSamples: nat, decayFactor: real)
      ensures Valid() && fresh(samples) && history == []
      ensures this.maxSamples == maxSamples && this.decayFactor == decayFactor
    {
      this.samples := new int[maxSamples];
      this.index := 0;
      this.count := 0;
      this.maxSamples := maxSamples;
      this.decayFactor := decayFactor;
      this.history := [];
    }

    /** A buffer of size zero has no slot to write to. */
    method AddSample(rtt: int)
      requires Valid() && maxSamples > 0
      modifies this, samples
      ensures Valid() && history == old(history) + [rtt] && samples == old(samples)
    {
      SampleAdded(samples[..], index, history, rtt);
      ghost var written := samples[..][index := rtt];
      samples[index] := rtt;
      assert samples[..] == written;
      index := (index + 1) % maxSamples;
      if count < maxSamples {
        count := count + 1;
      }
      history := history + [rtt];
    }

    /** Visits the window newest first, every index in range, and returns its weighted mean. */
    method GetAverageRtt() returns (average: int)
      requires Valid() && decayFactor >= 0.0
      ensures average == Average(Window(history, maxSamples), decayFactor)
    {
      if count == 0 {
        return MAX_INT64;
      }
      ghost var w := Window(history, maxSamples);
      var total: real := 0.0;
      var weights: real := 0.0;
      for i := 0 to count
        invariant total == WeightedSum(w, decayFactor, i)
        invariant weights == Weights(decayFactor, i)
      {
        var idx := index - i - 1;
        if idx < 0 {
          idx := idx + maxSamples;
        }
        assert idx == Slot(index, i, maxSamples) && samples[idx] == samples[..][idx];
        var weight := Pow(decayFactor, i);
        total := total + samples[idx] as real * weight;
        weights := weights + weight;
      }
      WeightsPositive(decayFactor, count);
      average := Truncate(total / weights);
    }
  }
}
