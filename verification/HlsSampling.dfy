/** Which segments of a live window are probed to estimate its size. */
module HlsSampling {
  import opened Common
  import opened PyText

  /** `round(index * (count - 1) / (samples - 1))`. */
  function Sample(index: nat, count: nat, samples: nat): int
    requires samples > 1
  {
    RoundHalfEven((index * (count - 1)) as real / (samples - 1) as real)
  }

  /** The probed indices as a set, before `_sample_indices` sorts them. */
  function SampleSet(count: nat, limit: int): set<int> {
    var samples := Min(count, limit);
    if samples <= 1 then (if count > 0 then {0} else {})
    else set i | 0 <= i < samples :: Sample(i, count, samples)
  }

  /** `r` is what sorting the set gives. */
  ghost predicate SortedFrom(r: seq<int>, s: set<int>) {
    (forall i, j :: 0 <= i < j < |r| ==> r[i] < r[j]) && (forall x :: x in r <==> x in s)
  }

  lemma RoundExact(n: int)
    ensures RoundHalfEven(n as real) == n
  {
  }

  lemma Quotients(a: int, b: nat)
    requires b > 0
    ensures (a * b) as real / b as real == a as real
  {
    assert (a * b) as real == a as real * b as real;
  }

  lemma EndSamples(count: nat, samples: nat)
    requires 1 < samples <= count
    ensures Sample(0, count, samples) == 0
    ensures Sample(samples - 1, count, samples) == count - 1
  {
    Quotients(0, samples - 1);
    Quotients(count - 1, samples - 1);
    RoundExact(0);
    RoundExact(count - 1);
    assert (samples - 1) * (count - 1) == (count - 1) * (samples - 1);
  }

  /** Rounding keeps apart what is more than one apart. */
  lemma RoundSeparates(x: real, y: real)
    requires y > x + 1.0
    ensures RoundHalfEven(x) < RoundHalfEven(y)
  {
  }

  lemma QuotientSum(a: real, b: real, d: real)
    requires b > d > 0.0
    ensures (a + b) / d > a / d + 1.0
  {
    assert (a + b) / d == a / d + b / d;
    assert b / d > 1.0;
  }

  lemma StepApart(index: nat, count: nat, samples: nat)
    requires 1 < samples <= count
    ensures Sample(index, count, samples) < Sample(index + 1, count, samples)
  {
    if count == samples {
      Quotients(index, samples - 1);
      Quotients(index + 1, samples - 1);
      RoundExact(index);
      RoundExact(index + 1);
    } else {
      var a, b := index * (count - 1), count - 1;
      assert (index + 1) * b == a + b;
      QuotientSum(a as real, b as real, (samples - 1) as real);
      RoundSeparates(a as real / (samples - 1) as real, (a + b) as real / (samples - 1) as real);
    }
  }

  lemma {:induction false} SamplesApart(i: nat, j: nat, count: nat, samples: nat)
    requires 1 < samples <= count && i < j
    ensures Sample(i, count, samples) < Sample(j, count, samples)
    decreases j
  {
    StepApart(j - 1, count, samples);
    if i < j - 1 {
      SamplesApart(i, j - 1, count, samples);
    }
  }

  /** `_sample_indices`: with at least two samples it returns `min(count, limit)` distinct
      indices of the window, the first and the last included; otherwise the first, if any. */
  lemma SampleIndices(count: nat, limit: int) returns (r: seq<int>)
    ensures Min(count, limit) <= 1 ==> r == if count == 0 then [] else [0]
    ensures Min(count, limit) > 1 ==>
              && SortedFrom(r, SampleSet(count, limit)) && |r| == Min(count, limit)
              && r[0] == 0 && r[|r| - 1] == count - 1
              && forall x :: x in r ==> 0 <= x < count
  {
    var samples := Min(count, limit);
    if samples <= 1 {
      return if count == 0 then [] else [0];
    }
    r := seq(samples, i requires 0 <= i < samples => Sample(i, count, samples));
    EndSamples(count, samples);
    forall i, j | 0 <= i < j < |r| ensures r[i] < r[j] {
      SamplesApart(i, j, count, samples);
    }
    forall x | x in SampleSet(count, limit) ensures x in r {
      var i :| 0 <= i < samples && x == Sample(i, count, samples);
      assert r[i] == x;
    }
    forall x | x in r ensures 0 <= x < count {
      var i :| 0 <= i < |r| && r[i] == x;
      assert i > 0 ==> r[0] < r[i];
      assert i < |r| - 1 ==> r[i] < r[|r| - 1];
    }
  }
}
