/** The cluster bootstrap with a family-size correction (`autonomy/auto_promotion.py`). */
module FamilyInterval {
  import opened Options
  import opened Percentiles
  import opened Rounding
  import opened StableSorting

  const SAMPLES: nat := 1000

  /** One event cluster: the sum of its values and how many there are. */
  datatype Cluster = Cluster(total: real, n: nat)

  datatype Interval = Interval(mean: real, lower: real, upper: real, clusters: nat, family: int, resamples: nat)

  /** The random draws: `stream(i) % k` is the cluster drawn at step `i`, fixed by the seed alone. */
  type Stream = nat -> nat

  /** The clusters that hold any value. */
  function Aggregates(values: seq<seq<real>>): seq<Cluster> {
    if values == [] then []
    else
      var front, last := Aggregates(values[..|values| - 1]), values[|values| - 1];
      if last == [] then front else front + [Cluster(Totals(last), |last|)]
  }

  function Total(s: seq<Cluster>): Cluster {
    if s == [] then Cluster(0.0, 0)
    else
      var t, x := Total(s[..|s| - 1]), s[|s| - 1];
      Cluster(t.total + x.total, t.n + x.n)
  }

  function Mean(c: Cluster): real {
    if c.n == 0 then 0.0 else c.total / c.n as real
  }

  /** The clusters drawn for the resample that starts at draw `from`. */
  function Drawn(s: seq<Cluster>, stream: Stream, from: nat, count: nat): seq<Cluster>
    requires s != []
  {
    seq(count, j requires 0 <= j < count => s[stream(from + j) % |s|])
  }

  function Resamples(s: seq<Cluster>, stream: Stream, count: nat): (r: seq<real>)
    requires s != []
    ensures |r| == count
  {
    seq(count, i requires 0 <= i < count => Mean(Total(Drawn(s, stream, i * |s|, |s|))))
  }

  function Round6(x: real): real { RoundTo(x, 1000000.0) }

  function Family(size: int): (f: int)
    ensures f >= 1
  {
    if size < 1 then 1 else size
  }

  /** The probability left in each tail. */
  function Tail(family: int): (alpha: real)
    requires family >= 1
  {
    0.025 / family as real
  }

  lemma TailShrinks(small: int, large: int)
    requires 1 <= small <= large
    ensures 0.0 < Tail(large) <= Tail(small) <= 0.025
  {
    assert 0.025 / large as real <= 0.025 / small as real by {
      Quotients(0.025, small as real, large as real);
    }
    Quotients(0.025, 1.0, small as real);
  }

  lemma Quotients(a: real, x: real, y: real)
    requires a > 0.0 && 0.0 < x <= y
    ensures 0.0 < a / y <= a / x
  {
    var p, q := a / x, a / y;
    assert p * x == a && q * y == a;
    PositiveFactor(p, x);
    PositiveFactor(q, y);
    assert (p - q) * y == p * (y - x) + (p * x - q * y);
    NonnegativeFactor(p - q, y);
  }

  lemma PositiveFactor(p: real, x: real)
    requires x > 0.0 && p * x > 0.0
    ensures p > 0.0
  {
  }

  /** `cluster_bootstrap_ci` by its meaning. */
  function Ci(values: seq<seq<real>>, stream: Stream, size: int): Option<Interval> {
    var s := Aggregates(values);
    if s == [] then None
    else
      var observed, family := Mean(Total(s)), Family(size);
      if |s| == 1 then Some(Interval(Round6(observed), Round6(observed), Round6(observed), 1, family, 0))
      else
        TailShrinks(1, family);
        var samples := Resamples(s, stream, SAMPLES);
        Some(Interval(Round6(observed), Round6(Percentile(samples, Tail(family))), Round6(Percentile(samples, 1.0 - Tail(family))),
                      |s|, family, SAMPLES))
  }

  // ----- the method -----

  method ClusterBootstrapCi(values: seq<seq<real>>, stream: Stream, size: int) returns (ci: Option<Interval>)
    ensures ci == Ci(values, stream, size)
  {
    hide Aggregates, Total, Mean, Resamples, Percentile, Round6, Tail, Ci, Family;
    var s := CollectAggregates(values);
    CiCases(values, stream, size);
    if s == [] {
      return None;
    }
    var family := Family(size);
    var observed := Mean(Total(s));
    if |s| == 1 {
      return Some(Interval(Round6(observed), Round6(observed), Round6(observed), 1, family, 0));
    }
    var samples := DrawSamples(s, stream);
    TailShrinks(1, family);
    var lower, upper := Percentile(samples, Tail(family)), Percentile(samples, 1.0 - Tail(family));
    return Some(Interval(Round6(observed), Round6(lower), Round6(upper), |s|, family, SAMPLES));
  }

  lemma CiCases(values: seq<seq<real>>, stream: Stream, size: int)
    ensures var s, family := Aggregates(values), Family(size);
            && (s == [] ==> Ci(values, stream, size) == None)
            && (|s| == 1 ==> var m := Round6(Mean(Total(s))); Ci(values, stream, size) == Some(Interval(m, m, m, 1, family, 0)))
            && (|s| > 1 ==> 0.0 < Tail(family) <= 0.025
                            && Ci(values, stream, size) == Some(Between(s, Resamples(s, stream, SAMPLES), family)))
  {
    TailShrinks(1, Family(size));
    hide Resamples, Total, Mean, Percentile, Round6, Aggregates, Tail;
  }

  /** The interval of given resamples. */
  function Between(s: seq<Cluster>, samples: seq<real>, family: int): Interval
    requires samples != [] && family >= 1 && 0.0 < Tail(family) <= 0.025
  {
    Interval(Round6(Mean(Total(s))), Round6(Percentile(samples, Tail(family))), Round6(Percentile(samples, 1.0 - Tail(family))),
             |s|, family, SAMPLES)
  }

  method CollectAggregates(values: seq<seq<real>>) returns (s: seq<Cluster>)
    ensures s == Aggregates(values)
  {
    s := [];
    for i := 0 to |values|
      invariant s == Aggregates(values[..i])
    {
      assert values[..i + 1][..i] == values[..i];
      if values[i] != [] {
        s := s + [Cluster(Totals(values[i]), |values[i]|)];
      }
    }
    assert values[..|values|] == values;
  }

  /** The nested resampling loops: `k` draws with replacement for every sample. */
  method DrawSamples(s: seq<Cluster>, stream: Stream) returns (samples: seq<real>)
    requires s != []
    ensures samples == Resamples(s, stream, SAMPLES)
  {
    hide Total, Mean;
    samples := [];
    var draw: nat := 0;
    for i := 0 to SAMPLES
      invariant draw == i * |s| && samples == Resamples(s, stream, i)
    {
      var x := DrawOne(s, stream, draw);
      samples := samples + [x];
      draw := draw + |s|;
    }
  }

  lemma DrawnNext(s: seq<Cluster>, stream: Stream, from: nat, j: nat)
    requires s != []
    ensures var t, c := Total(Drawn(s, stream, from, j)), s[stream(from + j) % |s|];
            Total(Drawn(s, stream, from, j + 1)) == Cluster(t.total + c.total, t.n + c.n)
  {
    assert Drawn(s, stream, from, j + 1)[..j] == Drawn(s, stream, from, j);
  }

  method DrawOne(s: seq<Cluster>, stream: Stream, from: nat) returns (x: real)
    requires s != []
    ensures x == Mean(Total(Drawn(s, stream, from, |s|)))
  {
    var acc: real, n: nat := 0.0, 0;
    assert Drawn(s, stream, from, 0) == [];
    hide Drawn, Mean;
    for j := 0 to |s|
      invariant Cluster(acc, n) == Total(Drawn(s, stream, from, j))
    {
      var c := s[stream(from + j) % |s|];
      DrawnNext(s, stream, from, j);
      acc := acc + c.total;
      n := n + c.n;
    }
    x := Mean(Cluster(acc, n));
  }

  // ----- what the correction does -----

  lemma BetweenWidens(s: seq<Cluster>, samples: seq<real>, small: int, large: int)
    requires samples != [] && 1 <= small <= large && 0.0 < Tail(large) <= Tail(small) <= 0.025
    ensures Between(s, samples, large).lower <= Between(s, samples, small).lower
    ensures Between(s, samples, small).lower <= Between(s, samples, small).upper
    ensures Between(s, samples, small).upper <= Between(s, samples, large).upper
  {
    hide Percentile, Tail, Total, Mean;
    var a, b := Tail(large), Tail(small);
    PercentileMonotone(samples, a, b);
    PercentileMonotone(samples, b, 1.0 - b);
    PercentileMonotone(samples, 1.0 - b, 1.0 - a);
    RoundToMonotone(Percentile(samples, a), Percentile(samples, b), 1000000.0);
    RoundToMonotone(Percentile(samples, b), Percentile(samples, 1.0 - b), 1000000.0);
    RoundToMonotone(Percentile(samples, 1.0 - b), Percentile(samples, 1.0 - a), 1000000.0);
  }

  /** A larger family only widens the interval, around the same mean; its ends never cross. */
  lemma FamilyWidens(values: seq<seq<real>>, stream: Stream, small: int, large: int)
    requires small <= large
    ensures Ci(values, stream, small).Some? <==> Ci(values, stream, large).Some?
    ensures Ci(values, stream, large).Some? ==>
              var narrow, wide := Ci(values, stream, small).value, Ci(values, stream, large).value;
              wide.lower <= narrow.lower <= narrow.upper <= wide.upper && wide.mean == narrow.mean
  {
    CiCases(values, stream, small);
    CiCases(values, stream, large);
    FamilyGrows(small, large);
    TailShrinks(Family(small), Family(large));
    var s := Aggregates(values);
    hide Ci, Resamples, Total, Mean, Percentile, Round6, Aggregates, Tail, Family;
    if |s| > 1 {
      BetweenWidens(s, Resamples(s, stream, SAMPLES), Family(small), Family(large));
    }
  }

  lemma FamilyGrows(small: int, large: int)
    requires small <= large
    ensures 1 <= Family(small) <= Family(large)
  {
  }

  /** So a scope whose lower bound clears zero in a large family clears it in every smaller one. */
  lemma ClearsZeroInSmallerFamilies(values: seq<seq<real>>, stream: Stream, small: int, large: int)
    requires small <= large && Ci(values, stream, large).Some? && Ci(values, stream, large).value.lower > 0.0
    ensures Ci(values, stream, small).Some? && Ci(values, stream, small).value.lower > 0.0
  {
    FamilyWidens(values, stream, small, large);
  }

  // ----- where the interval lies -----

  ghost predicate Within(c: Cluster, low: real, high: real) {
    low * c.n as real <= c.total <= high * c.n as real
  }

  ghost predicate MeansWithin(s: seq<Cluster>, low: real, high: real) {
    forall c {:trigger c in s} :: c in s ==> c.n > 0 && Within(c, low, high)
  }

  lemma SumWithin(a: Cluster, b: Cluster, low: real, high: real)
    requires Within(a, low, high) && Within(b, low, high)
    ensures Within(Cluster(a.total + b.total, a.n + b.n), low, high)
  {
    assert low * (a.n + b.n) as real == low * a.n as real + low * b.n as real;
    assert high * (a.n + b.n) as real == high * a.n as real + high * b.n as real;
  }

  lemma NothingWithin(low: real, high: real)
    ensures Within(Total([]), low, high)
  {
  }

  lemma MeansFront(s: seq<Cluster>, low: real, high: real)
    requires s != [] && MeansWithin(s, low, high)
    ensures MeansWithin(s[..|s| - 1], low, high) && s[|s| - 1].n > 0 && Within(s[|s| - 1], low, high)
  {
    hide Within;
    assert s == s[..|s| - 1] + [s[|s| - 1]] && s[|s| - 1] in s;
    forall c {:trigger c in s[..|s| - 1]} | c in s[..|s| - 1] ensures c in s { }
  }

  lemma {:induction false} TotalWithin(s: seq<Cluster>, low: real, high: real)
    requires MeansWithin(s, low, high)
    ensures Within(Total(s), low, high)
    ensures s != [] ==> Total(s).n > 0
  {
    hide Within, MeansWithin;
    if s == [] {
      NothingWithin(low, high);
    } else {
      var front, x := s[..|s| - 1], s[|s| - 1];
      MeansFront(s, low, high);
      TotalWithin(front, low, high);
      SumWithin(Total(front), x, low, high);
    }
  }

  lemma MeanWithin(c: Cluster, low: real, high: real)
    requires c.n > 0 && Within(c, low, high)
    ensures low <= Mean(c) <= high
  {
    var m, n := Mean(c), c.n as real;
    assert m * n == c.total;
    if m < low { Multiply(m, low, n); }
    if m > high { Multiply(high, m, n); }
  }

  lemma Multiply(a: real, b: real, n: real)
    requires a < b && n > 0.0
    ensures a * n < b * n
  {
  }

  lemma ResamplesWithin(s: seq<Cluster>, stream: Stream, low: real, high: real)
    requires s != [] && MeansWithin(s, low, high)
    ensures forall x {:trigger x in Resamples(s, stream, SAMPLES)} :: x in Resamples(s, stream, SAMPLES) ==> low <= x <= high
  {
    hide Total, Mean, MeansWithin;
    var r := Resamples(s, stream, SAMPLES);
    forall x {:trigger x in r} | x in r ensures low <= x <= high {
      var i :| 0 <= i < |r| && r[i] == x;
      var drawn := Drawn(s, stream, i * |s|, |s|);
      DrawnWithin(s, stream, i * |s|, low, high);
      TotalWithin(drawn, low, high);
      MeanWithin(Total(drawn), low, high);
    }
  }

  lemma DrawnWithin(s: seq<Cluster>, stream: Stream, from: nat, low: real, high: real)
    requires s != [] && MeansWithin(s, low, high)
    ensures MeansWithin(Drawn(s, stream, from, |s|), low, high)
  {
    var drawn := Drawn(s, stream, from, |s|);
    forall c {:trigger c in drawn} | c in drawn ensures c in s {
      var j :| 0 <= j < |drawn| && drawn[j] == c;
      assert s[stream(from + j) % |s|] in s;
    }
  }

  /** Whatever the draws, mean and bounds stay within the range of the cluster means. */
  lemma IntervalWithinMeans(values: seq<seq<real>>, stream: Stream, size: int, low: real, high: real)
    requires MeansWithin(Aggregates(values), low, high) && Ci(values, stream, size).Some?
    ensures var ci := Ci(values, stream, size).value;
            Round6(low) <= ci.lower <= Round6(high) && Round6(low) <= ci.upper <= Round6(high)
            && Round6(low) <= ci.mean <= Round6(high)
  {
    CiCases(values, stream, size);
    var s := Aggregates(values);
    hide Ci, Resamples, Total, Mean, Percentile, Aggregates, Tail, MeansWithin;
    TotalWithin(s, low, high);
    var mean := Mean(Total(s));
    MeanWithin(Total(s), low, high);
    RoundInRange(low, mean, high);
    if |s| > 1 {
      var samples, alpha := Resamples(s, stream, SAMPLES), Tail(Family(size));
      ResamplesWithin(s, stream, low, high);
      PercentileWithin(samples, alpha, low, high);
      PercentileWithin(samples, 1.0 - alpha, low, high);
      RoundInRange(low, Percentile(samples, alpha), high);
      RoundInRange(low, Percentile(samples, 1.0 - alpha), high);
    }
  }

  lemma PercentileWithin(samples: seq<real>, q: real, low: real, high: real)
    requires samples != [] && 0.0 <= q <= 1.0
    requires forall x {:trigger x in samples} :: x in samples ==> low <= x <= high
    ensures low <= Percentile(samples, q) <= high
  {
    PercentileInSample(samples, q);
    hide Percentile;
  }

  lemma RoundInRange(low: real, x: real, high: real)
    requires low <= x <= high
    ensures Round6(low) <= Round6(x) <= Round6(high)
  {
    RoundToMonotone(low, x, 1000000.0);
    RoundToMonotone(x, high, 1000000.0);
  }

  // ----- what the ends are -----

  function Nonempty(): seq<real> -> bool { (v: seq<real>) => v != [] }

  function Joined(lists: seq<seq<real>>): seq<real> {
    if lists == [] then [] else Joined(lists[..|lists| - 1]) + lists[|lists| - 1]
  }

  /** Every value of the clusters drawn for the resample that starts at draw `from`. */
  function DrawnValues(held: seq<seq<real>>, stream: Stream, from: nat, count: nat): seq<real>
    requires held != []
  {
    Joined(seq(count, j requires 0 <= j < count => held[stream(from + j) % |held|]))
  }

  /** The plain mean of every resample's values, one draw per cluster and resample. */
  function PlainMeans(held: seq<seq<real>>, stream: Stream): (means: seq<real>)
    requires held != []
    ensures |means| == 1000
  {
    seq(1000, i requires 0 <= i < 1000 => Percentiles.Mean(DrawnValues(held, stream, i * |held|, |held|)))
  }

  ghost predicate Sums(s: seq<Cluster>, lists: seq<seq<real>>) {
    |s| == |lists| && forall j :: 0 <= j < |s| ==> s[j] == Cluster(Totals(lists[j]), |lists[j]|)
  }

  lemma {:induction false} AggregatesSum(values: seq<seq<real>>)
    ensures Sums(Aggregates(values), Filter(Nonempty(), values))
  {
    if values != [] {
      AggregatesSum(values[..|values| - 1]);
    }
  }

  lemma {:induction false} TotalOfJoined(s: seq<Cluster>, lists: seq<seq<real>>)
    requires Sums(s, lists)
    ensures Total(s) == Cluster(Totals(Joined(lists)), |Joined(lists)|)
  {
    if s != [] {
      var last := |s| - 1;
      TotalOfJoined(s[..last], lists[..last]);
      TotalsAppend(Joined(lists[..last]), lists[last]);
    }
  }

  lemma MeanOfJoined(s: seq<Cluster>, lists: seq<seq<real>>)
    requires Sums(s, lists)
    ensures Mean(Total(s)) == Percentiles.Mean(Joined(lists))
  {
    TotalOfJoined(s, lists);
    hide Total, Joined, Totals;
  }

  lemma DrawnMean(s: seq<Cluster>, held: seq<seq<real>>, stream: Stream, from: nat)
    requires s != [] && Sums(s, held)
    ensures Mean(Total(Drawn(s, stream, from, |s|))) == Percentiles.Mean(DrawnValues(held, stream, from, |held|))
  {
    hide Total, Mean, Joined, Percentiles.Mean, Totals;
    MeanOfJoined(Drawn(s, stream, from, |s|), seq(|held|, j requires 0 <= j < |held| => held[stream(from + j) % |held|]));
  }

  lemma ResampleAt(s: seq<Cluster>, held: seq<seq<real>>, stream: Stream, i: nat)
    requires s != [] && Sums(s, held) && i < 1000
    ensures Resamples(s, stream, SAMPLES)[i] == PlainMeans(held, stream)[i]
  {
    assert |s| == |held|;
    hide Total, Mean, Percentiles.Mean, Drawn, DrawnValues, Sums;
    DrawnMean(s, held, stream, i * |s|);
  }

  lemma SameResamples(s: seq<Cluster>, held: seq<seq<real>>, stream: Stream)
    requires s != [] && Sums(s, held)
    ensures Resamples(s, stream, SAMPLES) == PlainMeans(held, stream)
  {
    assert |s| == |held|;
    hide Resamples, PlainMeans, Sums;
    forall i | 0 <= i < 1000 ensures Resamples(s, stream, SAMPLES)[i] == PlainMeans(held, stream)[i] {
      ResampleAt(s, held, stream, i);
    }
  }

  /** The program's pairs of a total and a count stand for the plain means of the values drawn. */
  lemma ResamplesArePlain(values: seq<seq<real>>, stream: Stream)
    requires Filter(Nonempty(), values) != []
    ensures |Aggregates(values)| == |Filter(Nonempty(), values)|
    ensures Resamples(Aggregates(values), stream, SAMPLES) == PlainMeans(Filter(Nonempty(), values), stream)
    ensures Mean(Total(Aggregates(values))) == Percentiles.Mean(Joined(Filter(Nonempty(), values)))
  {
    AggregatesSum(values);
    hide Aggregates, Filter, Total, Mean, Joined, Percentiles.Mean, Resamples, PlainMeans;
    MeanOfJoined(Aggregates(values), Filter(Nonempty(), values));
    SameResamples(Aggregates(values), Filter(Nonempty(), values), stream);
  }

  lemma TailPositive(n: int, alpha: real)
    requires n >= 1 && alpha == 0.025 / n as real
    ensures 0.0 < alpha <= 0.025
  {
    Quotients(0.025, 1.0, n as real);
  }

  lemma TailsCut(means: seq<real>, alpha: real)
    requires |means| == 1000 && 0.0 < alpha <= 0.025
    ensures ReadAt(Sort(means, RealLeq), 999.0 * alpha, Percentile(means, alpha))
    ensures ReadAt(Sort(means, RealLeq), 999.0 * (1.0 - alpha), Percentile(means, 1.0 - alpha))
    ensures |Filter(Below(Percentile(means, alpha)), means)| as real < 999.0 * alpha + 1.0
    ensures |Filter(Above(Percentile(means, 1.0 - alpha)), means)| as real < 999.0 * alpha + 1.0
  {
    hide Percentile, Sort, Filter, ReadAt;
    PercentileInterpolates(means, alpha, 999.0 * alpha);
    PercentileInterpolates(means, 1.0 - alpha, 999.0 * (1.0 - alpha));
    PercentileRank(means, alpha, 999.0 * alpha);
    PercentileRank(means, 1.0 - alpha, 999.0 * (1.0 - alpha));
  }

  lemma CiOfMeans(values: seq<seq<real>>, stream: Stream, size: int, alpha: real)
    requires |Filter(Nonempty(), values)| >= 2 && alpha == 0.025 / (if size >= 1 then size else 1) as real
    ensures 0.0 < alpha <= 0.025 && Ci(values, stream, size).Some?
    ensures var held, ci := Filter(Nonempty(), values), Ci(values, stream, size).value;
            && ci.mean == Round6(Percentiles.Mean(Joined(held)))
            && ci.lower == Round6(Percentile(PlainMeans(held, stream), alpha))
            && ci.upper == Round6(Percentile(PlainMeans(held, stream), 1.0 - alpha))
  {
    TailPositive(if size >= 1 then size else 1, alpha);
    ResamplesArePlain(values, stream);
    CiCases(values, stream, size);
    assert Tail(Family(size)) == alpha;
    hide Ci, Filter, Resamples, PlainMeans, Total, Mean, Percentile, Round6, Aggregates, Tail, Family, Joined, Percentiles.Mean;
  }

  /**
   On two or more clusters each end leaves a tail of 0.025, divided by the size of the family: the ends are read off the
   ordered resample means at the two positions of that tail, and only its share of the resamples lies outside.
   */
  lemma EndsCutTheTails(values: seq<seq<real>>, stream: Stream, size: int) returns (tail: real, lower: real, upper: real)
    requires |Filter(Nonempty(), values)| >= 2
    ensures tail == 0.025 / (if size >= 1 then size else 1) as real && Ci(values, stream, size).Some?
    ensures var ci := Ci(values, stream, size).value;
            && ci.lower == Round6(lower) && ci.upper == Round6(upper)
            && ci.mean == Round6(Percentiles.Mean(Joined(Filter(Nonempty(), values))))
    ensures var means := PlainMeans(Filter(Nonempty(), values), stream);
            && ReadAt(Sort(means, RealLeq), 999.0 * tail, lower) && ReadAt(Sort(means, RealLeq), 999.0 * (1.0 - tail), upper)
            && |Filter(Below(lower), means)| as real < 999.0 * tail + 1.0
            && |Filter(Above(upper), means)| as real < 999.0 * tail + 1.0
  {
    tail := 0.025 / (if size >= 1 then size else 1) as real;
    CiOfMeans(values, stream, size, tail);
    hide Ci, Filter, PlainMeans, Percentile, Round6, Sort, ReadAt, Joined, Percentiles.Mean, Below, Above;
    var means := PlainMeans(Filter(Nonempty(), values), stream);
    lower, upper := Percentile(means, tail), Percentile(means, 1.0 - tail);
    TailsCut(means, tail);
  }
}
