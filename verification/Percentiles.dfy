/** The interpolated percentile (`autonomy/auto_promotion.py`, and the same body in `autonomy/backtest.py`). */
module Percentiles {
  import opened StableSorting

  function Totals(values: seq<real>): real {
    if values == [] then 0.0 else Totals(values[..|values| - 1]) + values[|values| - 1]
  }

  lemma {:induction false} TotalsAppend(a: seq<real>, b: seq<real>)
    ensures Totals(a + b) == Totals(a) + Totals(b)
  {
    if b == [] {
      assert a + b == a;
    } else {
      TotalsAppend(a, b[..|b| - 1]);
      assert (a + b)[..|a + b| - 1] == a + b[..|b| - 1];
    }
  }

  function Mean(values: seq<real>): real {
    if values == [] then 0.0 else Totals(values) / |values| as real
  }

  predicate RealLeq(a: real, b: real) { a <= b }

  /** The value at a fractional position of an ordered list. */
  function At(ordered: seq<real>, position: real): real
    requires ordered != [] && 0.0 <= position <= (|ordered| - 1) as real
  {
    var lower := position.Floor;
    var upper := if lower + 1 < |ordered| then lower + 1 else |ordered| - 1;
    Blend(ordered[lower], ordered[upper], position - lower as real)
  }

  function Blend(a: real, b: real, fraction: real): real {
    a * (1.0 - fraction) + b * fraction
  }

  function Position(n: nat, q: real): (p: real)
    requires n > 0 && 0.0 <= q <= 1.0
    ensures 0.0 <= p <= (n - 1) as real
  {
    (n - 1) as real * q
  }

  /** `_percentile` on a non-empty sample. */
  function Percentile(values: seq<real>, q: real): real
    requires values != [] && 0.0 <= q <= 1.0
  {
    var ordered := Sort(values, RealLeq);
    At(ordered, Position(|ordered|, q))
  }

  lemma Multiples(width: real, fraction: real)
    requires width >= 0.0 && fraction >= 0.0
    ensures width * fraction >= 0.0
  {
  }

  lemma BlendBetween(a: real, b: real, fraction: real)
    requires a <= b && 0.0 <= fraction <= 1.0
    ensures a <= Blend(a, b, fraction) <= b
  {
    Multiples(b - a, fraction);
    Multiples(b - a, 1.0 - fraction);
  }

  lemma BlendMonotone(a: real, b: real, f: real, g: real)
    requires a <= b && f <= g
    ensures Blend(a, b, f) <= Blend(a, b, g)
  {
    Multiples(b - a, g - f);
  }

  ghost predicate Ascending(s: seq<real>) {
    forall i, j :: 0 <= i < j < |s| ==> s[i] <= s[j]
  }

  /** The value at a position lies between its two neighbours. */
  lemma AtBetween(s: seq<real>, position: real)
    requires s != [] && Ascending(s) && 0.0 <= position <= (|s| - 1) as real
    ensures var lower := position.Floor;
            0 <= lower < |s| && s[lower] <= At(s, position) && (lower + 1 < |s| ==> At(s, position) <= s[lower + 1])
            && s[0] <= At(s, position) <= s[|s| - 1]
  {
    var lower := position.Floor;
    var upper := if lower + 1 < |s| then lower + 1 else |s| - 1;
    BlendBetween(s[lower], s[upper], position - lower as real);
  }

  lemma AtMonotone(s: seq<real>, p: real, q: real)
    requires s != [] && Ascending(s) && 0.0 <= p <= q <= (|s| - 1) as real
    ensures At(s, p) <= At(s, q)
  {
    AtBetween(s, p);
    AtBetween(s, q);
    if p.Floor == q.Floor {
      var lower := p.Floor;
      var upper := if lower + 1 < |s| then lower + 1 else |s| - 1;
      BlendMonotone(s[lower], s[upper], p - lower as real, q - lower as real);
    } else {
      assert p.Floor + 1 <= q.Floor;
      assert s[p.Floor + 1] <= s[q.Floor];
    }
  }

  lemma SampleAscending(values: seq<real>)
    ensures Ascending(Sort(values, RealLeq))
  {
    assert TotalPreorder(RealLeq);
    SortSorted(values, RealLeq);
  }

  lemma ScaleUp(n: nat, p: real, q: real)
    requires n > 0 && p <= q
    requires 0.0 <= p && q <= 1.0
    ensures Position(n, p) <= Position(n, q)
  {
    Multiples((n - 1) as real, q - p);
  }

  /** A higher quantile is never a smaller number. */
  lemma PercentileMonotone(values: seq<real>, p: real, q: real)
    requires values != [] && 0.0 <= p <= q <= 1.0
    ensures Percentile(values, p) <= Percentile(values, q)
  {
    SampleAscending(values);
    ScaleUp(|values|, p, q);
    hide Sort, At, Position, Ascending;
    AtMonotone(Sort(values, RealLeq), Position(|values|, p), Position(|values|, q));
  }

  /** Every percentile lies between two values of the sample. */
  lemma PercentileInSample(values: seq<real>, q: real)
    requires values != [] && 0.0 <= q <= 1.0
    ensures exists a, b :: a in values && b in values && a <= Percentile(values, q) <= b
  {
    SampleAscending(values);
    SortMembers(values, RealLeq);
    hide Sort, At, Position, Ascending;
    var ordered := Sort(values, RealLeq);
    AtBetween(ordered, Position(|ordered|, q));
    assert ordered[0] in ordered && ordered[|ordered| - 1] in ordered;
  }

  /** The order of the sample does not matter. */
  lemma PercentileIgnoresOrder(values: seq<real>, others: seq<real>, q: real)
    requires values != [] && others != [] && multiset(values) == multiset(others) && 0.0 <= q <= 1.0
    ensures Percentile(values, q) == Percentile(others, q)
  {
    assert TotalPreorder(RealLeq) && AntisymmetricOn(values, RealLeq);
    hide Sort, At, Position, Sorted, TotalPreorder, AntisymmetricOn;
    SortIgnoresOrder(values, others, RealLeq);
  }

  // ----- what a percentile is -----

  /** `x` is read off an ordered list between two ranks, on the straight line through both. */
  ghost predicate ReadAt(ordered: seq<real>, position: real, x: real) {
    var k := position.Floor;
    && 0 <= k < |ordered|
    && var next := if k + 1 < |ordered| then k + 1 else k;
       x == ordered[k] + (position - k as real) * (ordered[next] - ordered[k])
  }

  lemma OnTheLine(a: real, b: real, fraction: real)
    ensures Blend(a, b, fraction) == a + fraction * (b - a)
  {
  }

  lemma AtReads(s: seq<real>, position: real)
    requires s != [] && 0.0 <= position <= (|s| - 1) as real
    ensures ReadAt(s, position, At(s, position))
  {
    var k := position.Floor;
    OnTheLine(s[k], s[if k + 1 < |s| then k + 1 else k], position - k as real);
    hide Blend;
  }

  /** A percentile is read off the ordered sample at its position. */
  lemma PercentileInterpolates(values: seq<real>, q: real, position: real)
    requires values != [] && 0.0 <= q <= 1.0 && position == (|values| - 1) as real * q
    ensures ReadAt(Sort(values, RealLeq), position, Percentile(values, q))
  {
    assert Position(|values|, q) == position;
    hide Sort, Position, At, ReadAt;
    AtReads(Sort(values, RealLeq), position);
  }

  function Below(x: real): real -> bool { (v: real) => v < x }

  function Above(x: real): real -> bool { (v: real) => v > x }

  lemma {:induction false} KeptBefore(keep: real -> bool, s: seq<real>, m: nat)
    requires forall i :: m <= i < |s| ==> !keep(s[i])
    ensures |Filter(keep, s)| <= m
  {
    if s != [] {
      KeptBefore(keep, s[..|s| - 1], if m < |s| then m else m - 1);
    }
  }

  lemma {:induction false} KeptFrom(keep: real -> bool, s: seq<real>, m: nat)
    requires m <= |s| && forall i :: 0 <= i < m ==> !keep(s[i])
    ensures |Filter(keep, s)| <= |s| - m
  {
    if m < |s| {
      KeptFrom(keep, s[..|s| - 1], m);
    } else {
      KeptBefore(keep, s, 0);
    }
  }

  lemma OrderedCount(values: seq<real>, keep: real -> bool)
    ensures |Filter(keep, Sort(values, RealLeq))| == |Filter(keep, values)|
  {
    assert TotalPreorder(RealLeq);
    FilterSort(keep, values, RealLeq);
  }

  /** What an ordered list holds on either side of the value at a position. */
  lemma SidesOf(s: seq<real>, position: real)
    requires s != [] && Ascending(s) && 0.0 <= position <= (|s| - 1) as real
    ensures |Filter(Below(At(s, position)), s)| as real < position + 1.0
    ensures |Filter(Above(At(s, position)), s)| as real < (|s| - 1) as real - position + 1.0
  {
    AtBetween(s, position);
    AtRank(s, position);
    var x, k := At(s, position), position.Floor;
    hide At, Filter;
    KeptBefore(Below(x), s, if position == k as real then k else k + 1);
    KeptFrom(Above(x), s, k + 1);
  }

  /** A percentile cuts off its share of the sample: fewer than one more value than its position says lies on either side. */
  lemma PercentileRank(values: seq<real>, q: real, position: real)
    requires values != [] && 0.0 <= q <= 1.0 && position == (|values| - 1) as real * q
    ensures |Filter(Below(Percentile(values, q)), values)| as real < position + 1.0
    ensures |Filter(Above(Percentile(values, q)), values)| as real < (|values| - 1) as real - position + 1.0
  {
    assert Position(|values|, q) == position;
    OrderedCount(values, Below(Percentile(values, q)));
    OrderedCount(values, Above(Percentile(values, q)));
    SampleAscending(values);
    hide Sort, Position, Filter, At, Below, Above, Ascending;
    SidesOf(Sort(values, RealLeq), position);
  }

  /** At a whole position the value is the element itself. */
  lemma AtRank(s: seq<real>, position: real)
    requires s != [] && Ascending(s) && 0.0 <= position <= (|s| - 1) as real
    ensures position == position.Floor as real ==> At(s, position) == s[position.Floor]
  {
  }
}
