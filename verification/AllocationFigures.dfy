/**
 What each policy of `autonomy/candidate_allocation.py` grants, in plain figures over the asks as given: the greatest whole
 share the weights allow, or the pot poured down the ranking.
 */
module AllocationFigures {
  import opened CandidateAllocation
  import opened Extrema
  import opened Rounding
  import opened StableSorting
  import opened TextOrder

  function Wanted(): Ask -> bool { (a: Ask) => a.cents > 0 }

  function ScopeWeight(w: Weights): Ask -> real { (a: Ask) => if a.scope in w then w[a.scope] else 0.0 }

  function Eager(w: Weights): Ask -> bool { (a: Ask) => a.cents > 0 && ScopeWeight(w)(a) > 0.0 }

  function CentsAsked(): Ask -> int { (a: Ask) => a.cents }

  function WeightedCents(w: Weights): Ask -> real { (a: Ask) => a.cents as real * ScopeWeight(w)(a) }

  /** `granted` is the greatest whole number up to `most` that is no more than `part / total`. */
  ghost predicate GreatestShare(granted: int, most: int, part: real, total: real) {
    && 0 <= granted <= most && granted as real * total <= part
    && (granted == most || part < (granted + 1) as real * total)
  }

  // ----- the totals, in any order -----

  lemma RealSumSame<T>(f: T -> real, g: T -> real, s: seq<T>)
    requires forall x :: f(x) == g(x)
    ensures RealSum(f, s) == RealSum(g, s)
  {
    RealSumLeq(f, g, s);
    RealSumLeq(g, f, s);
  }

  lemma {:induction false} SumSame<T>(f: T -> int, g: T -> int, s: seq<T>)
    requires forall x :: f(x) == g(x)
    ensures Sum(f, s) == Sum(g, s)
  {
    if s != [] {
      SumSame(f, g, s[..|s| - 1]);
    }
  }

  lemma LiveIsWanted(asks: seq<Ask>)
    ensures Live(asks) == Sort(Filter(Wanted(), asks), IdLeq)
  {
    IdOrder();
    FilterSort(Wants, asks, IdLeq);
    FilterSame(Wants, Wanted(), asks);
  }

  lemma EagerAreBoth(asks: seq<Ask>, w: Weights)
    ensures Filter(Fundable(w), Filter(Wanted(), asks)) == Filter(Eager(w), asks)
  {
    var both := (a: Ask) => Wanted()(a) && Fundable(w)(a);
    hide Filter;
    FilterTwice(Wanted(), Fundable(w), both, asks);
    forall a ensures both(a) == Eager(w)(a) {
      assert ScopeWeight(w)(a) == WeightOf(w, a);
    }
    FilterSame(both, Eager(w), asks);
  }

  lemma EligibleIsEager(asks: seq<Ask>, w: Weights)
    ensures Eligible(asks, w) == Sort(Filter(Eager(w), asks), IdLeq)
  {
    LiveIsWanted(asks);
    IdOrder();
    EagerAreBoth(asks, w);
    hide Sort, Filter, Live, Wanted, Fundable, Eager, TotalPreorder;
    FilterSort(Fundable(w), Filter(Wanted(), asks), IdLeq);
  }

  lemma TotalWeight(asks: seq<Ask>, w: Weights)
    ensures RealSum(WeightFn(w), Live(asks)) == RealSum(ScopeWeight(w), Filter(Wanted(), asks))
  {
    LiveIsWanted(asks);
    hide Sort, Filter, Live, RealSum;
    RealSumSort(WeightFn(w), Filter(Wanted(), asks), IdLeq);
    RealSumSame(WeightFn(w), ScopeWeight(w), Filter(Wanted(), asks));
  }

  lemma EligibleTotals(asks: seq<Ask>, w: Weights)
    ensures Sum(CentsOf, Eligible(asks, w)) == Sum(CentsAsked(), Filter(Eager(w), asks))
    ensures RealSum(RawOf(w), Eligible(asks, w)) == RealSum(WeightedCents(w), Filter(Eager(w), asks))
  {
    EligibleIsEager(asks, w);
    hide Sort, Filter, Eligible, RealSum, Sum;
    var eager := Filter(Eager(w), asks);
    SumSort(CentsOf, eager, IdLeq);
    SumSame(CentsOf, CentsAsked(), eager);
    RealSumSort(RawOf(w), eager, IdLeq);
    forall a ensures RawOf(w)(a) == WeightedCents(w)(a) {
      SameProduct(a.cents as real, WeightOf(w, a), ScopeWeight(w)(a));
    }
    RealSumSame(RawOf(w), WeightedCents(w), eager);
  }

  lemma SameProduct(x: real, y: real, z: real)
    requires y == z
    ensures x * y == x * z && y * x == z * x
  {
  }

  // ----- the two weighted shares -----

  /** Capping the truncated portion at the ask yields the greatest whole share. */
  lemma CappedPortion(x: real, total: real, pot: int, cents: int)
    requires total > 0.0 && x >= 0.0 && pot > 0 && cents > 0
    ensures GreatestShare(Min(Trunc(Portion(x, total, pot)), cents), cents, x * pot as real, total)
  {
    var share := Trunc(Portion(x, total, pot));
    var granted := Min(share, cents);
    PortionNonnegative(x, total, pot);
    TruncReaches(Portion(x, total, pot), granted);
    TruncReaches(Portion(x, total, pot), granted + 1);
    PortionReaches(x, total, pot, granted);
    PortionReaches(x, total, pot, granted + 1);
    TruncMonotone(0.0, Portion(x, total, pot));
    hide Portion, Trunc;
  }

  lemma WeightShareOf(a: Ask, w: Weights, total: real, pot: int)
    requires total > 0.0 && pot > 0 && a.cents > 0 && WeightOf(w, a) >= 0.0
    ensures GreatestShare(Min(Trunc(Portion(WeightOf(w, a), total, pot)), a.cents), a.cents, ScopeWeight(w)(a) * pot as real, total)
  {
    SameProduct(pot as real, WeightOf(w, a), ScopeWeight(w)(a));
    hide GreatestShare, Portion, Trunc;
    CappedPortion(WeightOf(w, a), total, pot, a.cents);
  }

  /**
   The proportional policy grants each positive ask the greatest whole number of cents within its ask and within its
   weight's share of the pot among all positive asks; a total weight of zero grants nothing.
   */
  lemma ProportionalGrants(asks: seq<Ask>, pot: int, w: Weights, k: int, g: Grant, a: Ask)
    requires DistinctIds(asks) && NonnegativeWeights(w) && pot > 0 && a in asks && a.id == g.id && a.cents > 0
    requires g in Allocate(asks, pot, w, PolicyOf("proportional"), k)
    ensures var total, weight := RealSum(ScopeWeight(w), Filter(Wanted(), asks)), ScopeWeight(w)(a);
            && g.weight == weight
            && (total <= 0.0 ==> g.granted == 0 && g.reason == ZeroTotalWeight)
            && (total > 0.0 ==>
                  && GreatestShare(g.granted, a.cents, weight * pot as real, total)
                  && (g.reason == ClampedToAsk <==> weight * pot as real >= (a.cents + 1) as real * total)
                  && g.reason in {ClampedToAsk, WeightShare})
  {
    hide Allocate, RealSum, Live, Portion, Trunc, Filter, GreatestShare;
    var b := GrantIsAmount(asks, pot, w, Proportional, k, g);
    SameId(asks, a, b);
    TotalWeight(asks, w);
    var total := RealSum(WeightFn(w), Live(asks));
    if total > 0.0 {
      WeightShareOf(a, w, total, pot);
      PortionNonnegative(WeightOf(w, a), total, pot);
      PortionReaches(WeightOf(w, a), total, pot, a.cents + 1);
      TruncReaches(Portion(WeightOf(w, a), total, pot), a.cents + 1);
    }
  }

  /**
   The default policy grants nothing without a positive weight; every ask in full while the asks with one fit the pot; and
   otherwise the greatest whole number of cents within the ask and its weighted share of the pot.
   */
  lemma KellyGrants(asks: seq<Ask>, pot: int, w: Weights, name: string, k: int, g: Grant, a: Ask)
    requires DistinctIds(asks) && NonnegativeWeights(w) && pot > 0 && a in asks && a.id == g.id && a.cents > 0
    requires name != "top_k" && name != "proportional" && g in Allocate(asks, pot, w, PolicyOf(name), k)
    ensures var weight, eager := ScopeWeight(w)(a), Filter(Eager(w), asks);
            && g.weight == weight
            && (weight <= 0.0 ==> g.granted == 0 && g.reason == ZeroWeight)
            && (weight > 0.0 && Sum(CentsAsked(), eager) <= pot ==> g.granted == a.cents && g.reason == FullAsk)
            && (weight > 0.0 && Sum(CentsAsked(), eager) > pot ==>
                  && RealSum(WeightedCents(w), eager) > 0.0 && g.reason == WeightedShare
                  && GreatestShare(g.granted, a.cents, a.cents as real * weight * pot as real, RealSum(WeightedCents(w), eager)))
  {
    var b := GrantIsAmount(asks, pot, w, KellyProrata, k, g);
    SameId(asks, a, b);
    EligibleTotals(asks, w);
    var total := RealSum(RawOf(w), Eligible(asks, w));
    hide Allocate, RealSum, Eligible, Portion, Trunc, Filter, Sum, GreatestShare;
    if WeightOf(w, a) > 0.0 {
      EligibleTotal(asks, w, a);
      ContendedShare(a, w, total, pot);
    }
  }

  lemma ContendedShare(a: Ask, w: Weights, total: real, pot: int)
    requires total > 0.0 && pot > 0 && a.cents > 0 && WeightOf(w, a) > 0.0
    ensures GreatestShare(ContendedCents(a, w, total, pot), a.cents, a.cents as real * ScopeWeight(w)(a) * pot as real, total)
  {
    SameProduct(a.cents as real, WeightOf(w, a), ScopeWeight(w)(a));
    SameProduct(pot as real, RawOf(w)(a), a.cents as real * ScopeWeight(w)(a));
    RawPositive(a, w);
    hide GreatestShare, Portion, Trunc;
    CappedPortion(RawOf(w)(a), total, pot, a.cents);
  }

  // ----- the ranking -----

  /** The positive asks that come before `a`: those of a higher weight, and those of its weight with an earlier id. */
  function Ahead(w: Weights, a: Ask): Ask -> bool {
    (b: Ask) =>
      && b.cents > 0 && b.id != a.id
      && (ScopeWeight(w)(b) > ScopeWeight(w)(a) || (ScopeWeight(w)(b) == ScopeWeight(w)(a) && TextLeq(b.id, a.id)))
  }

  lemma {:induction false} FilterPrefix<T>(keep: T -> bool, s: seq<T>, i: nat)
    requires i <= |s| && forall j :: 0 <= j < |s| ==> (keep(s[j]) <==> j < i)
    ensures Filter(keep, s) == s[..i]
  {
    if s != [] {
      var last := |s| - 1;
      FilterPrefix(keep, s[..last], if i <= last then i else last);
      if i == |s| {
        assert s[..i] == s[..last] + [s[last]];
      } else {
        assert s[..last][..i] == s[..i];
      }
    }
  }


  lemma NextIsNotAhead(w: Weights, a: Ask, b: Ask)
    requires RankLeq(w)(a, b)
    ensures !Ahead(w, a)(b)
  {
    assert ScopeWeight(w)(a) == WeightOf(w, a) && ScopeWeight(w)(b) == WeightOf(w, b);
    if TextLeq(b.id, a.id) && TextLeq(a.id, b.id) {
      LeqAntisymmetric(a.id, b.id);
    }
  }

  lemma EarlierIsAhead(w: Weights, a: Ask, b: Ask)
    requires RankLeq(w)(b, a) && b.id != a.id && b.cents > 0
    ensures Ahead(w, a)(b)
  {
    assert ScopeWeight(w)(a) == WeightOf(w, a) && ScopeWeight(w)(b) == WeightOf(w, b);
  }

  /** The ranking above its `i`th entry is everything ahead of that entry. */
  lemma AboveIsAhead(asks: seq<Ask>, w: Weights, i: nat)
    requires DistinctIds(asks) && i < |Ranked(asks, w)|
    ensures Filter(Ahead(w, Ranked(asks, w)[i]), Ranked(asks, w)) == Ranked(asks, w)[..i]
  {
    var ranked := Ranked(asks, w);
    LiveDistinct(asks, w);
    RankOrder(w);
    SortSorted(Live(asks), RankLeq(w));
    var a := ranked[i];
    hide Ranked, Ahead, RankLeq, Live, Filter, TotalPreorder;
    forall j | 0 <= j < |ranked| ensures Ahead(w, a)(ranked[j]) <==> j < i {
      RankedAt(asks, w, j);
      if j < i {
        EarlierIsAhead(w, a, ranked[j]);
      } else if i < j {
        NextIsNotAhead(w, a, ranked[j]);
      } else {
        NotAheadOfItself(w, a);
      }
    }
    FilterPrefix(Ahead(w, a), ranked, i);
  }

  lemma NotAheadOfItself(w: Weights, a: Ask)
    ensures !Ahead(w, a)(a)
  {
  }

  lemma AheadAreWanted(asks: seq<Ask>, w: Weights, a: Ask)
    ensures Filter(Ahead(w, a), Filter(Wanted(), asks)) == Filter(Ahead(w, a), asks)
  {
    FilterTwice(Wanted(), Ahead(w, a), Ahead(w, a), asks);
  }

  /** How many stand above `a` in the ranking, and what they ask, read off the list as given. */
  lemma AboveInNumbers(asks: seq<Ask>, w: Weights, a: Ask)
    requires DistinctIds(asks) && a in asks && a.cents > 0
    ensures var ranked, ahead := Ranked(asks, w), Filter(Ahead(w, a), asks);
            var i := IndexOf(ranked, a);
            i < |ranked| && i == |ahead| && Sum(CentsOf, ranked[..i]) == Sum(CentsAsked(), ahead)
  {
    var ranked, ahead := Ranked(asks, w), Filter(Ahead(w, a), asks);
    var i := IndexOf(ranked, a);
    RankedMember(asks, w, a);
    AboveIsAhead(asks, w, i);
    LiveIsWanted(asks);
    RankOrder(w);
    IdOrder();
    AheadAreWanted(asks, w, a);
    hide Sort, Filter, Live, Ahead, RankLeq, Sum, TotalPreorder, IndexOf;
    FilterSort(Ahead(w, a), Live(asks), RankLeq(w));
    FilterSort(Ahead(w, a), Filter(Wanted(), asks), IdLeq);
    assert ranked[..i] == Sort(Sort(ahead, IdLeq), RankLeq(w));
    SumSort(CentsOf, Sort(ahead, IdLeq), RankLeq(w));
    SumSort(CentsOf, ahead, IdLeq);
    SumSame(CentsOf, CentsAsked(), ahead);
  }

  /**
   Top-k grants nothing to an ask with k or more ahead of it: asks of a higher weight, or of its weight and an earlier id.
   The others get what the asks ahead of them leave of the pot, up to the whole ask.
   */
  lemma TopKGrants(asks: seq<Ask>, pot: int, w: Weights, k: int, g: Grant, a: Ask)
    requires DistinctIds(asks) && NonnegativeWeights(w) && pot > 0 && a in asks && a.id == g.id && a.cents > 0
    requires g in Allocate(asks, pot, w, PolicyOf("top_k"), k)
    ensures var ahead, weight := Filter(Ahead(w, a), asks), ScopeWeight(w)(a);
            var rest := pot - Sum(CentsAsked(), ahead);
            && g.weight == weight
            && (|ahead| >= k ==> g.granted == 0 && g.reason == OutsideTopK)
            && (|ahead| < k && rest >= a.cents ==> g.granted == a.cents && g.reason == TopK)
            && (|ahead| < k && 0 <= rest < a.cents ==> g.granted == rest && g.reason == TruncatedByPot)
            && (|ahead| < k && rest < 0 ==> g.granted == 0 && g.reason == TruncatedByPot)
  {
    hide Allocate, Ranked, IndexOf, Filter, Ahead, Sum;
    var b := GrantIsAmount(asks, pot, w, TopKPolicy, k, g);
    SameId(asks, a, b);
    RankedMember(asks, w, a);
    AboveInNumbers(asks, w, a);
  }

  /** No pot grants nothing, and neither does an ask for nothing. */
  lemma NothingGranted(asks: seq<Ask>, pot: int, w: Weights, name: string, k: int, g: Grant, a: Ask)
    requires DistinctIds(asks) && NonnegativeWeights(w) && a in asks && a.id == g.id
    requires g in Allocate(asks, pot, w, PolicyOf(name), k)
    ensures pot <= 0 ==> g.granted == 0 && g.reason == PotExhausted
    ensures pot > 0 && a.cents <= 0 ==> g.granted == 0 && g.reason == NoAsk
  {
    hide Allocate, Ranked, IndexOf, Filter, Sum, RealSum;
    var b := GrantIsAmount(asks, pot, w, PolicyOf(name), k, g);
    SameId(asks, a, b);
  }
}
