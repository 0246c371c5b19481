/**
 Dividing one capped pot among the cycle's candidates (`autonomy/candidate_allocation.py`).
 Cents are integers, weights exact reals; a scope without a weight has weight zero.
 */
module CandidateAllocation {
  import opened Extrema
  import opened Rounding
  import opened StableSorting
  import opened TextOrder

  datatype Ask = Ask(id: string, scope: string, cents: int, price: int)

  datatype Reason =
    | PotExhausted | NoAsk | ZeroWeight | FullAsk | ZeroWeightedAsk | WeightedShare
    | ZeroTotalWeight | WeightShare | ClampedToAsk | OutsideTopK | TopK | TruncatedByPot

  datatype Grant = Grant(id: string, granted: int, weight: real, reason: Reason)

  datatype Policy = KellyProrata | Proportional | TopKPolicy

  type Weights = map<string, real>

  function WeightOf(w: Weights, a: Ask): real {
    if a.scope in w then w[a.scope] else 0.0
  }

  // ----- the running pot -----

  /** Paid to the first `n` asks, each taking its share capped by its ask and by what is left. */
  function Spent(shares: seq<int>, asks: seq<Ask>, pot: int, n: nat): int
    requires n <= |shares| == |asks|
    decreases n, 0
  {
    if n == 0 then 0 else Spent(shares, asks, pot, n - 1) + Cents(shares, asks, pot, n - 1)
  }

  function Cents(shares: seq<int>, asks: seq<Ask>, pot: int, i: nat): int
    requires i < |shares| == |asks|
    decreases i, 1
  {
    Min(shares[i], Min(asks[i].cents, Max(0, pot - Spent(shares, asks, pot, i))))
  }

  function ShareSum(shares: seq<int>, n: nat): int
    requires n <= |shares|
  {
    if n == 0 then 0 else ShareSum(shares, n - 1) + shares[n - 1]
  }

  /** The pot is a ceiling whatever the shares, asks and weights are. */
  lemma {:induction false} NeverOverspent(shares: seq<int>, asks: seq<Ask>, pot: int, n: nat)
    requires n <= |shares| == |asks|
    ensures Spent(shares, asks, pot, n) <= Max(0, pot)
  {
    if n > 0 {
      NeverOverspent(shares, asks, pot, n - 1);
    }
  }

  lemma {:induction false} ShareSumGrows(shares: seq<int>, i: nat, n: nat)
    requires i <= n <= |shares| && forall k :: 0 <= k < |shares| ==> shares[k] >= 0
    ensures 0 <= ShareSum(shares, i) <= ShareSum(shares, n)
  {
    if i < n {
      ShareSumGrows(shares, i, n - 1);
    } else if n > 0 {
      ShareSumGrows(shares, n - 1, n - 1);
    }
  }

  lemma {:induction false} SpentWithinShares(shares: seq<int>, asks: seq<Ask>, pot: int, n: nat)
    requires n <= |shares| == |asks|
    ensures Spent(shares, asks, pot, n) <= ShareSum(shares, n)
  {
    if n > 0 {
      SpentWithinShares(shares, asks, pot, n - 1);
    }
  }

  /** When the shares themselves fit the pot, the clamp to the remaining pot never binds. */
  lemma ClampNeverBinds(shares: seq<int>, asks: seq<Ask>, pot: int, i: nat)
    requires i < |shares| == |asks| && forall k :: 0 <= k < |shares| ==> shares[k] >= 0
    requires ShareSum(shares, |shares|) <= pot
    ensures Cents(shares, asks, pot, i) == Min(shares[i], asks[i].cents)
  {
    SpentWithinShares(shares, asks, pot, i);
    ShareSumGrows(shares, i + 1, |shares|);
  }

  /** How a policy words a grant, given the share, the cents paid and the ask. */
  type Why = (int, int, Ask) -> Reason

  function GrantAt(asks: seq<Ask>, shares: seq<int>, pot: int, w: Weights, why: Why, i: nat): Grant
    requires |shares| == |asks| && i < |asks|
  {
    var cents := Cents(shares, asks, pot, i);
    Grant(asks[i].id, cents, WeightOf(w, asks[i]), why(shares[i], cents, asks[i]))
  }

  function PayGrants(asks: seq<Ask>, shares: seq<int>, pot: int, w: Weights, why: Why, n: nat): (g: seq<Grant>)
    requires |shares| == |asks| && n <= |asks|
    ensures |g| == n
    ensures forall i :: 0 <= i < n ==> g[i] == GrantAt(asks, shares, pot, w, why, i)
  {
    if n == 0 then []
    else PayGrants(asks, shares, pot, w, why, n - 1) + [GrantAt(asks, shares, pot, w, why, n - 1)]
  }

  function Zeros(asks: seq<Ask>, w: Weights, why: Reason): (g: seq<Grant>)
    ensures |g| == |asks|
    ensures forall i :: 0 <= i < |g| ==> g[i] == Grant(asks[i].id, 0, WeightOf(w, asks[i]), why)
  {
    seq(|asks|, i requires 0 <= i < |asks| => Grant(asks[i].id, 0, WeightOf(w, asks[i]), why))
  }

  // ----- the shares -----

  function CentsOf(a: Ask): int { a.cents }

  function RawOf(w: Weights): Ask -> real {
    (a: Ask) => a.cents as real * WeightOf(w, a)
  }

  function WeightFn(w: Weights): Ask -> real {
    (a: Ask) => WeightOf(w, a)
  }

  /** The fraction of the pot that `x` out of `total` stands for. */
  function Portion(x: real, total: real, pot: int): real
    requires total > 0.0
  {
    x / total * pot as real
  }

  /** `raw` is keyed by candidate id, so a repeated id keeps only its last entry. */
  function RawFor(asks: seq<Ask>, w: Weights, id: string): real {
    if asks == [] then 0.0
    else if asks[|asks| - 1].id == id then RawOf(w)(asks[|asks| - 1])
    else RawFor(asks[..|asks| - 1], w, id)
  }

  function RawTotal(asks: seq<Ask>, w: Weights): real
    decreases |asks|
  {
    if asks == [] then 0.0
    else
      var a := asks[|asks| - 1];
      RawTotal(Filter((b: Ask) => b.id != a.id, asks[..|asks| - 1]), w) + RawOf(w)(a)
  }

  function KellyShares(asks: seq<Ask>, w: Weights, pot: int): (s: seq<int>)
    requires RawTotal(asks, w) > 0.0
    ensures |s| == |asks|
    ensures forall i :: 0 <= i < |s| ==> s[i] == Trunc(Portion(RawFor(asks, w, asks[i].id), RawTotal(asks, w), pot))
  {
    var total := RawTotal(asks, w);
    seq(|asks|, i requires 0 <= i < |asks| => Trunc(Portion(RawFor(asks, w, asks[i].id), total, pot)))
  }

  function WeightShares(asks: seq<Ask>, w: Weights, pot: int): (s: seq<int>)
    requires RealSum(WeightFn(w), asks) > 0.0
    ensures |s| == |asks|
    ensures forall i :: 0 <= i < |s| ==> s[i] == Trunc(Portion(WeightOf(w, asks[i]), RealSum(WeightFn(w), asks), pot))
  {
    var total := RealSum(WeightFn(w), asks);
    seq(|asks|, i requires 0 <= i < |asks| => Trunc(Portion(WeightOf(w, asks[i]), total, pot)))
  }

  function AskShares(asks: seq<Ask>): (s: seq<int>)
    ensures |s| == |asks| && forall i :: 0 <= i < |s| ==> s[i] == asks[i].cents
  {
    seq(|asks|, i requires 0 <= i < |asks| => asks[i].cents)
  }

  function Always(reason: Reason): Why {
    (share: int, cents: int, a: Ask) => reason
  }

  // ----- the three policies -----

  function Fundable(w: Weights): Ask -> bool {
    (a: Ask) => WeightOf(w, a) > 0.0
  }

  function Unfundable(w: Weights): Ask -> bool {
    (a: Ask) => WeightOf(w, a) <= 0.0
  }

  function KellyGrants(live: seq<Ask>, pot: int, w: Weights): seq<Grant> {
    Zeros(Filter(Unfundable(w), live), w, ZeroWeight) + KellyPaid(Filter(Fundable(w), live), pot, w)
  }

  function KellyPaid(eligible: seq<Ask>, pot: int, w: Weights): seq<Grant> {
    if Sum(CentsOf, eligible) <= pot then
      PayGrants(eligible, AskShares(eligible), pot, w, Always(FullAsk), |eligible|)
    else if RawTotal(eligible, w) <= 0.0 then Zeros(eligible, w, ZeroWeightedAsk)
    else PayGrants(eligible, KellyShares(eligible, w, pot), pot, w, Always(WeightedShare), |eligible|)
  }

  function ShareReason(): Why {
    (share: int, cents: int, a: Ask) => if cents == share then WeightShare else ClampedToAsk
  }

  function ProportionalGrants(live: seq<Ask>, pot: int, w: Weights): seq<Grant> {
    if RealSum(WeightFn(w), live) <= 0.0 then Zeros(live, w, ZeroTotalWeight)
    else
      var shares := WeightShares(live, w, pot);
      PayGrants(live, shares, pot, w, ShareReason(), |live|)
  }

  /** Heaviest first, then by candidate id. */
  function RankLeq(w: Weights): (Ask, Ask) -> bool {
    (a: Ask, b: Ask) =>
      WeightOf(w, a) > WeightOf(w, b) || (WeightOf(w, a) == WeightOf(w, b) && TextLeq(a.id, b.id))
  }

  function Funded(ranked: seq<Ask>, k: int): set<string> {
    set i | 0 <= i < Min(Max(0, k), |ranked|) :: ranked[i].id
  }

  function TopShares(ranked: seq<Ask>, k: int): (s: seq<int>)
    ensures |s| == |ranked|
    ensures forall i :: 0 <= i < |s| ==> s[i] == if ranked[i].id in Funded(ranked, k) then ranked[i].cents else 0
  {
    seq(|ranked|, i requires 0 <= i < |ranked| => if ranked[i].id in Funded(ranked, k) then ranked[i].cents else 0)
  }

  function TopReason(funded: set<string>): Why {
    (share: int, cents: int, a: Ask) =>
      if a.id !in funded then OutsideTopK else if cents == a.cents then TopK else TruncatedByPot
  }

  function TopKGrants(live: seq<Ask>, pot: int, w: Weights, k: int): seq<Grant> {
    var ranked := Sort(live, RankLeq(w));
    var shares := TopShares(ranked, k);
    PayGrants(ranked, shares, pot, w, TopReason(Funded(ranked, k)), |ranked|)
  }

  // ----- the entry point -----

  predicate IdLeq(a: Ask, b: Ask) { TextLeq(a.id, b.id) }

  predicate GrantLeq(a: Grant, b: Grant) { TextLeq(a.id, b.id) }

  function Wants(a: Ask): bool { a.cents > 0 }

  function WantsNothing(a: Ask): bool { a.cents <= 0 }

  /** An unrecognised policy name falls back to the default. */
  function PolicyOf(name: string): Policy {
    if name == "top_k" then TopKPolicy else if name == "proportional" then Proportional else KellyProrata
  }

  function LiveGrants(live: seq<Ask>, pot: int, w: Weights, policy: Policy, k: int): seq<Grant> {
    match policy
    case TopKPolicy => TopKGrants(live, pot, w, k)
    case Proportional => ProportionalGrants(live, pot, w)
    case KellyProrata => KellyGrants(live, pot, w)
  }

  function Allocate(asks: seq<Ask>, pot: int, w: Weights, policy: Policy, k: int): seq<Grant> {
    var ordered := Sort(asks, IdLeq);
    if pot <= 0 then Zeros(ordered, w, PotExhausted)
    else
      var live, dead := Filter(Wants, ordered), Zeros(Filter(WantsNothing, ordered), w, NoAsk);
      if live == [] then dead
      else Sort(dead + LiveGrants(live, pot, w, policy, k), GrantLeq)
  }

  // ----- the loops -----

  /** The payment loop the policies share: one grant appended per ask, the pot running down. */
  method PayLoop(asks: seq<Ask>, shares: seq<int>, pot: int, w: Weights, why: Why) returns (grants: seq<Grant>)
    requires |shares| == |asks|
    ensures grants == PayGrants(asks, shares, pot, w, why, |asks|)
  {
    grants := [];
    var spent := 0;
    for i := 0 to |asks|
      invariant spent == Spent(shares, asks, pot, i)
      invariant grants == PayGrants(asks, shares, pot, w, why, i)
    {
      var cents := Min(shares[i], Min(asks[i].cents, Max(0, pot - spent)));
      spent := spent + cents;
      grants := grants + [Grant(asks[i].id, cents, WeightOf(w, asks[i]), why(shares[i], cents, asks[i]))];
    }
  }

  method AllocatePot(asks: seq<Ask>, pot: int, w: Weights, policyName: string, k: int := 5) returns (grants: seq<Grant>)
    ensures grants == Allocate(asks, pot, w, PolicyOf(policyName), k)
  {
    var ordered := Sort(asks, IdLeq);
    if pot <= 0 {
      return Zeros(ordered, w, PotExhausted);
    }
    var live := Filter(Wants, ordered);
    grants := Zeros(Filter(WantsNothing, ordered), w, NoAsk);
    if live == [] {
      return;
    }
    var paid: seq<Grant>;
    match PolicyOf(policyName) {
      case TopKPolicy =>
        var ranked := Sort(live, RankLeq(w));
        var shares := TopShares(ranked, k);
        paid := PayLoop(ranked, shares, pot, w, TopReason(Funded(ranked, k)));
      case Proportional =>
        if RealSum(WeightFn(w), live) <= 0.0 {
          paid := Zeros(live, w, ZeroTotalWeight);
        } else {
          var shares := WeightShares(live, w, pot);
          paid := PayLoop(live, shares, pot, w, ShareReason());
        }
      case KellyProrata =>
        var eligible := Filter(Fundable(w), live);
        var rest: seq<Grant>;
        if Sum(CentsOf, eligible) <= pot {
          rest := PayLoop(eligible, AskShares(eligible), pot, w, Always(FullAsk));
        } else if RawTotal(eligible, w) <= 0.0 {
          rest := Zeros(eligible, w, ZeroWeightedAsk);
        } else {
          rest := PayLoop(eligible, KellyShares(eligible, w, pot), pot, w, Always(WeightedShare));
        }
        paid := Zeros(Filter(Unfundable(w), live), w, ZeroWeight) + rest;
    }
    grants := Sort(grants + paid, GrantLeq);
  }

  // ----- every input: the pot is a ceiling -----

  function GrantedOf(g: Grant): int { g.granted }

  lemma PayStep(asks: seq<Ask>, shares: seq<int>, pot: int, w: Weights, why: Why, n: nat)
    requires |shares| == |asks| && 0 < n <= |asks|
    ensures Sum(GrantedOf, PayGrants(asks, shares, pot, w, why, n))
            == Sum(GrantedOf, PayGrants(asks, shares, pot, w, why, n - 1)) + Cents(shares, asks, pot, n - 1)
  {
    var front, last := PayGrants(asks, shares, pot, w, why, n - 1), GrantAt(asks, shares, pot, w, why, n - 1);
    assert last.granted == Cents(shares, asks, pot, n - 1);
    assert PayGrants(asks, shares, pot, w, why, n) == front + [last];
    hide GrantAt, Cents, Sum, PayGrants;
    SumSnoc(GrantedOf, front, last);
  }

  lemma {:induction false} PaidTotal(asks: seq<Ask>, shares: seq<int>, pot: int, w: Weights, why: Why, n: nat)
    requires |shares| == |asks| && n <= |asks|
    ensures Sum(GrantedOf, PayGrants(asks, shares, pot, w, why, n)) == Spent(shares, asks, pot, n)
  {
    if n == 0 {
      assert PayGrants(asks, shares, pot, w, why, 0) == [];
    } else {
      hide GrantAt, Cents, Sum, PayGrants;
      PaidTotal(asks, shares, pot, w, why, n - 1);
      PayStep(asks, shares, pot, w, why, n);
    }
  }

  lemma {:induction false} ZerosTotal(grants: seq<Grant>)
    requires forall i :: 0 <= i < |grants| ==> grants[i].granted == 0
    ensures Sum(GrantedOf, grants) == 0
  {
    if grants != [] {
      ZerosTotal(grants[..|grants| - 1]);
    }
  }

  lemma LiveTotal(live: seq<Ask>, pot: int, w: Weights, policy: Policy, k: int)
    requires pot > 0
    ensures Sum(GrantedOf, LiveGrants(live, pot, w, policy, k)) <= pot
  {
    hide GrantAt;
    match policy {
      case TopKPolicy =>
        var ranked := Sort(live, RankLeq(w));
        PaidTotal(ranked, TopShares(ranked, k), pot, w, TopReason(Funded(ranked, k)), |ranked|);
        NeverOverspent(TopShares(ranked, k), ranked, pot, |ranked|);
      case Proportional =>
        if RealSum(WeightFn(w), live) <= 0.0 {
          ZerosTotal(Zeros(live, w, ZeroTotalWeight));
        } else {
          PaidTotal(live, WeightShares(live, w, pot), pot, w, ShareReason(), |live|);
          NeverOverspent(WeightShares(live, w, pot), live, pot, |live|);
        }
      case KellyProrata =>
        KellyTotal(live, pot, w);
    }
  }

  lemma KellyTotal(live: seq<Ask>, pot: int, w: Weights)
    requires pot > 0
    ensures Sum(GrantedOf, KellyGrants(live, pot, w)) <= pot
  {
    hide GrantAt;
    var unfunded, eligible := Zeros(Filter(Unfundable(w), live), w, ZeroWeight), Filter(Fundable(w), live);
    SumAppend(GrantedOf, unfunded, KellyPaid(eligible, pot, w));
    ZerosTotal(unfunded);
    if Sum(CentsOf, eligible) <= pot {
      PaidTotal(eligible, AskShares(eligible), pot, w, Always(FullAsk), |eligible|);
      NeverOverspent(AskShares(eligible), eligible, pot, |eligible|);
    } else if RawTotal(eligible, w) <= 0.0 {
      ZerosTotal(Zeros(eligible, w, ZeroWeightedAsk));
    } else {
      PaidTotal(eligible, KellyShares(eligible, w, pot), pot, w, Always(WeightedShare), |eligible|);
      NeverOverspent(KellyShares(eligible, w, pot), eligible, pot, |eligible|);
    }
  }

  /**
   For every list of asks (repeated ids and negative asks included), every policy and every
   weight, negative ones included, the grants exceed the pot only when it is negative, and then
   nothing is granted.
   */
  lemma PotIsCeiling(asks: seq<Ask>, pot: int, w: Weights, policy: Policy, k: int)
    ensures Sum(GrantedOf, Allocate(asks, pot, w, policy, k)) <= pot <==> pot >= 0
    ensures pot <= 0 ==> forall g {:trigger g in Allocate(asks, pot, w, policy, k)} ::
              g in Allocate(asks, pot, w, policy, k) ==> g.granted == 0
  {
    var ordered := Sort(asks, IdLeq);
    if pot <= 0 {
      ZerosTotal(Zeros(ordered, w, PotExhausted));
    } else {
      var live, dead := Filter(Wants, ordered), Zeros(Filter(WantsNothing, ordered), w, NoAsk);
      ZerosTotal(dead);
      LiveTotal(live, pot, w, policy, k);
      SumAppend(GrantedOf, dead, LiveGrants(live, pot, w, policy, k));
      SumSort(GrantedOf, dead + LiveGrants(live, pot, w, policy, k), GrantLeq);
    }
  }

  // ----- shares that fit the pot -----

  lemma PortionAdds(x: real, y: real, total: real, pot: int)
    requires total > 0.0
    ensures Portion(x, total, pot) + Portion(y, total, pot) == Portion(x + y, total, pot)
  {
    assert x / total + y / total == (x + y) / total;
    Distribute(x / total, y / total, pot as real);
  }

  lemma Distribute(a: real, b: real, c: real)
    ensures a * c + b * c == (a + b) * c
  {
  }

  lemma PortionWhole(total: real, pot: int)
    requires total > 0.0
    ensures Portion(total, total, pot) == pot as real
  {
    assert total / total == 1.0;
  }

  lemma PortionNonnegative(x: real, total: real, pot: int)
    requires total > 0.0 && x >= 0.0 && pot >= 0
    ensures Portion(x, total, pot) >= 0.0
  {
    assert x / total >= 0.0;
    assert x / total * pot as real >= 0.0;
  }

  /** A larger total makes every portion smaller. */
  lemma PortionShrinks(x: real, total: real, larger: real, pot: int)
    requires 0.0 < total <= larger && x >= 0.0 && pot >= 0
    ensures Portion(x, larger, pot) <= Portion(x, total, pot)
  {
    DivideShrinks(x, total, larger);
    ScaleUp(x / larger, x / total, pot as real);
  }

  lemma DivideShrinks(x: real, total: real, larger: real)
    requires 0.0 < total <= larger && x >= 0.0
    ensures x / larger <= x / total
  {
    var q := x / larger;
    assert q >= 0.0;
    ScaleUp(total, larger, q);
    assert q * larger == x;
    DivideBack(q, total, x);
  }

  lemma DivideBack(q: real, total: real, x: real)
    requires total > 0.0 && total * q <= x
    ensures q <= x / total
  {
    var r := x / total;
    assert r * total == x;
    assert (r - q) * total >= 0.0;
  }

  lemma ScaleUp(a: real, b: real, c: real)
    requires a <= b && c >= 0.0
    ensures a * c <= b * c
  {
  }

  lemma {:induction false} NonnegativeSum(f: Ask -> real, asks: seq<Ask>)
    requires forall a {:trigger a in asks} :: a in asks ==> f(a) >= 0.0
    ensures RealSum(f, asks) >= 0.0
  {
    if asks != [] {
      Members(asks);
      NonnegativeSum(f, asks[..|asks| - 1]);
    }
  }

  lemma Members(asks: seq<Ask>)
    requires asks != []
    ensures asks[|asks| - 1] in asks && forall a {:trigger a in asks[..|asks| - 1]} :: a in asks[..|asks| - 1] ==> a in asks
  {
  }

  /** Truncated portions of a total never add up to more than the pot. */
  lemma {:induction false} PortionsFit(shares: seq<int>, asks: seq<Ask>, f: Ask -> real, total: real, pot: int, n: nat)
    requires n <= |shares| == |asks| && total > 0.0 && pot >= 0
    requires forall i :: 0 <= i < |asks| ==> f(asks[i]) >= 0.0
    requires forall i :: 0 <= i < |asks| ==> shares[i] == Trunc(Portion(f(asks[i]), total, pot))
    ensures ShareSum(shares, n) as real <= Portion(RealSum(f, asks[..n]), total, pot)
  {
    if n == 0 {
      PortionNonnegative(0.0, total, pot);
    } else {
      PortionsFit(shares, asks, f, total, pot, n - 1);
      var before, x := RealSum(f, asks[..n - 1]), f(asks[n - 1]);
      assert asks[..n][..n - 1] == asks[..n - 1];
      assert RealSum(f, asks[..n]) == before + x;
      PortionNonnegative(x, total, pot);
      PortionAdds(before, x, total, pot);
      hide Portion, RealSum;
    }
  }

  // ----- what each ask gets, in closed form -----

  ghost predicate DistinctIds(asks: seq<Ask>) {
    forall i, j :: 0 <= i < j < |asks| ==> asks[i].id != asks[j].id
  }

  lemma {:induction false} RawForDistinct(asks: seq<Ask>, w: Weights, i: nat)
    requires DistinctIds(asks) && i < |asks|
    ensures RawFor(asks, w, asks[i].id) == RawOf(w)(asks[i])
  {
    if i < |asks| - 1 {
      RawForDistinct(asks[..|asks| - 1], w, i);
    }
  }

  lemma {:induction false} RawTotalDistinct(asks: seq<Ask>, w: Weights)
    requires DistinctIds(asks)
    ensures RawTotal(asks, w) == RealSum(RawOf(w), asks)
  {
    if asks != [] {
      var front, a := asks[..|asks| - 1], asks[|asks| - 1];
      FilterAll((b: Ask) => b.id != a.id, front);
      RawTotalDistinct(front, w);
    }
  }

  /** Weighted share of an oversubscribed pot, each ask capped by itself only. */
  function ContendedCents(a: Ask, w: Weights, total: real, pot: int): int
    requires total > 0.0
  {
    Min(Trunc(Portion(RawOf(w)(a), total, pot)), a.cents)
  }

  /** In an oversubscribed pot the running clamp never binds. */
  lemma KellyUnclamped(eligible: seq<Ask>, w: Weights, pot: int, i: nat)
    requires DistinctIds(eligible) && pot > 0 && i < |eligible| && RawTotal(eligible, w) > 0.0
    requires forall i :: 0 <= i < |eligible| ==> eligible[i].cents > 0 && WeightOf(w, eligible[i]) > 0.0
    ensures Cents(KellyShares(eligible, w, pot), eligible, pot, i)
            == ContendedCents(eligible[i], w, RawTotal(eligible, w), pot)
  {
    var shares, total := KellyShares(eligible, w, pot), RawTotal(eligible, w);
    RawTotalDistinct(eligible, w);
    forall k | 0 <= k < |eligible|
      ensures RawOf(w)(eligible[k]) >= 0.0
      ensures shares[k] == Trunc(Portion(RawOf(w)(eligible[k]), total, pot)) && shares[k] >= 0
    {
      RawForDistinct(eligible, w, k);
      RawNonnegative(eligible[k], w);
      PortionNonnegative(RawOf(w)(eligible[k]), total, pot);
    }
    hide Portion, RawTotal, RealSum, KellyShares;
    PortionsFit(shares, eligible, RawOf(w), total, pot, |eligible|);
    assert eligible[..|eligible|] == eligible;
    PortionWhole(total, pot);
    ClampNeverBinds(shares, eligible, pot, i);
  }

  lemma RawNonnegative(a: Ask, w: Weights)
    requires a.cents >= 0 && WeightOf(w, a) >= 0.0
    ensures RawOf(w)(a) >= 0.0
  {
  }

  /** Nor does it under the proportional policy, when no weight is negative. */
  lemma ProportionalUnclamped(live: seq<Ask>, w: Weights, pot: int, i: nat)
    requires pot > 0 && i < |live| && RealSum(WeightFn(w), live) > 0.0
    requires forall i :: 0 <= i < |live| ==> WeightOf(w, live[i]) >= 0.0
    ensures Cents(WeightShares(live, w, pot), live, pot, i)
            == Min(Trunc(Portion(WeightOf(w, live[i]), RealSum(WeightFn(w), live), pot)), live[i].cents)
  {
    var shares, total := WeightShares(live, w, pot), RealSum(WeightFn(w), live);
    forall k | 0 <= k < |live| ensures shares[k] >= 0 {
      PortionNonnegative(WeightOf(w, live[k]), total, pot);
    }
    hide Portion, RealSum, WeightShares, WeightOf;
    PortionsFit(shares, live, WeightFn(w), total, pot, |live|);
    assert live[..|live|] == live;
    PortionWhole(total, pot);
    ClampNeverBinds(shares, live, pot, i);
  }

  // ----- one grant per ask -----

  function AsksFor(id: string): Ask -> int {
    (a: Ask) => if a.id == id then 1 else 0
  }

  function GrantsFor(id: string): Grant -> int {
    (g: Grant) => if g.id == id then 1 else 0
  }

  /** The grants answer the asks one for one, in order. */
  ghost predicate Answers(grants: seq<Grant>, asks: seq<Ask>) {
    |grants| == |asks| && forall i :: 0 <= i < |asks| ==> grants[i].id == asks[i].id
  }

  lemma {:induction false} AnswersCount(grants: seq<Grant>, asks: seq<Ask>, id: string)
    requires Answers(grants, asks)
    ensures Sum(GrantsFor(id), grants) == Sum(AsksFor(id), asks)
  {
    if asks != [] {
      AnswersCount(grants[..|grants| - 1], asks[..|asks| - 1], id);
    }
  }

  lemma TopKCount(live: seq<Ask>, pot: int, w: Weights, k: int, id: string)
    ensures Sum(GrantsFor(id), TopKGrants(live, pot, w, k)) == Sum(AsksFor(id), live)
  {
    hide Sum, AsksFor, GrantsFor, Sort;
    AnswersCount(TopKGrants(live, pot, w, k), Sort(live, RankLeq(w)), id);
    SumSort(AsksFor(id), live, RankLeq(w));
  }

  lemma ProportionalCount(live: seq<Ask>, pot: int, w: Weights, id: string)
    ensures Sum(GrantsFor(id), ProportionalGrants(live, pot, w)) == Sum(AsksFor(id), live)
  {
    hide Sum, AsksFor, GrantsFor, RealSum;
    AnswersCount(ProportionalGrants(live, pot, w), live, id);
  }

  lemma KellyCount(live: seq<Ask>, pot: int, w: Weights, id: string)
    ensures Sum(GrantsFor(id), KellyGrants(live, pot, w)) == Sum(AsksFor(id), live)
  {
    hide Sum, AsksFor, GrantsFor, Filter, Zeros, KellyPaid;
    var eligible, unfunded := Filter(Fundable(w), live), Filter(Unfundable(w), live);
    FilterParts(AsksFor(id), Fundable(w), Unfundable(w), live);
    PaidAnswers(eligible, pot, w);
    AnswersCount(KellyPaid(eligible, pot, w), eligible, id);
    AnswersCount(Zeros(unfunded, w, ZeroWeight), unfunded, id);
    SumAppend(GrantsFor(id), Zeros(unfunded, w, ZeroWeight), KellyPaid(eligible, pot, w));
  }

  lemma PaidAnswers(eligible: seq<Ask>, pot: int, w: Weights)
    ensures Answers(KellyPaid(eligible, pot, w), eligible)
  {
    hide Sum, RealSum, RawTotal;
  }

  lemma LiveCount(live: seq<Ask>, pot: int, w: Weights, policy: Policy, k: int, id: string)
    ensures Sum(GrantsFor(id), LiveGrants(live, pot, w, policy, k)) == Sum(AsksFor(id), live)
  {
    hide Sum, AsksFor, GrantsFor, KellyGrants, TopKGrants, ProportionalGrants;
    TopKCount(live, pot, w, k, id);
    ProportionalCount(live, pot, w, id);
    KellyCount(live, pot, w, id);
  }

  /** Every candidate gets exactly as many grants as it made asks, under every policy. */
  lemma OneGrantPerAsk(asks: seq<Ask>, pot: int, w: Weights, policy: Policy, k: int, id: string)
    ensures Sum(GrantsFor(id), Allocate(asks, pot, w, policy, k)) == Sum(AsksFor(id), asks)
  {
    hide *;
    var ordered := Sort(asks, IdLeq);
    var live, idle := Filter(Wants, ordered), Filter(WantsNothing, ordered);
    AllocateIs(asks, pot, w, policy, k);
    SumSort(AsksFor(id), asks, IdLeq);
    WantsOrNot(id, ordered);
    if pot <= 0 {
      AnswersCount(Zeros(ordered, w, PotExhausted), ordered, id);
    } else if live == [] {
      NothingAsked(id);
      DeadCount(idle, w, id);
    } else {
      GrantsCount(live, idle, pot, w, policy, k, id);
    }
  }

  lemma AllocateIs(asks: seq<Ask>, pot: int, w: Weights, policy: Policy, k: int)
    ensures var ordered := Sort(asks, IdLeq);
            var live, dead := Filter(Wants, ordered), Zeros(Filter(WantsNothing, ordered), w, NoAsk);
            Allocate(asks, pot, w, policy, k)
            == if pot <= 0 then Zeros(ordered, w, PotExhausted)
               else if live == [] then dead
               else Sort(dead + LiveGrants(live, pot, w, policy, k), GrantLeq)
  {
    hide LiveGrants, Sort, Filter, Zeros;
  }

  lemma WantsOrNot(id: string, ordered: seq<Ask>)
    ensures Sum(AsksFor(id), Filter(Wants, ordered)) + Sum(AsksFor(id), Filter(WantsNothing, ordered)) == Sum(AsksFor(id), ordered)
  {
    hide Sum, Filter, AsksFor;
    FilterParts(AsksFor(id), Wants, WantsNothing, ordered);
  }

  lemma NothingAsked(id: string)
    ensures Sum(AsksFor(id), []) == 0
  {
  }

  lemma DeadCount(idle: seq<Ask>, w: Weights, id: string)
    ensures Sum(GrantsFor(id), Zeros(idle, w, NoAsk)) == Sum(AsksFor(id), idle)
  {
    hide Sum, AsksFor, GrantsFor;
    AnswersCount(Zeros(idle, w, NoAsk), idle, id);
  }

  lemma GrantsCount(live: seq<Ask>, idle: seq<Ask>, pot: int, w: Weights, policy: Policy, k: int, id: string)
    ensures Sum(GrantsFor(id), Sort(Zeros(idle, w, NoAsk) + LiveGrants(live, pot, w, policy, k), GrantLeq))
         == Sum(AsksFor(id), idle) + Sum(AsksFor(id), live)
  {
    hide LiveGrants, Sum, Filter, Zeros, Sort, AsksFor, GrantsFor;
    var dead, paid := Zeros(idle, w, NoAsk), LiveGrants(live, pot, w, policy, k);
    DeadCount(idle, w, id);
    LiveCount(live, pot, w, policy, k, id);
    SumAppend(GrantsFor(id), dead, paid);
    SumSort(GrantsFor(id), dead + paid, GrantLeq);
  }

  // ----- what an ask is worth -----

  function IdOf(a: Ask): string { a.id }

  lemma SortDistinct(s: seq<Ask>, leq: (Ask, Ask) -> bool)
    requires DistinctIds(s)
    ensures DistinctIds(Sort(s, leq))
  {
    SortDistinctBy(s, leq, IdOf);
  }

  lemma FilterDistinct(keep: Ask -> bool, s: seq<Ask>)
    requires DistinctIds(s)
    ensures DistinctIds(Filter(keep, s))
  {
    FilterDistinctBy(keep, s, IdOf);
  }

  function Live(asks: seq<Ask>): seq<Ask> {
    Filter(Wants, Sort(asks, IdLeq))
  }

  function Eligible(asks: seq<Ask>, w: Weights): seq<Ask> {
    Filter(Fundable(w), Live(asks))
  }

  function Ranked(asks: seq<Ask>, w: Weights): seq<Ask> {
    Sort(Live(asks), RankLeq(w))
  }

  lemma LiveMembers(asks: seq<Ask>, a: Ask)
    ensures a in Live(asks) <==> a in asks && a.cents > 0
  {
    SortMembers(asks, IdLeq);
  }

  lemma LiveDistinct(asks: seq<Ask>, w: Weights)
    requires DistinctIds(asks)
    ensures DistinctIds(Live(asks)) && DistinctIds(Eligible(asks, w)) && DistinctIds(Ranked(asks, w))
  {
    SortDistinct(asks, IdLeq);
    FilterDistinct(Wants, Sort(asks, IdLeq));
    FilterDistinct(Fundable(w), Live(asks));
    SortDistinct(Live(asks), RankLeq(w));
  }

  function IndexOf(s: seq<Ask>, a: Ask): (i: nat)
    ensures i <= |s|
    ensures a in s ==> i < |s| && s[i] == a
  {
    if s == [] then 0 else if s[0] == a then 0 else 1 + IndexOf(s[1..], a)
  }

  /** The pot poured down the ranking: what is left when entry `i` is reached, if it is in the top `k`. */
  function Poured(ranked: seq<Ask>, pot: int, k: int, i: nat): int
    requires i < |ranked|
  {
    if i < k then Min(ranked[i].cents, Max(0, pot - Sum(CentsOf, ranked[..i]))) else 0
  }

  /**
   What ask `a` of the list is granted, in closed form: no running pot, no order of
   processing, only totals (and, for top-k, the asks ranked above it).
   */
  function Amount(asks: seq<Ask>, pot: int, w: Weights, policy: Policy, k: int, a: Ask): int {
    if pot <= 0 || a.cents <= 0 then 0
    else
      match policy
      case KellyProrata =>
        if WeightOf(w, a) <= 0.0 then 0
        else if Sum(CentsOf, Eligible(asks, w)) <= pot then a.cents
        else if RealSum(RawOf(w), Eligible(asks, w)) <= 0.0 then 0
        else ContendedCents(a, w, RealSum(RawOf(w), Eligible(asks, w)), pot)
      case Proportional =>
        var total := RealSum(WeightFn(w), Live(asks));
        if total <= 0.0 then 0 else Min(Trunc(Portion(WeightOf(w, a), total, pot)), a.cents)
      case TopKPolicy =>
        var ranked := Ranked(asks, w);
        var i := IndexOf(ranked, a);
        if i < |ranked| then Poured(ranked, pot, k, i) else 0
  }

  /** The reason given with it. */
  function ReasonOf(asks: seq<Ask>, pot: int, w: Weights, policy: Policy, k: int, a: Ask): Reason {
    if pot <= 0 then PotExhausted
    else if a.cents <= 0 then NoAsk
    else
      match policy
      case KellyProrata =>
        if WeightOf(w, a) <= 0.0 then ZeroWeight
        else if Sum(CentsOf, Eligible(asks, w)) <= pot then FullAsk
        else if RealSum(RawOf(w), Eligible(asks, w)) <= 0.0 then ZeroWeightedAsk
        else WeightedShare
      case Proportional =>
        var total := RealSum(WeightFn(w), Live(asks));
        if total <= 0.0 then ZeroTotalWeight
        else if Trunc(Portion(WeightOf(w, a), total, pot)) <= a.cents then WeightShare else ClampedToAsk
      case TopKPolicy =>
        if IndexOf(Ranked(asks, w), a) >= k then OutsideTopK
        else if Amount(asks, pot, w, policy, k, a) == a.cents then TopK else TruncatedByPot
  }

  /** A grant is worth the closed form, and says why and under which weight. */
  ghost predicate Accounts(g: Grant, asks: seq<Ask>, pot: int, w: Weights, policy: Policy, k: int, a: Ask) {
    && g.id == a.id && g.granted == Amount(asks, pot, w, policy, k, a)
    && g.weight == WeightOf(w, a) && g.reason == ReasonOf(asks, pot, w, policy, k, a)
  }

  ghost predicate NonnegativeWeights(w: Weights) {
    forall scope {:trigger w[scope]} :: scope in w ==> w[scope] >= 0.0
  }

  lemma {:induction false} FullSum(eligible: seq<Ask>, n: nat)
    requires n <= |eligible|
    ensures ShareSum(AskShares(eligible), n) == Sum(CentsOf, eligible[..n])
  {
    if n > 0 {
      FullSum(eligible, n - 1);
      assert eligible[..n][..n - 1] == eligible[..n - 1];
    }
  }

  lemma {:induction false} AllInTop(ranked: seq<Ask>, k: int, i: nat)
    requires DistinctIds(ranked) && i < |ranked|
    ensures ranked[i].id in Funded(ranked, k) <==> i < k
  {
    if i < k {
      assert ranked[i].id in Funded(ranked, k);
    } else if ranked[i].id in Funded(ranked, k) {
      var j :| 0 <= j < Min(Max(0, k), |ranked|) && ranked[j].id == ranked[i].id;
    }
  }

  /** Under top-k the pot runs down by whole asks until it is empty. */
  lemma {:induction false} PouredSpent(ranked: seq<Ask>, pot: int, k: int, n: nat)
    requires DistinctIds(ranked) && pot > 0 && n <= |ranked| && forall i :: 0 <= i < |ranked| ==> ranked[i].cents > 0
    ensures n <= k ==> Spent(TopShares(ranked, k), ranked, pot, n) == Min(pot, Sum(CentsOf, ranked[..n]))
    ensures 0 <= Spent(TopShares(ranked, k), ranked, pot, n) <= pot
    ensures Sum(CentsOf, ranked[..n]) >= 0
  {
    if n > 0 {
      PouredSpent(ranked, pot, k, n - 1);
      AllInTop(ranked, k, n - 1);
      assert ranked[..n][..n - 1] == ranked[..n - 1];
    }
  }

  lemma PouredCents(ranked: seq<Ask>, pot: int, k: int, i: nat)
    requires DistinctIds(ranked) && pot > 0 && i < |ranked| && forall i :: 0 <= i < |ranked| ==> ranked[i].cents > 0
    ensures Cents(TopShares(ranked, k), ranked, pot, i) == Poured(ranked, pot, k, i)
  {
    PouredSpent(ranked, pot, k, i);
    AllInTop(ranked, k, i);
  }

  // ----- every grant is that amount -----

  /** Each entry of `grants` pays the ask at the same place what it is worth. */
  ghost predicate Pays(grants: seq<Grant>, list: seq<Ask>, asks: seq<Ask>, pot: int, w: Weights, policy: Policy, k: int) {
    |grants| == |list| && forall i :: 0 <= i < |list| ==>
      Accounts(grants[i], asks, pot, w, policy, k, list[i])
  }

  lemma EligibleAt(asks: seq<Ask>, w: Weights, i: nat)
    requires i < |Eligible(asks, w)|
    ensures Eligible(asks, w)[i].cents > 0 && WeightOf(w, Eligible(asks, w)[i]) > 0.0
  {
    assert Eligible(asks, w)[i] in Eligible(asks, w);
    assert Eligible(asks, w)[i] in Live(asks);
  }

  lemma KellyEntry(asks: seq<Ask>, pot: int, w: Weights, k: int, i: nat)
    requires DistinctIds(asks) && pot > 0 && i < |Eligible(asks, w)|
    ensures var e := Eligible(asks, w);
            |KellyPaid(e, pot, w)| == |e| && Accounts(KellyPaid(e, pot, w)[i], asks, pot, w, KellyProrata, k, e[i])
  {
    var e := Eligible(asks, w);
    LiveDistinct(asks, w);
    EligibleAt(asks, w, i);
    forall j | 0 <= j < |e| ensures e[j].cents > 0 && WeightOf(w, e[j]) > 0.0 { EligibleAt(asks, w, j); }
    RawTotalDistinct(e, w);
    hide Eligible, RawTotal, RealSum, WeightOf, ContendedCents;
    if Sum(CentsOf, e) <= pot {
      FullSum(e, |e|);
      assert e[..|e|] == e;
      ClampNeverBinds(AskShares(e), e, pot, i);
    } else if RawTotal(e, w) > 0.0 {
      KellyUnclamped(e, w, pot, i);
    }
  }

  lemma KellyPays(asks: seq<Ask>, pot: int, w: Weights, k: int)
    requires DistinctIds(asks) && pot > 0
    ensures Pays(KellyPaid(Eligible(asks, w), pot, w), Eligible(asks, w), asks, pot, w, KellyProrata, k)
  {
    var e := Eligible(asks, w);
    assert |KellyPaid(e, pot, w)| == |e|;
    hide Eligible, KellyPaid, Accounts;
    forall i | 0 <= i < |e| ensures Accounts(KellyPaid(e, pot, w)[i], asks, pot, w, KellyProrata, k, e[i]) {
      KellyEntry(asks, pot, w, k, i);
    }
  }

  lemma ProportionalEntry(asks: seq<Ask>, pot: int, w: Weights, k: int, i: nat)
    requires DistinctIds(asks) && pot > 0 && NonnegativeWeights(w) && i < |Live(asks)|
    ensures var grants := ProportionalGrants(Live(asks), pot, w);
            |grants| == |Live(asks)| && Accounts(grants[i], asks, pot, w, Proportional, k, Live(asks)[i])
  {
    var live := Live(asks);
    forall j | 0 <= j < |live| ensures live[j].cents > 0 {
      assert live[j] in live;
    }
    hide Live, RealSum, Portion, WeightShares, Sum, WeightOf, Cents, Trunc;
    if RealSum(WeightFn(w), live) > 0.0 {
      ProportionalUnclamped(live, w, pot, i);
    }
  }

  lemma ProportionalPays(asks: seq<Ask>, pot: int, w: Weights, k: int)
    requires DistinctIds(asks) && pot > 0 && NonnegativeWeights(w)
    ensures Pays(ProportionalGrants(Live(asks), pot, w), Live(asks), asks, pot, w, Proportional, k)
  {
    hide Live, ProportionalGrants, Accounts;
    ProportionalLength(Live(asks), pot, w);
    forall i | 0 <= i < |Live(asks)|
      ensures Accounts(ProportionalGrants(Live(asks), pot, w)[i], asks, pot, w, Proportional, k, Live(asks)[i])
    {
      ProportionalEntry(asks, pot, w, k, i);
    }
  }

  lemma ProportionalLength(live: seq<Ask>, pot: int, w: Weights)
    ensures |ProportionalGrants(live, pot, w)| == |live|
  {
    hide RealSum;
  }

  lemma RankedAt(asks: seq<Ask>, w: Weights, i: nat)
    requires DistinctIds(asks) && i < |Ranked(asks, w)|
    ensures Ranked(asks, w)[i].cents > 0 && Ranked(asks, w)[i] in asks
    ensures IndexOf(Ranked(asks, w), Ranked(asks, w)[i]) == i
  {
    var ranked := Ranked(asks, w);
    LiveDistinct(asks, w);
    SortMembers(Live(asks), RankLeq(w));
    assert ranked[i] in ranked;
    LiveMembers(asks, ranked[i]);
  }

  lemma TopKGranted(asks: seq<Ask>, pot: int, w: Weights, k: int, i: nat)
    requires i < |Ranked(asks, w)|
    ensures var ranked := Ranked(asks, w);
            TopKGrants(Live(asks), pot, w, k)[i]
            == GrantAt(ranked, TopShares(ranked, k), pot, w, TopReason(Funded(ranked, k)), i)
  {
    hide Live, Sort, TopShares, Funded, GrantAt, RankLeq;
  }

  /** What the `i`th of the ranking is given. */
  function RankedGrant(ranked: seq<Ask>, pot: int, w: Weights, k: int, i: nat): Grant
    requires i < |ranked|
  {
    var cents := Poured(ranked, pot, k, i);
    Grant(ranked[i].id, cents, WeightOf(w, ranked[i]),
          if i >= k then OutsideTopK else if cents == ranked[i].cents then TopK else TruncatedByPot)
  }

  lemma GrantRanked(ranked: seq<Ask>, pot: int, w: Weights, k: int, i: nat)
    requires DistinctIds(ranked) && pot > 0 && i < |ranked| && forall i :: 0 <= i < |ranked| ==> ranked[i].cents > 0
    ensures GrantAt(ranked, TopShares(ranked, k), pot, w, TopReason(Funded(ranked, k)), i) == RankedGrant(ranked, pot, w, k, i)
  {
    PouredCents(ranked, pot, k, i);
    AllInTop(ranked, k, i);
    hide Funded, Cents, Sum, TopShares, WeightOf, DistinctIds;
  }

  lemma RankedAccounts(asks: seq<Ask>, pot: int, w: Weights, k: int, i: nat)
    requires pot > 0 && i < |Ranked(asks, w)| && Ranked(asks, w)[i].cents > 0
    requires IndexOf(Ranked(asks, w), Ranked(asks, w)[i]) == i
    ensures Accounts(RankedGrant(Ranked(asks, w), pot, w, k, i), asks, pot, w, TopKPolicy, k, Ranked(asks, w)[i])
  {
    hide Ranked, IndexOf, WeightOf, Poured;
  }

  lemma TopKEntry(asks: seq<Ask>, pot: int, w: Weights, k: int, i: nat)
    requires DistinctIds(asks) && pot > 0 && i < |Ranked(asks, w)|
    ensures Accounts(TopKGrants(Live(asks), pot, w, k)[i], asks, pot, w, TopKPolicy, k, Ranked(asks, w)[i])
  {
    TopKGranted(asks, pot, w, k, i);
    LiveDistinct(asks, w);
    hide Ranked, Live, TopKGrants, GrantAt, Accounts, IndexOf, RankedGrant, Funded, TopShares;
    forall j | 0 <= j < |Ranked(asks, w)| ensures Ranked(asks, w)[j].cents > 0 { RankedAt(asks, w, j); }
    GrantRanked(Ranked(asks, w), pot, w, k, i);
    RankedAt(asks, w, i);
    RankedAccounts(asks, pot, w, k, i);
  }

  lemma TopKPays(asks: seq<Ask>, pot: int, w: Weights, k: int)
    requires DistinctIds(asks) && pot > 0
    ensures Pays(TopKGrants(Live(asks), pot, w, k), Ranked(asks, w), asks, pot, w, TopKPolicy, k)
  {
    assert |TopKGrants(Live(asks), pot, w, k)| == |Ranked(asks, w)|;
    hide TopKGrants, Ranked, Live, Accounts;
    forall i | 0 <= i < |Ranked(asks, w)|
      ensures Accounts(TopKGrants(Live(asks), pot, w, k)[i], asks, pot, w, TopKPolicy, k, Ranked(asks, w)[i])
    {
      TopKEntry(asks, pot, w, k, i);
    }
  }

  lemma PaidEntry(grants: seq<Grant>, list: seq<Ask>, asks: seq<Ask>, pot: int, w: Weights, policy: Policy, k: int, g: Grant)
    returns (a: Ask)
    requires Pays(grants, list, asks, pot, w, policy, k) && g in grants
    ensures a in list && Accounts(g, asks, pot, w, policy, k, a)
  {
    hide Accounts;
    var i :| 0 <= i < |grants| && grants[i] == g;
    a := list[i];
  }

  lemma LiveEntry(asks: seq<Ask>, pot: int, w: Weights, policy: Policy, k: int, g: Grant) returns (a: Ask)
    requires DistinctIds(asks) && NonnegativeWeights(w) && pot > 0
    requires g in LiveGrants(Live(asks), pot, w, policy, k)
    ensures a in asks && Accounts(g, asks, pot, w, policy, k, a)
  {
    match policy {
      case TopKPolicy =>
        TopKPays(asks, pot, w, k);
        a := PaidEntry(TopKGrants(Live(asks), pot, w, k), Ranked(asks, w), asks, pot, w, policy, k, g);
        SortMembers(Live(asks), RankLeq(w));
        LiveMembers(asks, a);
      case Proportional =>
        ProportionalPays(asks, pot, w, k);
        a := PaidEntry(ProportionalGrants(Live(asks), pot, w), Live(asks), asks, pot, w, policy, k, g);
        LiveMembers(asks, a);
      case KellyProrata =>
        KellyPays(asks, pot, w, k);
        if g in KellyPaid(Eligible(asks, w), pot, w) {
          a := PaidEntry(KellyPaid(Eligible(asks, w), pot, w), Eligible(asks, w), asks, pot, w, policy, k, g);
        } else {
          a := ZeroEntry(Filter(Unfundable(w), Live(asks)), w, ZeroWeight, g);
        }
        LiveMembers(asks, a);
    }
  }

  lemma ZeroEntry(list: seq<Ask>, w: Weights, why: Reason, g: Grant) returns (a: Ask)
    requires g in Zeros(list, w, why)
    ensures a in list && g == Grant(a.id, 0, WeightOf(w, a), why)
  {
    var i :| 0 <= i < |list| && Zeros(list, w, why)[i] == g;
    a := list[i];
  }

  /** Every grant is what its ask is worth in closed form. */
  lemma GrantIsAmount(asks: seq<Ask>, pot: int, w: Weights, policy: Policy, k: int, g: Grant) returns (a: Ask)
    requires DistinctIds(asks) && NonnegativeWeights(w) && g in Allocate(asks, pot, w, policy, k)
    ensures a in asks && a.id == g.id && g.granted == Amount(asks, pot, w, policy, k, a)
    ensures g.weight == WeightOf(w, a) && g.reason == ReasonOf(asks, pot, w, policy, k, a)
  {
    var ordered := Sort(asks, IdLeq);
    SortMembers(asks, IdLeq);
    hide LiveGrants;
    if pot <= 0 {
      a := ZeroEntry(ordered, w, PotExhausted, g);
    } else {
      var idle := Filter(WantsNothing, ordered);
      var dead := Zeros(idle, w, NoAsk);
      SortMembers(dead + LiveGrants(Live(asks), pot, w, policy, k), GrantLeq);
      if g in dead {
        a := ZeroEntry(idle, w, NoAsk, g);
        assert a in ordered && WantsNothing(a);
      } else {
        a := LiveEntry(asks, pot, w, policy, k, g);
      }
    }
  }

  // ----- the main results -----

  lemma {:induction false} TotalOfAsks(s: seq<Ask>)
    requires forall a {:trigger a in s} :: a in s ==> a.cents > 0
    ensures Sum(CentsOf, s) >= 0
  {
    if s != [] {
      Members(s);
      TotalOfAsks(s[..|s| - 1]);
    }
  }

  lemma AmountInRange(asks: seq<Ask>, pot: int, w: Weights, policy: Policy, k: int, a: Ask)
    requires DistinctIds(asks) && NonnegativeWeights(w) && a in asks
    ensures 0 <= Amount(asks, pot, w, policy, k, a) <= Max(0, a.cents)
  {
    if pot > 0 && a.cents > 0 {
      match policy {
        case KellyProrata =>
          if WeightOf(w, a) > 0.0 && RealSum(RawOf(w), Eligible(asks, w)) > 0.0 {
            RawNonnegative(a, w);
            PortionNonnegative(RawOf(w)(a), RealSum(RawOf(w), Eligible(asks, w)), pot);
          }
        case Proportional =>
          if RealSum(WeightFn(w), Live(asks)) > 0.0 {
            PortionNonnegative(WeightOf(w, a), RealSum(WeightFn(w), Live(asks)), pot);
          }
        case TopKPolicy =>
          LiveMembers(asks, a);
          SortMembers(Live(asks), RankLeq(w));
          assert a in Ranked(asks, w);
      }
    }
  }

  // ----- within the ask -----

  ghost predicate Capped(g: Grant, list: seq<Ask>) {
    exists a {:trigger a in list} :: a in list && a.id == g.id && g.granted <= a.cents
  }

  ghost predicate AllCapped(grants: seq<Grant>, list: seq<Ask>) {
    forall g {:trigger g in grants} :: g in grants ==> Capped(g, list)
  }

  lemma PayCapped(asks: seq<Ask>, shares: seq<int>, pot: int, w: Weights, why: Why)
    requires |shares| == |asks|
    ensures AllCapped(PayGrants(asks, shares, pot, w, why, |asks|), asks)
  {
    var grants := PayGrants(asks, shares, pot, w, why, |asks|);
    hide Spent;
    forall g {:trigger g in grants} | g in grants ensures Capped(g, asks) {
      var i :| 0 <= i < |grants| && grants[i] == g;
      assert asks[i] in asks;
    }
  }

  lemma ZerosCapped(asks: seq<Ask>, w: Weights, why: Reason)
    requires forall a {:trigger a in asks} :: a in asks ==> a.cents > 0
    ensures AllCapped(Zeros(asks, w, why), asks)
  {
    var grants := Zeros(asks, w, why);
    forall g {:trigger g in grants} | g in grants ensures Capped(g, asks) {
      var a := ZeroEntry(asks, w, why, g);
    }
  }

  lemma PartCapped(grants: seq<Grant>, part: seq<Ask>, whole: seq<Ask>)
    requires AllCapped(grants, part) && forall a {:trigger a in part} :: a in part ==> a in whole
    ensures AllCapped(grants, whole)
  {
  }

  lemma KellyCapped(live: seq<Ask>, pot: int, w: Weights)
    requires forall a {:trigger a in live} :: a in live ==> a.cents > 0
    ensures AllCapped(KellyGrants(live, pot, w), live)
  {
    var eligible, unfunded := Filter(Fundable(w), live), Filter(Unfundable(w), live);
    hide Filter, AllCapped, Zeros, PayGrants, RawTotal, Sum;
    ZerosCapped(unfunded, w, ZeroWeight);
    ZerosCapped(eligible, w, ZeroWeightedAsk);
    PayCapped(eligible, AskShares(eligible), pot, w, Always(FullAsk));
    if RawTotal(eligible, w) > 0.0 {
      PayCapped(eligible, KellyShares(eligible, w, pot), pot, w, Always(WeightedShare));
    }
    PartCapped(Zeros(unfunded, w, ZeroWeight), unfunded, live);
    PartCapped(KellyPaid(eligible, pot, w), eligible, live);
    BothCapped(Zeros(unfunded, w, ZeroWeight), KellyPaid(eligible, pot, w), live);
  }

  lemma BothCapped(a: seq<Grant>, b: seq<Grant>, list: seq<Ask>)
    requires AllCapped(a, list) && AllCapped(b, list)
    ensures AllCapped(a + b, list)
  {
  }

  lemma LiveCapped(live: seq<Ask>, pot: int, w: Weights, policy: Policy, k: int)
    requires forall a {:trigger a in live} :: a in live ==> a.cents > 0
    ensures AllCapped(LiveGrants(live, pot, w, policy, k), live)
  {
    hide AllCapped, KellyGrants, PayGrants, Zeros, Sort, RealSum;
    match policy {
      case KellyProrata =>
        KellyCapped(live, pot, w);
      case Proportional =>
        ZerosCapped(live, w, ZeroTotalWeight);
        if RealSum(WeightFn(w), live) > 0.0 {
          PayCapped(live, WeightShares(live, w, pot), pot, w, ShareReason());
        }
      case TopKPolicy =>
        var ranked := Sort(live, RankLeq(w));
        SortMembers(live, RankLeq(w));
        PayCapped(ranked, TopShares(ranked, k), pot, w, TopReason(Funded(ranked, k)));
        PartCapped(TopKGrants(live, pot, w, k), ranked, live);
    }
  }

  /**
   For every list, pot, policy and weight, repeated ids and negative weights included, each grant has an
   ask of its id that it stays within exactly when that ask is not negative.
   */
  lemma AskForGrant(asks: seq<Ask>, pot: int, w: Weights, policy: Policy, k: int, g: Grant) returns (a: Ask)
    requires g in Allocate(asks, pot, w, policy, k)
    ensures a in asks && a.id == g.id && (g.granted <= a.cents <==> a.cents >= 0)
  {
    var ordered := Sort(asks, IdLeq);
    SortMembers(asks, IdLeq);
    hide LiveGrants, Sort, Zeros, AllCapped;
    if pot <= 0 {
      a := ZeroEntry(ordered, w, PotExhausted, g);
    } else {
      var live, idle := Filter(Wants, ordered), Filter(WantsNothing, ordered);
      var dead := Zeros(idle, w, NoAsk);
      SortMembers(dead + LiveGrants(live, pot, w, policy, k), GrantLeq);
      if g in dead {
        a := ZeroEntry(idle, w, NoAsk, g);
        assert a in ordered && WantsNothing(a);
      } else {
        LiveCapped(live, pot, w, policy, k);
        a := CappingAsk(LiveGrants(live, pot, w, policy, k), live, g);
        assert a in ordered && Wants(a);
      }
    }
  }

  lemma CappingAsk(grants: seq<Grant>, list: seq<Ask>, g: Grant) returns (a: Ask)
    requires AllCapped(grants, list) && g in grants
    ensures a in list && a.id == g.id && g.granted <= a.cents
  {
    assert Capped(g, list);
    a :| a in list && a.id == g.id && g.granted <= a.cents;
  }

  /**
   Under every weight a grant stays within its ask with the one exception the code has: a negative ask is granted
   zero. So "granted <= ask" holds exactly when the ask is not negative. Weights that are not negative grant
   nothing negative.
   */
  lemma GrantWithinAsk(asks: seq<Ask>, pot: int, w: Weights, policy: Policy, k: int, g: Grant, a: Ask)
    requires DistinctIds(asks) && g in Allocate(asks, pot, w, policy, k) && a in asks && a.id == g.id
    ensures g.granted <= a.cents <==> a.cents >= 0
    ensures NonnegativeWeights(w) ==> 0 <= g.granted <= Max(0, a.cents)
  {
    hide Allocate, Amount;
    var c := AskForGrant(asks, pot, w, policy, k, g);
    SameId(asks, a, c);
    if NonnegativeWeights(w) {
      var b := GrantIsAmount(asks, pot, w, policy, k, g);
      SameId(asks, a, b);
      AmountInRange(asks, pot, w, policy, k, a);
    }
  }

  /** Every ask has its grant. */
  lemma GrantForAsk(asks: seq<Ask>, pot: int, w: Weights, policy: Policy, k: int, a: Ask) returns (g: Grant)
    requires DistinctIds(asks) && NonnegativeWeights(w) && a in asks
    ensures g in Allocate(asks, pot, w, policy, k) && g.id == a.id && g.granted == Amount(asks, pot, w, policy, k, a)
  {
    hide Allocate, Amount, Sum;
    OneGrantPerAsk(asks, pot, w, policy, k, a.id);
    AskCounts(asks, a);
    g := CountedGrant(Allocate(asks, pot, w, policy, k), a.id);
    var b := GrantIsAmount(asks, pot, w, policy, k, g);
    SameId(asks, a, b);
  }

  lemma {:induction false} AskCounts(asks: seq<Ask>, a: Ask)
    requires a in asks
    ensures Sum(AsksFor(a.id), asks) >= 1
  {
    var front, last := asks[..|asks| - 1], asks[|asks| - 1];
    assert asks == front + [last];
    CountNonnegative(front, a.id);
    if a in front {
      AskCounts(front, a);
    }
  }

  lemma {:induction false} CountNonnegative(asks: seq<Ask>, id: string)
    ensures Sum(AsksFor(id), asks) >= 0
  {
    if asks != [] {
      CountNonnegative(asks[..|asks| - 1], id);
    }
  }

  lemma {:induction false} CountedGrant(grants: seq<Grant>, id: string) returns (g: Grant)
    requires Sum(GrantsFor(id), grants) >= 1
    ensures g in grants && g.id == id
  {
    var front, last := grants[..|grants| - 1], grants[|grants| - 1];
    assert grants == front + [last];
    if last.id == id {
      g := last;
    } else {
      g := CountedGrant(front, id);
    }
  }

  // ----- when an ask is granted in full -----

  lemma PortionReaches(x: real, total: real, pot: int, cents: int)
    requires total > 0.0
    ensures Portion(x, total, pot) >= cents as real <==> cents as real * total <= x * pot as real
  {
    var q := x / total;
    assert q * total == x;
    var gap := q * pot as real - cents as real;
    assert gap * total == x * pot as real - cents as real * total by {
      Rearranged(q, pot as real, total, cents as real);
    }
    SameSign(gap, total);
  }

  lemma Rearranged(q: real, pot: real, total: real, cents: real)
    ensures (q * pot - cents) * total == q * total * pot - cents * total
  {
    assert q * pot * total == q * total * pot;
  }

  lemma SameSign(gap: real, total: real)
    requires total > 0.0
    ensures gap >= 0.0 <==> gap * total >= 0.0
  {
    if gap < 0.0 {
      assert (-gap) * total > 0.0;
    }
  }

  lemma PortionInFull(x: real, total: real, pot: int, cents: int)
    requires total > 0.0 && x >= 0.0 && pot >= 0
    ensures Min(Trunc(Portion(x, total, pot)), cents) == cents <==> cents as real * total <= x * pot as real
  {
    PortionNonnegative(x, total, pot);
    PortionReaches(x, total, pot, cents);
    hide Portion;
    TruncReaches(Portion(x, total, pot), cents);
    hide Trunc;
  }

  /** The proportional policy grants a positive ask in full exactly when the ask's weighted share of the pot covers it. */
  lemma ProportionalInFull(asks: seq<Ask>, pot: int, w: Weights, k: int, g: Grant, a: Ask)
    requires DistinctIds(asks) && NonnegativeWeights(w) && pot > 0
    requires g in Allocate(asks, pot, w, Proportional, k) && a in asks && a.id == g.id && a.cents > 0
    ensures var total := RealSum(WeightFn(w), Live(asks));
            g.granted == a.cents <==> total > 0.0 && a.cents as real * total <= WeightOf(w, a) * pot as real
  {
    hide Allocate, RealSum, Live, Portion, Trunc;
    var b := GrantIsAmount(asks, pot, w, Proportional, k, g);
    SameId(asks, a, b);
    var total := RealSum(WeightFn(w), Live(asks));
    if total > 0.0 {
      PortionInFull(WeightOf(w, a), total, pot, a.cents);
    }
  }

  /** Top-k grants a positive ask in full exactly when it ranks below `k` and the asks above it leave room for it. */
  lemma TopKInFull(asks: seq<Ask>, pot: int, w: Weights, k: int, g: Grant, a: Ask)
    requires DistinctIds(asks) && NonnegativeWeights(w) && pot > 0
    requires g in Allocate(asks, pot, w, TopKPolicy, k) && a in asks && a.id == g.id && a.cents > 0
    ensures var ranked := Ranked(asks, w);
            var rank := IndexOf(ranked, a);
            rank < |ranked| && (g.granted == a.cents <==> rank < k && Sum(CentsOf, ranked[..rank]) + a.cents <= pot)
  {
    hide Allocate, Live, Sum, IndexOf, Ranked;
    var b := GrantIsAmount(asks, pot, w, TopKPolicy, k, g);
    SameId(asks, a, b);
    RankedMember(asks, w, a);
    TopKAmount(asks, pot, w, k, a);
  }

  /** So where all asks fit the pot, top-k grants in full exactly the asks ranked below `k`. */
  lemma TopKFittingInFull(asks: seq<Ask>, pot: int, w: Weights, k: int, g: Grant, a: Ask)
    requires DistinctIds(asks) && NonnegativeWeights(w) && pot > 0 && Sum(CentsOf, Live(asks)) <= pot
    requires g in Allocate(asks, pot, w, TopKPolicy, k) && a in asks && a.id == g.id && a.cents > 0
    ensures g.granted == a.cents <==> IndexOf(Ranked(asks, w), a) < k
  {
    TopKInFull(asks, pot, w, k, g, a);
    var ranked := Ranked(asks, w);
    var rank := IndexOf(ranked, a);
    RankedMember(asks, w, a);
    SumSort(CentsOf, Live(asks), RankLeq(w));
    RankedPositive(asks, w);
    hide Allocate, Live, Sum, IndexOf, Ranked;
    PrefixWithin(ranked, rank);
  }

  lemma PrefixWithin(s: seq<Ask>, i: nat)
    requires i < |s| && forall j :: 0 <= j < |s| ==> s[j].cents > 0
    ensures Sum(CentsOf, s[..i]) + s[i].cents <= Sum(CentsOf, s)
  {
    var low, high := s[..i], s[i + 1..];
    assert s == low + [s[i]] + high;
    forall a {:trigger a in high} | a in high ensures a.cents > 0 { }
    TotalOfAsks(high);
    SumAppend(CentsOf, low + [s[i]], high);
    SumSnoc(CentsOf, low, s[i]);
  }

  /**
   The default policy grants a positive ask in full exactly when its weight is positive and either the fundable asks
   fit the pot or the weight times the pot covers the whole weighted demand.
   */
  lemma KellyInFull(asks: seq<Ask>, pot: int, w: Weights, k: int, g: Grant, a: Ask)
    requires DistinctIds(asks) && NonnegativeWeights(w) && pot > 0
    requires g in Allocate(asks, pot, w, KellyProrata, k) && a in asks && a.id == g.id && a.cents > 0
    ensures g.granted == a.cents <==>
              && WeightOf(w, a) > 0.0
              && (Sum(CentsOf, Eligible(asks, w)) <= pot || RealSum(RawOf(w), Eligible(asks, w)) <= WeightOf(w, a) * pot as real)
  {
    hide Allocate, RealSum, Eligible, Sum, ContendedCents, RawOf, WeightOf;
    var b := GrantIsAmount(asks, pot, w, KellyProrata, k, g);
    SameId(asks, a, b);
    if WeightOf(w, a) > 0.0 {
      EligibleTotal(asks, w, a);
      ContendedInFull(a, w, RealSum(RawOf(w), Eligible(asks, w)), pot);
    }
  }

  lemma ContendedInFull(a: Ask, w: Weights, total: real, pot: int)
    requires total > 0.0 && a.cents > 0 && WeightOf(w, a) > 0.0 && pot > 0
    ensures ContendedCents(a, w, total, pot) == a.cents <==> total <= WeightOf(w, a) * pot as real
  {
    RawPositive(a, w);
    hide Portion, Trunc, WeightOf;
    PortionInFull(RawOf(w)(a), total, pot, a.cents);
    CancelCents(a.cents as real, total, WeightOf(w, a), pot as real);
  }

  lemma CancelCents(cents: real, total: real, weight: real, pot: real)
    requires cents > 0.0
    ensures cents * total <= cents * weight * pot <==> total <= weight * pot
  {
    var gap := weight * pot - total;
    assert gap * cents == cents * weight * pot - cents * total;
    SameSign(gap, cents);
  }

  /** Weights break contention and nothing else: where the fundable asks fit the pot, a positive weight gets its whole ask. */
  lemma FittingAsksInFull(asks: seq<Ask>, pot: int, w: Weights, k: int, g: Grant, a: Ask)
    requires DistinctIds(asks) && NonnegativeWeights(w) && pot > 0 && Sum(CentsOf, Eligible(asks, w)) <= pot
    requires g in Allocate(asks, pot, w, KellyProrata, k) && a in asks && a.id == g.id && a.cents > 0
    ensures g.granted == a.cents <==> WeightOf(w, a) > 0.0
  {
    hide Allocate, Eligible, Sum, RealSum;
    KellyInFull(asks, pot, w, k, g, a);
  }

  /** Two asks of 100 that fit a pot of 200 together: the proportional policy cuts the lighter one to 50. */
  lemma ProportionalCutsFittingAsks()
    ensures exists g :: g in Allocate([Ask("a", "x", 100, 1), Ask("b", "y", 100, 1)], 200, map["x" := 1.0, "y" := 3.0], Proportional, 5)
                        && g.id == "a" && g.granted == 50
  {
    var first, second, w := Ask("a", "x", 100, 1), Ask("b", "y", 100, 1), map["x" := 1.0, "y" := 3.0];
    var asks := [first, second];
    hide Allocate, Amount, Live;
    assert DistinctIds(asks);
    LighterHalf(first, second, w);
    var g := GrantForAsk(asks, 200, w, Proportional, 5, first);
  }

  lemma LighterHalf(first: Ask, second: Ask, w: Weights)
    requires first.cents == 100 && second.cents > 0 && WeightOf(w, first) == 1.0 && WeightOf(w, second) == 3.0
    ensures Amount([first, second], 200, w, Proportional, 5, first) == 50
  {
    hide Live, RealSum, WeightOf;
    TwoWeights(first, second, w);
    assert Portion(1.0, 4.0, 200) == 50.0;
  }

  lemma TwoWeights(first: Ask, second: Ask, w: Weights)
    requires first.cents > 0 && second.cents > 0
    ensures RealSum(WeightFn(w), Live([first, second])) == WeightOf(w, first) + WeightOf(w, second)
  {
    var asks := [first, second];
    assert asks[..1] == [first] && asks[..1][..0] == [];
    assert Sort([first], IdLeq) == [first];
    RealSumInsert(WeightFn(w), second, [first], IdLeq);
    var sorted := Sort(asks, IdLeq);
    SortMembers(asks, IdLeq);
    FilterAll(Wants, sorted);
  }

  lemma SameId(asks: seq<Ask>, a: Ask, b: Ask)
    requires DistinctIds(asks) && a in asks && b in asks && a.id == b.id
    ensures a == b
  {
    var i :| 0 <= i < |asks| && asks[i] == a;
    var j :| 0 <= j < |asks| && asks[j] == b;
    assert i == j;
  }

  lemma IdOrder()
    ensures TotalPreorder(IdLeq)
  {
    LinearOrder();
  }

  lemma IdsDecide(asks: seq<Ask>)
    requires DistinctIds(asks)
    ensures AntisymmetricOn(asks, IdLeq)
  {
    forall x, y {:trigger IdLeq(x, y), x in asks, y in asks} | x in asks && y in asks && IdLeq(x, y) && IdLeq(y, x)
      ensures x == y
    {
      LeqAntisymmetric(x.id, y.id);
      SameId(asks, x, y);
    }
  }

  /** The order the candidates are listed in makes no difference. */
  lemma OrderDoesNotMatter(a: seq<Ask>, b: seq<Ask>, pot: int, w: Weights, policy: Policy, k: int)
    requires DistinctIds(a) && multiset(a) == multiset(b)
    ensures Allocate(a, pot, w, policy, k) == Allocate(b, pot, w, policy, k)
  {
    IdOrder();
    IdsDecide(a);
    SortIgnoresOrder(a, b, IdLeq);
  }

  // ----- adding a candidate -----

  lemma LiveInserted(asks: seq<Ask>, x: Ask)
    ensures Live(asks + [x]) == if x.cents > 0 then Insert(x, Live(asks), IdLeq) else Live(asks)
    ensures Sorted(Live(asks), IdLeq)
  {
    IdOrder();
    SortSorted(asks, IdLeq);
    assert (asks + [x])[..|asks|] == asks;
    FilterInsert(Wants, x, Sort(asks, IdLeq), IdLeq);
    FilterSorted(Wants, Sort(asks, IdLeq), IdLeq);
  }

  lemma EligibleInserted(asks: seq<Ask>, w: Weights, x: Ask)
    ensures Eligible(asks + [x], w)
            == if x.cents > 0 && WeightOf(w, x) > 0.0 then Insert(x, Eligible(asks, w), IdLeq) else Eligible(asks, w)
  {
    LiveInserted(asks, x);
    IdOrder();
    FilterInsert(Fundable(w), x, Live(asks), IdLeq);
    hide Live, Insert;
  }

  lemma {:induction false} AtLeastOne(f: Ask -> real, s: seq<Ask>, a: Ask)
    requires a in s && forall b {:trigger b in s} :: b in s ==> f(b) >= 0.0
    ensures RealSum(f, s) >= f(a)
  {
    var front, last := s[..|s| - 1], s[|s| - 1];
    Members(s);
    NonnegativeSum(f, front);
    if a != last {
      assert a in front;
      AtLeastOne(f, front, a);
    }
  }

  lemma EligibleTotal(asks: seq<Ask>, w: Weights, a: Ask)
    requires a in asks && a.cents > 0 && WeightOf(w, a) > 0.0
    ensures RealSum(RawOf(w), Eligible(asks, w)) >= RawOf(w)(a) > 0.0
  {
    LiveMembers(asks, a);
    forall b {:trigger b in Eligible(asks, w)} | b in Eligible(asks, w) ensures RawOf(w)(b) >= 0.0 {
      assert b in Live(asks);
      RawNonnegative(b, w);
    }
    AtLeastOne(RawOf(w), Eligible(asks, w), a);
    RawPositive(a, w);
  }

  lemma RawPositive(a: Ask, w: Weights)
    requires a.cents > 0 && WeightOf(w, a) > 0.0
    ensures RawOf(w)(a) > 0.0
  {
  }

  lemma ContendedFalls(a: Ask, w: Weights, total: real, larger: real, pot: int)
    requires 0.0 < total <= larger && pot >= 0 && a.cents > 0 && WeightOf(w, a) > 0.0
    ensures ContendedCents(a, w, larger, pot) <= ContendedCents(a, w, total, pot) <= a.cents
  {
    RawPositive(a, w);
    PortionShrinks(RawOf(w)(a), total, larger, pot);
    TruncMonotone(Portion(RawOf(w)(a), larger, pot), Portion(RawOf(w)(a), total, pot));
    hide Portion, Trunc;
  }

  lemma KellyFalls(asks: seq<Ask>, x: Ask, pot: int, w: Weights, k: int, a: Ask)
    requires pot > 0 && a in asks && a.cents > 0 && WeightOf(w, a) > 0.0
    ensures Amount(asks + [x], pot, w, KellyProrata, k, a) <= Amount(asks, pot, w, KellyProrata, k, a)
  {
    EligibleInserted(asks, w, x);
    EligibleTotal(asks, w, a);
    var e, total := Eligible(asks, w), RealSum(RawOf(w), Eligible(asks, w));
    hide Eligible, Insert, RealSum, Sum, ContendedCents;
    if x.cents > 0 && WeightOf(w, x) > 0.0 {
      SumInsert(CentsOf, x, e, IdLeq);
      RealSumInsert(RawOf(w), x, e, IdLeq);
      RawPositive(x, w);
      hide RawOf;
      ContendedFalls(a, w, total, RealSum(RawOf(w), Eligible(asks + [x], w)), pot);
    }
  }

  lemma LiveWeight(asks: seq<Ask>, w: Weights, a: Ask)
    requires a in asks && a.cents > 0 && NonnegativeWeights(w)
    ensures RealSum(WeightFn(w), Live(asks)) >= WeightOf(w, a) >= 0.0
  {
    LiveMembers(asks, a);
    AtLeastOne(WeightFn(w), Live(asks), a);
  }

  lemma ProportionalFalls(asks: seq<Ask>, x: Ask, pot: int, w: Weights, k: int, a: Ask)
    requires pot > 0 && a in asks && a.cents > 0 && NonnegativeWeights(w)
    ensures Amount(asks + [x], pot, w, Proportional, k, a) <= Amount(asks, pot, w, Proportional, k, a)
  {
    LiveInserted(asks, x);
    LiveWeight(asks, w, a);
    var live, total := Live(asks), RealSum(WeightFn(w), Live(asks));
    var larger := RealSum(WeightFn(w), Live(asks + [x]));
    RealSumInsert(WeightFn(w), x, live, IdLeq);
    assert WeightFn(w)(x) == WeightOf(w, x) >= 0.0;
    hide Live, Insert, RealSum;
    if larger > 0.0 {
      if total > 0.0 {
        PortionShrinks(WeightOf(w, a), total, larger, pot);
        TruncMonotone(Portion(WeightOf(w, a), larger, pot), Portion(WeightOf(w, a), total, pot));
      } else {
        NothingPortioned(larger, pot);
      }
    }
  }

  lemma NothingPortioned(total: real, pot: int)
    requires total > 0.0
    ensures Trunc(Portion(0.0, total, pot)) == 0
  {
    assert 0.0 / total == 0.0;
  }

  lemma RankOrder(w: Weights)
    ensures TotalPreorder(RankLeq(w))
  {
    LinearOrder();
  }

  lemma RankDecides(asks: seq<Ask>, w: Weights)
    requires DistinctIds(asks)
    ensures AntisymmetricOn(asks, RankLeq(w))
  {
    forall x, y {:trigger RankLeq(w)(x, y), x in asks, y in asks} |
      x in asks && y in asks && RankLeq(w)(x, y) && RankLeq(w)(y, x)
      ensures x == y
    {
      LeqAntisymmetric(x.id, y.id);
      SameId(asks, x, y);
    }
  }

  /** The new candidate is inserted into the ranking; nobody else moves relative to one another. */
  lemma RankedInserted(asks: seq<Ask>, w: Weights, x: Ask)
    requires DistinctIds(asks + [x]) && x.cents > 0
    ensures Ranked(asks + [x], w) == Insert(x, Ranked(asks, w), RankLeq(w))
  {
    LiveInserted(asks, x);
    LiveDistinct(asks + [x], w);
    RankOrder(w);
    var live, larger := Live(asks), Live(asks + [x]);
    RankDecides(larger, w);
    InsertPermutes(x, live, IdLeq);
    hide Live, Insert;
    assert multiset(larger) == multiset(live + [x]);
    SortIgnoresOrder(larger, live + [x], RankLeq(w));
    assert (live + [x])[..|live|] == live;
  }

  lemma PouredFalls(ranked: seq<Ask>, x: Ask, p: nat, pot: int, k: int, i: nat)
    requires p <= |ranked| && i < |ranked| && x.cents > 0
    requires forall j :: 0 <= j < |ranked| ==> ranked[j].cents > 0
    ensures var larger := ranked[..p] + [x] + ranked[p..];
            Poured(larger, pot, k, if i < p then i else i + 1) <= Poured(ranked, pot, k, i)
  {
    var larger := ranked[..p] + [x] + ranked[p..];
    if i < p {
      assert larger[..i] == ranked[..i];
    } else {
      assert larger[..i + 1] == ranked[..p] + [x] + ranked[p..i];
      SumAppend(CentsOf, ranked[..p] + [x], ranked[p..i]);
      SumSnoc(CentsOf, ranked[..p], x);
      SumAppend(CentsOf, ranked[..p], ranked[p..i]);
      assert ranked[..i] == ranked[..p] + ranked[p..i];
    }
  }

  lemma IndexUnique(s: seq<Ask>, a: Ask, i: nat)
    requires DistinctIds(s) && i < |s| && s[i] == a
    ensures IndexOf(s, a) == i
  {
    assert s[i] in s;
  }

  lemma PouredAfterInsert(ranked: seq<Ask>, x: Ask, leq: (Ask, Ask) -> bool, pot: int, k: int, a: Ask)
    requires DistinctIds(Insert(x, ranked, leq)) && a in ranked && x.cents > 0
    requires forall j :: 0 <= j < |ranked| ==> ranked[j].cents > 0
    ensures var larger := Insert(x, ranked, leq);
            var i, j := IndexOf(ranked, a), IndexOf(larger, a);
            i < |ranked| && j < |larger| && Poured(larger, pot, k, j) <= Poured(ranked, pot, k, i)
  {
    var i, p := IndexOf(ranked, a), InsertPos(x, ranked, leq);
    PouredFalls(ranked, x, p, pot, k, i);
    IndexUnique(Insert(x, ranked, leq), a, if i < p then i else i + 1);
  }

  lemma RankedPositive(asks: seq<Ask>, w: Weights)
    requires DistinctIds(asks)
    ensures forall j :: 0 <= j < |Ranked(asks, w)| ==> Ranked(asks, w)[j].cents > 0
  {
    forall j | 0 <= j < |Ranked(asks, w)| ensures Ranked(asks, w)[j].cents > 0 { RankedAt(asks, w, j); }
  }

  lemma RankedMember(asks: seq<Ask>, w: Weights, a: Ask)
    requires a in asks && a.cents > 0
    ensures a in Ranked(asks, w)
  {
    LiveMembers(asks, a);
    SortMembers(Live(asks), RankLeq(w));
  }

  lemma TopKAmount(asks: seq<Ask>, pot: int, w: Weights, k: int, a: Ask)
    requires pot > 0 && a.cents > 0 && IndexOf(Ranked(asks, w), a) < |Ranked(asks, w)|
    ensures Amount(asks, pot, w, TopKPolicy, k, a)
            == Poured(Ranked(asks, w), pot, k, IndexOf(Ranked(asks, w), a))
  {
    hide Poured, Ranked, IndexOf;
  }

  lemma TopKFalls(asks: seq<Ask>, x: Ask, pot: int, w: Weights, k: int, a: Ask)
    requires DistinctIds(asks + [x]) && DistinctIds(asks) && pot > 0 && a in asks && a.cents > 0
    ensures Amount(asks + [x], pot, w, TopKPolicy, k, a) <= Amount(asks, pot, w, TopKPolicy, k, a)
  {
    LiveInserted(asks, x);
    if x.cents > 0 {
      LiveDistinct(asks + [x], w);
      RankedInserted(asks, w, x);
      RankedMember(asks, w, a);
      RankedPositive(asks, w);
      hide Live, RankLeq, IndexOf, Poured, Insert, Ranked, DistinctIds;
      hide Amount;
      PouredAfterInsert(Ranked(asks, w), x, RankLeq(w), pot, k, a);
      TopKAmount(asks, pot, w, k, a);
      TopKAmount(asks + [x], pot, w, k, a);
    } else {
      assert Ranked(asks + [x], w) == Ranked(asks, w);
    }
  }

  lemma AmountFalls(asks: seq<Ask>, x: Ask, pot: int, w: Weights, policy: Policy, k: int, a: Ask)
    requires DistinctIds(asks + [x]) && DistinctIds(asks) && NonnegativeWeights(w) && a in asks
    ensures Amount(asks + [x], pot, w, policy, k, a) <= Amount(asks, pot, w, policy, k, a)
  {
    if pot > 0 && a.cents > 0 {
      match policy {
        case TopKPolicy => TopKFalls(asks, x, pot, w, k, a);
        case Proportional => ProportionalFalls(asks, x, pot, w, k, a);
        case KellyProrata =>
          if WeightOf(w, a) > 0.0 {
            KellyFalls(asks, x, pot, w, k, a);
          }
      }
    }
  }

  /** Adding a candidate, anywhere in the list, never raises anyone else's grant. */
  lemma AddingNeverRaises(asks: seq<Ask>, x: Ask, more: seq<Ask>, pot: int, w: Weights, policy: Policy, k: int,
                          before: Grant, after: Grant)
    requires DistinctIds(asks + [x]) && multiset(more) == multiset(asks + [x]) && NonnegativeWeights(w)
    requires before in Allocate(asks, pot, w, policy, k) && after in Allocate(more, pot, w, policy, k)
    requires before.id == after.id
    ensures after.granted <= before.granted
  {
    var larger := asks + [x];
    OrderDoesNotMatter(larger, more, pot, w, policy, k);
    assert DistinctIds(asks) by {
      forall i, j | 0 <= i < j < |asks| ensures asks[i].id != asks[j].id {
        assert larger[i] == asks[i] && larger[j] == asks[j];
      }
    }
    var a := GrantIsAmount(asks, pot, w, policy, k, before);
    var b := GrantIsAmount(larger, pot, w, policy, k, after);
    hide Allocate, Amount;
    assert a in larger;
    SameId(larger, a, b);
    AmountFalls(asks, x, pot, w, policy, k, a);
  }
}
