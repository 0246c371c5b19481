/**
 One cycle's order loop (`autonomy/brain.py`) over the allocated pot: the sizing tail of the
 allocator (`autonomy/allocator.py`), the executor's answer, and the exposure they leave behind.
 The risk brain and the executor are arbitrary: each answers as it likes at every step.
 */
module OrderLoop {
  import opened Extrema
  import opened Options
  import opened Rounding
  import opened StableSorting
  import opened CandidateAllocation
  import opened MarketScan
  import TakerLiquidity

  const MAX_ORDERS_PER_CYCLE := 10

  datatype StageLimits = StageLimits(totalFrac: real, orderAbs: int, maxOpenMarkets: int)

  datatype AllocConfig = AllocConfig(policy: string, topK: int, throttle: real)

  /** The risk brain's and the earlier gates' answer: no order, or a price and a budget.
      `searchOver` is the refusal that ends the search for candidates. */
  datatype Budget = Refused(searchOver: bool) | Offered(price: int, maxNotional: int)

  /** `reported` is the executor's own submitted notional, if it gives one. */
  datatype Outcome = NotPlaced | Placed(reported: Option<int>)

  datatype Response = Response(budget: Budget, riskSaved: bool, outcome: Outcome)

  datatype Decision = Abstain(searchOver: bool) | Buy(price: int, count: int, notional: int)

  /** The sizing tail of `Allocator.decide`. */
  function Decide(b: Budget, cap: int): Decision {
    match b
    case Refused(over) => Abstain(over)
    case Offered(price, maxNotional) =>
      var grantable := Min(maxNotional, Max(0, cap));
      if price < 1 || maxNotional < price || grantable < price then Abstain(false)
      else Buy(price, grantable / price, grantable / price * price)
  }

  /** `detail.get(..) or decision.notional_cents`: a missing or zero report falls back to the decision. */
  function Submitted(d: Decision, o: Outcome): int
    requires d.Buy? && o.Placed?
  {
    if o.reported.Some? && o.reported.value != 0 then o.reported.value else d.notional
  }

  /** An executor that never submits more than it was told to. */
  predicate Obeys(r: Response, cap: int) {
    var d := Decide(r.budget, cap);
    d.Buy? && r.outcome.Placed? ==> Submitted(d, r.outcome) <= d.notional
  }

  // ----- the loop -----

  function CapFor(grants: seq<Grant>, ticker: string): int {
    if grants == [] then 0
    else if grants[|grants| - 1].id == ticker then grants[|grants| - 1].granted
    else CapFor(grants[..|grants| - 1], ticker)
  }

  datatype Progress = Progress(placed: nat, gain: int, done: bool)

  function Step(p: Progress, r: Response, cap: int): Progress {
    if p.done || p.placed >= MAX_ORDERS_PER_CYCLE then p.(done := true)
    else
      match Decide(r.budget, cap)
      case Abstain(over) => p.(done := over)
      case Buy(price, count, notional) =>
        if !r.riskSaved then p.(done := true)
        else if r.outcome.NotPlaced? then p
        else p.(placed := p.placed + 1, gain := p.gain + Submitted(Buy(price, count, notional), r.outcome))
  }

  function Walk(slice: seq<Candidate>, grants: seq<Grant>, responses: seq<Response>, n: nat): Progress
    requires n <= |slice| <= |responses|
  {
    if n == 0 then Progress(0, 0, false)
    else Step(Walk(slice, grants, responses, n - 1), responses[n - 1], CapFor(grants, slice[n - 1].ticker))
  }

  function AsksOf(pool: seq<Candidate>, limits: StageLimits): (asks: seq<Ask>)
    ensures |asks| == |pool|
    ensures forall i :: 0 <= i < |asks| ==> asks[i] == Ask(pool[i].ticker, pool[i].scope, limits.orderAbs, 1)
  {
    seq(|pool|, i requires 0 <= i < |pool| => Ask(pool[i].ticker, pool[i].scope, limits.orderAbs, 1))
  }

  function Share(bankroll: int, limits: StageLimits): real {
    bankroll as real * limits.totalFrac
  }

  function Ceiling(bankroll: int, limits: StageLimits): int {
    Trunc(Share(bankroll, limits))
  }

  function Throttled(room: int, throttle: real): int {
    Trunc(room as real * throttle)
  }

  function PotOf(bankroll: int, exposure: int, limits: StageLimits, c: AllocConfig): int {
    Throttled(Max(0, Ceiling(bankroll, limits) - exposure), c.throttle)
  }

  function Pool(slice: seq<Candidate>, limits: StageLimits, openMarkets: int): seq<Candidate> {
    var slots := Max(0, limits.maxOpenMarkets - openMarkets);
    if slots <= |slice| then slice[..slots] else slice
  }

  /** What the cycle's pool is granted out of the cycle's pot. */
  function CycleGrants(slice: seq<Candidate>, limits: StageLimits, c: AllocConfig, w: Weights,
                       bankroll: int, exposure: int, openMarkets: int): seq<Grant> {
    Allocate(AsksOf(Pool(slice, limits, openMarkets), limits), PotOf(bankroll, exposure, limits, c), w, PolicyOf(c.policy), c.topK)
  }

  class RiskState {
    var bankroll: int
    var openExposure: int
    var openMarkets: int

    constructor (bankroll: int, exposure: int, markets: int)
      ensures this.bankroll == bankroll && openExposure == exposure && openMarkets == markets
    {
      this.bankroll, openExposure, openMarkets := bankroll, exposure, markets;
    }

    method PlaceOrders(slice: seq<Candidate>, grants: seq<Grant>, responses: seq<Response>)
      requires |slice| <= |responses|
      modifies this`openExposure, this`openMarkets
      ensures openExposure == old(openExposure) + Walk(slice, grants, responses, |slice|).gain
      ensures openMarkets == old(openMarkets) + Walk(slice, grants, responses, |slice|).placed
    {
      var ordersPlaced := 0;
      var i := 0;
      while i < |slice|
        invariant 0 <= i <= |slice|
        invariant Walk(slice, grants, responses, i) == Progress(ordersPlaced, openExposure - old(openExposure), false)
        invariant openMarkets == old(openMarkets) + ordersPlaced
      {
        if ordersPlaced >= MAX_ORDERS_PER_CYCLE {
          StaysDone(slice, grants, responses, i + 1, |slice|);
          return;
        }
        match Decide(responses[i].budget, CapFor(grants, slice[i].ticker)) {
          case Abstain(over) =>
            if over {
              StaysDone(slice, grants, responses, i + 1, |slice|);
              return;
            }
          case Buy(price, count, notional) =>
            if !responses[i].riskSaved {
              StaysDone(slice, grants, responses, i + 1, |slice|);
              return;
            }
            if responses[i].outcome.Placed? {
              ordersPlaced := ordersPlaced + 1;
              openExposure := openExposure + Submitted(Buy(price, count, notional), responses[i].outcome);
              openMarkets := openMarkets + 1;
            }
        }
        i := i + 1;
      }
    }

    /** One cycle: sweep the venue, rank and cut the slice, allocate the pot, then place orders against it. */
    method RunCycle(pages: seq<Page>, g: Gates, limits: StageLimits, c: AllocConfig, w: Weights, responses: seq<Response>)
      requires |DecisionSlice(pages, g)| <= |responses| && 0.0 <= c.throttle <= 1.0 && NonnegativeWeights(w)
      requires var slice := DecisionSlice(pages, g);
               AllObey(slice, CycleGrants(slice, limits, c, w, bankroll, openExposure, openMarkets), responses)
      modifies this`openExposure, this`openMarkets
      ensures var slice := DecisionSlice(pages, g);
              var grants := CycleGrants(slice, limits, c, w, bankroll, old(openExposure), old(openMarkets));
              && openExposure == old(openExposure) + Walk(slice, grants, responses, |slice|).gain
              && openMarkets == old(openMarkets) + Walk(slice, grants, responses, |slice|).placed
      ensures openExposure <= old(openExposure) + PotOf(bankroll, old(openExposure), limits, c)
      ensures openExposure <= Max(old(openExposure), Ceiling(bankroll, limits))
      ensures old(openMarkets) <= openMarkets <= old(openMarkets) + 10
      ensures openMarkets <= Max(old(openMarkets), limits.maxOpenMarkets)
    {
      SliceDistinct(pages, g);
      hide DecisionSlice, Allocate, Walk, PotOf, Ceiling, Pool, AsksOf, AllObey, DistinctTickers;
      var slice := BuildSlice(pages, g);
      var asks := AsksOf(Pool(slice, limits, openMarkets), limits);
      var pot := PotOf(bankroll, openExposure, limits, c);
      var grants := AllocatePot(asks, pot, w, c.policy, c.topK);
      ExposureBound(pages, g, limits, c, w, bankroll, openExposure, openMarkets, responses);
      OpenMarketsBound(slice, limits, c, w, bankroll, openExposure, openMarkets, responses);
      PlaceOrders(slice, grants, responses);
    }
  }

  lemma {:induction false} StaysDone(slice: seq<Candidate>, grants: seq<Grant>, responses: seq<Response>, i: nat, n: nat)
    requires i <= n <= |slice| <= |responses| && Walk(slice, grants, responses, i).done
    ensures Walk(slice, grants, responses, n) == Walk(slice, grants, responses, i)
  {
    if i < n {
      StaysDone(slice, grants, responses, i, n - 1);
    }
  }

  // ----- the bound -----

  ghost predicate AllObey(slice: seq<Candidate>, grants: seq<Grant>, responses: seq<Response>)
    requires |slice| <= |responses|
  {
    forall i :: 0 <= i < |slice| ==> Obeys(responses[i], CapFor(grants, slice[i].ticker))
  }

  function CapSum(slice: seq<Candidate>, grants: seq<Grant>, n: nat): int
    requires n <= |slice|
  {
    if n == 0 then 0 else CapSum(slice, grants, n - 1) + Max(0, CapFor(grants, slice[n - 1].ticker))
  }

  /** The decision buys exactly when one contract fits every limit, and then the most contracts that do. */
  lemma DecisionBuysMost(b: Budget, cap: int)
    ensures b.Refused? ==> Decide(b, cap) == Abstain(b.searchOver)
    ensures b.Offered? ==> (Decide(b, cap).Buy? <==> 1 <= b.price <= b.maxNotional && b.price <= cap)
    ensures b.Offered? && !Decide(b, cap).Buy? ==> Decide(b, cap) == Abstain(false)
    ensures Decide(b, cap).Buy? ==>
              var d := Decide(b, cap);
              && d.price == b.price && d.count >= 1 && d.notional == d.price * d.count
              && d.notional <= b.maxNotional && d.notional <= cap
              && (b.maxNotional < d.price * (d.count + 1) || cap < d.price * (d.count + 1))
  {
    if Decide(b, cap).Buy? {
      GreatestMultiple(Min(b.maxNotional, Max(0, cap)), b.price);
    }
  }

  lemma GreatestMultiple(most: int, price: int)
    requires 1 <= price <= most
    ensures var q := most / price; q >= 1 && q * price == price * q == most - most % price <= most < price * (q + 1)
  {
    var q, r := most / price, most % price;
    assert most == price * q + r;
    assert price * (q + 1) == price * q + price;
    NoneFits(price, q);
  }

  lemma NoneFits(price: int, q: int)
    requires price >= 1
    ensures q <= 0 ==> price * q <= 0
  {
  }

  lemma {:induction false} WalkWithinCaps(slice: seq<Candidate>, grants: seq<Grant>, responses: seq<Response>, n: nat)
    requires n <= |slice| <= |responses| && AllObey(slice, grants, responses)
    ensures Walk(slice, grants, responses, n).gain <= CapSum(slice, grants, n)
    ensures Walk(slice, grants, responses, n).placed <= 10
  {
    if n > 0 {
      WalkWithinCaps(slice, grants, responses, n - 1);
      DecisionBuysMost(responses[n - 1].budget, CapFor(grants, slice[n - 1].ticker));
      assert Obeys(responses[n - 1], CapFor(grants, slice[n - 1].ticker));
      hide Decide, CapFor;
    }
  }

  ghost predicate NoneNegative(grants: seq<Grant>) {
    forall i :: 0 <= i < |grants| ==> grants[i].granted >= 0
  }

  lemma {:induction false} CapNonnegative(grants: seq<Grant>, ticker: string)
    requires NoneNegative(grants)
    ensures CapFor(grants, ticker) >= 0
  {
    if grants != [] {
      CapNonnegative(grants[..|grants| - 1], ticker);
    }
  }

  /** One more grant raises at most the one distinct ticker it names. */
  lemma {:induction false} CapSumStep(slice: seq<Candidate>, grants: seq<Grant>, n: nat)
    requires n <= |slice| && DistinctTickers(slice) && grants != [] && NoneNegative(grants)
    ensures var g := grants[|grants| - 1];
            CapSum(slice, grants, n) <= CapSum(slice, grants[..|grants| - 1], n)
               + if exists i :: 0 <= i < n && slice[i].ticker == g.id then g.granted else 0
  {
    if n > 0 {
      CapSumStep(slice, grants, n - 1);
      CapNonnegative(grants[..|grants| - 1], slice[n - 1].ticker);
    }
  }

  lemma {:induction false} NoGrantNoCap(slice: seq<Candidate>, n: nat)
    requires n <= |slice|
    ensures CapSum(slice, [], n) == 0
  {
    if n > 0 {
      NoGrantNoCap(slice, n - 1);
    }
  }

  lemma {:induction false} CapsWithinGrants(slice: seq<Candidate>, grants: seq<Grant>)
    requires DistinctTickers(slice) && NoneNegative(grants)
    ensures CapSum(slice, grants, |slice|) <= Sum(GrantedOf, grants)
  {
    if grants == [] {
      NoGrantNoCap(slice, |slice|);
    } else {
      CapsWithinGrants(slice, grants[..|grants| - 1]);
      CapSumStep(slice, grants, |slice|);
    }
  }

  lemma GrantsNonnegative(asks: seq<Ask>, pot: int, w: Weights, policy: Policy, k: int)
    requires DistinctIds(asks) && NonnegativeWeights(w)
    ensures NoneNegative(Allocate(asks, pot, w, policy, k))
  {
    var grants := Allocate(asks, pot, w, policy, k);
    hide Allocate;
    forall i | 0 <= i < |grants| ensures grants[i].granted >= 0 {
      var a := GrantIsAmount(asks, pot, w, policy, k, grants[i]);
      GrantWithinAsk(asks, pot, w, policy, k, grants[i], a);
    }
  }

  /**
   For any budgets and any executor that submits no more than it is told to, what the loop
   submits over distinct tickers stays within the pot, wherever the pool was cut off.
   */
  lemma LoopWithinPot(slice: seq<Candidate>, pool: seq<Candidate>, limits: StageLimits, pot: int, w: Weights,
                      policy: Policy, k: int, responses: seq<Response>)
    requires |slice| <= |responses| && DistinctTickers(slice) && pool <= slice && pot >= 0 && NonnegativeWeights(w)
    requires AllObey(slice, Allocate(AsksOf(pool, limits), pot, w, policy, k), responses)
    ensures Walk(slice, Allocate(AsksOf(pool, limits), pot, w, policy, k), responses, |slice|).gain <= pot
  {
    var asks := AsksOf(pool, limits);
    assert DistinctIds(asks);
    PotIsCeiling(asks, pot, w, policy, k);
    GrantsNonnegative(asks, pot, w, policy, k);
    hide Allocate, AsksOf, AllObey;
    var grants := Allocate(asks, pot, w, policy, k);
    WalkWithinCaps(slice, grants, responses, |slice|);
    CapsWithinGrants(slice, grants);
  }

  // ----- what the loop spends -----

  /** One contract is offered and fits the budget and the grant. */
  predicate Affordable(b: Budget, cap: int) {
    b.Offered? && 1 <= b.price <= b.maxNotional && b.price <= cap
  }

  /** The greatest multiple of the price within the budget and the grant. */
  function MostCents(b: Budget, cap: int): int
    requires Affordable(b, cap)
  {
    if b.maxNotional <= cap then b.maxNotional - b.maxNotional % b.price else cap - cap % b.price
  }

  predicate Orders(r: Response, cap: int) {
    Affordable(r.budget, cap) && r.outcome.Placed?
  }

  /** What a response adds to exposure: the reported notional if it is not zero, else the most the limits allow. */
  function OrderCents(r: Response, cap: int): int {
    if !Orders(r, cap) then 0
    else
      match r.outcome.reported
      case Some(cents) => if cents == 0 then MostCents(r.budget, cap) else cents
      case None => MostCents(r.budget, cap)
  }

  function SpentUpTo(slice: seq<Candidate>, grants: seq<Grant>, responses: seq<Response>, n: nat): int
    requires n <= |slice| <= |responses|
  {
    if n == 0 then 0
    else SpentUpTo(slice, grants, responses, n - 1) + OrderCents(responses[n - 1], CapFor(grants, slice[n - 1].ticker))
  }

  function OrdersUpTo(slice: seq<Candidate>, grants: seq<Grant>, responses: seq<Response>, n: nat): nat
    requires n <= |slice| <= |responses|
  {
    if n == 0 then 0
    else
      OrdersUpTo(slice, grants, responses, n - 1)
      + if Orders(responses[n - 1], CapFor(grants, slice[n - 1].ticker)) then 1 else 0
  }

  /** The loop ends at candidate `i`: ten orders are out, the search is over, or the risk state cannot be saved. */
  predicate StopsAt(slice: seq<Candidate>, grants: seq<Grant>, responses: seq<Response>, i: nat)
    requires i < |slice| <= |responses|
  {
    || OrdersUpTo(slice, grants, responses, i) >= 10
    || responses[i].budget == Refused(true)
    || (Affordable(responses[i].budget, CapFor(grants, slice[i].ticker)) && !responses[i].riskSaved)
  }

  lemma StepSpends(p: Progress, r: Response, cap: int)
    requires !p.done && p.placed < 10 && r.budget != Refused(true) && (Affordable(r.budget, cap) ==> r.riskSaved)
    ensures Step(p, r, cap)
            == Progress(p.placed + if Orders(r, cap) then 1 else 0, p.gain + OrderCents(r, cap), false)
  {
    DecisionBuysMost(r.budget, cap);
    if Affordable(r.budget, cap) {
      GreatestMultiple(Min(r.budget.maxNotional, Max(0, cap)), r.budget.price);
    }
  }

  lemma {:induction false} WalkUntilStop(slice: seq<Candidate>, grants: seq<Grant>, responses: seq<Response>, n: nat)
    requires n <= |slice| <= |responses|
    requires forall i :: 0 <= i < n ==> !StopsAt(slice, grants, responses, i)
    ensures Walk(slice, grants, responses, n)
            == Progress(OrdersUpTo(slice, grants, responses, n), SpentUpTo(slice, grants, responses, n), false)
  {
    if n > 0 {
      WalkUntilStop(slice, grants, responses, n - 1);
      assert !StopsAt(slice, grants, responses, n - 1);
      StepSpends(Walk(slice, grants, responses, n - 1), responses[n - 1], CapFor(grants, slice[n - 1].ticker));
      hide Step, Decide, OrderCents, Orders, CapFor;
    }
  }

  lemma StepStops(slice: seq<Candidate>, grants: seq<Grant>, responses: seq<Response>, i: nat)
    requires i < |slice| <= |responses| && StopsAt(slice, grants, responses, i)
    requires Walk(slice, grants, responses, i)
             == Progress(OrdersUpTo(slice, grants, responses, i), SpentUpTo(slice, grants, responses, i), false)
    ensures Walk(slice, grants, responses, i + 1) == Walk(slice, grants, responses, i).(done := true)
  {
    DecisionBuysMost(responses[i].budget, CapFor(grants, slice[i].ticker));
  }

  /**
   Up to the first candidate at which it must stop, the loop spends on every candidate it gets an order for the reported
   notional or, without a report, the greatest multiple of the price within the budget and the grant; after it, nothing.
   */
  lemma LoopSpends(slice: seq<Candidate>, grants: seq<Grant>, responses: seq<Response>) returns (stop: nat)
    requires |slice| <= |responses|
    ensures stop <= |slice| && forall i :: 0 <= i < stop ==> !StopsAt(slice, grants, responses, i)
    ensures stop < |slice| ==> StopsAt(slice, grants, responses, stop)
    ensures Walk(slice, grants, responses, |slice|).gain == SpentUpTo(slice, grants, responses, stop)
    ensures Walk(slice, grants, responses, |slice|).placed == OrdersUpTo(slice, grants, responses, stop)
  {
    hide StopsAt, Walk, OrdersUpTo, SpentUpTo;
    stop := 0;
    while stop < |slice| && !StopsAt(slice, grants, responses, stop)
      invariant stop <= |slice| && forall i :: 0 <= i < stop ==> !StopsAt(slice, grants, responses, i)
    {
      stop := stop + 1;
    }
    WalkUntilStop(slice, grants, responses, stop);
    if stop < |slice| {
      StepStops(slice, grants, responses, stop);
      StaysDone(slice, grants, responses, stop + 1, |slice|);
    }
  }

  // ----- the pool and the pot -----

  /** A market of the slice is granted anything at all only among the first that the stage still has room for. */
  lemma OnlyFreeSlotsAreGranted(slice: seq<Candidate>, limits: StageLimits, c: AllocConfig, w: Weights,
                                bankroll: int, exposure: int, openMarkets: int, i: nat)
    requires i < |slice| && DistinctTickers(slice) && NonnegativeWeights(w)
    ensures var grants := CycleGrants(slice, limits, c, w, bankroll, exposure, openMarkets);
            (exists g {:trigger g in grants} :: g in grants && g.id == slice[i].ticker) <==> openMarkets + i < limits.maxOpenMarkets
  {
    var pool, pot := Pool(slice, limits, openMarkets), PotOf(bankroll, exposure, limits, c);
    var asks, grants := AsksOf(pool, limits), CycleGrants(slice, limits, c, w, bankroll, exposure, openMarkets);
    hide Allocate, PotOf;
    assert pool <= slice && (i < |pool| <==> openMarkets + i < limits.maxOpenMarkets);
    if i < |pool| {
      assert asks[i] in asks && asks[i].id == slice[i].ticker;
      assert DistinctIds(asks);
      var g := GrantForAsk(asks, pot, w, PolicyOf(c.policy), c.topK, asks[i]);
    }
    if g :| g in grants && g.id == slice[i].ticker {
      var a := AskForGrant(asks, pot, w, PolicyOf(c.policy), c.topK, g);
      var j :| 0 <= j < |asks| && asks[j] == a;
      assert slice[j].ticker == slice[i].ticker;
    }
  }

  lemma {:induction false} NoGrantNoCapFor(grants: seq<Grant>, ticker: string)
    requires forall g {:trigger g in grants} :: g in grants ==> g.id != ticker
    ensures CapFor(grants, ticker) == 0
  {
    if grants != [] {
      assert grants == grants[..|grants| - 1] + [grants[|grants| - 1]];
      assert grants[|grants| - 1] in grants;
      assert forall g {:trigger g in grants[..|grants| - 1]} :: g in grants[..|grants| - 1] ==> g in grants;
      NoGrantNoCapFor(grants[..|grants| - 1], ticker);
    }
  }

  lemma {:induction false} PlacedWithinSlots(slice: seq<Candidate>, grants: seq<Grant>, responses: seq<Response>, slots: nat, n: nat)
    requires n <= |slice| <= |responses|
    requires forall i :: slots <= i < |slice| ==> CapFor(grants, slice[i].ticker) <= 0
    ensures Walk(slice, grants, responses, n).placed <= slots
  {
    if n > 0 {
      PlacedWithinSlots(slice, grants, responses, slots, n - 1);
      PlacedAtMost(slice, grants, responses, n - 1);
      DecisionBuysMost(responses[n - 1].budget, CapFor(grants, slice[n - 1].ticker));
      hide Decide, CapFor;
    }
  }

  lemma {:induction false} PlacedAtMost(slice: seq<Candidate>, grants: seq<Grant>, responses: seq<Response>, n: nat)
    requires n <= |slice| <= |responses|
    ensures Walk(slice, grants, responses, n).placed <= n
  {
    if n > 0 {
      PlacedAtMost(slice, grants, responses, n - 1);
      hide Decide, CapFor;
    }
  }

  /** Whatever the risk brain and the executor answer, a cycle never opens more markets than the stage allows. */
  lemma OpenMarketsBound(slice: seq<Candidate>, limits: StageLimits, c: AllocConfig, w: Weights,
                         bankroll: int, exposure: int, openMarkets: int, responses: seq<Response>)
    requires |slice| <= |responses| && DistinctTickers(slice) && NonnegativeWeights(w)
    ensures var grants := CycleGrants(slice, limits, c, w, bankroll, exposure, openMarkets);
            openMarkets + Walk(slice, grants, responses, |slice|).placed <= Max(openMarkets, limits.maxOpenMarkets)
  {
    var grants := CycleGrants(slice, limits, c, w, bankroll, exposure, openMarkets);
    var slots := Max(0, limits.maxOpenMarkets - openMarkets);
    hide CycleGrants, Walk;
    forall i | slots <= i < |slice| ensures CapFor(grants, slice[i].ticker) <= 0 {
      OnlyFreeSlotsAreGranted(slice, limits, c, w, bankroll, exposure, openMarkets, i);
      NoGrantNoCapFor(grants, slice[i].ticker);
    }
    PlacedWithinSlots(slice, grants, responses, slots, |slice|);
  }

  lemma TruncNear(x: real)
    ensures x >= 0.0 ==> x - 1.0 < Trunc(x) as real <= x
    ensures x < 0.0 ==> x <= Trunc(x) as real <= 0.0
  {
  }

  lemma ThrottledNear(room: int, throttle: real, low: real, high: real)
    requires room >= 0 && 0.0 <= throttle <= 1.0 && low <= room as real
    ensures var pot := Throttled(room, throttle);
            0 <= pot <= room && pot as real > throttle * low - 1.0 && (room as real <= high ==> pot as real <= throttle * high)
  {
    var whole := throttle * room as real;
    assert whole == room as real * throttle;
    ThrottledWithin(room, throttle);
    TruncNear(whole);
    Scaled(throttle, low, room as real);
    if room as real <= high {
      Scaled(throttle, room as real, high);
    }
  }

  /** The pot is the throttled room that exposure leaves below the stage's share of the bankroll, to the cent. */
  lemma PotIsStageShare(bankroll: int, exposure: int, limits: StageLimits, c: AllocConfig, share: real)
    requires share == bankroll as real * limits.totalFrac && 0.0 <= c.throttle <= 1.0
    ensures var pot := PotOf(bankroll, exposure, limits, c);
            && pot >= 0
            && (pot > 0 && share >= 0.0 ==> (exposure + pot) as real <= share)
            && (share >= 0.0 && share >= exposure as real ==> pot as real <= c.throttle * (share - exposure as real))
            && pot as real > c.throttle * (share - 1.0 - exposure as real) - 1.0
  {
    CeilingNear(bankroll, limits, share);
    PotIs(bankroll, exposure, limits, c);
    hide *;
    PotNear(PotOf(bankroll, exposure, limits, c), Ceiling(bankroll, limits), exposure, c.throttle, share);
  }

  lemma CeilingNear(bankroll: int, limits: StageLimits, share: real)
    requires share == bankroll as real * limits.totalFrac
    ensures share - 1.0 < Ceiling(bankroll, limits) as real
    ensures share >= 0.0 ==> 0 <= Ceiling(bankroll, limits) && Ceiling(bankroll, limits) as real <= share
  {
    assert Ceiling(bankroll, limits) == Trunc(share);
    TruncNear(share);
    hide *;
  }

  lemma PotIs(bankroll: int, exposure: int, limits: StageLimits, c: AllocConfig)
    ensures PotOf(bankroll, exposure, limits, c) == Throttled(Max(0, Ceiling(bankroll, limits) - exposure), c.throttle)
  {
    hide Throttled, Ceiling;
  }

  lemma PotNear(pot: int, ceiling: int, exposure: int, throttle: real, share: real)
    requires pot == Throttled(Max(0, ceiling - exposure), throttle) && 0.0 <= throttle <= 1.0
    requires share - 1.0 < ceiling as real && (share >= 0.0 ==> 0 <= ceiling && ceiling as real <= share)
    ensures pot >= 0
    ensures pot > 0 && share >= 0.0 ==> (exposure + pot) as real <= share
    ensures share >= 0.0 && share >= exposure as real ==> pot as real <= throttle * (share - exposure as real)
    ensures pot as real > throttle * (share - 1.0 - exposure as real) - 1.0
  {
    hide Throttled;
    ThrottledNear(Max(0, ceiling - exposure), throttle, share - 1.0 - exposure as real, share - exposure as real);
  }

  lemma Scaled(factor: real, low: real, high: real)
    requires factor >= 0.0 && low <= high
    ensures factor * low <= factor * high
  {
  }

  lemma PotWithinCeiling(bankroll: int, exposure: int, limits: StageLimits, c: AllocConfig)
    requires 0.0 <= c.throttle <= 1.0
    ensures 0 <= PotOf(bankroll, exposure, limits, c)
    ensures exposure + PotOf(bankroll, exposure, limits, c) <= Max(exposure, Ceiling(bankroll, limits))
  {
    var room := Max(0, Ceiling(bankroll, limits) - exposure);
    ThrottledWithin(room, c.throttle);
  }

  lemma ThrottledWithin(room: int, throttle: real)
    requires room >= 0 && 0.0 <= throttle <= 1.0
    ensures 0 <= Throttled(room, throttle) <= room
  {
    assert 0.0 <= room as real * throttle <= room as real;
  }

  /**
   Exposure ends the cycle no higher than it started, or than the stage's share of the bankroll: for any pages of the
   venue, any gates, any budgets, and any executor that submits no more than it is told to.
   */
  lemma ExposureBound(pages: seq<Page>, g: Gates, limits: StageLimits, c: AllocConfig, w: Weights,
                      bankroll: int, exposure: int, openMarkets: int, responses: seq<Response>)
    requires |DecisionSlice(pages, g)| <= |responses| && 0.0 <= c.throttle <= 1.0 && NonnegativeWeights(w)
    requires var slice := DecisionSlice(pages, g);
             AllObey(slice, CycleGrants(slice, limits, c, w, bankroll, exposure, openMarkets), responses)
    ensures var slice, pot := DecisionSlice(pages, g), PotOf(bankroll, exposure, limits, c);
            var p := Walk(slice, CycleGrants(slice, limits, c, w, bankroll, exposure, openMarkets), responses, |slice|);
            && p.gain <= pot && exposure + p.gain <= Max(exposure, Ceiling(bankroll, limits))
            && p.placed <= 10
  {
    var slice, pot := DecisionSlice(pages, g), PotOf(bankroll, exposure, limits, c);
    SliceDistinct(pages, g);
    PotWithinCeiling(bankroll, exposure, limits, c);
    hide DecisionSlice, Allocate, AllObey, Walk, PotOf;
    LoopWithinPot(slice, Pool(slice, limits, openMarkets), limits, pot, w, PolicyOf(c.policy), c.topK, responses);
    WalkWithinCaps(slice, CycleGrants(slice, limits, c, w, bankroll, exposure, openMarkets), responses, |slice|);
  }

  /** The taker executor is such an executor: its plan's worst case stays within the decision. */
  lemma TakerObeys(quote: TakerLiquidity.Quote, side: string, t: TakerLiquidity.Terms, fee: TakerLiquidity.Fee,
                   b: Budget, cap: int, saved: bool)
    requires Decide(b, cap).Buy? && t.cap == Decide(b, cap).notional
    requires TakerLiquidity.AssessmentOf(quote, side, t, fee).Allowed?
    ensures var plan := TakerLiquidity.AssessmentOf(quote, side, t, fee).plan;
            Obeys(Response(b, saved, Placed(Some(plan.worstCaseNotional))), cap)
  {
    var o := TakerLiquidity.OpenBook(quote, side, t);
    hide TakerLiquidity.AssessLadder;
    TakerLiquidity.AllowedPlan(o.levels, o.spread, t, fee);
  }
}
