/**
 Depth-aware taker planning (`autonomy/executable_liquidity.py`): the ladder of
 whole-contract ask levels, the greedy sweep over it, and the plan it yields.

 Prices are cents, probabilities and fractions are exact reals.  The fee is any
 function of (price, count); `Fees` supplies the program's own.
 */
module TakerLiquidity {
  import opened Extrema
  import opened Options
  import opened Rounding
  import opened StableSorting
  import Fees

  // ----- the book -----

  /** One raw ladder entry; `Malformed` is anything that does not parse to two finite numbers. */
  datatype RawLevel = Malformed | RawLevel(price: real, count: real)

  /** One side of the quote: `levels` is None when the ladder key is absent. */
  datatype SideBook = SideBook(levels: Option<seq<RawLevel>>, ask: Option<real>, askSize: Option<real>, bid: Option<real>)

  datatype Quote = Quote(yes: SideBook, no: SideBook)

  datatype Level = Level(price: int, count: int)

  predicate UsableEntry(item: RawLevel) {
    && item.RawLevel?
    && item.price == Trunc(item.price) as real
    && 1 <= Trunc(item.price) <= 99
    && item.count.Floor >= 1
  }

  function RawLadder(book: SideBook): seq<RawLevel> {
    match book.levels
    case Some(raw) => raw
    case None =>
      if book.ask.Some? && book.askSize.Some? then [RawLevel(book.ask.value, book.askSize.value)] else []
  }

  /** Whole contracts offered at `price` over all usable entries. */
  function CountAt(raw: seq<RawLevel>, price: int): (n: int)
    ensures n >= 0
  {
    if raw == [] then 0
    else
      var item := raw[|raw| - 1];
      CountAt(raw[..|raw| - 1], price)
      + if UsableEntry(item) && Trunc(item.price) == price then item.count.Floor else 0
  }

  /** The ladder from 1 cent up to `top` cents: one level per offered price, ascending. */
  function LadderUpTo(raw: seq<RawLevel>, top: nat): seq<Level> {
    if top == 0 then []
    else
      LadderUpTo(raw, top - 1)
      + if CountAt(raw, top) > 0 then [Level(top, CountAt(raw, top))] else []
  }

  function WholeContractLadder(book: SideBook): seq<Level> {
    LadderUpTo(RawLadder(book), 99)
  }

  ghost predicate IsLadder(levels: seq<Level>) {
    && (forall i :: 0 <= i < |levels| ==> 1 <= levels[i].price <= 99 && levels[i].count >= 1)
    && (forall i, j :: 0 <= i < j < |levels| ==> levels[i].price < levels[j].price)
  }

  lemma {:induction false} LadderBelow(raw: seq<RawLevel>, top: nat)
    requires top <= 99
    ensures IsLadder(LadderUpTo(raw, top))
    ensures forall l :: l in LadderUpTo(raw, top) ==> l.price <= top && l.count == CountAt(raw, l.price)
    ensures forall p :: 1 <= p <= top && CountAt(raw, p) > 0 ==> Level(p, CountAt(raw, p)) in LadderUpTo(raw, top)
  {
    if top > 0 {
      LadderBelow(raw, top - 1);
      var rest := LadderUpTo(raw, top - 1);
      forall i | 0 <= i < |rest| ensures rest[i].price < top {
        assert rest[i] in rest;
      }
    }
  }

  /** A well-formed entry at exactly this price, for at least one contract. */
  predicate OffersAt(item: RawLevel, price: int) {
    item.RawLevel? && item.price == price as real && item.count >= 1.0
  }

  function Offers(price: int): RawLevel -> bool { (item: RawLevel) => OffersAt(item, price) }

  function SizeOf(): RawLevel -> real { (item: RawLevel) => if item.RawLevel? then item.count else 0.0 }

  /** Whole contracts are never more than what is displayed at the price, and lose at most one contract's fraction per entry. */
  lemma {:induction false} CountsWholeContracts(raw: seq<RawLevel>, price: int)
    ensures var offers := Filter(Offers(price), raw);
            && (1 <= price <= 99 ==>
                  CountAt(raw, price) as real <= RealSum(SizeOf(), offers) <= (CountAt(raw, price) + |offers|) as real)
            && (1 <= price <= 99 ==> (CountAt(raw, price) > 0 <==> offers != []))
            && (!(1 <= price <= 99) ==> CountAt(raw, price) == 0)
  {
    if raw != [] {
      var front, item := raw[..|raw| - 1], raw[|raw| - 1];
      CountsWholeContracts(front, price);
      assert UsableEntry(item) && Trunc(item.price) == price <==> OffersAt(item, price) && 1 <= price <= 99;
      FilterSnoc(Offers(price), front, item);
      assert raw == front + [item];
      var offers := Filter(Offers(price), front);
      assert (offers + [item])[..|offers|] == offers;
      hide Filter;
    }
  }

  method WholeContractLevels(book: SideBook) returns (levels: seq<Level>)
    ensures levels == WholeContractLadder(book)
  {
    var raw := RawLadder(book);
    var merged: map<int, int> := map[];
    for k := 0 to |raw|
      invariant forall p :: p in merged <==> CountAt(raw[..k], p) > 0
      invariant forall p :: p in merged ==> 1 <= p <= 99 && merged[p] == CountAt(raw[..k], p)
    {
      assert raw[..k + 1][..k] == raw[..k];
      if UsableEntry(raw[k]) {
        var price := Trunc(raw[k].price);
        var held := if price in merged then merged[price] else 0;
        merged := merged[price := held + raw[k].count.Floor];
      }
    }
    assert raw[..|raw|] == raw;
    // `sorted(merged.items())`: every key is a price between 1 and 99.
    levels := [];
    for top := 0 to 99
      invariant levels == LadderUpTo(raw, top)
    {
      if top + 1 in merged {
        levels := levels + [Level(top + 1, merged[top + 1])];
      }
    }
  }

  // ----- the sweep -----

  datatype Terms = Terms(
    requested: int, cap: int, probability: real, minEv: real, minEdge: real,
    maxSpread: int, maxLevelSlippage: int, maxVwapSlippage: real, safety: real)

  type Fee = (int, int) -> int

  datatype Reason =
    | SideInvalid | ExceedsNotionalCap | ProbabilityInvalid | DepthSafetyInvalid
    | DepthMissing | TwoSidedBookRequired | BookInconsistent | BookCrossed | SpreadExceedsCap
    | EdgeBelowMin | EvBelowMin | DepthBelowSafetyFloor | VwapSlippageExceedsCap

  predicate WithinSlippage(levels: seq<Level>, t: Terms, i: nat)
    requires i < |levels|
  {
    levels[i].price - levels[0].price <= t.maxLevelSlippage
  }

  function Edge(t: Terms, price: int): real {
    t.probability * 100.0 - price as real
  }

  predicate EdgeOk(t: Terms, price: int) {
    Edge(t, price) >= t.minEdge
  }

  predicate EvOk(t: Terms, fee: Fee, price: int) {
    Edge(t, price) - fee(price, 1) as real >= t.minEv
  }

  datatype Gate = Pass | PastSlippage | Fails(reason: Reason)

  /** The per-level gates, in the order the loop applies them. */
  function GateAt(levels: seq<Level>, t: Terms, fee: Fee, i: nat): Gate
    requires i < |levels|
  {
    if !WithinSlippage(levels, t, i) then PastSlippage
    else if !EdgeOk(t, levels[i].price) then Fails(EdgeBelowMin)
    else if !EvOk(t, fee, levels[i].price) then Fails(EvBelowMin)
    else Pass
  }

  predicate Acceptable(levels: seq<Level>, t: Terms, fee: Fee, i: nat)
    requires i < |levels|
  {
    GateAt(levels, t, fee, i) == Pass
  }

  /** How many levels, from the top of the book, pass every per-level gate. */
  function Accepted(levels: seq<Level>, t: Terms, fee: Fee, from: nat): (n: nat)
    requires from <= |levels|
    ensures from <= n <= |levels|
    ensures forall i :: from <= i < n ==> Acceptable(levels, t, fee, i)
    ensures n < |levels| ==> !Acceptable(levels, t, fee, n)
    decreases |levels| - from
  {
    if from < |levels| && Acceptable(levels, t, fee, from) then Accepted(levels, t, fee, from + 1) else from
  }

  /** One level as the sweep sees it: the displayed depth the safety fraction lets the plan
      count on, and the contracts the cap affords when this price is the limit. */
  datatype Step = Step(price: int, usable: int, afford: int)

  function StepAt(level: Level, t: Terms): (s: Step)
    requires level.price > 0
    ensures s.price == level.price
  {
    Step(level.price, (level.count as real * t.safety).Floor, t.cap / level.price)
  }

  function Steps(levels: seq<Level>, t: Terms): (r: seq<Step>)
    requires forall i :: 0 <= i < |levels| ==> levels[i].price > 0
    ensures |r| == |levels|
    ensures forall i :: 0 <= i < |r| ==> r[i] == StepAt(levels[i], t)
  {
    seq(|levels|, i requires 0 <= i < |levels| => StepAt(levels[i], t))
  }

  ghost predicate IsSteps(s: seq<Step>) {
    && (forall i :: 0 <= i < |s| ==> s[i].usable >= 0 && s[i].price > 0)
    && (forall i, j :: 0 <= i < j < |s| ==> s[i].price < s[j].price && s[j].afford <= s[i].afford)
  }

  function Depth(s: seq<Step>, n: nat): int
    requires n <= |s|
  {
    if n == 0 then 0 else Depth(s, n - 1) + s[n - 1].usable
  }

  /** The most that can be bought when level `i` is the limit. */
  function Attainable(s: seq<Step>, requested: int, i: nat): int
    requires i < |s|
  {
    Min(requested, Min(s[i].afford, Depth(s, i + 1)))
  }

  /** The best limit among the first `n` levels: the closed form of the sweep. */
  function Best(s: seq<Step>, requested: int, n: nat): (b: int)
    requires n <= |s|
    ensures b >= 0
  {
    if n == 0 then 0 else Max(Best(s, requested, n - 1), Attainable(s, requested, n - 1))
  }

  /** What each level adds to the best total, in ladder order. */
  function Fills(s: seq<Step>, requested: int, n: nat): seq<Level>
    requires n <= |s|
  {
    if n == 0 then []
    else
      var take := Best(s, requested, n) - Best(s, requested, n - 1);
      Fills(s, requested, n - 1) + if take > 0 then [Level(s[n - 1].price, take)] else []
  }

  /** How many of the first `n` levels are looked at before the request is met. */
  function Visited(s: seq<Step>, requested: int, n: nat): (v: nat)
    requires n <= |s|
    ensures v <= n
  {
    if n == 0 then 0
    else if Best(s, requested, n - 1) >= requested then Visited(s, requested, n - 1)
    else n
  }

  lemma CapFalls(cap: int, low: int, high: int)
    requires 0 < low <= high && cap >= 0
    ensures cap / high <= cap / low
  {
    var q, r := cap / high, cap / low;
    MulMonotone(q, low, high);
    PositiveFactor(r + 1 - q, low);
  }

  lemma MulMonotone(q: int, low: int, high: int)
    requires q >= 0 && low <= high
    ensures q * low <= q * high
  {
  }

  lemma PositiveFactor(x: int, d: int)
    requires d > 0 && x * d > 0
    ensures x > 0
  {
  }

  lemma ShrinkNonnegative(count: int, safety: real)
    requires count >= 0 && safety > 0.0
    ensures (count as real * safety).Floor >= 0
  {
    assert count as real * safety >= 0.0;
  }

  lemma StepsAreSteps(levels: seq<Level>, t: Terms)
    requires IsLadder(levels) && t.cap >= 1 && 0.0 < t.safety
    ensures IsSteps(Steps(levels, t))
  {
    var s := Steps(levels, t);
    forall i | 0 <= i < |s| ensures s[i].usable >= 0 && s[i].price > 0 {
      ShrinkNonnegative(levels[i].count, t.safety);
    }
    forall i, j | 0 <= i < j < |s| ensures s[i].price < s[j].price && s[j].afford <= s[i].afford {
      CapFalls(t.cap, levels[i].price, levels[j].price);
    }
  }

  /** One loop step: the greedy take is exactly the gain in the closed form. */
  lemma {:induction false} BestStep(s: seq<Step>, requested: int, n: nat)
    requires n < |s| && IsSteps(s) && requested >= 1
    ensures Best(s, requested, n) <= Depth(s, n)
    ensures Best(s, requested, n) <= requested
    ensures Best(s, requested, n) < Depth(s, n) ==> Best(s, requested, n) >= Min(requested, s[n].afford)
    ensures Best(s, requested, n + 1) == Best(s, requested, n) + Max(0, Min(s[n].usable,
              Min(requested - Best(s, requested, n), s[n].afford - Best(s, requested, n))))
  {
    if n > 0 {
      BestStep(s, requested, n - 1);
    }
  }

  lemma {:induction false} BestDone(s: seq<Step>, requested: int, i: nat, n: nat)
    requires i <= n <= |s| && IsSteps(s) && requested >= 1
    requires Best(s, requested, i) >= requested
    ensures Best(s, requested, n) == Best(s, requested, i)
    ensures Fills(s, requested, n) == Fills(s, requested, i)
    ensures i > 0 && Visited(s, requested, i) == i ==> Visited(s, requested, n) == i
  {
    if i < n {
      BestDone(s, requested, i, n - 1);
      BestStep(s, requested, n - 1);
    }
  }

  datatype Sweep = Sweep(selected: int, fills: seq<Level>, capacitySeen: int, rejectionAtTop: Option<Reason>)

  /** The reason the first unaccepted level gives, if a gate rather than the slippage bound stops there. */
  function StopReason(levels: seq<Level>, t: Terms, fee: Fee): Option<Reason> {
    var n := Accepted(levels, t, fee, 0);
    if n < |levels| && GateAt(levels, t, fee, n).Fails? then Some(GateAt(levels, t, fee, n).reason) else None
  }

  function SweepResult(levels: seq<Level>, t: Terms, fee: Fee): Sweep
    requires forall i :: 0 <= i < |levels| ==> levels[i].price > 0
  {
    var n := Accepted(levels, t, fee, 0);
    var steps := Steps(levels, t);
    var best := Best(steps, t.requested, n);
    Sweep(best, Fills(steps, t.requested, n), Depth(steps, Visited(steps, t.requested, n)),
          if best >= t.requested then None else StopReason(levels, t, fee))
  }

  /** The loop's variables after the first `i` levels have been taken. */
  ghost predicate SweptTo(levels: seq<Level>, t: Terms, fee: Fee, i: nat, selected: int, fills: seq<Level>, seen: int)
    requires IsLadder(levels)
  {
    && i <= |levels| && (selected >= t.requested ==> i > 0)
    && Accepted(levels, t, fee, 0) == Accepted(levels, t, fee, i)
    && var s := Steps(levels, t);
       && selected == Best(s, t.requested, i) && fills == Fills(s, t.requested, i)
       && Visited(s, t.requested, i) == i && seen == Depth(s, i)
  }

  lemma SweepStep(levels: seq<Level>, t: Terms, fee: Fee, i: nat, selected: int, fills: seq<Level>, seen: int)
    requires IsLadder(levels) && t.requested >= 1 && t.cap >= 1 && 0.0 < t.safety
    requires SweptTo(levels, t, fee, i, selected, fills, seen)
    requires i < |levels| && selected < t.requested && Acceptable(levels, t, fee, i)
    ensures var step := StepAt(levels[i], t);
            var take := Min(step.usable, Min(t.requested - selected, step.afford - selected));
            SweptTo(levels, t, fee, i + 1, if take > 0 then selected + take else selected,
                    if take > 0 then fills + [Level(levels[i].price, take)] else fills, seen + step.usable)
  {
    hide StepAt;
    StepsAreSteps(levels, t);
    BestStep(Steps(levels, t), t.requested, i);
    assert Fills(Steps(levels, t), t.requested, i) + [] == fills;
  }

  lemma SweepEnds(levels: seq<Level>, t: Terms, fee: Fee, i: nat, selected: int, fills: seq<Level>, seen: int)
    requires IsLadder(levels) && t.requested >= 1 && t.cap >= 1 && 0.0 < t.safety
    requires SweptTo(levels, t, fee, i, selected, fills, seen)
    requires i < |levels| && selected < t.requested ==> !Acceptable(levels, t, fee, i)
    ensures SweepResult(levels, t, fee)
            == Sweep(selected, fills, seen,
                     if selected < t.requested && i < |levels| && GateAt(levels, t, fee, i).Fails?
                     then Some(GateAt(levels, t, fee, i).reason) else None)
  {
    StepsAreSteps(levels, t);
    hide StepAt;
    if selected >= t.requested {
      BestDone(Steps(levels, t), t.requested, i, Accepted(levels, t, fee, 0));
    }
  }

  method SweepLadder(levels: seq<Level>, t: Terms, fee: Fee) returns (s: Sweep)
    requires IsLadder(levels) && t.requested >= 1 && t.cap >= 1 && 0.0 < t.safety
    ensures s == SweepResult(levels, t, fee)
  {
    var fills: seq<Level> := [];
    var selected, seen := 0, 0;
    var rejection: Option<Reason> := None;
    var i := 0;
    assert SweptTo(levels, t, fee, i, selected, fills, seen);
    hide SweptTo, SweepResult, StepAt, GateAt;
    while i < |levels| && selected < t.requested
      invariant i <= |levels| && SweptTo(levels, t, fee, i, selected, fills, seen)
      invariant rejection == None
    {
      var gate := GateAt(levels, t, fee, i);
      if gate != Pass {
        rejection := if gate.Fails? then Some(gate.reason) else None;
        break;
      }
      SweepStep(levels, t, fee, i, selected, fills, seen);
      var step := StepAt(levels[i], t);
      seen := seen + step.usable;
      var take := Min(step.usable, Min(t.requested - selected, step.afford - selected));
      if take > 0 {
        fills := fills + [Level(levels[i].price, take)];
        selected := selected + take;
      }
      i := i + 1;
    }
    SweepEnds(levels, t, fee, i, selected, fills, seen);
    s := Sweep(selected, fills, seen, rejection);
  }

  // ----- the assessment -----

  function Times(price: int, count: int): int { price * count }

  function Cost(fills: seq<Level>): int {
    if fills == [] then 0
    else Cost(fills[..|fills| - 1]) + Times(fills[|fills| - 1].price, fills[|fills| - 1].count)
  }

  function Contracts(fills: seq<Level>): int {
    if fills == [] then 0 else Contracts(fills[..|fills| - 1]) + fills[|fills| - 1].count
  }

  function LimitPrice(fills: seq<Level>): int {
    if fills == [] then 0 else fills[|fills| - 1].price
  }

  function FeeTotal(fills: seq<Level>, fee: Fee): int {
    if fills == [] then 0
    else FeeTotal(fills[..|fills| - 1], fee) + fee(fills[|fills| - 1].price, fills[|fills| - 1].count)
  }

  function VisibleDepth(levels: seq<Level>, t: Terms, n: nat): int
    requires n <= |levels|
  {
    if n == 0 then 0
    else VisibleDepth(levels, t, n - 1) + if WithinSlippage(levels, t, n - 1) then levels[n - 1].count else 0
  }

  function Average(total: int, count: int): real
    requires count > 0
  {
    total as real / count as real
  }

  datatype Plan = Plan(
    requested: int, executable: int, topAsk: int, limitPrice: int, vwap: real, cost: int,
    worstCaseNotional: int, fee: int, netEv: real, grossEdge: real, spread: int,
    visibleDepth: int, usableDepth: int, fills: seq<Level>)

  datatype Assessment = Rejected(reason: Reason) | Allowed(plan: Plan)

  /** Everything after the sweep: the empty case, the plan, and the four closing checks. */
  function Settle(s: Sweep, t: Terms, fee: Fee, topAsk: int, spread: int, visible: int): Assessment
  {
    if s.selected < 1 then
      Rejected(match s.rejectionAtTop
               case Some(reason) => reason
               case None => if t.cap < topAsk then ExceedsNotionalCap else DepthBelowSafetyFloor)
    else
      var cost := Cost(s.fills);
      var fees := FeeTotal(s.fills, fee);
      var limit := LimitPrice(s.fills);
      var notional := Times(limit, s.selected);
      var vwap := Average(cost, s.selected);
      var netEv := t.probability * 100.0 - Average(cost + fees, s.selected);
      var grossEdge := t.probability * 100.0 - vwap;
      if vwap - topAsk as real > t.maxVwapSlippage then Rejected(VwapSlippageExceedsCap)
      else if netEv < t.minEv then Rejected(EvBelowMin)
      else if grossEdge < t.minEdge then Rejected(EdgeBelowMin)
      else if notional > t.cap then Rejected(ExceedsNotionalCap)
      else Allowed(Plan(t.requested, s.selected, topAsk, limit, vwap, cost, notional, fees,
                        netEv, grossEdge, spread, visible, s.capacitySeen, s.fills))
  }

  /** The checks before the sweep; `Open` carries the ladder and the spread. */
  datatype Opening = Refused(reason: Reason) | Open(levels: seq<Level>, spread: int)

  function OpenBook(quote: Quote, side: string, t: Terms): (o: Opening)
    ensures o.Open? ==> t.requested >= 1 && t.cap >= 1 && 0.0 < t.safety && o.levels != [] && IsLadder(o.levels)
  {
    if side != "yes" && side != "no" then Refused(SideInvalid)
    else if t.requested < 1 || t.cap < 1 then Refused(ExceedsNotionalCap)
    else if !(0.0 <= t.probability <= 1.0) then Refused(ProbabilityInvalid)
    else if !(0.0 < t.safety <= 1.0) then Refused(DepthSafetyInvalid)
    else OpenSide(if side == "yes" then quote.yes else quote.no, t)
  }

  function OpenSide(book: SideBook, t: Terms): (o: Opening)
    ensures o.Open? ==> o.levels == WholeContractLadder(book) && o.levels != [] && IsLadder(o.levels)
  {
    var levels := WholeContractLadder(book);
    LadderBelow(RawLadder(book), 99);
    if levels == [] then Refused(DepthMissing)
    else if book.ask.None? || book.bid.None? then Refused(TwoSidedBookRequired)
    else
      var spread := levels[0].price - Trunc(book.bid.value);
      if Trunc(book.ask.value) != levels[0].price then Refused(BookInconsistent)
      else if spread <= 0 then Refused(BookCrossed)
      else if spread > t.maxSpread then Refused(SpreadExceedsCap)
      else Open(levels, spread)
  }

  lemma {:induction false} FillsTotal(s: seq<Step>, requested: int, n: nat)
    requires n <= |s|
    ensures Contracts(Fills(s, requested, n)) == Best(s, requested, n)
  {
    if n > 0 {
      FillsTotal(s, requested, n - 1);
      var front := Fills(s, requested, n - 1);
      if Fills(s, requested, n) != front {
        assert Fills(s, requested, n)[..|front|] == front;
      }
    }
  }

  function AssessmentOf(quote: Quote, side: string, t: Terms, fee: Fee): Assessment {
    match OpenBook(quote, side, t)
    case Refused(reason) => Rejected(reason)
    case Open(levels, spread) => AssessLadder(levels, spread, t, fee)
  }

  function AssessLadder(levels: seq<Level>, spread: int, t: Terms, fee: Fee): Assessment
    requires levels != [] && IsLadder(levels)
  {
    Settle(SweepResult(levels, t, fee), t, fee, levels[0].price, spread, VisibleDepth(levels, t, |levels|))
  }

  method AssessTakerLiquidity(quote: Quote, side: string, t: Terms, fee: Fee) returns (a: Assessment)
    ensures a == AssessmentOf(quote, side, t, fee)
  {
    hide Settle, OpenSide, SweepResult;
    match OpenBook(quote, side, t)
    case Refused(reason) =>
      a := Rejected(reason);
    case Open(levels, spread) =>
      var s := SweepLadder(levels, t, fee);
      a := Settle(s, t, fee, levels[0].price, spread, VisibleDepth(levels, t, |levels|));
  }

  // ----- what the plan is worth -----

  function Total(takes: seq<int>, n: nat): int
    requires n <= |takes|
  {
    if n == 0 then 0 else Total(takes, n - 1) + takes[n - 1]
  }

  function CostOf(s: seq<Step>, takes: seq<int>, n: nat): int
    requires n <= |takes| <= |s|
  {
    if n == 0 then 0 else CostOf(s, takes, n - 1) + Times(s[n - 1].price, takes[n - 1])
  }

  /** Any way of buying from the first levels that respects every limit: usable depth per level,
      the requested total, and the notional cap at the highest price actually used. */
  ghost predicate Feasible(s: seq<Step>, t: Terms, takes: seq<int>) {
    && |takes| <= |s|
    && (forall i :: 0 <= i < |takes| ==> 0 <= takes[i] <= s[i].usable)
    && Total(takes, |takes|) <= t.requested
    && (forall i :: 0 <= i < |takes| && takes[i] > 0 ==> s[i].price * Total(takes, |takes|) <= t.cap)
  }

  function Greedy(s: seq<Step>, requested: int, n: nat): (g: seq<int>)
    requires n <= |s|
    ensures |g| == n
  {
    if n == 0 then []
    else Greedy(s, requested, n - 1) + [Best(s, requested, n) - Best(s, requested, n - 1)]
  }

  lemma {:induction false} BestGrows(s: seq<Step>, requested: int, i: nat, n: nat)
    requires i < n <= |s|
    ensures Attainable(s, requested, i) <= Best(s, requested, n)
    ensures Best(s, requested, i) <= Best(s, requested, n)
  {
    if i < n - 1 {
      BestGrows(s, requested, i, n - 1);
    }
  }

  lemma {:induction false} TotalWithinDepth(s: seq<Step>, takes: seq<int>, n: nat)
    requires n <= |takes| <= |s| && forall i :: 0 <= i < |takes| ==> 0 <= takes[i] <= s[i].usable
    ensures 0 <= Total(takes, n) <= Depth(s, n)
  {
    if n > 0 {
      TotalWithinDepth(s, takes, n - 1);
    }
  }

  lemma {:induction false} LastUsed(takes: seq<int>, n: nat) returns (m: nat)
    requires n <= |takes| && Total(takes, n) > 0 && forall i :: 0 <= i < |takes| ==> takes[i] >= 0
    ensures m < n && takes[m] > 0 && Total(takes, m + 1) == Total(takes, n)
  {
    if takes[n - 1] > 0 {
      m := n - 1;
    } else {
      m := LastUsed(takes, n - 1);
    }
  }

  lemma AffordableAt(price: int, total: int, cap: int)
    requires price > 0 && price * total <= cap
    ensures total <= cap / price
  {
    var q := cap / price;
    assert cap < (q + 1) * price;
    assert (q + 1 - total) * price == (q + 1) * price - price * total;
    PositiveFactor(q + 1 - total, price);
  }

  /** No feasible purchase from the accepted levels buys more than the sweep. */
  lemma SweepBuysMost(levels: seq<Level>, t: Terms, n: nat, takes: seq<int>)
    requires IsLadder(levels) && t.requested >= 1 && t.cap >= 1 && 0.0 < t.safety
    requires n <= |levels| && |takes| == n && Feasible(Steps(levels, t), t, takes)
    ensures Total(takes, n) <= Best(Steps(levels, t), t.requested, n)
  {
    var s := Steps(levels, t);
    if Total(takes, n) > 0 {
      var m := LastUsed(takes, n);
      TotalWithinDepth(s, takes, m + 1);
      AffordableAt(s[m].price, Total(takes, n), t.cap);
      BestGrows(s, t.requested, m, n);
    }
  }

  lemma {:induction false} GreedyPrefix(s: seq<Step>, requested: int, i: nat, n: nat)
    requires i <= n <= |s|
    ensures Total(Greedy(s, requested, n), i) == Best(s, requested, i)
    ensures i < n ==> Greedy(s, requested, n)[i] == Best(s, requested, i + 1) - Best(s, requested, i)
  {
    if i < n {
      GreedyPrefix(s, requested, i, n - 1);
      TotalOfPrefix(Greedy(s, requested, n - 1), Greedy(s, requested, n), i);
    } else if n > 0 {
      GreedyPrefix(s, requested, n - 1, n - 1);
      TotalOfPrefix(Greedy(s, requested, n - 1), Greedy(s, requested, n), n - 1);
    }
  }

  lemma {:induction false} TotalOfPrefix(a: seq<int>, b: seq<int>, i: nat)
    requires i <= |a| && a <= b
    ensures Total(a, i) == Total(b, i)
  {
    if i > 0 {
      TotalOfPrefix(a, b, i - 1);
    }
  }

  /** A level is touched only after every level above it has given all its usable depth. */
  lemma {:induction false} EarlierLevelsExhausted(s: seq<Step>, requested: int, n: nat)
    requires n < |s| && IsSteps(s) && requested >= 1
    requires Best(s, requested, n + 1) > Best(s, requested, n)
    ensures Best(s, requested, n) == Depth(s, n)
    ensures forall i :: 0 <= i < n ==> Greedy(s, requested, n + 1)[i] == s[i].usable
  {
    BestStep(s, requested, n);
    forall i | 0 <= i < n ensures Greedy(s, requested, n + 1)[i] == s[i].usable {
      FullPrefix(s, requested, i, n);
      GreedyPrefix(s, requested, i, n + 1);
    }
  }

  lemma {:induction false} FullPrefix(s: seq<Step>, requested: int, i: nat, n: nat)
    requires i < n <= |s| && n < |s| && IsSteps(s) && requested >= 1
    requires Best(s, requested, n) == Depth(s, n)
    ensures Best(s, requested, i) == Depth(s, i) && Best(s, requested, i + 1) == Depth(s, i + 1)
    decreases n - i
  {
    BestStep(s, requested, n - 1);
    if i < n - 1 {
      FullPrefix(s, requested, i, n - 1);
    }
  }

  /** Whatever a purchase has taken from the top `i` levels, the sweep took at least as much,
      up to the purchase's own total. */
  lemma {:induction false} GreedyAhead(s: seq<Step>, requested: int, takes: seq<int>, i: nat, n: nat)
    requires i <= n == |takes| <= |s| && IsSteps(s) && requested >= 1
    requires forall k :: 0 <= k < n ==> 0 <= takes[k] <= s[k].usable
    requires Total(takes, n) == Best(s, requested, n)
    ensures Total(takes, i) <= Best(s, requested, i)
    decreases n - i
  {
    if i < n {
      GreedyAhead(s, requested, takes, i + 1, n);
      if Best(s, requested, i + 1) > Best(s, requested, i) {
        EarlierLevelsExhausted(s, requested, i);
        TotalWithinDepth(s, takes, i);
      } else {
        BestGrows(s, requested, i, i + 1);
      }
    }
  }

  lemma GapStep(gap: int, low: int, high: int, lag: int, a: int, g: int)
    requires low <= high && lag <= 0 && gap >= Times(low, lag)
    ensures gap + Times(high, a) - Times(high, g) >= Times(high, lag + a - g)
  {
    assert (high - low) * lag <= 0;
    assert low * lag >= high * lag;
  }

  /** Abel summation: falling behind the sweep's prefix totals only costs more per contract. */
  lemma {:induction false} CostGap(s: seq<Step>, requested: int, takes: seq<int>, n: nat, all: nat)
    requires 0 < n <= all == |takes| <= |s| && IsSteps(s) && requested >= 1
    requires forall k :: 0 <= k < all ==> 0 <= takes[k] <= s[k].usable
    requires Total(takes, all) == Best(s, requested, all)
    ensures CostOf(s, takes, n) - CostOf(s, Greedy(s, requested, all), n)
            >= Times(s[n - 1].price, Total(takes, n) - Best(s, requested, n))
  {
    hide Times, Best;
    var g := Greedy(s, requested, all);
    GreedyPrefix(s, requested, n - 1, all);
    GreedyPrefix(s, requested, n, all);
    hide Greedy;
    if n == 1 {
      assert Total(g, 0) == 0;
      NothingCosts(0);
      GapStep(0, 0, s[0].price, 0, takes[0], g[0]);
      assert CostOf(s, takes, 0) == CostOf(s, g, 0) == 0;
    } else {
      CostGap(s, requested, takes, n - 1, all);
      GreedyAhead(s, requested, takes, n - 1, all);
      GapStep(CostOf(s, takes, n - 1) - CostOf(s, g, n - 1), s[n - 2].price, s[n - 1].price,
              Total(takes, n - 1) - Best(s, requested, n - 1), takes[n - 1], g[n - 1]);
    }
  }

  lemma TotalsAgree(gap: int, price: int, x: int, y: int)
    requires x == y && gap >= Times(price, x - y)
    ensures gap >= 0
  {
  }

  lemma NothingCosts(price: int)
    ensures Times(price, 0) == 0
  {
  }

  lemma CostAppend(front: seq<Level>, last: Level)
    ensures Cost(front + [last]) == Cost(front) + Times(last.price, last.count)
  {
    hide Times;
    assert (front + [last])[..|front|] == front;
  }

  lemma CostOfStep(s: seq<Step>, requested: int, n: nat)
    requires 0 < n <= |s|
    ensures CostOf(s, Greedy(s, requested, n), n)
            == CostOf(s, Greedy(s, requested, n - 1), n - 1)
               + Times(s[n - 1].price, Best(s, requested, n) - Best(s, requested, n - 1))
  {
    CostOfPrefix(s, Greedy(s, requested, n - 1), Greedy(s, requested, n), n - 1);
    hide Times, Best;
  }

  lemma {:induction false} FillsCost(s: seq<Step>, requested: int, n: nat)
    requires n <= |s|
    ensures Cost(Fills(s, requested, n)) == CostOf(s, Greedy(s, requested, n), n)
  {
    if n > 0 {
      FillsCost(s, requested, n - 1);
      CostOfStep(s, requested, n);
      BestGrows(s, requested, n - 1, n);
      hide Times, Best, Cost, CostOf, Greedy;
      var front, take := Fills(s, requested, n - 1), Best(s, requested, n) - Best(s, requested, n - 1);
      if take > 0 {
        CostAppend(front, Level(s[n - 1].price, take));
      } else {
        NothingCosts(s[n - 1].price);
        assert front + [] == front;
      }
    }
  }

  lemma {:induction false} CostOfPrefix(s: seq<Step>, a: seq<int>, b: seq<int>, i: nat)
    requires i <= |a| && a <= b && |b| <= |s|
    ensures CostOf(s, a, i) == CostOf(s, b, i)
  {
    if i > 0 {
      CostOfPrefix(s, a, b, i - 1);
    }
  }

  /** Buying the same number of contracts in any other way costs at least as much. */
  lemma SweepIsCheapest(s: seq<Step>, requested: int, takes: seq<int>, n: nat)
    requires n == |takes| <= |s| && IsSteps(s) && requested >= 1
    requires forall k :: 0 <= k < n ==> 0 <= takes[k] <= s[k].usable
    requires Total(takes, n) == Best(s, requested, n)
    ensures Cost(Fills(s, requested, n)) <= CostOf(s, takes, n)
  {
    FillsCost(s, requested, n);
    if n > 0 {
      CostGap(s, requested, takes, n, n);
      hide Times, Best, Cost, CostOf, Greedy, Fills, Total, IsSteps;
      TotalsAgree(CostOf(s, takes, n) - CostOf(s, Greedy(s, requested, n), n), s[n - 1].price,
                  Total(takes, n), Best(s, requested, n));
    }
  }

  lemma {:induction false} LimitBelow(s: seq<Step>, requested: int, m: nat, n: nat)
    requires m < n <= |s| && IsSteps(s)
    requires Best(s, requested, m + 1) == Best(s, requested, n)
    ensures LimitPrice(Fills(s, requested, n)) <= s[m].price
  {
    if m + 1 < n {
      BestGrows(s, requested, n - 1, n);
      if m + 1 < n - 1 {
        BestGrows(s, requested, m + 1, n - 1);
      }
      LimitBelow(s, requested, m, n - 1);
    } else if Fills(s, requested, n) == Fills(s, requested, n - 1) && m > 0 {
      BestGrows(s, requested, m, n);
      LimitBelow(s, requested, m - 1, m);
    }
  }

  /** And it reaches at least as high a price. */
  lemma SweepHasLowestLimit(s: seq<Step>, requested: int, takes: seq<int>, n: nat, m: nat)
    requires m < n == |takes| <= |s| && IsSteps(s) && requested >= 1
    requires forall k :: 0 <= k < n ==> 0 <= takes[k] <= s[k].usable
    requires Total(takes, n) == Best(s, requested, n) == Total(takes, m + 1)
    ensures LimitPrice(Fills(s, requested, n)) <= s[m].price
  {
    GreedyAhead(s, requested, takes, m + 1, n);
    if m + 1 < n {
      BestGrows(s, requested, m + 1, n);
    }
    LimitBelow(s, requested, m, n);
  }

  // ----- the closing checks -----

  lemma WithinCap(price: int, count: int, cap: int)
    requires price > 0 && count <= cap / price
    ensures price * count <= cap
  {
    var q := cap / price;
    assert price * q <= cap;
    assert price * count <= price * q;
  }

  lemma {:induction false} NotionalWithinCap(levels: seq<Level>, t: Terms, n: nat)
    requires n <= |levels| && IsLadder(levels) && t.cap >= 1
    ensures Times(LimitPrice(Fills(Steps(levels, t), t.requested, n)), Best(Steps(levels, t), t.requested, n)) <= t.cap
  {
    if n > 0 {
      var s := Steps(levels, t);
      NotionalWithinCap(levels, t, n - 1);
      BestGrows(s, t.requested, n - 1, n);
      if Best(s, t.requested, n) > Best(s, t.requested, n - 1) {
        WithinCap(levels[n - 1].price, Best(s, t.requested, n), t.cap);
      }
    }
  }

  lemma {:induction false} FillsAccepted(levels: seq<Level>, t: Terms, n: nat, f: Level)
    requires n <= |levels| && IsLadder(levels) && f in Fills(Steps(levels, t), t.requested, n)
    ensures f.count > 0 && exists i :: 0 <= i < n && levels[i].price == f.price
  {
    if n > 0 {
      var s := Steps(levels, t);
      if f in Fills(s, t.requested, n - 1) {
        FillsAccepted(levels, t, n - 1, f);
      } else {
        assert levels[n - 1].price == f.price;
      }
    }
  }

  lemma UnitCost(unit: real, price: int, fee: int, fee1: int, count: int)
    requires price as real + fee1 as real <= unit && count >= 1 && fee <= count * fee1
    ensures (price * count + fee) as real <= unit * count as real
  {
    assert price * count + fee <= (price + fee1) * count;
    assert (price + fee1) as real * count as real <= unit * count as real;
  }

  lemma AddScaled(unit: real, a: int, b: int)
    ensures unit * (a + b) as real == unit * a as real + unit * b as real
  {
  }

  /** A bound on every filled level's unit cost bounds the whole purchase. */
  lemma {:induction false} CostBound(fills: seq<Level>, fee: Fee, unit: real)
    requires forall f {:trigger f in fills} :: f in fills ==> f.count > 0 && f.price as real + fee(f.price, 1) as real <= unit
    requires forall f {:trigger f in fills} :: f in fills ==> fee(f.price, f.count) <= f.count * fee(f.price, 1)
    ensures (Cost(fills) + FeeTotal(fills, fee)) as real <= unit * Contracts(fills) as real
  {
    if fills != [] {
      var front, f := fills[..|fills| - 1], fills[|fills| - 1];
      assert f in fills && forall x {:trigger x in front} :: x in front ==> x in fills;
      CostBound(front, fee, unit);
      UnitCost(unit, f.price, fee(f.price, f.count), fee(f.price, 1), f.count);
      AddScaled(unit, Contracts(front), f.count);
    }
  }

  lemma {:induction false} NoFee(fills: seq<Level>)
    ensures FeeTotal(fills, (p, c) => 0) == 0
  {
    if fills != [] {
      NoFee(fills[..|fills| - 1]);
    }
  }

  lemma AverageBelow(total: int, count: int, unit: real)
    requires count >= 1 && total as real <= unit * count as real
    ensures Average(total, count) <= unit
  {
  }

  lemma AverageBound(fills: seq<Level>, fee: Fee, unit: real)
    requires Contracts(fills) >= 1 && Subadditive(fee, fills)
    requires forall f {:trigger f in fills} :: f in fills ==> f.count > 0 && f.price as real + fee(f.price, 1) as real <= unit
    ensures Average(Cost(fills) + FeeTotal(fills, fee), Contracts(fills)) <= unit
  {
    CostBound(fills, fee, unit);
    AverageBelow(Cost(fills) + FeeTotal(fills, fee), Contracts(fills), unit);
  }

  lemma GrossAverageBound(fills: seq<Level>, unit: real)
    requires Contracts(fills) >= 1
    requires forall f {:trigger f in fills} :: f in fills ==> f.count > 0 && f.price as real <= unit
    ensures Average(Cost(fills), Contracts(fills)) <= unit
  {
    var free: Fee := (p, c) => 0;
    NoFee(fills);
    AverageBound(fills, free, unit);
  }

  lemma FillsPassGates(levels: seq<Level>, t: Terms, fee: Fee, n: nat, f: Level)
    requires IsLadder(levels) && n == Accepted(levels, t, fee, 0)
    requires f in Fills(Steps(levels, t), t.requested, n)
    ensures f.count > 0 && 1 <= f.price <= 99
    ensures f.price as real <= t.probability * 100.0 - t.minEdge
    ensures f.price as real + fee(f.price, 1) as real <= t.probability * 100.0 - t.minEv
  {
    hide Fills, StepAt;
    FillsAccepted(levels, t, n, f);
    var i :| 0 <= i < n && levels[i].price == f.price;
    assert Acceptable(levels, t, fee, i);
  }

  predicate Subadditive(fee: Fee, fills: seq<Level>) {
    forall f {:trigger f in fills} :: f in fills ==> fee(f.price, f.count) <= f.count * fee(f.price, 1)
  }

  lemma AllFillsPassGates(levels: seq<Level>, t: Terms, fee: Fee, n: nat)
    requires IsLadder(levels) && n == Accepted(levels, t, fee, 0)
    ensures forall f {:trigger f in Fills(Steps(levels, t), t.requested, n)} ::
              f in Fills(Steps(levels, t), t.requested, n) ==>
                && f.count > 0 && f.price as real <= t.probability * 100.0 - t.minEdge
                && f.price as real + fee(f.price, 1) as real <= t.probability * 100.0 - t.minEv
  {
    hide Fills, StepAt, Accepted;
    forall f | f in Fills(Steps(levels, t), t.requested, n)
      ensures f.count > 0 && f.price as real <= t.probability * 100.0 - t.minEdge
      ensures f.price as real + fee(f.price, 1) as real <= t.probability * 100.0 - t.minEv
    {
      FillsPassGates(levels, t, fee, n, f);
    }
  }

  lemma SweepAverages(levels: seq<Level>, t: Terms, fee: Fee, n: nat)
    requires IsLadder(levels) && n == Accepted(levels, t, fee, 0)
    requires Best(Steps(levels, t), t.requested, n) >= 1
    ensures var fills := Fills(Steps(levels, t), t.requested, n);
            var count := Best(Steps(levels, t), t.requested, n);
            && Average(Cost(fills), count) <= t.probability * 100.0 - t.minEdge
            && (Subadditive(fee, fills) ==>
                  Average(Cost(fills) + FeeTotal(fills, fee), count) <= t.probability * 100.0 - t.minEv)
  {
    hide Fills, Best, Accepted, Average, StepAt, Cost, FeeTotal, Contracts, Subadditive, Steps;
    FillsTotal(Steps(levels, t), t.requested, n);
    AllFillsPassGates(levels, t, fee, n);
    var fills := Fills(Steps(levels, t), t.requested, n);
    GrossAverageBound(fills, t.probability * 100.0 - t.minEdge);
    if Subadditive(fee, fills) {
      AverageBound(fills, fee, t.probability * 100.0 - t.minEv);
    }
  }

  lemma SettleOutcome(s: Sweep, t: Terms, fee: Fee, topAsk: int, spread: int, visible: int)
    requires s.selected >= 1 && Times(LimitPrice(s.fills), s.selected) <= t.cap
    requires Average(Cost(s.fills), s.selected) <= t.probability * 100.0 - t.minEdge
    ensures var a := Settle(s, t, fee, topAsk, spread, visible);
            && a != Rejected(ExceedsNotionalCap) && a != Rejected(EdgeBelowMin)
            && (Average(Cost(s.fills) + FeeTotal(s.fills, fee), s.selected) <= t.probability * 100.0 - t.minEv ==>
                  && (a.Allowed? <==> Average(Cost(s.fills), s.selected) - topAsk as real <= t.maxVwapSlippage)
                  && (a.Allowed? || a == Rejected(VwapSlippageExceedsCap)))
  {
    hide Average, Times, Cost, FeeTotal, LimitPrice;
  }

  /**
   Once the sweep selects anything, the gross-edge and notional re-checks cannot fire, and
   neither can the net-EV re-check when no order's fee exceeds the sum of its single fees:
   then the average price alone decides.
   */
  lemma OnlyAveragePriceCanRefuse(levels: seq<Level>, spread: int, t: Terms, fee: Fee)
    requires levels != [] && IsLadder(levels) && t.requested >= 1 && t.cap >= 1
    requires SweepResult(levels, t, fee).selected >= 1
    ensures AssessLadder(levels, spread, t, fee) != Rejected(ExceedsNotionalCap)
    ensures AssessLadder(levels, spread, t, fee) != Rejected(EdgeBelowMin)
    ensures var sweep := SweepResult(levels, t, fee);
            Subadditive(fee, sweep.fills) ==>
              && (AssessLadder(levels, spread, t, fee).Allowed?
                  <==> Average(Cost(sweep.fills), sweep.selected) - levels[0].price as real <= t.maxVwapSlippage)
              && (AssessLadder(levels, spread, t, fee).Allowed? || AssessLadder(levels, spread, t, fee) == Rejected(VwapSlippageExceedsCap))
  {
    var n := Accepted(levels, t, fee, 0);
    NotionalWithinCap(levels, t, n);
    SweepAverages(levels, t, fee, n);
    hide Settle, Accepted, Best, Fills, StepAt, Cost, FeeTotal, Average, Times, Subadditive;
    SettleOutcome(SweepResult(levels, t, fee), t, fee, levels[0].price, spread,
                  VisibleDepth(levels, t, |levels|));
  }

  /** The program's own fee for a ticker, free of charge or not. */
  function ProgramFee(zeroFeeSeries: bool): Fee {
    (price: int, count: int) => Fees.TakerFee(price, count, zeroFeeSeries)
  }

  lemma ProgramFeeSubadditive(fills: seq<Level>, zeroFeeSeries: bool)
    requires forall f {:trigger f in fills} :: f in fills ==> f.count > 0
    ensures Subadditive(ProgramFee(zeroFeeSeries), fills)
  {
    forall f {:trigger f in fills} | f in fills
      ensures ProgramFee(zeroFeeSeries)(f.price, f.count) <= f.count * ProgramFee(zeroFeeSeries)(f.price, 1)
    {
      Fees.TakerFeeSubadditive(f.price, f.count, zeroFeeSeries);
    }
  }

  /** Under the program's fees: once the sweep selects anything, only the average price can refuse it, and says so. */
  lemma ProgramFeesLeaveOneRefusal(levels: seq<Level>, spread: int, t: Terms, zeroFeeSeries: bool)
    requires levels != [] && IsLadder(levels) && t.requested >= 1 && t.cap >= 1
    requires SweepResult(levels, t, ProgramFee(zeroFeeSeries)).selected >= 1
    ensures var fee := ProgramFee(zeroFeeSeries);
            var sweep, a := SweepResult(levels, t, fee), AssessLadder(levels, spread, t, fee);
            && (a.Allowed? <==> Average(Cost(sweep.fills), sweep.selected) - levels[0].price as real <= t.maxVwapSlippage)
            && (!a.Allowed? ==> a == Rejected(VwapSlippageExceedsCap))
  {
    var fee := ProgramFee(zeroFeeSeries);
    var n := Accepted(levels, t, fee, 0);
    AllFillsPassGates(levels, t, fee, n);
    hide Settle, Accepted, Best, Fills, StepAt, Cost, FeeTotal, Average, Times, Subadditive, ProgramFee, AssessLadder, Steps;
    ProgramFeeSubadditive(SweepResult(levels, t, fee).fills, zeroFeeSeries);
    OnlyAveragePriceCanRefuse(levels, spread, t, fee);
  }

  // ----- the plan's figures -----

  lemma AllowedPlan(levels: seq<Level>, spread: int, t: Terms, fee: Fee)
    requires levels != [] && IsLadder(levels) && t.requested >= 1 && t.cap >= 1 && 0.0 < t.safety
    requires AssessLadder(levels, spread, t, fee).Allowed?
    ensures var plan := AssessLadder(levels, spread, t, fee).plan;
            var n := Accepted(levels, t, fee, 0);
            var s := Steps(levels, t);
            && plan.executable == Best(s, t.requested, n) && plan.cost == Cost(Fills(s, t.requested, n))
            && plan.limitPrice == LimitPrice(Fills(s, t.requested, n))
            && 1 <= plan.executable <= t.requested
            && plan.worstCaseNotional == plan.limitPrice * plan.executable <= t.cap
  {
    var n := Accepted(levels, t, fee, 0);
    NotionalWithinCap(levels, t, n);
    BestWithinRequest(Steps(levels, t), t.requested, n);
  }

  lemma {:induction false} BestWithinRequest(s: seq<Step>, requested: int, n: nat)
    requires n <= |s| && requested >= 1
    ensures Best(s, requested, n) <= requested
  {
    if n > 0 {
      BestWithinRequest(s, requested, n - 1);
    }
  }

  lemma GreedyTakeWithinLimits(levels: seq<Level>, t: Terms, i: nat, n: nat)
    requires IsLadder(levels) && t.requested >= 1 && t.cap >= 1 && 0.0 < t.safety && i < n <= |levels|
    ensures 0 <= Greedy(Steps(levels, t), t.requested, n)[i] <= Steps(levels, t)[i].usable
    ensures Greedy(Steps(levels, t), t.requested, n)[i] > 0 ==>
              Times(levels[i].price, Best(Steps(levels, t), t.requested, n)) <= t.cap
  {
    var s, r := Steps(levels, t), t.requested;
    StepsAreSteps(levels, t);
    GreedyPrefix(s, r, i, n);
    BestStep(s, r, i);
    if Best(s, r, i) < Best(s, r, i + 1) {
      hide StepAt, Best;
      LimitAbove(s, r, i, n);
      NotionalWithinCap(levels, t, n);
      MulMonotone(Best(s, r, n), s[i].price, LimitPrice(Fills(s, r, n)));
    }
  }

  /** The sweep is itself one of the purchases it is compared with. */
  lemma SweepIsFeasible(levels: seq<Level>, t: Terms, n: nat)
    requires IsLadder(levels) && t.requested >= 1 && t.cap >= 1 && 0.0 < t.safety && n <= |levels|
    ensures Feasible(Steps(levels, t), t, Greedy(Steps(levels, t), t.requested, n))
    ensures Total(Greedy(Steps(levels, t), t.requested, n), n) == Best(Steps(levels, t), t.requested, n)
  {
    var s, r := Steps(levels, t), t.requested;
    GreedyPrefix(s, r, n, n);
    BestWithinRequest(s, r, n);
    hide StepAt, Best, Greedy, Total;
    forall i | 0 <= i < n
      ensures 0 <= Greedy(s, r, n)[i] <= s[i].usable
      ensures Greedy(s, r, n)[i] > 0 ==> s[i].price * Best(s, r, n) <= t.cap
    {
      GreedyTakeWithinLimits(levels, t, i, n);
    }
  }

  lemma {:induction false} LimitAbove(s: seq<Step>, requested: int, i: nat, n: nat)
    requires i < n <= |s| && IsSteps(s) && Best(s, requested, i) < Best(s, requested, i + 1)
    ensures s[i].price <= LimitPrice(Fills(s, requested, n))
  {
    if i + 1 < n {
      LimitAbove(s, requested, i, n - 1);
    }
  }

  // ----- the purchases a book permits -----

  /** What the gates ask of a level: near enough to the top of the book, with the least edge and the least EV. */
  ghost predicate Worth(levels: seq<Level>, t: Terms, fee: Fee, i: nat)
    requires i < |levels|
  {
    var edge := t.probability * 100.0 - levels[i].price as real;
    && levels[i].price - levels[0].price <= t.maxLevelSlippage
    && edge >= t.minEdge && edge - fee(levels[i].price, 1) as real >= t.minEv
  }

  /**
   A way of buying `takes[i]` contracts at level `i`: of no level more than the safety fraction of what it displays, of
   none behind a level that fails a gate, in all no more than requested, and within the cap at the highest price paid.
   */
  ghost predicate Permitted(levels: seq<Level>, t: Terms, fee: Fee, takes: seq<int>) {
    && |takes| == |levels|
    && (forall i :: 0 <= i < |takes| ==> takes[i] >= 0 && takes[i] as real <= levels[i].count as real * t.safety)
    && (forall i, j :: 0 <= j <= i < |takes| && takes[i] > 0 ==> Worth(levels, t, fee, j))
    && Total(takes, |takes|) <= t.requested
    && (forall i :: 0 <= i < |takes| && takes[i] > 0 ==> levels[i].price * Total(takes, |takes|) <= t.cap)
  }

  function Spend(levels: seq<Level>, takes: seq<int>, n: nat): int
    requires n <= |takes| <= |levels|
  {
    if n == 0 then 0 else Spend(levels, takes, n - 1) + levels[n - 1].price * takes[n - 1]
  }

  /** The most contracts, and of the ways to buy as many the cheapest. */
  ghost predicate BestPurchase(levels: seq<Level>, t: Terms, fee: Fee, takes: seq<int>) {
    && Permitted(levels, t, fee, takes)
    && forall other {:trigger Permitted(levels, t, fee, other)} :: Permitted(levels, t, fee, other) ==>
         && Total(other, |other|) <= Total(takes, |takes|)
         && (Total(other, |other|) == Total(takes, |takes|) ==> Spend(levels, takes, |takes|) <= Spend(levels, other, |other|))
  }

  lemma WorthIsAcceptable(levels: seq<Level>, t: Terms, fee: Fee, i: nat)
    requires i < |levels|
    ensures Worth(levels, t, fee, i) <==> Acceptable(levels, t, fee, i)
  {
  }

  lemma WholeWithin(take: int, depth: real)
    ensures take as real <= depth <==> take <= depth.Floor
  {
  }

  lemma NoneBehind(levels: seq<Level>, t: Terms, fee: Fee, takes: seq<int>, i: nat)
    requires Permitted(levels, t, fee, takes) && Accepted(levels, t, fee, 0) <= i < |takes|
    ensures takes[i] == 0
  {
    WorthIsAcceptable(levels, t, fee, Accepted(levels, t, fee, 0));
    hide Worth, GateAt, Accepted;
  }

  lemma WithinStep(levels: seq<Level>, t: Terms, fee: Fee, takes: seq<int>, i: nat)
    requires IsLadder(levels) && Permitted(levels, t, fee, takes) && i < |takes|
    ensures 0 <= takes[i] <= Steps(levels, t)[i].usable
    ensures takes[i] > 0 ==> Steps(levels, t)[i].price * Total(takes, |takes|) <= t.cap
  {
    TakenWithin(levels, t, fee, takes, i);
    StepIs(levels, t, i);
    hide *;
    WholeWithin(takes[i], levels[i].count as real * t.safety);
  }

  lemma TakenWithin(levels: seq<Level>, t: Terms, fee: Fee, takes: seq<int>, i: nat)
    requires Permitted(levels, t, fee, takes) && i < |takes|
    ensures |takes| == |levels| && takes[i] >= 0 && takes[i] as real <= levels[i].count as real * t.safety
    ensures takes[i] > 0 ==> levels[i].price * Total(takes, |takes|) <= t.cap
  {
    hide Worth, Total;
  }

  lemma StepIs(levels: seq<Level>, t: Terms, i: nat)
    requires IsLadder(levels) && i < |levels|
    ensures Steps(levels, t)[i].price == levels[i].price && Steps(levels, t)[i].usable == (levels[i].count as real * t.safety).Floor
  {
  }

  lemma FrontFeasible(s: seq<Step>, t: Terms, takes: seq<int>, n: nat)
    requires n <= |takes| && n <= |s| && Total(takes[..n], n) <= t.requested
    requires forall i :: 0 <= i < n ==> 0 <= takes[i] <= s[i].usable
    requires forall i :: 0 <= i < n && takes[i] > 0 ==> s[i].price * Total(takes[..n], n) <= t.cap
    ensures Feasible(s, t, takes[..n])
  {
  }

  /** What a permitted purchase takes lies within the accepted levels and the sweep's own limits. */
  lemma PermittedIsFeasible(levels: seq<Level>, t: Terms, fee: Fee, takes: seq<int>)
    requires IsLadder(levels) && Permitted(levels, t, fee, takes)
    ensures var n := Accepted(levels, t, fee, 0);
            && Total(takes[..n], n) == Total(takes, |takes|) && Feasible(Steps(levels, t), t, takes[..n])
            && Spend(levels, takes, |takes|) == CostOf(Steps(levels, t), takes[..n], n)
  {
    var n, s := Accepted(levels, t, fee, 0), Steps(levels, t);
    assert Total(takes, |takes|) <= t.requested && |takes| == |levels| == |s|;
    hide Accepted, Permitted, Steps, Feasible;
    forall i | n <= i < |takes| ensures takes[i] == 0 {
      NoneBehind(levels, t, fee, takes, i);
    }
    NothingBeyond(levels, takes, n, |takes|);
    TotalOfPrefix(takes[..n], takes, n);
    forall i | 0 <= i < n
      ensures 0 <= takes[i] <= s[i].usable
      ensures takes[i] > 0 ==> s[i].price * Total(takes[..n], n) <= t.cap
    {
      WithinStep(levels, t, fee, takes, i);
    }
    FrontFeasible(s, t, takes, n);
    SpendIsCost(levels, t, takes, n);
  }

  lemma {:induction false} NothingBeyond(levels: seq<Level>, takes: seq<int>, n: nat, m: nat)
    requires n <= m <= |takes| == |levels| && forall i :: n <= i < |takes| ==> takes[i] == 0
    ensures Total(takes, m) == Total(takes, n) && Spend(levels, takes, m) == Spend(levels, takes, n)
  {
    if n < m {
      NothingBeyond(levels, takes, n, m - 1);
    }
  }

  lemma {:induction false} SpendIsCost(levels: seq<Level>, t: Terms, takes: seq<int>, n: nat)
    requires n <= |takes| == |levels| && IsLadder(levels)
    ensures Spend(levels, takes, n) == CostOf(Steps(levels, t), takes[..n], n)
  {
    if n > 0 {
      SpendIsCost(levels, t, takes, n - 1);
      CostOfPrefix(Steps(levels, t), takes[..n - 1], takes[..n], n - 1);
    }
  }

  function Padded(takes: seq<int>, n: nat): (r: seq<int>)
    requires |takes| <= n
    ensures |r| == n && takes <= r && forall i :: |takes| <= i < n ==> r[i] == 0
  {
    takes + seq(n - |takes|, _ => 0)
  }

  lemma {:induction false} FrontWithinDepth(levels: seq<Level>, t: Terms, takes: seq<int>, n: nat, i: nat)
    requires IsLadder(levels) && 0.0 < t.safety && n <= |levels| == |takes| && i < |takes|
    requires forall i :: n <= i < |takes| ==> takes[i] == 0
    requires forall i :: 0 <= i < n ==> 0 <= takes[i] <= Steps(levels, t)[i].usable
    ensures takes[i] >= 0 && takes[i] as real <= levels[i].count as real * t.safety
  {
    WholeWithin(takes[i], levels[i].count as real * t.safety);
    ShrinkNonnegative(levels[i].count, t.safety);
    assert i < n ==> takes[i] <= Steps(levels, t)[i].usable;
  }

  lemma {:induction false} FrontPermitted(levels: seq<Level>, t: Terms, fee: Fee, takes: seq<int>, n: nat)
    requires IsLadder(levels) && 0.0 < t.safety && n <= Accepted(levels, t, fee, 0) && |takes| == |levels|
    requires forall i :: n <= i < |takes| ==> takes[i] == 0
    requires Total(takes[..n], n) == Total(takes, |takes|) && Feasible(Steps(levels, t), t, takes[..n])
    ensures Permitted(levels, t, fee, takes)
  {
    hide Permitted, Worth, Accepted, Feasible, Steps, Total;
    FrontIsWorth(levels, t, fee, takes, n);
    FrontWithinLimits(levels, t, takes, n);
    forall i | 0 <= i < |takes| ensures takes[i] >= 0 && takes[i] as real <= levels[i].count as real * t.safety {
      FrontWithinDepth(levels, t, takes, n, i);
    }
    PermittedFrom(levels, t, fee, takes);
  }

  lemma PermittedFrom(levels: seq<Level>, t: Terms, fee: Fee, takes: seq<int>)
    requires |takes| == |levels| && Total(takes, |takes|) <= t.requested
    requires forall i :: 0 <= i < |takes| ==> takes[i] >= 0 && takes[i] as real <= levels[i].count as real * t.safety
    requires forall i, j :: 0 <= j <= i < |takes| && takes[i] > 0 ==> Worth(levels, t, fee, j)
    requires forall i :: 0 <= i < |takes| && takes[i] > 0 ==> levels[i].price * Total(takes, |takes|) <= t.cap
    ensures Permitted(levels, t, fee, takes)
  {
    hide Worth, Total;
  }

  lemma FrontIsWorth(levels: seq<Level>, t: Terms, fee: Fee, takes: seq<int>, n: nat)
    requires n <= Accepted(levels, t, fee, 0) && |takes| == |levels|
    requires forall i :: n <= i < |takes| ==> takes[i] == 0
    ensures forall i, j :: 0 <= j <= i < |takes| && takes[i] > 0 ==> Worth(levels, t, fee, j)
  {
    hide Worth;
    forall i, j | 0 <= j <= i < |takes| && takes[i] > 0 ensures Worth(levels, t, fee, j) {
      WorthIsAcceptable(levels, t, fee, j);
    }
  }

  lemma FrontWithinLimits(levels: seq<Level>, t: Terms, takes: seq<int>, n: nat)
    requires IsLadder(levels) && n <= |levels| == |takes| && forall i :: n <= i < |takes| ==> takes[i] == 0
    requires Total(takes[..n], n) == Total(takes, |takes|) && Feasible(Steps(levels, t), t, takes[..n])
    ensures Total(takes, |takes|) <= t.requested
    ensures forall i :: 0 <= i < n ==> 0 <= takes[i] <= Steps(levels, t)[i].usable
    ensures forall i :: 0 <= i < |takes| && takes[i] > 0 ==> levels[i].price * Total(takes, |takes|) <= t.cap
  {
    hide Total;
    var s, front := Steps(levels, t), takes[..n];
    assert forall i :: 0 <= i < n ==> takes[i] == front[i] && s[i].price == levels[i].price;
    forall i | 0 <= i < |takes| && takes[i] > 0 ensures levels[i].price * Total(takes, |takes|) <= t.cap {
      assert front[i] > 0 && s[i].price * Total(front, n) <= t.cap;
    }
  }

  /** The sweep's own purchase is permitted. */
  lemma SweepIsPermitted(levels: seq<Level>, t: Terms, fee: Fee) returns (takes: seq<int>)
    requires IsLadder(levels) && t.requested >= 1 && t.cap >= 1 && 0.0 < t.safety
    ensures Permitted(levels, t, fee, takes)
    ensures Total(takes, |takes|) == SweepResult(levels, t, fee).selected
    ensures Spend(levels, takes, |takes|) == Cost(SweepResult(levels, t, fee).fills)
  {
    var n, s := Accepted(levels, t, fee, 0), Steps(levels, t);
    var greedy := Greedy(s, t.requested, n);
    takes := Padded(greedy, |levels|);
    SweepIsFeasible(levels, t, n);
    FillsCost(s, t.requested, n);
    SpendIsCost(levels, t, takes, n);
    assert takes[..n] == greedy;
    hide Best, Greedy, Fills, Cost, CostOf, Accepted, Padded, Permitted, Feasible, Steps;
    TotalOfPrefix(greedy, takes, n);
    NothingBeyond(levels, takes, n, |takes|);
    FrontPermitted(levels, t, fee, takes, n);
  }

  /** Nothing the book permits beats it. */
  lemma SweepIsOptimal(levels: seq<Level>, t: Terms, fee: Fee, takes: seq<int>)
    requires IsLadder(levels) && t.requested >= 1 && t.cap >= 1 && 0.0 < t.safety && Permitted(levels, t, fee, takes)
    ensures var best := SweepResult(levels, t, fee);
            && Total(takes, |takes|) <= best.selected
            && (Total(takes, |takes|) == best.selected ==>
                  && Cost(best.fills) <= Spend(levels, takes, |takes|)
                  && forall m :: 0 <= m < |takes| && takes[m] > 0 && Total(takes, m + 1) == Total(takes, |takes|) ==>
                       LimitPrice(best.fills) <= levels[m].price)
  {
    var n, s := Accepted(levels, t, fee, 0), Steps(levels, t);
    PermittedIsFeasible(levels, t, fee, takes);
    SweepBuysMost(levels, t, n, takes[..n]);
    StepsAreSteps(levels, t);
    if Total(takes, |takes|) == Best(s, t.requested, n) {
      SweepIsCheapest(s, t.requested, takes[..n], n);
      hide Best, Fills, Cost, CostOf, GateAt, Accepted, Worth, LimitPrice, StepAt;
      forall m | 0 <= m < |takes| && takes[m] > 0 && Total(takes, m + 1) == Total(takes, |takes|)
        ensures LimitPrice(Fills(s, t.requested, n)) <= levels[m].price
      {
        if m >= n {
          WorthIsAcceptable(levels, t, fee, n);
          assert false;
        }
        TotalOfPrefix(takes[..n], takes, m + 1);
        SweepHasLowestLimit(s, t.requested, takes[..n], n, m);
      }
    }
  }

  // ----- the main results -----

  function SideOf(quote: Quote, side: string): SideBook {
    if side == "yes" then quote.yes else quote.no
  }

  /** A well-formed request against a book whose top quotes agree with its ladder and are not too far apart. */
  ghost predicate Opens(quote: Quote, side: string, t: Terms) {
    var book := SideOf(quote, side);
    var levels := WholeContractLadder(book);
    && (side == "yes" || side == "no") && t.requested >= 1 && t.cap >= 1
    && 0.0 <= t.probability <= 1.0 && 0.0 < t.safety <= 1.0
    && levels != [] && book.ask.Some? && book.bid.Some? && Trunc(book.ask.value) == levels[0].price
    && Trunc(book.bid.value) < levels[0].price <= Trunc(book.bid.value) + t.maxSpread
  }

  lemma OpensExactlyWhen(quote: Quote, side: string, t: Terms)
    ensures OpenBook(quote, side, t).Open? <==> Opens(quote, side, t)
    ensures Opens(quote, side, t) ==>
              var levels := WholeContractLadder(SideOf(quote, side));
              OpenBook(quote, side, t) == Open(levels, levels[0].price - Trunc(SideOf(quote, side).bid.value)) && IsLadder(levels)
  {
    LadderBelow(RawLadder(SideOf(quote, side)), 99);
    hide WholeContractLadder, IsLadder;
  }

  /**
   Every plan the program allows is optimal: no purchase that the book permits gets more contracts, one that gets as many
   costs at least as much and reaches at least as high a price, and the plan is itself such a purchase.
   */
  lemma PlanIsOptimal(quote: Quote, side: string, t: Terms, fee: Fee) returns (plan: Plan, bought: seq<int>)
    requires AssessmentOf(quote, side, t, fee).Allowed?
    ensures plan == AssessmentOf(quote, side, t, fee).plan
    ensures var levels := WholeContractLadder(SideOf(quote, side));
            && IsLadder(levels) && Permitted(levels, t, fee, bought)
            && Total(bought, |bought|) == plan.executable && Spend(levels, bought, |bought|) == plan.cost
    ensures 1 <= plan.executable <= t.requested && plan.limitPrice * plan.executable <= t.cap
    ensures var levels := WholeContractLadder(SideOf(quote, side));
            forall takes {:trigger Permitted(levels, t, fee, takes)} :: Permitted(levels, t, fee, takes) ==>
              && Total(takes, |takes|) <= plan.executable
              && (Total(takes, |takes|) == plan.executable ==>
                    && plan.cost <= Spend(levels, takes, |takes|)
                    && forall m :: 0 <= m < |takes| && takes[m] > 0 && Total(takes, m + 1) == Total(takes, |takes|) ==>
                         plan.limitPrice <= levels[m].price)
  {
    plan := AssessmentOf(quote, side, t, fee).plan;
    OpensExactlyWhen(quote, side, t);
    var levels, spread := OpenBook(quote, side, t).levels, OpenBook(quote, side, t).spread;
    hide Opens, OpenBook, Permitted, AssessLadder, WholeContractLadder, SideOf, IsLadder;
    AllowedPlan(levels, spread, t, fee);
    bought := SweepIsPermitted(levels, t, fee);
    forall takes {:trigger Permitted(levels, t, fee, takes)} | Permitted(levels, t, fee, takes)
      ensures Total(takes, |takes|) <= plan.executable
      ensures Total(takes, |takes|) == plan.executable ==> plan.cost <= Spend(levels, takes, |takes|)
      ensures forall m :: 0 <= m < |takes| && takes[m] > 0 && Total(takes, m + 1) == Total(takes, |takes|) == plan.executable ==>
                plan.limitPrice <= levels[m].price
    {
      SweepIsOptimal(levels, t, fee, takes);
    }
  }

  lemma FillsGrow(s: seq<Step>, requested: int, n: nat)
    requires 0 < n <= |s|
    ensures var take := Best(s, requested, n) - Best(s, requested, n - 1);
            Fills(s, requested, n) == Fills(s, requested, n - 1) + if take > 0 then [Level(s[n - 1].price, take)] else []
  {
  }

  /** A fill takes no more of its level than the level's usable depth; fills come in ladder order. */
  lemma {:induction false} FillsWithinLevels(levels: seq<Level>, t: Terms, n: nat)
    requires IsLadder(levels) && t.requested >= 1 && t.cap >= 1 && 0.0 < t.safety && n <= |levels|
    ensures var fills := Fills(Steps(levels, t), t.requested, n);
            && (forall f {:trigger f in fills} :: f in fills ==>
                  exists i :: 0 <= i < n && levels[i].price == f.price && 1 <= f.count <= Steps(levels, t)[i].usable)
            && (forall j, k :: 0 <= j < k < |fills| ==> fills[j].price < fills[k].price)
  {
    if n > 0 {
      var s := Steps(levels, t);
      StepsAreSteps(levels, t);
      FillsWithinLevels(levels, t, n - 1);
      BestStep(s, t.requested, n - 1);
      FillsGrow(s, t.requested, n);
      hide Fills, Best, StepAt;
      var front, fills := Fills(s, t.requested, n - 1), Fills(s, t.requested, n);
      forall j, k | 0 <= j < k < |fills| ensures fills[j].price < fills[k].price {
        assert fills[j] in front;
      }
      forall f {:trigger f in fills} | f in fills
        ensures exists i :: 0 <= i < n && levels[i].price == f.price && 1 <= f.count <= s[i].usable
      {
        if f !in front {
          assert levels[n - 1].price == f.price && 1 <= f.count <= s[n - 1].usable;
        }
      }
    }
  }

  lemma FillDepth(level: Level, t: Terms, take: int)
    requires level.price > 0 && take <= StepAt(level, t).usable
    ensures take as real <= level.count as real * t.safety
  {
    WholeWithin(take, level.count as real * t.safety);
  }

  lemma {:induction false} FillAtLevel(levels: seq<Level>, t: Terms, fee: Fee, f: Level) returns (i: nat)
    requires IsLadder(levels) && t.requested >= 1 && t.cap >= 1 && 0.0 < t.safety
    requires f in Fills(Steps(levels, t), t.requested, Accepted(levels, t, fee, 0))
    ensures i < |levels| && levels[i].price == f.price && 1 <= f.count <= StepAt(levels[i], t).usable
    ensures levels[0].price <= f.price && Worth(levels, t, fee, i)
  {
    var n := Accepted(levels, t, fee, 0);
    FillsWithinLevels(levels, t, n);
    hide Fills, Accepted, Worth, GateAt, StepAt;
    i :| 0 <= i < n && levels[i].price == f.price && 1 <= f.count <= Steps(levels, t)[i].usable;
    WorthIsAcceptable(levels, t, fee, i);
  }

  /** The plan that the closing checks let through. */
  lemma SettledPlan(s: Sweep, t: Terms, fee: Fee, topAsk: int, spread: int, visible: int)
    requires Settle(s, t, fee, topAsk, spread, visible).Allowed?
    ensures var p := Settle(s, t, fee, topAsk, spread, visible).plan;
            && p.requested == t.requested && p.fills == s.fills && p.executable == s.selected >= 1
            && p.topAsk == topAsk && p.spread == spread && p.visibleDepth == visible && p.usableDepth == s.capacitySeen
            && p.cost == Cost(s.fills) && p.fee == FeeTotal(s.fills, fee) && p.limitPrice == LimitPrice(s.fills)
            && p.worstCaseNotional == p.limitPrice * p.executable <= t.cap
            && p.vwap == Average(p.cost, p.executable) <= topAsk as real + t.maxVwapSlippage
            && p.grossEdge == t.probability * 100.0 - p.vwap >= t.minEdge
            && p.netEv == t.probability * 100.0 - Average(p.cost + p.fee, p.executable) >= t.minEv
  {
    hide Cost, FeeTotal, Average;
  }

  lemma SomeFill(fills: seq<Level>)
    ensures Contracts(fills) >= 1 ==> fills != []
  {
  }

  lemma AverageOf(total: int, count: int)
    requires count >= 1
    ensures Average(total, count) * count as real == total as real
  {
  }

  /** The plan of a ladder's sweep. */
  lemma LadderPlan(levels: seq<Level>, spread: int, t: Terms, fee: Fee)
    requires levels != [] && IsLadder(levels) && t.requested >= 1 && t.cap >= 1 && 0.0 < t.safety
    requires AssessLadder(levels, spread, t, fee).Allowed?
    ensures var p, s := AssessLadder(levels, spread, t, fee).plan, SweepResult(levels, t, fee);
            && p.fills == s.fills == Fills(Steps(levels, t), t.requested, Accepted(levels, t, fee, 0)) != []
            && p.topAsk == levels[0].price && p.spread == spread
            && Contracts(p.fills) == p.executable == s.selected
            && (forall j, k :: 0 <= j < k < |p.fills| ==> p.fills[j].price < p.fills[k].price)
  {
    var n := Accepted(levels, t, fee, 0);
    FillsWithinLevels(levels, t, n);
    FillsTotal(Steps(levels, t), t.requested, n);
    hide Settle, Fills, Accepted, Steps, Depth, Visited, Best, IsLadder;
    SettledPlan(SweepResult(levels, t, fee), t, fee, levels[0].price, spread, VisibleDepth(levels, t, |levels|));
    SomeFill(Fills(Steps(levels, t), t.requested, n));
  }

  lemma AllowedOpens(quote: Quote, side: string, t: Terms, fee: Fee) returns (levels: seq<Level>, spread: int)
    requires AssessmentOf(quote, side, t, fee).Allowed?
    ensures Opens(quote, side, t) && levels == WholeContractLadder(SideOf(quote, side)) && levels != [] && IsLadder(levels)
    ensures spread == levels[0].price - Trunc(SideOf(quote, side).bid.value)
    ensures AssessmentOf(quote, side, t, fee) == AssessLadder(levels, spread, t, fee)
    ensures t.requested >= 1 && t.cap >= 1 && 0.0 < t.safety
  {
    OpensExactlyWhen(quote, side, t);
    levels, spread := OpenBook(quote, side, t).levels, OpenBook(quote, side, t).spread;
    hide WholeContractLadder, IsLadder, AssessLadder;
  }

  lemma FillInPlan(quote: Quote, side: string, t: Terms, fee: Fee, f: Level) returns (i: nat)
    requires AssessmentOf(quote, side, t, fee).Allowed? && f in AssessmentOf(quote, side, t, fee).plan.fills
    ensures var levels := WholeContractLadder(SideOf(quote, side));
            && IsLadder(levels) && i < |levels| && levels[i].price == f.price && levels[0].price <= f.price
            && AssessmentOf(quote, side, t, fee).plan.topAsk == levels[0].price
            && 1 <= f.count <= StepAt(levels[i], t).usable && Worth(levels, t, fee, i)
  {
    var levels, spread := AllowedOpens(quote, side, t, fee);
    hide AssessmentOf, AssessLadder, WholeContractLadder, IsLadder, Fills, Accepted, Steps, SweepResult, Settle, StepAt, Worth;
    LadderPlan(levels, spread, t, fee);
    i := FillAtLevel(levels, t, fee, f);
  }

  lemma LevelCount(book: SideBook, i: nat)
    requires i < |WholeContractLadder(book)|
    ensures var l := WholeContractLadder(book)[i]; l.count == CountAt(RawLadder(book), l.price)
  {
    LadderBelow(RawLadder(book), 99);
    assert WholeContractLadder(book)[i] in WholeContractLadder(book);
    hide CountAt, LadderUpTo;
  }

  lemma DepthOfFill(level: Level, t: Terms, f: Level, displayed: int)
    requires level.price > 0 && f.count <= StepAt(level, t).usable && level.count == displayed
    ensures f.count as real <= displayed as real * t.safety
  {
    FillDepth(level, t, f.count);
  }

  /** A fill of an allowed plan takes no more than the safety fraction of the whole contracts displayed at its price. */
  lemma FillsWithinBook(quote: Quote, side: string, t: Terms, fee: Fee, f: Level)
    requires AssessmentOf(quote, side, t, fee).Allowed? && f in AssessmentOf(quote, side, t, fee).plan.fills
    ensures var book := if side == "yes" then quote.yes else quote.no;
            f.count >= 1 && f.count as real <= CountAt(RawLadder(book), f.price) as real * t.safety
  {
    hide AssessmentOf, CountAt, WholeContractLadder, StepAt, Worth, RawLadder;
    var i := FillInPlan(quote, side, t, fee, f);
    var book := SideOf(quote, side);
    LevelCount(book, i);
    DepthOfFill(WholeContractLadder(book)[i], t, f, CountAt(RawLadder(book), f.price));
  }

  /** It is near enough to the top quote, and has the least edge and the least EV. */
  lemma FillsWorthwhile(quote: Quote, side: string, t: Terms, fee: Fee, f: Level)
    requires AssessmentOf(quote, side, t, fee).Allowed? && f in AssessmentOf(quote, side, t, fee).plan.fills
    ensures var top, edge := AssessmentOf(quote, side, t, fee).plan.topAsk, t.probability * 100.0 - f.price as real;
            top <= f.price <= top + t.maxLevelSlippage && edge >= t.minEdge && edge - fee(f.price, 1) as real >= t.minEv
  {
    hide AssessmentOf, WholeContractLadder, StepAt, IsLadder;
    var i := FillInPlan(quote, side, t, fee, f);
  }

  lemma LadderRates(levels: seq<Level>, spread: int, t: Terms, fee: Fee)
    requires levels != [] && IsLadder(levels) && AssessLadder(levels, spread, t, fee).Allowed?
    ensures var p := AssessLadder(levels, spread, t, fee).plan;
            && p.requested == t.requested && p.executable >= 1 && p.cost == Cost(p.fills) && p.fee == FeeTotal(p.fills, fee)
            && p.limitPrice == LimitPrice(p.fills) && p.worstCaseNotional == p.limitPrice * p.executable <= t.cap
            && p.vwap == Average(p.cost, p.executable) <= levels[0].price as real + t.maxVwapSlippage
            && p.grossEdge == t.probability * 100.0 - p.vwap >= t.minEdge
            && p.netEv == t.probability * 100.0 - Average(p.cost + p.fee, p.executable) >= t.minEv
  {
    hide Settle, SweepResult, Cost, FeeTotal, Average;
    SettledPlan(SweepResult(levels, t, fee), t, fee, levels[0].price, spread, VisibleDepth(levels, t, |levels|));
  }

  /** What a plan reports: the totals of its fills, taken at rising prices up to the limit, from a book that opens. */
  lemma PlanTotals(quote: Quote, side: string, t: Terms, fee: Fee)
    requires AssessmentOf(quote, side, t, fee).Allowed?
    ensures Opens(quote, side, t)
    ensures var plan, book := AssessmentOf(quote, side, t, fee).plan, if side == "yes" then quote.yes else quote.no;
            && plan.topAsk == Trunc(book.ask.value) && plan.spread == plan.topAsk - Trunc(book.bid.value)
            && plan.requested == t.requested && Contracts(plan.fills) == plan.executable >= 1
            && (forall j, k :: 0 <= j < k < |plan.fills| ==> plan.fills[j].price < plan.fills[k].price)
            && plan.fills != [] && plan.limitPrice == plan.fills[|plan.fills| - 1].price
            && plan.worstCaseNotional == plan.limitPrice * plan.executable <= t.cap
            && plan.cost == Cost(plan.fills) && plan.fee == FeeTotal(plan.fills, fee)
  {
    var levels, spread := AllowedOpens(quote, side, t, fee);
    hide AssessmentOf, AssessLadder, IsLadder, Fills, Accepted, Steps, SweepResult, Cost, FeeTotal, Average, WholeContractLadder, Contracts;
    LadderPlan(levels, spread, t, fee);
    LadderRates(levels, spread, t, fee);
  }

  /** The rates of a plan follow from its totals and meet their limits. */
  ghost predicate RatesHold(plan: Plan, t: Terms) {
    && plan.vwap * plan.executable as real == plan.cost as real
    && plan.vwap <= plan.topAsk as real + t.maxVwapSlippage
    && plan.grossEdge == t.probability * 100.0 - plan.vwap >= t.minEdge
    && (t.probability * 100.0 - plan.netEv) * plan.executable as real == (plan.cost + plan.fee) as real
    && plan.netEv >= t.minEv
  }

  lemma RatesOf(plan: Plan, t: Terms)
    requires plan.executable >= 1 && plan.vwap == Average(plan.cost, plan.executable) <= plan.topAsk as real + t.maxVwapSlippage
    requires plan.grossEdge == t.probability * 100.0 - plan.vwap >= t.minEdge
    requires plan.netEv == t.probability * 100.0 - Average(plan.cost + plan.fee, plan.executable) >= t.minEv
    ensures RatesHold(plan, t)
  {
    AverageOf(plan.cost, plan.executable);
    AverageOf(plan.cost + plan.fee, plan.executable);
    assert t.probability * 100.0 - plan.netEv == Average(plan.cost + plan.fee, plan.executable);
    hide Average;
  }

  lemma LadderRatesHold(levels: seq<Level>, spread: int, t: Terms, fee: Fee)
    requires levels != [] && IsLadder(levels) && t.requested >= 1 && t.cap >= 1 && 0.0 < t.safety
    requires AssessLadder(levels, spread, t, fee).Allowed?
    ensures RatesHold(AssessLadder(levels, spread, t, fee).plan, t)
  {
    hide AssessLadder, IsLadder, Cost, FeeTotal, Average, Contracts, Fills, Accepted, Steps, SweepResult, RatesHold;
    LadderPlan(levels, spread, t, fee);
    LadderRates(levels, spread, t, fee);
    RatesOf(AssessLadder(levels, spread, t, fee).plan, t);
  }

  lemma PlanRates(quote: Quote, side: string, t: Terms, fee: Fee)
    requires AssessmentOf(quote, side, t, fee).Allowed?
    ensures RatesHold(AssessmentOf(quote, side, t, fee).plan, t)
  {
    var levels, spread := AllowedOpens(quote, side, t, fee);
    hide AssessmentOf, AssessLadder, IsLadder, WholeContractLadder, Opens, RatesHold;
    LadderRatesHold(levels, spread, t, fee);
  }

  // ----- the depths a plan reports -----

  /** The whole contracts displayed at prices from 1 to `top` cents that do not exceed `limit`. */
  function DisplayedUpTo(raw: seq<RawLevel>, top: nat, limit: int): int {
    if top == 0 then 0 else DisplayedUpTo(raw, top - 1, limit) + if top <= limit then CountAt(raw, top) else 0
  }

  function CountsUpTo(levels: seq<Level>, limit: int): int {
    if levels == [] then 0
    else
      var l := levels[|levels| - 1];
      CountsUpTo(levels[..|levels| - 1], limit) + if l.price <= limit then l.count else 0
  }

  lemma {:induction false} LadderCounts(raw: seq<RawLevel>, top: nat, limit: int)
    ensures CountsUpTo(LadderUpTo(raw, top), limit) == DisplayedUpTo(raw, top, limit)
  {
    if top > 0 {
      LadderCounts(raw, top - 1, limit);
      var front := LadderUpTo(raw, top - 1);
      assert (front + [Level(top, CountAt(raw, top))])[..|front|] == front;
      assert front + [] == front;
    }
  }

  lemma {:induction false} VisibleCounts(levels: seq<Level>, t: Terms, n: nat)
    requires n <= |levels|
    ensures n > 0 ==> VisibleDepth(levels, t, n) == CountsUpTo(levels[..n], levels[0].price + t.maxLevelSlippage)
  {
    if n > 1 {
      VisibleCounts(levels, t, n - 1);
      assert levels[..n][..n - 1] == levels[..n - 1];
    } else if n == 1 {
      assert levels[..1][..0] == [];
      assert VisibleDepth(levels, t, 0) == 0;
    }
  }

  lemma {:induction false} BestWithinSeen(s: seq<Step>, requested: int, n: nat)
    requires n <= |s| && IsSteps(s) && requested >= 1
    ensures Best(s, requested, n) <= Depth(s, Visited(s, requested, n))
  {
    if n > 0 {
      BestWithinSeen(s, requested, n - 1);
      BestStep(s, requested, n - 1);
    }
  }

  /** `usable` contracts are no more than the safety fraction of the visible ones. */
  ghost predicate Covers(visible: int, safety: real, usable: int) {
    usable as real <= visible as real * safety
  }

  lemma UsableShare(level: Level, t: Terms, depth: int, visible: int)
    requires level.price > 0 && Covers(visible, t.safety, depth)
    ensures Covers(visible + level.count, t.safety, depth + StepAt(level, t).usable)
  {
    FillDepth(level, t, StepAt(level, t).usable);
    assert (visible + level.count) as real * t.safety == visible as real * t.safety + level.count as real * t.safety;
  }

  lemma {:induction false} SeenWithinVisible(levels: seq<Level>, t: Terms, n: nat)
    requires n <= |levels| && IsLadder(levels) && forall i :: 0 <= i < n ==> WithinSlippage(levels, t, i)
    ensures Covers(VisibleDepth(levels, t, n), t.safety, Depth(Steps(levels, t), n))
  {
    if n > 0 {
      SeenWithinVisible(levels, t, n - 1);
      hide StepAt, Covers;
      UsableShare(levels[n - 1], t, Depth(Steps(levels, t), n - 1), VisibleDepth(levels, t, n - 1));
    }
  }

  lemma {:induction false} VisibleGrows(levels: seq<Level>, t: Terms, m: nat, n: nat)
    requires m <= n <= |levels| && IsLadder(levels)
    ensures VisibleDepth(levels, t, m) <= VisibleDepth(levels, t, n)
  {
    if m < n {
      VisibleGrows(levels, t, m, n - 1);
    }
  }

  lemma ScaleUp(low: int, high: int, safety: real)
    requires low <= high && safety > 0.0
    ensures low as real * safety <= high as real * safety
  {
    ScaleMonotone(low as real, high as real, safety);
  }

  /** The sweep saw enough usable depth for what it selected, and no more than the safety fraction of what is visible. */
  ghost predicate DepthsFit(selected: int, usable: int, visible: int, safety: real) {
    selected <= usable && Covers(visible, safety, usable)
  }

  lemma {:induction false} AcceptedWithinSlippage(levels: seq<Level>, t: Terms, fee: Fee)
    ensures forall i :: 0 <= i < Accepted(levels, t, fee, 0) ==> WithinSlippage(levels, t, i)
  {
    hide WithinSlippage;
    forall i | 0 <= i < Accepted(levels, t, fee, 0) ensures WithinSlippage(levels, t, i) {
      assert Acceptable(levels, t, fee, i);
    }
  }

  lemma {:induction false} SweptDepths(levels: seq<Level>, t: Terms, fee: Fee)
    requires IsLadder(levels) && t.requested >= 1 && t.cap >= 1 && 0.0 < t.safety
    ensures var s := SweepResult(levels, t, fee);
            DepthsFit(s.selected, s.capacitySeen, VisibleDepth(levels, t, |levels|), t.safety)
  {
    var n, s := Accepted(levels, t, fee, 0), Steps(levels, t);
    var seen := Visited(s, t.requested, n);
    AcceptedWithinSlippage(levels, t, fee);
    StepsAreSteps(levels, t);
    BestWithinSeen(s, t.requested, n);
    hide Accepted, Steps, Visited, Depth, Best, Fills, VisibleDepth, WithinSlippage, StepAt, StopReason;
    SeenWithinVisible(levels, t, seen);
    VisibleGrows(levels, t, seen, |levels|);
    hide DepthsFit, Covers;
    PartFits(Best(s, t.requested, n), Depth(s, seen), VisibleDepth(levels, t, seen), VisibleDepth(levels, t, |levels|), t.safety);
  }

  lemma PartFits(selected: int, usable: int, part: int, visible: int, safety: real)
    requires selected <= usable && Covers(part, safety, usable) && part <= visible && safety > 0.0
    ensures DepthsFit(selected, usable, visible, safety)
  {
    ScaleUp(part, visible, safety);
  }

  lemma {:induction false} LadderDepths(levels: seq<Level>, spread: int, t: Terms, fee: Fee)
    requires levels != [] && IsLadder(levels) && t.requested >= 1 && t.cap >= 1 && 0.0 < t.safety
    requires AssessLadder(levels, spread, t, fee).Allowed?
    ensures var p := AssessLadder(levels, spread, t, fee).plan;
            p.visibleDepth == CountsUpTo(levels, levels[0].price + t.maxLevelSlippage)
            && DepthsFit(p.executable, p.usableDepth, p.visibleDepth, t.safety)
  {
    VisibleCounts(levels, t, |levels|);
    assert levels[..|levels|] == levels;
    SweptDepths(levels, t, fee);
    hide Settle, SweepResult, VisibleDepth, DepthsFit;
    SettledPlan(SweepResult(levels, t, fee), t, fee, levels[0].price, spread, VisibleDepth(levels, t, |levels|));
  }

  /** The visible depth is all that is displayed within the slippage bound; the usable one covers the plan, within the safety fraction. */
  lemma PlanDepths(quote: Quote, side: string, t: Terms, fee: Fee)
    requires AssessmentOf(quote, side, t, fee).Allowed?
    ensures var plan, book := AssessmentOf(quote, side, t, fee).plan, if side == "yes" then quote.yes else quote.no;
            plan.visibleDepth == DisplayedUpTo(RawLadder(book), 99, plan.topAsk + t.maxLevelSlippage)
            && DepthsFit(plan.executable, plan.usableDepth, plan.visibleDepth, t.safety)
  {
    hide AssessmentOf, AssessLadder, IsLadder, Opens, DisplayedUpTo, CountsUpTo, LadderUpTo, RawLadder, DepthsFit, Fills, Steps, Accepted;
    var levels, spread := AllowedOpens(quote, side, t, fee);
    LadderCounts(RawLadder(SideOf(quote, side)), 99, levels[0].price + t.maxLevelSlippage);
    LadderPlan(levels, spread, t, fee);
    LadderDepths(levels, spread, t, fee);
  }

  // ----- exactly when a plan is allowed -----

  /** `spend` cents on `count` contracts average at most `slippage` above the top quote. */
  ghost predicate AveragesWithin(spend: int, count: int, top: int, slippage: real) {
    spend as real <= (top as real + slippage) * count as real
  }

  /** A best purchase gets something, within the average-price cap. */
  ghost predicate Purchasable(levels: seq<Level>, t: Terms, fee: Fee) {
    levels != [] && exists takes {:trigger BestPurchase(levels, t, fee, takes)} ::
      && BestPurchase(levels, t, fee, takes) && Total(takes, |takes|) >= 1
      && AveragesWithin(Spend(levels, takes, |takes|), Total(takes, |takes|), levels[0].price, t.maxVwapSlippage)
  }

  lemma {:induction false} SweepIsBest(levels: seq<Level>, t: Terms, fee: Fee) returns (takes: seq<int>)
    requires IsLadder(levels) && t.requested >= 1 && t.cap >= 1 && 0.0 < t.safety
    ensures BestPurchase(levels, t, fee, takes)
    ensures Total(takes, |takes|) == SweepResult(levels, t, fee).selected
    ensures Spend(levels, takes, |takes|) == Cost(SweepResult(levels, t, fee).fills)
  {
    hide SweepResult, Cost, LimitPrice, Worth, Total, Spend;
    takes := SweepIsPermitted(levels, t, fee);
    forall other {:trigger Permitted(levels, t, fee, other)} | Permitted(levels, t, fee, other)
      ensures Total(other, |other|) <= Total(takes, |takes|)
      ensures Total(other, |other|) == Total(takes, |takes|) ==> Spend(levels, takes, |takes|) <= Spend(levels, other, |other|)
    {
      SweepIsOptimal(levels, t, fee, other);
    }
  }

  lemma SameBest(levels: seq<Level>, t: Terms, fee: Fee, a: seq<int>, b: seq<int>)
    requires BestPurchase(levels, t, fee, a) && BestPurchase(levels, t, fee, b)
    ensures Total(a, |a|) == Total(b, |b|) && Spend(levels, a, |a|) == Spend(levels, b, |b|)
  {
    hide Permitted, Total, Spend;
  }

  lemma AverageWithin(total: int, count: int, top: int, slippage: real)
    requires count >= 1
    ensures Average(total, count) - top as real <= slippage <==> AveragesWithin(total, count, top, slippage)
  {
    AverageOf(total, count);
    var a, n, most := Average(total, count), count as real, top as real + slippage;
    hide Average;
    assert (most - a) * n == most * n - total as real;
    if most * n >= total as real {
      NonnegativeFactor(most - a, n);
    } else {
      PositivePart(a - most, n);
    }
  }

  lemma PositivePart(gap: real, n: real)
    requires n > 0.0 && gap * n > 0.0
    ensures gap > 0.0
  {
  }

  lemma {:induction false} LadderAllowedExactlyWhen(levels: seq<Level>, spread: int, t: Terms, zeroFeeSeries: bool)
    requires levels != [] && IsLadder(levels) && t.requested >= 1 && t.cap >= 1 && 0.0 < t.safety
    ensures var fee := ProgramFee(zeroFeeSeries);
            AssessLadder(levels, spread, t, fee).Allowed? <==> Purchasable(levels, t, fee)
  {
    var fee := ProgramFee(zeroFeeSeries);
    var sweep := SweepResult(levels, t, fee);
    var best := SweepIsBest(levels, t, fee);
    EmptySweepRefused(levels, spread, t, fee);
    hide SweepResult, AssessLadder, BestPurchase, Cost, Average, Total, Spend, ProgramFee, IsLadder, AveragesWithin;
    if sweep.selected >= 1 {
      ProgramFeesLeaveOneRefusal(levels, spread, t, zeroFeeSeries);
      AverageWithin(Cost(sweep.fills), sweep.selected, levels[0].price, t.maxVwapSlippage);
    }
    forall takes {:trigger BestPurchase(levels, t, fee, takes)} | BestPurchase(levels, t, fee, takes)
      ensures Total(takes, |takes|) == Total(best, |best|) && Spend(levels, takes, |takes|) == Spend(levels, best, |best|)
    {
      SameBest(levels, t, fee, takes, best);
    }
  }

  lemma EmptySweepRefused(levels: seq<Level>, spread: int, t: Terms, fee: Fee)
    requires levels != [] && IsLadder(levels)
    ensures SweepResult(levels, t, fee).selected < 1 ==> !AssessLadder(levels, spread, t, fee).Allowed?
  {
  }

  /**
   Under the program's fees a plan comes out exactly when the request is well formed, the book opens, and a best purchase
   gets at least one contract at an average price within the cap.
   */
  lemma AllowedExactlyWhen(quote: Quote, side: string, t: Terms, zeroFeeSeries: bool)
    ensures var fee, levels := ProgramFee(zeroFeeSeries), WholeContractLadder(SideOf(quote, side));
            AssessmentOf(quote, side, t, fee).Allowed? <==> Opens(quote, side, t) && Purchasable(levels, t, fee)
  {
    var fee := ProgramFee(zeroFeeSeries);
    OpensExactlyWhen(quote, side, t);
    if Opens(quote, side, t) {
      var o := OpenBook(quote, side, t);
      hide AssessLadder, Purchasable, ProgramFee, OpenBook, WholeContractLadder, IsLadder;
      LadderAllowedExactlyWhen(o.levels, o.spread, t, zeroFeeSeries);
    }
  }

  ghost predicate NothingPermitted(levels: seq<Level>, t: Terms, fee: Fee) {
    forall takes {:trigger Permitted(levels, t, fee, takes)} :: Permitted(levels, t, fee, takes) ==> Total(takes, |takes|) <= 0
  }

  /** The defect that a refusal names is there. */
  ghost predicate Explains(reason: Reason, quote: Quote, side: string, t: Terms, fee: Fee) {
    var book := SideOf(quote, side);
    var levels := WholeContractLadder(book);
    match reason
    case SideInvalid => side != "yes" && side != "no"
    case ProbabilityInvalid => !(0.0 <= t.probability <= 1.0)
    case DepthSafetyInvalid => !(0.0 < t.safety <= 1.0)
    case DepthMissing => levels == []
    case TwoSidedBookRequired => book.ask.None? || book.bid.None?
    case BookInconsistent => levels != [] && book.ask.Some? && Trunc(book.ask.value) != levels[0].price
    case BookCrossed => levels != [] && book.bid.Some? && levels[0].price <= Trunc(book.bid.value)
    case SpreadExceedsCap => levels != [] && book.bid.Some? && levels[0].price - Trunc(book.bid.value) > t.maxSpread
    case _ => RefusesLadder(reason, levels, t, fee) || (reason == ExceedsNotionalCap && (t.requested < 1 || t.cap < 1))
  }

  /** What a refusal of a book that opens says about its ladder: nothing can be bought, and why, or only on average too dear. */
  ghost predicate RefusesLadder(reason: Reason, levels: seq<Level>, t: Terms, fee: Fee) {
    levels != [] &&
    match reason
    case VwapSlippageExceedsCap => !Purchasable(levels, t, fee) && !NothingPermitted(levels, t, fee)
    case ExceedsNotionalCap => NothingPermitted(levels, t, fee) && t.cap < levels[0].price
    case DepthBelowSafetyFloor => NothingPermitted(levels, t, fee) && levels[0].price <= t.cap
    case EdgeBelowMin =>
      && NothingPermitted(levels, t, fee)
      && exists i :: 0 <= i < |levels| && levels[i].price - levels[0].price <= t.maxLevelSlippage
                     && t.probability * 100.0 - levels[i].price as real < t.minEdge
    case EvBelowMin =>
      && NothingPermitted(levels, t, fee)
      && exists i :: 0 <= i < |levels| && levels[i].price - levels[0].price <= t.maxLevelSlippage
                     && t.probability * 100.0 - levels[i].price as real - fee(levels[i].price, 1) as real < t.minEv
    case _ => false
  }

  lemma EmptySweepReason(s: Sweep, t: Terms, fee: Fee, topAsk: int, spread: int, visible: int)
    requires s.selected < 1
    ensures Settle(s, t, fee, topAsk, spread, visible)
            == Rejected(if s.rejectionAtTop.Some? then s.rejectionAtTop.value
                        else if t.cap < topAsk then ExceedsNotionalCap else DepthBelowSafetyFloor)
  {
  }

  lemma StopIsTrue(levels: seq<Level>, t: Terms, fee: Fee)
    requires IsLadder(levels) && StopReason(levels, t, fee).Some? && NothingPermitted(levels, t, fee)
    ensures RefusesLadder(StopReason(levels, t, fee).value, levels, t, fee)
  {
    var n := Accepted(levels, t, fee, 0);
    hide NothingPermitted, IsLadder;
    assert GateAt(levels, t, fee, n).Fails?;
  }

  lemma {:induction false} EmptySweepExplained(levels: seq<Level>, spread: int, t: Terms, fee: Fee)
    requires levels != [] && IsLadder(levels) && t.requested >= 1 && t.cap >= 1 && 0.0 < t.safety
    requires SweepResult(levels, t, fee).selected < 1
    ensures AssessLadder(levels, spread, t, fee).Rejected? && RefusesLadder(AssessLadder(levels, spread, t, fee).reason, levels, t, fee)
  {
    forall takes {:trigger Permitted(levels, t, fee, takes)} | Permitted(levels, t, fee, takes) ensures Total(takes, |takes|) <= 0 {
      SweepIsOptimal(levels, t, fee, takes);
    }
    var stop := StopReason(levels, t, fee);
    assert SweepResult(levels, t, fee).rejectionAtTop == stop;
    hide SweepResult, Settle, StopReason, Accepted, Permitted;
    EmptySweepReason(SweepResult(levels, t, fee), t, fee, levels[0].price, spread, VisibleDepth(levels, t, |levels|));
    if stop.Some? {
      StopIsTrue(levels, t, fee);
    }
  }

  lemma {:induction false} LadderRefusalIsTrue(levels: seq<Level>, spread: int, t: Terms, zeroFeeSeries: bool)
    requires levels != [] && IsLadder(levels) && t.requested >= 1 && t.cap >= 1 && 0.0 < t.safety
    requires AssessLadder(levels, spread, t, ProgramFee(zeroFeeSeries)).Rejected?
    ensures RefusesLadder(AssessLadder(levels, spread, t, ProgramFee(zeroFeeSeries)).reason, levels, t, ProgramFee(zeroFeeSeries))
  {
    var fee := ProgramFee(zeroFeeSeries);
    hide SweepResult, AssessLadder, ProgramFee, Permitted, Purchasable, Total;
    if SweepResult(levels, t, fee).selected < 1 {
      EmptySweepExplained(levels, spread, t, fee);
    } else {
      LadderAllowedExactlyWhen(levels, spread, t, zeroFeeSeries);
      ProgramFeesLeaveOneRefusal(levels, spread, t, zeroFeeSeries);
      var takes := SweepIsPermitted(levels, t, fee);
    }
  }

  /** Under the program's fees every refusal names a defect that is there. */
  lemma RefusalIsTrue(quote: Quote, side: string, t: Terms, zeroFeeSeries: bool)
    requires AssessmentOf(quote, side, t, ProgramFee(zeroFeeSeries)).Rejected?
    ensures Explains(AssessmentOf(quote, side, t, ProgramFee(zeroFeeSeries)).reason, quote, side, t, ProgramFee(zeroFeeSeries))
  {
    var o, fee := OpenBook(quote, side, t), ProgramFee(zeroFeeSeries);
    OpenIsLadder(quote, side, t);
    if o.Open? {
      hide Explains, OpenBook, AssessLadder, RefusesLadder, ProgramFee, WholeContractLadder;
      LadderRefusalIsTrue(o.levels, o.spread, t, zeroFeeSeries);
      LadderExplains(AssessLadder(o.levels, o.spread, t, fee).reason, quote, side, t, fee);
    } else {
      hide Explains, OpenBook, AssessLadder, ProgramFee;
      ClosedExplains(quote, side, t, fee);
    }
  }

  lemma OpenIsLadder(quote: Quote, side: string, t: Terms)
    ensures OpenBook(quote, side, t).Open? ==> OpenBook(quote, side, t).levels == WholeContractLadder(SideOf(quote, side))
  {
    hide OpenSide;
  }

  lemma ClosedExplains(quote: Quote, side: string, t: Terms, fee: Fee)
    requires OpenBook(quote, side, t).Refused?
    ensures Explains(OpenBook(quote, side, t).reason, quote, side, t, fee)
  {
    hide RefusesLadder, WholeContractLadder;
  }

  lemma LadderExplains(reason: Reason, quote: Quote, side: string, t: Terms, fee: Fee)
    requires RefusesLadder(reason, WholeContractLadder(SideOf(quote, side)), t, fee)
    ensures Explains(reason, quote, side, t, fee)
  {
    LadderReasons(reason, WholeContractLadder(SideOf(quote, side)), t, fee);
    hide RefusesLadder, WholeContractLadder;
  }

  lemma LadderReasons(reason: Reason, levels: seq<Level>, t: Terms, fee: Fee)
    requires RefusesLadder(reason, levels, t, fee)
    ensures reason in {VwapSlippageExceedsCap, ExceedsNotionalCap, DepthBelowSafetyFloor, EdgeBelowMin, EvBelowMin}
  {
  }
}
