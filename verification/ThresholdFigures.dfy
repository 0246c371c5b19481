/**
 What the threshold walk (`autonomy/backtest.py`) says in plain figures: what one trade pays, which rows a threshold trades,
 what the choice of a threshold compares, and which rows each fold trains and scores on.
 */
module ThresholdFigures {
  import opened Options
  import opened Rounding
  import opened StableSorting
  import opened TextOrder
  import opened ThresholdWalk
  import TemporalFolds

  // ----- one trade -----

  /** `price` is the whole cent nearest to `p` dollars, kept from 1 to 99. */
  ghost predicate NearestCent(price: int, p: real) {
    && 1 <= price <= 99
    && (price < 99 ==> 100.0 * p - price as real <= 0.5) && (price > 1 ==> price as real - 100.0 * p <= 0.5)
  }

  lemma CentIsNearest(p: real)
    ensures NearestCent(CentPrice(p), p)
  {
    RoundNear(p * 100.0);
    hide RoundHalfEven;
  }

  /**
   A trade buys the side the forecast thinks too cheap, at that side's market price and the fee, and pays a hundred cents
   when the side wins: its profit is what it is paid less what it cost.
   */
  lemma TradeSettles(r: Row, fee: FeeTable) returns (price: int)
    ensures var t, yes := TradeOf(r, fee), r.forecast > r.market;
            && t.ticker == r.ticker && t.cluster == r.cluster && t.created == r.created
            && NearestCent(price, if yes then r.market else 1.0 - r.market) && t.cost == price + fee(price, r.ticker)
            && (t.won <==> r.won == yes) && t.pnl == (if t.won then 100 else 0) - t.cost
  {
    price := CentPrice(if r.forecast > r.market then r.market else 1.0 - r.market);
    CentIsNearest(r.market);
    CentIsNearest(1.0 - r.market);
    hide CentPrice, NearestCent;
  }

  /** The same market quoted from the other side. */
  function Mirrored(r: Row): Row {
    r.(forecast := 1.0 - r.forecast, market := 1.0 - r.market, won := !r.won)
  }

  /** Both quotations of a market give the same trades. */
  lemma MirrorTrade(r: Row, fee: FeeTable, threshold: int)
    requires r.forecast != r.market
    ensures TradeOf(Mirrored(r), fee) == TradeOf(r, fee) && (Trades(Mirrored(r), threshold) <==> Trades(r, threshold))
  {
    assert 1.0 - (1.0 - r.market) == r.market;
    hide CentPrice;
  }

  // ----- the trades of a threshold -----

  function Wide(threshold: int): Row -> bool {
    (r: Row) => 100.0 * (r.forecast - r.market) >= threshold as real || 100.0 * (r.market - r.forecast) >= threshold as real
  }

  function Traded(rows: seq<Row>, fee: FeeTable): (trades: seq<Trade>)
    ensures |trades| == |rows|
  {
    seq(|rows|, k requires 0 <= k < |rows| => TradeOf(rows[k], fee))
  }

  /** A threshold trades exactly the rows whose forecast and market are at least that many cents apart, in their order. */
  lemma {:induction false} TradesAreWide(rows: seq<Row>, threshold: int, fee: FeeTable)
    requires threshold >= 1
    ensures TradesOf(rows, threshold, fee) == Traded(Filter(Wide(threshold), rows), fee)
  {
    if rows != [] {
      var front, r := rows[..|rows| - 1], rows[|rows| - 1];
      TradesAreWide(front, threshold, fee);
      assert rows == front + [r];
      FilterSnoc(Wide(threshold), front, r);
      WideTrades(r, threshold);
      TradesNext(front, r, threshold, fee);
      TradedNext(Filter(Wide(threshold), front), r, fee);
      hide *;
    }
  }

  lemma TradesNext(front: seq<Row>, r: Row, threshold: int, fee: FeeTable)
    ensures TradesOf(front + [r], threshold, fee)
         == TradesOf(front, threshold, fee) + if Trades(r, threshold) then [TradeOf(r, fee)] else []
  {
    assert (front + [r])[..|front|] == front;
    hide TradeOf, Trades;
  }

  lemma TradedNext(rows: seq<Row>, r: Row, fee: FeeTable)
    ensures Traded(rows + [r], fee) == Traded(rows, fee) + [TradeOf(r, fee)]
  {
    hide TradeOf;
  }

  lemma WideTrades(r: Row, threshold: int)
    requires threshold >= 1
    ensures Trades(r, threshold) <==> Wide(threshold)(r)
  {
  }

  function ProfitOf(): Trade -> int { (t: Trade) => t.pnl }

  function CostOf(): Trade -> int { (t: Trade) => t.cost }

  lemma {:induction false} EquityIsSum(trades: seq<Trade>, n: nat)
    requires n <= |trades|
    ensures Equity(trades, n) == Sum(ProfitOf(), trades[..n]) && Paid(trades, n) == Sum(CostOf(), trades[..n])
  {
    if n > 0 {
      EquityIsSum(trades, n - 1);
      assert trades[..n] == trades[..n - 1] + [trades[n - 1]];
      SumSnoc(ProfitOf(), trades[..n - 1], trades[n - 1]);
      SumSnoc(CostOf(), trades[..n - 1], trades[n - 1]);
    }
  }

  /** The reported ROI is profit over cost to four decimals, and missing where nothing was paid. */
  lemma RoiIsRatio(net: int, cost: int)
    ensures Roi(net, cost).None? <==> cost == 0
    ensures cost != 0 ==> -0.00005 <= Roi(net, cost).value - net as real / cost as real <= 0.00005
  {
    if cost != 0 {
      var x := net as real / cost as real;
      RoundNear(x * 10000.0);
      hide RoundHalfEven;
    }
  }

  // ----- the choice -----

  function NetOf(training: seq<Row>, threshold: int, fee: FeeTable): int {
    Sum(ProfitOf(), TradesOf(training, threshold, fee))
  }

  function PaidFor(training: seq<Row>, threshold: int, fee: FeeTable): int {
    Sum(CostOf(), TradesOf(training, threshold, fee))
  }

  ghost predicate SomeHasTen(training: seq<Row>, fee: FeeTable) {
    exists j :: 1 <= j <= 10 && |TradesOf(training, j, fee)| >= 10
  }

  /** A threshold may be chosen: it has ten trades or, where no threshold has, any trade. */
  ghost predicate MayBeChosen(training: seq<Row>, j: int, fee: FeeTable) {
    1 <= j <= 10 && |TradesOf(training, j, fee)| >= if SomeHasTen(training, fee) then 10 else 1
  }

  lemma CandidateIs(training: seq<Row>, j: int, fee: FeeTable)
    ensures CandidateOf(training, j, fee)
            == Candidate(j, |TradesOf(training, j, fee)|, NetOf(training, j, fee),
                         RoiKey(Roi(NetOf(training, j, fee), PaidFor(training, j, fee))))
  {
    var trades := TradesOf(training, j, fee);
    EquityIsSum(trades, |trades|);
    assert trades[..|trades|] == trades;
    hide TradesOf, Equity, Paid, Sum, Roi, RoiKey;
  }

  lemma {:induction false} CandidatesAre(training: seq<Row>, last: int, fee: FeeTable, c: Candidate)
    requires last >= 0
    ensures c in CandidatesUpTo(training, last, fee) <==> 1 <= c.threshold <= last && c == CandidateOf(training, c.threshold, fee)
    decreases last
  {
    CandidateOwn(training, c.threshold, fee);
    hide CandidateOf;
    if last >= 1 {
      CandidatesAre(training, last - 1, fee, c);
      CandidateOwn(training, last, fee);
    }
  }

  lemma CandidateOwn(training: seq<Row>, j: int, fee: FeeTable)
    ensures CandidateOf(training, j, fee).threshold == j && CandidateOf(training, j, fee).trades == |TradesOf(training, j, fee)|
  {
  }

  lemma TenPool(training: seq<Row>, fee: FeeTable)
    ensures Filter(Enough(), CandidatesUpTo(training, LAST, fee)) != [] <==> SomeHasTen(training, fee)
  {
    var all := CandidatesUpTo(training, LAST, fee);
    var ten := Filter(Enough(), all);
    hide CandidateOf, CandidatesUpTo, TradesOf, Filter;
    if ten != [] {
      var c := ten[0];
      assert c in ten;
      CandidatesAre(training, LAST, fee, c);
      CandidateOwn(training, c.threshold, fee);
    }
    if j :| 1 <= j <= 10 && |TradesOf(training, j, fee)| >= 10 {
      var c := CandidateOf(training, j, fee);
      CandidateOwn(training, j, fee);
      CandidatesAre(training, LAST, fee, c);
      assert c in ten;
    }
  }

  /** The pool holds the candidates of exactly the thresholds that may be chosen. */
  lemma PoolIs(training: seq<Row>, fee: FeeTable, c: Candidate)
    ensures c in Pool(training, fee) <==> MayBeChosen(training, c.threshold, fee) && c == CandidateOf(training, c.threshold, fee)
  {
    TenPool(training, fee);
    CandidatesAre(training, LAST, fee, c);
    CandidateOwn(training, c.threshold, fee);
    hide CandidateOf, CandidatesUpTo, TradesOf, Filter, SomeHasTen;
  }

  /**
   The chosen threshold is one that may be chosen, and of those none made more; among equals it has the best ROI of those
   whose ROI is neither missing nor zero, and then it is the largest. None is chosen exactly where nothing is traded at all.
   */
  lemma ChoiceInNumbers(training: seq<Row>, fee: FeeTable, j: int)
    ensures Selected(training, fee).None? <==> forall i :: 1 <= i <= 10 ==> TradesOf(training, i, fee) == []
    ensures Selected(training, fee).Some? && MayBeChosen(training, j, fee) ==>
              var t := Selected(training, fee).value;
              var a, b := NetOf(training, t, fee), NetOf(training, j, fee);
              var x, y := Roi(a, PaidFor(training, t, fee)), Roi(b, PaidFor(training, j, fee));
              && MayBeChosen(training, t, fee) && a >= b
              && (a == b && y.Some? && y.value != 0.0 ==> x.Some? && x.value != 0.0 && x.value >= y.value)
              && (a == b && x == y ==> t >= j)
  {
    var pool := Pool(training, fee);
    SomethingChosen(training, fee);
    if pool != [] {
      var best := Best(pool);
      BestIsUnbeaten(pool, pool[0]);
      PoolIs(training, fee, best);
      if MayBeChosen(training, j, fee) {
        var c := CandidateOf(training, j, fee);
        PoolIs(training, fee, c);
        BestIsUnbeaten(pool, c);
        CandidateIs(training, best.threshold, fee);
        CandidateIs(training, j, fee);
        hide Pool, Best, CandidateOf, TradesOf, NetOf, PaidFor, Roi, MayBeChosen;
        KeyOrder(best, c, Roi(best.net, PaidFor(training, best.threshold, fee)), Roi(c.net, PaidFor(training, j, fee)));
      }
    }
  }

  lemma KeyOrder(a: Candidate, b: Candidate, x: Option<real>, y: Option<real>)
    requires a.key == RoiKey(x) && b.key == RoiKey(y) && !Beats(b, a)
    ensures a.net >= b.net
    ensures a.net == b.net && y.Some? && y.value != 0.0 ==> x.Some? && x.value != 0.0 && x.value >= y.value
    ensures a.net == b.net && x == y ==> a.threshold >= b.threshold
  {
  }

  lemma SomethingChosen(training: seq<Row>, fee: FeeTable)
    ensures Pool(training, fee) == [] <==> forall i :: 1 <= i <= 10 ==> TradesOf(training, i, fee) == []
  {
    var pool := Pool(training, fee);
    hide Pool, TradesOf, CandidateOf;
    if pool != [] {
      assert pool[0] in pool;
      PoolIs(training, fee, pool[0]);
    }
    if i :| 1 <= i <= 10 && TradesOf(training, i, fee) != [] {
      if SomeHasTen(training, fee) {
        var j :| 1 <= j <= 10 && |TradesOf(training, j, fee)| >= 10;
        CandidateOwn(training, j, fee);
        PoolIs(training, fee, CandidateOf(training, j, fee));
      } else {
        CandidateOwn(training, i, fee);
        PoolIs(training, fee, CandidateOf(training, i, fee));
      }
    }
  }

  // ----- the walk -----

  lemma {:induction false} FlatHolds(folds: seq<seq<Row>>, r: Row)
    ensures r in Flat(folds) <==> exists f :: 0 <= f < |folds| && r in folds[f]
  {
    if folds != [] {
      var n := |folds| - 1;
      FlatHolds(folds[..n], r);
      assert Flat(folds) == Flat(folds[..n]) + folds[n];
      if f :| 0 <= f < |folds| && r in folds[f] {
        assert f < n ==> folds[..n][f] == folds[f];
      }
      if f :| 0 <= f < n && r in folds[..n][f] {
        assert r in folds[f];
      }
    }
  }

  lemma {:induction false} EarliestIsSome(rows: seq<Row>)
    requires rows != []
    ensures exists r :: r in rows && r.created == Earliest(rows)
  {
    if |rows| > 1 {
      var front, last := rows[..|rows| - 1], rows[|rows| - 1];
      EarliestIsSome(front);
      var r :| r in front && r.created == Earliest(front);
      assert rows == front + [last];
      assert r in rows && last in rows;
    } else {
      assert rows[0] in rows;
    }
  }

  /** A fold trains on exactly the rows of earlier folds whose settlement precedes every decision of the fold. */
  lemma TrainsOnSettled(folds: seq<seq<Row>>, k: nat, r: Row)
    requires k < |folds| && folds[k] != []
    ensures r in TrainingOf(folds, k) <==>
              && (exists f :: 0 <= f < k && r in folds[f])
              && forall q {:trigger q in folds[k]} :: q in folds[k] ==> r.settled < q.created
  {
    FlatHolds(folds[..k], r);
    EarliestIsSome(folds[k]);
    forall q {:trigger q in folds[k]} | q in folds[k] ensures Earliest(folds[k]) <= q.created {
      EarliestIsLeast(folds[k], q);
    }
    hide Flat, Earliest;
    assert (exists f :: 0 <= f < k && r in folds[..k][f]) <==> exists f :: 0 <= f < k && r in folds[f];
  }

  /** It scores exactly its rows of clusters it did not train on, at the threshold chosen from those rows. */
  lemma ScoresTheRest(folds: seq<seq<Row>>, k: nat, fee: FeeTable, r: Row)
    requires k < |folds| && folds[k] != []
    ensures r in Purged(folds, k) <==>
              r in folds[k] && forall q {:trigger q in TrainingOf(folds, k)} :: q in TrainingOf(folds, k) ==> q.cluster != r.cluster
    ensures ReportOf(folds, k, fee).Some? <==> Selected(TrainingOf(folds, k), fee).Some?
    ensures ReportOf(folds, k, fee).Some? ==>
              var report := ReportOf(folds, k, fee).value;
              && Selected(TrainingOf(folds, k), fee) == Some(report.threshold)
              && report.trades == TradesOf(Purged(folds, k), report.threshold, fee)
              && report.fold == k + 1 && report.trained == |TrainingOf(folds, k)| && report.tested == |folds[k]|
              && report.purged == |folds[k]| - |Purged(folds, k)|
              && (forall q {:trigger q in folds[k]} :: q in folds[k] ==> report.start <= q.created)
              && exists q {:trigger q in folds[k]} :: q in folds[k] && q.created == report.start
  {
    EarliestIsSome(folds[k]);
    forall q {:trigger q in folds[k]} | q in folds[k] ensures Earliest(folds[k]) <= q.created {
      EarliestIsLeast(folds[k], q);
    }
    hide TrainingOf, Selected, TradesOf, Earliest;
  }

  lemma ReportsNext(folds: seq<seq<Row>>, n: nat, fee: FeeTable)
    requires 1 < n <= |folds| && NoneEmpty(folds)
    ensures Reports(folds, n, fee)
            == Reports(folds, n - 1, fee) + if ReportOf(folds, n - 1, fee).Some? then [ReportOf(folds, n - 1, fee).value] else []
  {
    hide ReportOf;
  }

  /** Every fold after the first with a threshold to choose is reported, and nothing else is. */
  lemma {:induction false} ReportsAre(folds: seq<seq<Row>>, n: nat, fee: FeeTable, r: FoldReport)
    requires n <= |folds| && NoneEmpty(folds)
    ensures r in Reports(folds, n, fee) <==> exists k :: 1 <= k < n && ReportOf(folds, k, fee) == Some(r)
  {
    hide ReportOf;
    if n > 1 {
      ReportsAre(folds, n - 1, fee, r);
      ReportsNext(folds, n, fee);
      hide Reports;
      if r in Reports(folds, n - 1, fee) {
        var k :| 1 <= k < n - 1 && ReportOf(folds, k, fee) == Some(r);
      }
    }
  }

  lemma FoldOf(folds: seq<seq<Row>>, k: nat, fee: FeeTable)
    requires k < |folds| && folds[k] != [] && ReportOf(folds, k, fee).Some?
    ensures ReportOf(folds, k, fee).value.fold == k + 1
  {
    hide Selected, TrainingOf, TradesOf, Purged, Earliest;
  }

  lemma {:induction false} FoldBefore(folds: seq<seq<Row>>, n: nat, fee: FeeTable, r: FoldReport)
    requires n <= |folds| && NoneEmpty(folds) && r in Reports(folds, n, fee)
    ensures 2 <= r.fold <= n
  {
    hide ReportOf;
    if n > 1 {
      if r in Reports(folds, n - 1, fee) {
        FoldBefore(folds, n - 1, fee, r);
      } else {
        FoldOf(folds, n - 1, fee);
      }
    }
  }

  ghost predicate Rising(reports: seq<FoldReport>) {
    forall i, j :: 0 <= i < j < |reports| ==> reports[i].fold < reports[j].fold
  }

  lemma RisingSnoc(front: seq<FoldReport>, last: FoldReport)
    requires Rising(front) && forall i :: 0 <= i < |front| ==> front[i].fold < last.fold
    ensures Rising(front + [last])
  {
  }

  lemma RisingNext(folds: seq<seq<Row>>, n: nat, fee: FeeTable, front: seq<FoldReport>)
    requires 1 < n <= |folds| && NoneEmpty(folds) && front == Reports(folds, n - 1, fee) && Rising(front)
    requires ReportOf(folds, n - 1, fee).Some?
    ensures Rising(front + [ReportOf(folds, n - 1, fee).value])
  {
    assert folds[n - 1] != [];
    hide *;
    FoldOf(folds, n - 1, fee);
    forall i | 0 <= i < |front| ensures front[i].fold < n {
      FoldBefore(folds, n - 1, fee, front[i]);
    }
    RisingSnoc(front, ReportOf(folds, n - 1, fee).value);
  }

  /** Reports come in the order of their folds. */
  lemma {:induction false} ReportsInOrder(folds: seq<seq<Row>>, n: nat, fee: FeeTable)
    requires n <= |folds| && NoneEmpty(folds)
    ensures Rising(Reports(folds, n, fee))
  {
    if n > 1 {
      ReportsInOrder(folds, n - 1, fee);
      ReportsNext(folds, n, fee);
      hide ReportOf, Reports, Rising;
      var front := Reports(folds, n - 1, fee);
      if ReportOf(folds, n - 1, fee).Some? {
        RisingNext(folds, n, fee, front);
      } else {
        assert front + [] == front;
      }
    }
  }

  // ----- the folds -----

  lemma {:induction false} StartsGrow(i: nat, j: nat, n: nat, count: nat)
    requires 0 < count <= n && i <= j <= count
    ensures FoldStart(i, n, count) <= FoldStart(j, n, count)
  {
    if i < j {
      StartsGrow(i, j - 1, n, count);
      StartsInRange(j, n, count);
      hide FoldStart;
    }
  }

  lemma {:induction false} RunsInOrder(ordered: seq<Row>, count: nat, i: nat, j: nat, r: Row, q: Row)
    requires 0 < count <= |ordered| && i < j < count && Sorted(ordered, CreatedLeq)
    requires r in Run(ordered, count, i, |ordered|) && q in Run(ordered, count, j, |ordered|)
    ensures CreatedLeq(r, q)
  {
    hide FoldStart, Run, CreatedLeq;
    RunsAreConsecutive(ordered, count, i);
    RunsAreConsecutive(ordered, count, j);
    StartsGrow(i + 1, j, |ordered|, count);
    var start, next := FoldStart(i, |ordered|, count), FoldStart(j, |ordered|, count);
    var a :| 0 <= a < |Run(ordered, count, i, |ordered|)| && Run(ordered, count, i, |ordered|)[a] == r;
    var b :| 0 <= b < |Run(ordered, count, j, |ordered|)| && Run(ordered, count, j, |ordered|)[b] == q;
    assert ordered[start + a] == r && ordered[next + b] == q;
  }

  lemma SortedRows(rows: seq<Row>)
    ensures Sorted(Sort(rows, CreatedLeq), CreatedLeq)
  {
    LinearOrder();
    SortSorted(rows, CreatedLeq);
  }

  /** No row comes before one of an earlier fold. */
  lemma FoldsInTime(rows: seq<Row>, requested: nat, folds: seq<seq<Row>>, i: nat, j: nat, r: Row, q: Row)
    requires requested > 0 && |folds| == FoldCount(rows, requested)
    requires folds != [] ==> Placed(folds, Sort(rows, CreatedLeq), |rows|)
    requires i < j < |folds| && r in folds[i] && q in folds[j]
    ensures r.created < q.created || (r.created == q.created && TextLeq(r.ticker, q.ticker))
  {
    SortedRows(rows);
    hide Sort, Run, Sorted, TextLeq;
    RunsInOrder(Sort(rows, CreatedLeq), |folds|, i, j, r, q);
  }

  /** The folds are as many as asked for, or as there are rows, and their sizes differ by at most one. */
  lemma FoldsAreEven(rows: seq<Row>, requested: nat, folds: seq<seq<Row>>, i: nat)
    requires requested > 0 && |folds| == FoldCount(rows, requested) && i < |folds|
    requires Placed(folds, Sort(rows, CreatedLeq), |rows|)
    ensures |folds| == requested || (|folds| == |rows| && |rows| < requested)
    ensures |rows| / |folds| <= |folds[i]| <= |rows| / |folds| + 1
  {
    var ordered, n, count := Sort(rows, CreatedLeq), |rows|, |folds|;
    hide FoldStart, Run, Sort, TemporalFolds.First;
    TemporalFolds.FoldsBalanced(i, count, n);
    SameStart(i, n, count);
    SameStart(i + 1, n, count);
    RunsAreConsecutive(ordered, count, i);
  }

  lemma SameStart(f: nat, n: nat, count: nat)
    requires count > 0
    ensures FoldStart(f, n, count) == TemporalFolds.First(f, count, n)
  {
  }
}
