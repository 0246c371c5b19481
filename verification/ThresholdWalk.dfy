/** The walk-forward choice of an edge threshold and the trade summary behind it (`autonomy/backtest.py`). */
module ThresholdWalk {
  import opened Options
  import opened StableSorting
  import opened Rounding
  import opened TextOrder
  import Fees

  datatype Row = Row(ticker: string, cluster: string, forecast: real, market: real, won: bool, created: int, settled: int)

  datatype Trade = Trade(ticker: string, cluster: string, created: int, pnl: int, cost: int, won: bool)

  /** The one-contract taker fee in cents at a price, for a ticker. */
  type FeeTable = (int, string) -> int

  // ----- trades of one threshold -----

  function CentPrice(p: real): int {
    var cents := RoundHalfEven(p * 100.0);
    if cents < 1 then 1 else if cents > 99 then 99 else cents
  }

  predicate Trades(r: Row, threshold: int) {
    var edge := r.forecast - r.market;
    (if edge < 0.0 then -edge else edge) * 100.0 >= threshold as real
  }

  function TradeOf(r: Row, fee: FeeTable): Trade {
    var yes := r.forecast - r.market > 0.0;
    var price := CentPrice(if yes then r.market else 1.0 - r.market);
    var won := if yes then r.won else !r.won;
    Trade(r.ticker, r.cluster, r.created, (if won then 100 - price else -price) - fee(price, r.ticker), price + fee(price, r.ticker), won)
  }

  function TradesOf(rows: seq<Row>, threshold: int, fee: FeeTable): seq<Trade> {
    if rows == [] then []
    else
      var r := rows[|rows| - 1];
      TradesOf(rows[..|rows| - 1], threshold, fee) + if Trades(r, threshold) then [TradeOf(r, fee)] else []
  }

  /** `_threshold_trades` */
  method ThresholdTrades(rows: seq<Row>, threshold: int, fee: FeeTable) returns (trades: seq<Trade>)
    ensures trades == TradesOf(rows, threshold, fee)
  {
    trades := [];
    hide TradeOf;
    for i := 0 to |rows|
      invariant trades == TradesOf(rows[..i], threshold, fee)
    {
      assert rows[..i + 1][..i] == rows[..i];
      if Trades(rows[i], threshold) {
        trades := trades + [TradeOf(rows[i], fee)];
      }
    }
    assert rows[..|rows|] == rows;
  }

  // ----- the summary -----

  datatype Summary = Summary(trades: nat, net: int, cost: int, roi: Option<real>, drawdown: int)

  /** Profit after the first `n` trades. */
  function Equity(trades: seq<Trade>, n: nat): int
    requires n <= |trades|
  {
    if n == 0 then 0 else Equity(trades, n - 1) + trades[n - 1].pnl
  }

  function Paid(trades: seq<Trade>, n: nat): int
    requires n <= |trades|
  {
    if n == 0 then 0 else Paid(trades, n - 1) + trades[n - 1].cost
  }

  function Roi(net: int, cost: int): Option<real> {
    if cost == 0 then None else Some(RoundTo(net as real / cost as real, 10000.0))
  }

  /** The drop from one point of the equity curve to a later one. */
  ghost predicate IsFall(trades: seq<Trade>, n: nat, d: int)
    requires n <= |trades|
  {
    exists i, j :: 0 <= i <= j <= n && d == Equity(trades, i) - Equity(trades, j)
  }

  ghost predicate WorstFall(trades: seq<Trade>, n: nat, d: int)
    requires n <= |trades|
  {
    IsFall(trades, n, d) && forall i, j :: 0 <= i <= j <= n ==> Equity(trades, i) - Equity(trades, j) <= d
  }

  ghost predicate Peak(trades: seq<Trade>, n: nat, peak: int)
    requires n <= |trades|
  {
    (exists i :: 0 <= i <= n && peak == Equity(trades, i)) && forall i :: 0 <= i <= n ==> Equity(trades, i) <= peak
  }

  lemma PeakStep(trades: seq<Trade>, n: nat, peak: int)
    requires n < |trades| && Peak(trades, n, peak)
    ensures var now := Equity(trades, n + 1); Peak(trades, n + 1, if now > peak then now else peak)
  {
    hide Equity;
    var i :| 0 <= i <= n && peak == Equity(trades, i);
    assert i <= n + 1;
    assert n + 1 <= n + 1;
  }

  lemma FallTo(trades: seq<Trade>, n: nat, peak: int)
    requires n < |trades| && Peak(trades, n + 1, peak)
    ensures IsFall(trades, n + 1, peak - Equity(trades, n + 1))
    ensures forall i :: 0 <= i <= n + 1 ==> Equity(trades, i) - Equity(trades, n + 1) <= peak - Equity(trades, n + 1)
  {
    hide Equity;
    var i :| 0 <= i <= n + 1 && peak == Equity(trades, i);
    assert 0 <= i <= n + 1 <= n + 1 && peak - Equity(trades, n + 1) == Equity(trades, i) - Equity(trades, n + 1);
  }

  lemma EarlierFall(trades: seq<Trade>, n: nat, d: int)
    requires n < |trades| && IsFall(trades, n, d)
    ensures IsFall(trades, n + 1, d)
  {
    hide Equity;
    var i, j :| 0 <= i <= j <= n && d == Equity(trades, i) - Equity(trades, j);
    assert 0 <= i <= j <= n + 1 && d == Equity(trades, i) - Equity(trades, j);
  }

  lemma FallStep(trades: seq<Trade>, n: nat, peak: int, worst: int)
    requires n < |trades| && WorstFall(trades, n, worst) && Peak(trades, n + 1, peak)
    ensures var fall := peak - Equity(trades, n + 1); WorstFall(trades, n + 1, if fall > worst then fall else worst)
  {
    hide Equity, IsFall, Peak;
    FallTo(trades, n, peak);
    EarlierFall(trades, n, worst);
    var fall := peak - Equity(trades, n + 1);
    forall i, j | 0 <= i <= j <= n + 1
      ensures Equity(trades, i) - Equity(trades, j) <= if fall > worst then fall else worst
    {
      assert j <= n || j == n + 1;
    }
  }

  /** `_summarize_trades`: the drawdown kept by the loop is the worst fall of the equity curve. */
  method Summarize(trades: seq<Trade>) returns (s: Summary)
    ensures s.trades == |trades| && s.net == Equity(trades, |trades|) && s.cost == Paid(trades, |trades|)
    ensures s.roi == Roi(s.net, s.cost)
    ensures WorstFall(trades, |trades|, s.drawdown)
  {
    var running, peak, worst, cost := 0, 0, 0, 0;
    assert IsFall(trades, 0, 0) by { assert 0 == Equity(trades, 0) - Equity(trades, 0); }
    assert Peak(trades, 0, 0) by { assert 0 == Equity(trades, 0); }
    hide Peak, WorstFall;
    for i := 0 to |trades|
      invariant running == Equity(trades, i) && cost == Paid(trades, i)
      invariant Peak(trades, i, peak) && WorstFall(trades, i, worst)
    {
      running := running + trades[i].pnl;
      cost := cost + trades[i].cost;
      PeakStep(trades, i, peak);
      peak := if running > peak then running else peak;
      FallStep(trades, i, peak, worst);
      worst := if peak - running > worst then peak - running else worst;
    }
    s := Summary(|trades|, running, cost, Roi(running, cost), worst);
  }

  // ----- choosing a threshold -----

  const FIRST: int := 1
  const LAST: int := 10
  const ENOUGH: nat := 10

  /** What selection sees of a threshold: `key` is the rounded ROI, None where it is missing or exactly zero. */
  datatype Candidate = Candidate(threshold: int, trades: nat, net: int, key: Option<real>)

  function RoiKey(roi: Option<real>): Option<real> {
    if roi == Some(0.0) then None else roi
  }

  function CandidateOf(training: seq<Row>, threshold: int, fee: FeeTable): Candidate {
    var trades := TradesOf(training, threshold, fee);
    var net := Equity(trades, |trades|);
    Candidate(threshold, |trades|, net, RoiKey(Roi(net, Paid(trades, |trades|))))
  }

  /** `a` is chosen over `b`: more net profit, then the better ROI key, then the larger threshold. */
  predicate Beats(a: Candidate, b: Candidate) {
    if a.net != b.net then a.net > b.net
    else if a.key != b.key then b.key.None? || (a.key.Some? && a.key.value > b.key.value)
    else a.threshold > b.threshold
  }

  function CandidatesUpTo(training: seq<Row>, last: int, fee: FeeTable): seq<Candidate>
    requires last >= FIRST - 1
    decreases last
  {
    if last < FIRST then [] else CandidatesUpTo(training, last - 1, fee) + [CandidateOf(training, last, fee)]
  }

  function Enough(): Candidate -> bool { (c: Candidate) => c.trades >= ENOUGH }

  function Any(): Candidate -> bool { (c: Candidate) => c.trades > 0 }

  function Pool(training: seq<Row>, fee: FeeTable): seq<Candidate> {
    var all := CandidatesUpTo(training, LAST, fee);
    if Filter(Enough(), all) != [] then Filter(Enough(), all) else Filter(Any(), all)
  }

  function Best(pool: seq<Candidate>): Candidate
    requires pool != []
  {
    if |pool| == 1 then pool[0]
    else
      var b := Best(pool[..|pool| - 1]);
      if Beats(pool[|pool| - 1], b) then pool[|pool| - 1] else b
  }

  function Selected(training: seq<Row>, fee: FeeTable): Option<int> {
    var pool := Pool(training, fee);
    if pool == [] then None else Some(Best(pool).threshold)
  }

  lemma BestSnoc(pool: seq<Candidate>)
    requires pool != []
    ensures var front, last := pool[..|pool| - 1], pool[|pool| - 1];
            Best(pool) == if |pool| == 1 || Beats(last, Best(front)) then last else Best(front)
  {
    hide Beats;
  }

  lemma {:induction false} BestIsUnbeaten(pool: seq<Candidate>, c: Candidate)
    requires pool != [] && c in pool
    ensures Best(pool) in pool && !Beats(c, Best(pool))
  {
    var front, last := pool[..|pool| - 1], pool[|pool| - 1];
    assert pool == front + [last];
    BestSnoc(pool);
    NotBeatenTwice(c, c, c);
    hide Beats, Best;
    if |pool| > 1 {
      assert front[0] in front;
      BestIsUnbeaten(front, if c in front then c else front[0]);
      NotBeatenTwice(c, Best(front), last);
    }
  }

  lemma NotBeatenTwice(c: Candidate, b: Candidate, last: Candidate)
    ensures Beats(last, b) && Beats(c, last) ==> Beats(c, b)
    ensures !Beats(c, c)
  {
  }

  method SelectThreshold(training: seq<Row>, fee: FeeTable) returns (selected: Option<int>)
    ensures selected == Selected(training, fee)
  {
    hide CandidateOf, Beats, Best;
    var all: seq<Candidate> := [];
    for threshold := FIRST to LAST + 1
      invariant all == CandidatesUpTo(training, threshold - 1, fee)
    {
      var c := Summed(training, threshold, fee);
      all := all + [c];
    }
    var pool := Filter(Enough(), all);
    if pool == [] {
      pool := Filter(Any(), all);
    }
    if pool == [] {
      return None;
    }
    var best := PickBest(pool);
    selected := Some(best.threshold);
  }

  /** `max` over the pool. */
  method PickBest(pool: seq<Candidate>) returns (best: Candidate)
    requires pool != []
    ensures best == Best(pool)
  {
    hide Beats;
    best := pool[0];
    for i := 1 to |pool|
      invariant best == Best(pool[..i])
    {
      assert pool[..i + 1][..i] == pool[..i];
      if Beats(pool[i], best) {
        best := pool[i];
      }
    }
    assert pool[..|pool|] == pool;
  }

  method Summed(training: seq<Row>, threshold: int, fee: FeeTable) returns (c: Candidate)
    ensures c == CandidateOf(training, threshold, fee)
  {
    hide TradesOf, Equity, Paid, Roi, WorstFall;
    var trades := ThresholdTrades(training, threshold, fee);
    var s := Summarize(trades);
    c := Candidate(threshold, s.trades, s.net, RoiKey(s.roi));
  }

  // ----- the walk -----

  datatype FoldReport = FoldReport(fold: nat, trained: nat, tested: nat, purged: int, threshold: int, trades: seq<Trade>, start: int)

  function Flat(folds: seq<seq<Row>>): seq<Row> {
    if folds == [] then [] else Flat(folds[..|folds| - 1]) + folds[|folds| - 1]
  }

  function Earliest(rows: seq<Row>): int
    requires rows != []
  {
    if |rows| == 1 then rows[0].created
    else
      var e := Earliest(rows[..|rows| - 1]);
      if rows[|rows| - 1].created < e then rows[|rows| - 1].created else e
  }

  function KnownBefore(t: int): Row -> bool { (r: Row) => r.settled < t }

  function ClustersOf(rows: seq<Row>): set<string> { set r | r in rows :: r.cluster }

  function Outside(clusters: set<string>): Row -> bool { (r: Row) => r.cluster !in clusters }

  /** What may train for fold `k`: earlier folds' rows settled before the fold's first decision. */
  function TrainingOf(folds: seq<seq<Row>>, k: nat): seq<Row>
    requires k < |folds| && folds[k] != []
  {
    Filter(KnownBefore(Earliest(folds[k])), Flat(folds[..k]))
  }

  function Purged(folds: seq<seq<Row>>, k: nat): seq<Row>
    requires k < |folds| && folds[k] != []
  {
    Filter(Outside(ClustersOf(TrainingOf(folds, k))), folds[k])
  }

  function ReportOf(folds: seq<seq<Row>>, k: nat, fee: FeeTable): Option<FoldReport>
    requires k < |folds| && folds[k] != []
  {
    match Selected(TrainingOf(folds, k), fee)
    case None => None
    case Some(threshold) =>
      var test := Purged(folds, k);
      Some(FoldReport(k + 1, |TrainingOf(folds, k)|, |folds[k]|, |folds[k]| - |test|, threshold,
                      TradesOf(test, threshold, fee), Earliest(folds[k])))
  }

  predicate NoneEmpty(folds: seq<seq<Row>>) {
    forall k :: 0 <= k < |folds| ==> folds[k] != []
  }

  /** The reports of the folds after the first, up to the `n`th. */
  function Reports(folds: seq<seq<Row>>, n: nat, fee: FeeTable): seq<FoldReport>
    requires n <= |folds| && NoneEmpty(folds)
  {
    if n <= 1 then []
    else
      Reports(folds, n - 1, fee)
      + match ReportOf(folds, n - 1, fee) case None => [] case Some(r) => [r]
  }

  function Scored(reports: seq<FoldReport>): seq<Trade> {
    if reports == [] then [] else Scored(reports[..|reports| - 1]) + reports[|reports| - 1].trades
  }

  /** `_walk_forward_threshold_report` */
  method WalkForward(folds: seq<seq<Row>>, fee: FeeTable) returns (reports: seq<FoldReport>, outOfSample: seq<Trade>)
    requires NoneEmpty(folds)
    ensures reports == Reports(folds, |folds|, fee) && outOfSample == Scored(reports)
  {
    hide Selected, TradesOf, Filter;
    reports, outOfSample := [], [];
    if |folds| < 2 {
      return;
    }
    FlatOne(folds);
    var history := folds[0];
    for k := 1 to |folds|
      invariant history == Flat(folds[..k]) && reports == Reports(folds, k, fee) && outOfSample == Scored(reports)
    {
      var r := WalkFold(folds, k, history, fee);
      if r.Some? {
        ScoredSnoc(reports, r.value);
        reports := reports + [r.value];
        outOfSample := outOfSample + r.value.trades;
      }
      FlatNext(folds, k);
      history := history + folds[k];
    }
    assert folds[..|folds|] == folds;
  }

  lemma FlatOne(folds: seq<seq<Row>>)
    requires folds != []
    ensures Flat(folds[..1]) == folds[0]
  {
    assert folds[..1][..0] == [];
  }

  lemma FlatNext(folds: seq<seq<Row>>, k: nat)
    requires k < |folds|
    ensures Flat(folds[..k + 1]) == Flat(folds[..k]) + folds[k]
  {
    assert folds[..k + 1][..k] == folds[..k];
  }

  lemma ScoredSnoc(reports: seq<FoldReport>, r: FoldReport)
    ensures Scored(reports + [r]) == Scored(reports) + r.trades
  {
    assert (reports + [r])[..|reports|] == reports;
  }

  method WalkFold(folds: seq<seq<Row>>, k: nat, history: seq<Row>, fee: FeeTable) returns (r: Option<FoldReport>)
    requires k < |folds| && folds[k] != [] && history == Flat(folds[..k])
    ensures r == ReportOf(folds, k, fee)
  {
    hide Selected, TradesOf, Filter, Earliest, Flat;
    var start := Earliest(folds[k]);
    var training := Filter(KnownBefore(start), history);
    var test := Filter(Outside(ClustersOf(training)), folds[k]);
    var selected := SelectThreshold(training, fee);
    if selected.None? {
      return None;
    }
    var trades := ThresholdTrades(test, selected.value, fee);
    r := Some(FoldReport(k + 1, |training|, |folds[k]|, |folds[k]| - |test|, selected.value, trades, start));
  }

  // ----- what the walk guarantees -----

  /** The chosen threshold comes from the pool, and no threshold of the pool beats it. */
  lemma SelectedIsBest(training: seq<Row>, fee: FeeTable, c: Candidate)
    requires c in Pool(training, fee)
    ensures Selected(training, fee) == Some(Best(Pool(training, fee)).threshold)
    ensures Best(Pool(training, fee)) in Pool(training, fee) && !Beats(c, Best(Pool(training, fee)))
  {
    hide Pool, Beats;
    BestIsUnbeaten(Pool(training, fee), c);
  }

  /** The same rows but for results, which may differ only where they were not settled before `t`. */
  ghost predicate SameRows(rows: seq<Row>, others: seq<Row>, t: int) {
    && |rows| == |others|
    && forall k :: 0 <= k < |rows| ==> rows[k].(won := true) == others[k].(won := true) && (rows[k] != others[k] ==> rows[k].settled >= t)
  }

  ghost predicate SameFolds(folds: seq<seq<Row>>, others: seq<seq<Row>>, t: int) {
    |folds| == |others| && forall k :: 0 <= k < |folds| ==> SameRows(folds[k], others[k], t)
  }

  lemma {:induction false} SameFlat(folds: seq<seq<Row>>, others: seq<seq<Row>>, t: int)
    requires SameFolds(folds, others, t)
    ensures SameRows(Flat(folds), Flat(others), t)
  {
    if folds != [] {
      var n := |folds| - 1;
      SameFlat(folds[..n], others[..n], t);
      assert SameRows(folds[n], others[n], t);
      SameJoined(Flat(folds[..n]), folds[n], Flat(others[..n]), others[n], t);
    }
  }

  lemma SameJoined(a: seq<Row>, b: seq<Row>, c: seq<Row>, d: seq<Row>, t: int)
    requires SameRows(a, c, t) && SameRows(b, d, t)
    ensures SameRows(a + b, c + d, t)
  {
  }

  lemma {:induction false} SameKnown(rows: seq<Row>, others: seq<Row>, t: int)
    requires SameRows(rows, others, t)
    ensures Filter(KnownBefore(t), rows) == Filter(KnownBefore(t), others)
  {
    if rows != [] {
      var n := |rows| - 1;
      SameKnown(rows[..n], others[..n], t);
      assert rows[n].(won := true) == others[n].(won := true);
      assert rows[n].settled == others[n].settled;
    }
  }

  lemma {:induction false} SameEarliest(rows: seq<Row>, others: seq<Row>, t: int)
    requires rows != [] && SameRows(rows, others, t)
    ensures Earliest(rows) == Earliest(others)
  {
    var n := |rows| - 1;
    assert rows[n].(won := true) == others[n].(won := true);
    assert rows[n].created == others[n].created;
    if n > 0 {
      SameEarliest(rows[..n], others[..n], t);
    }
  }

  /** Results not settled before a fold's first decision change neither its training rows nor its threshold. */
  lemma ThresholdHasNoLookAhead(folds: seq<seq<Row>>, others: seq<seq<Row>>, k: nat, fee: FeeTable)
    requires k < |folds| && folds[k] != [] && SameFolds(folds, others, Earliest(folds[k]))
    ensures others[k] != [] && TrainingOf(others, k) == TrainingOf(folds, k)
    ensures Selected(TrainingOf(others, k), fee) == Selected(TrainingOf(folds, k), fee)
  {
    var t := Earliest(folds[k]);
    hide Selected, Filter;
    assert SameRows(folds[k], others[k], t);
    assert SameFolds(folds[..k], others[..k], t);
    hide SameRows;
    SameSize(folds[k], others[k], t);
    SameEarliest(folds[k], others[k], t);
    SameFlat(folds[..k], others[..k], t);
    SameKnown(Flat(folds[..k]), Flat(others[..k]), t);
  }

  lemma SameSize(rows: seq<Row>, others: seq<Row>, t: int)
    requires SameRows(rows, others, t)
    ensures |rows| == |others|
  {
  }

  lemma {:induction false} EarliestIsLeast(rows: seq<Row>, r: Row)
    requires r in rows
    ensures Earliest(rows) <= r.created
  {
    var front, last := rows[..|rows| - 1], rows[|rows| - 1];
    assert rows == front + [last];
    if r in front {
      EarliestIsLeast(front, r);
    }
  }

  lemma {:induction false} TradesComeFromRows(rows: seq<Row>, threshold: int, fee: FeeTable, trade: Trade)
    requires trade in TradesOf(rows, threshold, fee)
    ensures exists r :: r in rows && Trades(r, threshold) && trade == TradeOf(r, fee)
  {
    hide TradeOf, Trades;
    var front, last := rows[..|rows| - 1], rows[|rows| - 1];
    assert rows == front + [last];
    if trade in TradesOf(front, threshold, fee) {
      TradesComeFromRows(front, threshold, fee, trade);
    } else {
      assert last in rows;
    }
  }

  lemma TradeKeeps(r: Row, fee: FeeTable)
    ensures TradeOf(r, fee).cluster == r.cluster && TradeOf(r, fee).created == r.created
  {
  }

  lemma ScoredRow(folds: seq<seq<Row>>, k: nat, fee: FeeTable, trade: Trade) returns (r: Row)
    requires k < |folds| && folds[k] != [] && ReportOf(folds, k, fee).Some? && trade in ReportOf(folds, k, fee).value.trades
    ensures r in folds[k] && r.cluster !in ClustersOf(TrainingOf(folds, k))
    ensures trade.created == r.created && trade.cluster == r.cluster
  {
    var test := Purged(folds, k);
    var threshold := ReportOf(folds, k, fee).value.threshold;
    hide Selected, TrainingOf, TradesOf, Trades, TradeOf;
    TradesComeFromRows(test, threshold, fee, trade);
    r :| r in test && trade == TradeOf(r, fee);
    TradeKeeps(r, fee);
    assert Outside(ClustersOf(TrainingOf(folds, k)))(r);
  }

  /**
   Every trade a fold is scored on was decided after every training row settled, and its cluster is
   not one of the clusters trained on.
   */
  lemma ScoredAreUnseen(folds: seq<seq<Row>>, k: nat, fee: FeeTable, trade: Trade, seen: Row)
    requires k < |folds| && folds[k] != [] && ReportOf(folds, k, fee).Some? && trade in ReportOf(folds, k, fee).value.trades
    requires seen in TrainingOf(folds, k)
    ensures seen.settled < trade.created && trade.cluster != seen.cluster
  {
    var r := ScoredRow(folds, k, fee, trade);
    hide ReportOf, Filter, Flat;
    EarliestIsLeast(folds[k], r);
    assert KnownBefore(Earliest(folds[k]))(seen);
    assert seen.cluster in ClustersOf(TrainingOf(folds, k));
  }

  // ----- how ROI breaks ties -----

  lemma BetterRoi(net: int, more: int, less: int)
    requires net < 0 && 0 < less < more
    ensures RoundTo(net as real / more as real, 10000.0) >= RoundTo(net as real / less as real, 10000.0)
    ensures RoundTo(net as real / more as real, 10000.0) <= 0.0
  {
    var a, b := net as real / more as real, net as real / less as real;
    assert a * more as real == net as real && b * less as real == net as real;
    Ratio(a, b, more as real, less as real, net as real);
    RoundToMonotone(b, a, 10000.0);
    RoundToMonotone(a, 0.0, 10000.0);
    RoundInteger(0);
  }

  lemma Ratio(a: real, b: real, more: real, less: real, net: real)
    requires net < 0.0 && 0.0 < less < more && a * more == net && b * less == net
    ensures b <= a <= 0.0
  {
    if a > 0.0 { Product(a, more); }
    if b > a {
      Product(b - a, less);
      Product(-a, more - less);
    }
  }

  lemma Product(x: real, y: real)
    requires x >= 0.0 && y > 0.0
    ensures x * y >= 0.0 && (x > 0.0 ==> x * y > 0.0)
  {
  }

  /**
   Between two thresholds with the same net loss, the one that paid more has the better ROI. It is
   nevertheless beaten exactly when that ROI rounds to zero, because a zero ROI is read as missing.
   */
  lemma ZeroRoiRanksLast(net: int, more: int, less: int, a: Candidate, b: Candidate)
    requires net < 0 && 0 < less < more && a.net == net && b.net == net
    requires a.key == RoiKey(Roi(net, more)) && b.key == RoiKey(Roi(net, less)) && a.key != b.key
    ensures Beats(b, a) <==> Roi(net, more) == Some(0.0)
  {
    BetterRoi(net, more, less);
    hide RoundTo;
  }

  // ----- training rows on which that happens -----

  /** The program's fee for one contract of a ticker that is not free of charge. */
  function ProgramFee(): FeeTable {
    (price: int, ticker: string) => Fees.TakerFee(price, 1, false)
  }

  /** A ticker of `n` letters. */
  function Name(n: nat): (t: string)
    ensures |t| == n
  {
    seq(n, _ => 'x')
  }

  /**
   Ten rows with a strong edge, five won and five lost, the last loss a cent dearer; then rows with a weak edge, won
   and lost in turn. Every row is a market and a cluster of its own.
   */
  function SmallLossRow(i: nat): Row {
    var edge, market := if i < 10 then 0.1 else 0.015, if i == 9 then 0.49 else 0.48;
    Row(Name(i + 1), Name(i + 1), market + edge, market, i % 2 == 0, i, i + 1)
  }

  function SmallLossRows(n: nat): (rows: seq<Row>)
    ensures |rows| == n && forall i :: 0 <= i < n ==> rows[i] == SmallLossRow(i)
  {
    if n == 0 then [] else SmallLossRows(n - 1) + [SmallLossRow(n - 1)]
  }

  function NameOf(r: Row): string { r.ticker }

  lemma SmallLossMarkets(n: nat)
    ensures DistinctBy(SmallLossRows(n), NameOf)
  {
    var rows := SmallLossRows(n);
    forall i, j | 0 <= i < j < n ensures rows[i].ticker != rows[j].ticker {
      assert |rows[i].ticker| == i + 1 && |rows[j].ticker| == j + 1;
    }
  }

  lemma CentPrices()
    ensures CentPrice(0.48) == 48 && CentPrice(0.49) == 49
  {
    assert 0.48 * 100.0 == 48.0 && 0.49 * 100.0 == 49.0;
    RoundInteger(48);
    RoundInteger(49);
  }

  lemma FeesOfBets(ticker: string)
    ensures ProgramFee()(48, ticker) == 2 && ProgramFee()(49, ticker) == 2
  {
    Fees.FeeValue(48, 1);
    Fees.FeeValue(49, 1);
    hide Fees.TakerFee;
  }

  lemma SmallLossTrade(i: nat, threshold: int)
    requires 1 <= threshold <= 10
    ensures Trades(SmallLossRow(i), threshold) <==> i < 10 || threshold == 1
    ensures var t := TradeOf(SmallLossRow(i), ProgramFee());
            && t.pnl == (if i % 2 == 0 then 50 else if i == 9 then -51 else -50)
            && t.cost == if i == 9 then 51 else 50
  {
    CentPrices();
    FeesOfBets(Name(i + 1));
    hide CentPrice, ProgramFee, Name;
  }

  /** What the trades of some rows come to. */
  ghost predicate ComesTo(trades: seq<Trade>, count: nat, net: int, cost: int) {
    |trades| == count && Equity(trades, count) == net && Paid(trades, count) == cost
  }

  lemma ComesToSnoc(trades: seq<Trade>, t: Trade, count: nat, net: int, cost: int)
    requires ComesTo(trades, count, net, cost)
    ensures ComesTo(trades + [t], count + 1, net + t.pnl, cost + t.cost)
  {
    TotalsPrefix(trades, [t], count);
  }

  lemma {:induction false} TotalsPrefix(a: seq<Trade>, b: seq<Trade>, n: nat)
    requires n <= |a|
    ensures Equity(a + b, n) == Equity(a, n) && Paid(a + b, n) == Paid(a, n)
  {
    if n > 0 {
      TotalsPrefix(a, b, n - 1);
    }
  }

  lemma TradesSnoc(rows: seq<Row>, r: Row, threshold: int, fee: FeeTable)
    ensures TradesOf(rows + [r], threshold, fee)
         == TradesOf(rows, threshold, fee) + if Trades(r, threshold) then [TradeOf(r, fee)] else []
  {
    assert (rows + [r])[..|rows|] == rows;
    hide Trades, TradeOf;
  }

  function NetAfter(k: nat): int {
    (if k % 2 == 1 then 50 else 0) - (if k >= 10 then 1 else 0)
  }

  function CostAfter(k: nat): int {
    50 * k + if k >= 10 then 1 else 0
  }

  lemma OneMoreTrade(k: nat)
    ensures var t := TradeOf(SmallLossRow(k), ProgramFee());
            NetAfter(k + 1) == NetAfter(k) + t.pnl && CostAfter(k + 1) == CostAfter(k) + t.cost
  {
    hide TradeOf, SmallLossRow, ProgramFee;
    SmallLossTrade(k, 1);
  }

  /** Threshold 1 trades every row, the higher ones the first ten. */
  lemma {:induction false} SmallLossTotals(n: nat, threshold: int)
    requires 1 <= threshold <= 10
    ensures var k := if threshold == 1 || n < 10 then n else 10;
            ComesTo(TradesOf(SmallLossRows(n), threshold, ProgramFee()), k, NetAfter(k), CostAfter(k))
  {
    hide ComesTo, TradesOf, ProgramFee, SmallLossRow, Trades, TradeOf, NetAfter, CostAfter;
    if n == 0 {
      NoTrades(threshold);
    } else {
      var rows, r, fee := SmallLossRows(n - 1), SmallLossRow(n - 1), ProgramFee();
      SmallLossTotals(n - 1, threshold);
      SmallLossTrade(n - 1, threshold);
      TradesSnoc(rows, r, threshold, fee);
      var trades := TradesOf(rows, threshold, fee);
      assert trades + [] == trades;
      if n <= 10 || threshold == 1 {
        OneMoreTrade(n - 1);
        ComesToSnoc(trades, TradeOf(r, fee), n - 1, NetAfter(n - 1), CostAfter(n - 1));
      }
    }
  }

  lemma NoTrades(threshold: int)
    ensures ComesTo(TradesOf([], threshold, ProgramFee()), 0, NetAfter(0), CostAfter(0))
  {
    hide ProgramFee;
  }

  /** All thresholds lose one cent, threshold 1 on 20501 and the others on 501. */
  lemma SmallLossTrades(threshold: int)
    requires 1 <= threshold <= 10
    ensures var trades := TradesOf(SmallLossRows(410), threshold, ProgramFee());
            if threshold == 1 then ComesTo(trades, 410, -1, 20501) else ComesTo(trades, 10, -1, 501)
  {
    hide ComesTo, TradesOf, ProgramFee, SmallLossRows;
    SmallLossTotals(410, threshold);
  }

  lemma SmallLossKeys()
    ensures RoiKey(Roi(-1, 20501)) == None && RoiKey(Roi(-1, 501)).Some?
  {
    assert RoundHalfEven(-1.0 / 20501.0 * 10000.0) == 0;
    assert RoundHalfEven(-1.0 / 501.0 * 10000.0) == -20;
  }

  lemma {:induction false} CandidatesAre(training: seq<Row>, last: int, fee: FeeTable)
    requires last >= FIRST - 1
    ensures forall c {:trigger c in CandidatesUpTo(training, last, fee)} :: c in CandidatesUpTo(training, last, fee)
              ==> FIRST <= c.threshold <= last && c == CandidateOf(training, c.threshold, fee)
    ensures last >= FIRST ==> CandidateOf(training, last, fee) in CandidatesUpTo(training, last, fee)
    decreases last
  {
    if last >= FIRST {
      CandidatesAre(training, last - 1, fee);
      assert CandidateOf(training, last, fee).threshold == last;
      hide CandidateOf;
    }
  }

  lemma SmallLossCandidate(threshold: int)
    requires 1 <= threshold <= 10
    ensures CandidateOf(SmallLossRows(410), threshold, ProgramFee())
         == if threshold == 1 then Candidate(1, 410, -1, None) else Candidate(threshold, 10, -1, RoiKey(Roi(-1, 501)))
  {
    SmallLossTrades(threshold);
    SmallLossKeys();
    hide TradesOf, Equity, Paid, Roi, RoiKey, SmallLossRows, ProgramFee;
  }

  /**
   Training rows on which that happens: with the program's fees, threshold 1 loses one cent on 20501 and threshold
   10 one cent on 501, both on at least ten trades, and the worse of the two is selected.
   */
  lemma SmallLossIsBeaten()
    ensures var rows, fee := SmallLossRows(410), ProgramFee();
            && DistinctBy(rows, NameOf)
            && ComesTo(TradesOf(rows, 1, fee), 410, -1, 20501) && ComesTo(TradesOf(rows, 10, fee), 10, -1, 501)
            && Selected(rows, fee) == Some(10)
  {
    hide *;
    var rows, fee := SmallLossRows(410), ProgramFee();
    SmallLossMarkets(410);
    SmallLossTrades(1);
    SmallLossTrades(10);
    SmallLossPool();
    var pool := Pool(rows, fee);
    SmallLossCandidate(10);
    SelectedIsBest(rows, fee, CandidateOf(rows, 10, fee));
    if Best(pool).threshold < 10 {
      TenBeatsAll(Best(pool).threshold);
    }
  }

  /** Every threshold trades often enough to be in the pool. */
  lemma SmallLossPool()
    ensures var pool := Pool(SmallLossRows(410), ProgramFee());
            && (forall c {:trigger c in pool} :: c in pool ==>
                  1 <= c.threshold <= 10 && c == CandidateOf(SmallLossRows(410), c.threshold, ProgramFee()))
            && CandidateOf(SmallLossRows(410), 10, ProgramFee()) in pool
  {
    hide CandidateOf, SmallLossRows, ProgramFee, CandidatesUpTo, Filter;
    var all := CandidatesUpTo(SmallLossRows(410), LAST, ProgramFee());
    CandidatesAre(SmallLossRows(410), LAST, ProgramFee());
    forall c {:trigger c in all} | c in all ensures Enough()(c) {
      SmallLossCandidate(c.threshold);
    }
    FilterAll(Enough(), all);
  }

  lemma TenBeatsAll(threshold: int)
    requires 1 <= threshold < 10
    ensures Beats(CandidateOf(SmallLossRows(410), 10, ProgramFee()), CandidateOf(SmallLossRows(410), threshold, ProgramFee()))
  {
    hide CandidateOf, SmallLossRows, ProgramFee, Roi, RoiKey;
    SmallLossKeys();
    SmallLossCandidate(10);
    SmallLossCandidate(threshold);
  }

  // ----- the backtest's own folds -----

  /** Where fold `j` of `count` starts among `n` rows: `j * n / count`, rounded up. */
  function FoldStart(j: nat, n: nat, count: nat): nat
    requires count > 0
  {
    (j * n + count - 1) / count
  }

  function Times(a: nat, b: nat): nat { a * b }

  lemma TimesMonotone(a: nat, b: nat, c: nat)
    requires a <= b
    ensures Times(a, c) <= Times(b, c)
  {
    assert (b - a) * c >= 0;
  }

  lemma TimesNext(a: nat, c: nat)
    ensures Times(a + 1, c) == Times(a, c) + c
  {
  }

  /** A quotient rounded up is at most `i` exactly when `i` divisors cover the dividend. */
  lemma RoundedUp(x: nat, c: nat, i: nat)
    requires c > 0
    ensures (x + c - 1) / c <= i <==> x <= Times(i, c)
  {
    var q := (x + c - 1) / c;
    assert Times(q, c) <= x + c - 1 < Times(q, c) + c;
    if q <= i {
      TimesMonotone(q, i, c);
    } else {
      TimesMonotone(i + 1, q, c);
      TimesNext(i, c);
    }
  }

  lemma StartBy(j: nat, n: nat, count: nat, i: nat)
    requires count > 0
    ensures FoldStart(j, n, count) <= i <==> Times(j, n) <= Times(i, count)
  {
    RoundedUp(j * n, count, i);
  }

  lemma StartsInRange(j: nat, n: nat, count: nat)
    requires 0 < count <= n && 0 < j <= count
    ensures FoldStart(j - 1, n, count) < FoldStart(j, n, count) <= n
  {
    var i := FoldStart(j - 1, n, count);
    StartBy(j, n, count, n);
    TimesMonotone(j, count, n);
    assert Times(count, n) == Times(n, count);
    TimesNext(j - 1, n);
    StartBy(j, n, count, i);
    hide Times, FoldStart;
    if i > 0 {
      StartBy(j - 1, n, count, i - 1);
      TimesNext(i - 1, count);
    } else {
      ZeroTimes(count);
    }
  }

  lemma ZeroTimes(c: nat)
    ensures Times(0, c) == 0
  {
  }

  lemma FloorTimes(i: nat, n: nat, count: nat)
    requires n > 0
    ensures Times(i * count / n, n) <= Times(i, count) < Times(i * count / n, n) + n
  {
  }

  /** The run a row falls in is the fold index the code computes for it. */
  lemma RowFold(i: nat, n: nat, count: nat, j: nat)
    requires 0 < count <= n && i < n
    ensures FoldStart(j, n, count) <= i < FoldStart(j + 1, n, count) <==> i * count / n == j
  {
    StartBy(j, n, count, i);
    StartBy(j + 1, n, count, i);
    TimesNext(j, n);
    var k := i * count / n;
    FloorTimes(i, n, count);
    TimesNext(k, n);
    hide Times, FoldStart;
    if j < k { TimesMonotone(j + 1, k, n); }
    if k < j { TimesMonotone(k + 1, j, n); }
  }

  predicate CreatedLeq(a: Row, b: Row) {
    a.created < b.created || (a.created == b.created && TextLeq(a.ticker, b.ticker))
  }

  function FoldCount(rows: seq<Row>, requested: nat): nat {
    if requested < |rows| then requested else |rows|
  }

  /** The folds once the first `i` rows are placed. */
  ghost predicate Placed(folds: seq<seq<Row>>, ordered: seq<Row>, i: nat)
    requires folds != [] && i <= |ordered|
  {
    forall j :: 0 <= j < |folds| ==> folds[j] == Run(ordered, |folds|, j, i)
  }

  /** `_temporal_folds`: rows in order of creation and ticker, each appended to the fold its index gives. */
  method ChronologicalFolds(rows: seq<Row>, requested: nat) returns (folds: seq<seq<Row>>)
    ensures |folds| == FoldCount(rows, requested)
    ensures folds != [] ==> Placed(folds, Sort(rows, CreatedLeq), |rows|)
  {
    hide Sort, Run, Placed;
    var ordered := Sort(rows, CreatedLeq);
    var n := |ordered|;
    var count := FoldCount(rows, requested);
    if count == 0 {
      return [];
    }
    folds := seq(count, _ => []);
    NothingPlaced(folds, ordered);
    for i := 0 to n
      invariant |folds| == count && Placed(folds, ordered, i)
    {
      var index := i * count / n;
      IndexInRange(i, n, count);
      var f := if index < count - 1 then index else count - 1;
      OnePlaced(folds, ordered, i, f);
      folds := folds[f := folds[f] + [ordered[i]]];
    }
  }

  lemma NothingPlaced(folds: seq<seq<Row>>, ordered: seq<Row>)
    requires folds != [] && forall j :: 0 <= j < |folds| ==> folds[j] == []
    ensures Placed(folds, ordered, 0)
  {
    hide FoldStart;
  }

  lemma OnePlaced(folds: seq<seq<Row>>, ordered: seq<Row>, i: nat, f: nat)
    requires 0 < |folds| <= |ordered| && i < |ordered| && f < |folds| && f == i * |folds| / |ordered| && Placed(folds, ordered, i)
    ensures Placed(folds[f := folds[f] + [ordered[i]]], ordered, i + 1)
  {
    hide Run;
    forall j | 0 <= j < |folds|
      ensures Run(ordered, |folds|, j, i + 1) == if j == f then folds[j] + [ordered[i]] else folds[j]
    {
      RunNext(ordered, |folds|, j, i);
    }
  }

  lemma IndexInRange(i: nat, n: nat, count: nat)
    requires 0 < count && i < n
    ensures 0 <= i * count / n < count
  {
    var k := i * count / n;
    assert Times(k, n) <= Times(i, count);
    if k >= count {
      TimesMonotone(count, k, n);
      TimesMonotone(i + 1, n, count);
      TimesNext(i, count);
    }
  }

  /** Fold `j` once the first `i` rows are placed. */
  function Run(ordered: seq<Row>, count: nat, j: nat, i: nat): seq<Row>
    requires 0 < count && i <= |ordered|
  {
    var start, end := FoldStart(j, |ordered|, count), FoldStart(j + 1, |ordered|, count);
    if i <= start then [] else if i <= end then ordered[start..i] else if start <= end then ordered[start..end] else []
  }

  lemma RunNext(ordered: seq<Row>, count: nat, j: nat, i: nat)
    requires 0 < count <= |ordered| && j < count && i < |ordered|
    ensures Run(ordered, count, j, i + 1)
         == if i * count / |ordered| == j then Run(ordered, count, j, i) + [ordered[i]] else Run(ordered, count, j, i)
  {
    RowFold(i, |ordered|, count, j);
    StartsInRange(j + 1, |ordered|, count);
    hide FoldStart;
  }

  /** Folds are consecutive runs of the rows, in order, and none is empty: the walk always finds an earliest decision. */
  lemma RunsAreConsecutive(ordered: seq<Row>, count: nat, j: nat)
    requires 0 < count <= |ordered| && j < count
    ensures var n := |ordered|;
            && FoldStart(j, n, count) < FoldStart(j + 1, n, count) <= n
            && FoldStart(0, n, count) == 0 && FoldStart(count, n, count) == n
            && Run(ordered, count, j, n) == ordered[FoldStart(j, n, count)..FoldStart(j + 1, n, count)]
            && Run(ordered, count, j, n) != []
  {
    var n := |ordered|;
    StartsInRange(j + 1, n, count);
    StartBy(0, n, count, 0);
    ZeroTimes(n);
    ZeroTimes(count);
    StartBy(count, n, count, n);
    StartBy(count, n, count, n - 1);
    assert Times(count, n) == Times(n, count);
    TimesNext(n - 1, count);
    hide FoldStart, Times;
  }

  lemma {:induction false} RunsFlat(ordered: seq<Row>, folds: seq<seq<Row>>, count: nat)
    requires 0 < count <= |ordered| && |folds| <= count
    requires forall j :: 0 <= j < |folds| ==> folds[j] == Run(ordered, count, j, |ordered|)
    ensures FoldStart(|folds|, |ordered|, count) <= |ordered|
    ensures Flat(folds) == ordered[..FoldStart(|folds|, |ordered|, count)]
  {
    hide FoldStart, Run;
    RunsAreConsecutive(ordered, count, 0);
    if folds != [] {
      var j := |folds| - 1;
      RunsFlat(ordered, folds[..j], count);
      RunsAreConsecutive(ordered, count, j);
    }
  }

  /** The folds put together are the rows in order of creation and ticker: each row is in exactly one place of one fold. */
  lemma FoldsConserveRows(rows: seq<Row>, requested: nat, folds: seq<seq<Row>>)
    requires requested > 0 && |folds| == FoldCount(rows, requested)
    requires folds != [] ==> Placed(folds, Sort(rows, CreatedLeq), |rows|)
    ensures Flat(folds) == Sort(rows, CreatedLeq) && multiset(Flat(folds)) == multiset(rows)
    ensures Sorted(Flat(folds), CreatedLeq) && NoneEmpty(folds)
  {
    var ordered := Sort(rows, CreatedLeq);
    LinearOrder();
    SortSorted(rows, CreatedLeq);
    SortPermutes(rows, CreatedLeq);
    hide Sort, FoldStart, Run, Sorted;
    if rows == [] {
      assert ordered == [];
    } else {
      RunsFlat(ordered, folds, |folds|);
      RunsAreConsecutive(ordered, |folds|, 0);
      assert ordered[..|ordered|] == ordered;
      forall j | 0 <= j < |folds| ensures folds[j] != [] {
        RunsAreConsecutive(ordered, |folds|, j);
      }
    }
  }
}
