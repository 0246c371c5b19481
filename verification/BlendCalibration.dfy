/** The research blend of model and market, fitted only on what was known (`autonomy/crypto_horizon_evidence.py`). */
module BlendCalibration {
  import opened Options
  import opened TextOrder
  import opened StableSorting

  /** A timestamp field as read. */
  datatype Stamp = Missing | Malformed | At(time: int)

  datatype Row = Row(
    id: string, decided: Stamp, settled: Stamp, model: Option<real>, market: Option<real>, outcome: Option<real>)

  datatype Exclusions = Exclusions(
    noDecision: nat, noSettlement: nat, badDecision: nat, badSettlement: nat, notAfter: nat)

  const NONE_EXCLUDED := Exclusions(0, 0, 0, 0, 0)

  predicate Complete(r: Row) {
    r.model.Some? && r.market.Some? && r.outcome.Some?
  }

  /** Both timestamps usable, and the outcome known strictly after the decision. */
  predicate Causal(r: Row) {
    r.decided.At? && r.settled.At? && r.decided.time < r.settled.time
  }

  function Excluded(e: Exclusions, r: Row): Exclusions {
    if r.decided.Missing? then e.(noDecision := e.noDecision + 1)
    else if r.settled.Missing? then e.(noSettlement := e.noSettlement + 1)
    else if r.decided.Malformed? then e.(badDecision := e.badDecision + 1)
    else if r.settled.Malformed? then e.(badSettlement := e.badSettlement + 1)
    else if r.settled.time <= r.decided.time then e.(notAfter := e.notAfter + 1)
    else e
  }

  function Exclude(rows: seq<Row>): Exclusions {
    if rows == [] then NONE_EXCLUDED else Excluded(Exclude(rows[..|rows| - 1]), rows[|rows| - 1])
  }

  function IsComplete(): Row -> bool { (r: Row) => Complete(r) }

  function IsCausal(): Row -> bool { (r: Row) => Causal(r) }

  function Time(s: Stamp): int { if s.At? then s.time else 0 }

  predicate Sooner(a: Row, b: Row) {
    Time(a.decided) < Time(b.decided) || (Time(a.decided) == Time(b.decided) && TextLeq(a.id, b.id))
  }

  /** The usable rows in decision order. */
  function Settled(rows: seq<Row>): seq<Row> {
    Sort(Filter(IsCausal(), Filter(IsComplete(), rows)), Sooner)
  }

  /** `_timestamp_valid_settled_rows` */
  method TimestampValid(rows: seq<Row>) returns (valid: seq<Row>, exclusions: Exclusions)
    ensures valid == Sort(Filter(IsCausal(), rows), Sooner) && exclusions == Exclude(rows)
  {
    valid, exclusions := [], NONE_EXCLUDED;
    for i := 0 to |rows|
      invariant valid == Filter(IsCausal(), rows[..i]) && exclusions == Exclude(rows[..i])
    {
      assert rows[..i + 1][..i] == rows[..i];
      var r := rows[i];
      if r.decided.Missing? {
        exclusions := exclusions.(noDecision := exclusions.noDecision + 1);
      } else if r.settled.Missing? {
        exclusions := exclusions.(noSettlement := exclusions.noSettlement + 1);
      } else if r.decided.Malformed? {
        exclusions := exclusions.(badDecision := exclusions.badDecision + 1);
      } else if r.settled.Malformed? {
        exclusions := exclusions.(badSettlement := exclusions.badSettlement + 1);
      } else if r.settled.time <= r.decided.time {
        exclusions := exclusions.(notAfter := exclusions.notAfter + 1);
      } else {
        valid := valid + [r];
      }
    }
    assert rows[..|rows|] == rows;
    valid := Sort(valid, Sooner);
  }

  // ----- fitting the share -----

  const STEPS: nat := 20

  /** The candidate shares: 0, 0.05, ..., 1. */
  function Share(k: nat): real { k as real * 5.0 / 100.0 }

  function Mix(market: real, model: real, share: real): real {
    market + share * (model - market)
  }

  function Blend(r: Row, share: real): real {
    Mix(r.market.GetOr(0.0), r.model.GetOr(0.0), share)
  }

  function SquaredError(share: real): Row -> real {
    (r: Row) => (Blend(r, share) - r.outcome.GetOr(0.0)) * (Blend(r, share) - r.outcome.GetOr(0.0))
  }

  function Loss(usable: seq<Row>, share: real): real
    requires usable != []
  {
    RealSum(SquaredError(share), usable) / |usable| as real
  }

  /** The first of the candidates `0..=k` with the least loss. */
  function BestStep(usable: seq<Row>, k: nat): (b: nat)
    requires usable != []
    ensures b <= k
  {
    if k == 0 then 0
    else
      var b := BestStep(usable, k - 1);
      if Loss(usable, Share(k)) < Loss(usable, Share(b)) then k else b
  }

  function Fitted(rows: seq<Row>): real {
    var usable := Filter(IsComplete(), rows);
    if usable == [] then 0.0 else Share(BestStep(usable, STEPS))
  }

  /** `_fit_market_blend` */
  method FitMarketBlend(rows: seq<Row>) returns (share: real)
    ensures share == Fitted(rows)
  {
    hide Loss, Share;
    var usable := Filter(IsComplete(), rows);
    if usable == [] {
      return 0.0;
    }
    var best, least := 0, Loss(usable, Share(0));
    for k := 1 to STEPS + 1
      invariant best == BestStep(usable, k - 1) && least == Loss(usable, Share(best))
    {
      var loss := Loss(usable, Share(k));
      if loss < least {
        best, least := k, loss;
      }
    }
    share := Share(best);
  }

  lemma {:induction false} BestStepIsBest(usable: seq<Row>, k: nat, j: nat)
    requires usable != [] && j <= k
    ensures Loss(usable, Share(BestStep(usable, k))) <= Loss(usable, Share(j))
    ensures j < BestStep(usable, k) ==> Loss(usable, Share(BestStep(usable, k))) < Loss(usable, Share(j))
  {
    hide Loss, Share;
    if k > 0 {
      if j < k {
        BestStepIsBest(usable, k - 1, j);
      } else {
        BestStepIsBest(usable, k - 1, BestStep(usable, k - 1));
      }
    }
  }

  /** No candidate share fits the rows better; of equally good ones, the one nearest the market is taken. */
  lemma FitIsBest(rows: seq<Row>, j: nat)
    requires j <= STEPS && Filter(IsComplete(), rows) != []
    ensures var usable := Filter(IsComplete(), rows);
            Loss(usable, Fitted(rows)) <= Loss(usable, Share(j))
            && (Share(j) < Fitted(rows) ==> Loss(usable, Fitted(rows)) < Loss(usable, Share(j)))
  {
    var usable := Filter(IsComplete(), rows);
    BestStepIsBest(usable, STEPS, j);
    hide Loss, Filter;
    if Share(j) < Fitted(rows) {
      assert j < BestStep(usable, STEPS);
    }
  }

  // ----- the expanding window -----

  /** What may train for a decision at `t`: decided and settled strictly before it. */
  function TrainsFor(t: int): Row -> bool { (r: Row) => Time(r.decided) < t && Time(r.settled) < t }

  function WithheldFrom(t: int): Row -> bool { (r: Row) => Time(r.decided) < t && Time(r.settled) >= t }

  function Training(rows: seq<Row>, t: int): seq<Row> {
    Filter(TrainsFor(t), Settled(rows))
  }

  function Clamped(p: real): real {
    if p < 0.005 then 0.005 else if p > 0.995 then 0.995 else p
  }

  function Required(minTrain: int): int { if minTrain < 1 then 1 else minTrain }

  /** The blended probability a training set gives; None below the training minimum. */
  function Blended(training: seq<Row>, model: Option<real>, market: Option<real>, minTrain: int): Option<real> {
    if |training| < Required(minTrain) then None
    else
      Some(Clamped(Mix(market.GetOr(0.0), model.GetOr(0.0), Fitted(training))))
  }

  /** What a decision at `t` over this model and market gets from the rows. */
  function Calibrated(rows: seq<Row>, t: int, model: Option<real>, market: Option<real>, minTrain: int): Option<real> {
    Blended(Training(rows, t), model, market, minTrain)
  }

  datatype Scored = Scored(test: Row, probability: real, brier: real, marketBrier: real)

  datatype Report = Report(forward: seq<Scored>, sizes: seq<nat>, skipped: nat, withheld: nat)

  function Square(x: real): real { x * x }

  function ScoredRow(test: Row, p: real): Scored {
    var outcome := test.outcome.GetOr(0.0);
    Scored(test, p, Square(p - outcome), Square(test.market.GetOr(0.0) - outcome))
  }

  /** What one test adds to a report, given what may train for it and how many rows are withheld from it. */
  function Tested(before: Report, test: Row, training: seq<Row>, withheld: nat, minTrain: int): Report {
    match Blended(training, test.model, test.market, minTrain)
    case None => Report(before.forward, before.sizes, before.skipped + 1, before.withheld + withheld)
    case Some(p) =>
      Report(before.forward + [ScoredRow(test, p)], before.sizes + [|training|], before.skipped, before.withheld + withheld)
  }

  /** The report after the first `n` tests in decision order. */
  function ReportUpTo(rows: seq<Row>, minTrain: int, n: nat): Report
    requires n <= |Settled(rows)|
  {
    if n == 0 then Report([], [], 0, 0)
    else
      var test := Settled(rows)[n - 1];
      var t := Time(test.decided);
      Tested(ReportUpTo(rows, minTrain, n - 1), test, Training(rows, t), |Filter(WithheldFrom(t), Settled(rows))|, minTrain)
  }

  lemma SettledIs(rows: seq<Row>)
    ensures Settled(rows) == Sort(Filter(IsCausal(), Filter(IsComplete(), rows)), Sooner)
  {
    hide Sort, Filter;
  }

  lemma ReportStart(rows: seq<Row>, minTrain: int)
    ensures ReportUpTo(rows, minTrain, 0) == Report([], [], 0, 0)
  {
  }

  lemma ReportNext(rows: seq<Row>, minTrain: int, n: nat)
    requires n < |Settled(rows)|
    ensures var test := Settled(rows)[n];
            var t := Time(test.decided);
            ReportUpTo(rows, minTrain, n + 1)
            == Tested(ReportUpTo(rows, minTrain, n), test, Filter(TrainsFor(t), Settled(rows)),
                      |Filter(WithheldFrom(t), Settled(rows))|, minTrain)
  {
    hide Tested, Settled, Filter;
  }

  /** `expanding_window_calibration` */
  method ExpandingWindow(rows: seq<Row>, minTrain: int) returns (report: Report)
    ensures report == ReportUpTo(rows, minTrain, |Settled(rows)|)
  {
    hide *;
    var settled, _ := TimestampValid(Filter(IsComplete(), rows));
    SettledIs(rows);
    report := Report([], [], 0, 0);
    ReportStart(rows, minTrain);
    for i := 0 to |settled|
      invariant report == ReportUpTo(rows, minTrain, i)
    {
      var test := settled[i];
      var t := Time(test.decided);
      var training := Filter(TrainsFor(t), settled);
      var withheld := |Filter(WithheldFrom(t), settled)|;
      ReportNext(rows, minTrain, i);
      report := TestOne(report, test, training, withheld, minTrain);
    }
  }

  /** The body of the loop over the tests. */
  method TestOne(before: Report, test: Row, training: seq<Row>, withheld: nat, minTrain: int) returns (report: Report)
    ensures report == Tested(before, test, training, withheld, minTrain)
  {
    hide Fitted, Square, Clamped, Mix;
    var forward, sizes, skipped := before.forward, before.sizes, before.skipped;
    if |training| < Required(minTrain) {
      skipped := skipped + 1;
    } else {
      sizes := sizes + [|training|];
      var share := FitMarketBlend(training);
      var market, model := test.market.GetOr(0.0), test.model.GetOr(0.0);
      var calibrated := Clamped(Mix(market, model, share));
      var outcome := test.outcome.GetOr(0.0);
      forward := forward + [Scored(test, calibrated, Square(calibrated - outcome), Square(market - outcome))];
    }
    report := Report(forward, sizes, skipped, before.withheld + withheld);
  }

  // ----- no look-ahead -----

  /** The same rows but for outcomes, which may differ, appear or vanish only where they were not settled before `t`. */
  ghost predicate SameUpTo(rows: seq<Row>, others: seq<Row>, t: int) {
    && |rows| == |others|
    && forall k :: 0 <= k < |rows| ==> rows[k].(outcome := None) == others[k].(outcome := None)
                                       && (rows[k] != others[k] ==> Causal(rows[k]) ==> rows[k].settled.time >= t)
  }

  function Usable(t: int): Row -> bool { (r: Row) => Complete(r) && Causal(r) && Time(r.decided) < t && Time(r.settled) < t }

  lemma SoonerIsPreorder()
    ensures TotalPreorder(Sooner)
  {
    LinearOrder();
  }

  /** Sorting aside, a training set is picked row by row. */
  lemma TrainingIsPicked(rows: seq<Row>, t: int)
    ensures Training(rows, t) == Sort(Filter(Usable(t), rows), Sooner)
  {
    SoonerIsPreorder();
    var causal := Filter(IsCausal(), Filter(IsComplete(), rows));
    FilterSort(TrainsFor(t), causal, Sooner);
    var both := (r: Row) => IsComplete()(r) && IsCausal()(r);
    FilterTwice(IsComplete(), IsCausal(), both, rows);
    FilterTwice(both, TrainsFor(t), Usable(t), rows);
  }

  lemma {:induction false} PickedAlike(rows: seq<Row>, others: seq<Row>, t: int)
    requires SameUpTo(rows, others, t)
    ensures Filter(Usable(t), rows) == Filter(Usable(t), others)
  {
    if rows != [] {
      var n := |rows| - 1;
      PickedAlike(rows[..n], others[..n], t);
      assert rows[n].(outcome := None) == others[n].(outcome := None);
      assert rows[n].decided == others[n].decided && rows[n].settled == others[n].settled;
    }
  }

  /**
   Changing, adding or removing outcomes that were not settled strictly before a decision changes neither the share fitted
   for it nor its calibrated probability.
   */
  lemma NoLookAhead(rows: seq<Row>, others: seq<Row>, t: int, model: Option<real>, market: Option<real>, minTrain: int)
    requires SameUpTo(rows, others, t)
    ensures Fitted(Training(rows, t)) == Fitted(Training(others, t))
    ensures Calibrated(rows, t, model, market, minTrain) == Calibrated(others, t, model, market, minTrain)
  {
    hide Training, Fitted, Blended, SameUpTo;
    TrainingAlike(rows, others, t);
  }

  lemma TrainingAlike(rows: seq<Row>, others: seq<Row>, t: int)
    requires SameUpTo(rows, others, t)
    ensures Training(rows, t) == Training(others, t)
  {
    hide Training, Filter, Sort, SameUpTo, Usable;
    TrainingIsPicked(rows, t);
    TrainingIsPicked(others, t);
    PickedAlike(rows, others, t);
  }

  /** And the report holds nothing else: each scored row carries exactly that probability. */
  lemma {:induction false} ReportIsCalibrated(rows: seq<Row>, minTrain: int, n: nat, e: Scored)
    requires n <= |Settled(rows)| && e in ReportUpTo(rows, minTrain, n).forward
    ensures e.test in Settled(rows)
    ensures Calibrated(rows, Time(e.test.decided), e.test.model, e.test.market, minTrain) == Some(e.probability)
    ensures var gap, marketGap := e.probability - e.test.outcome.GetOr(0.0), e.test.market.GetOr(0.0) - e.test.outcome.GetOr(0.0);
            e.brier == gap * gap && e.marketBrier == marketGap * marketGap
  {
    hide Blended, Settled, Training, Filter;
    if n > 0 {
      var before := ReportUpTo(rows, minTrain, n - 1).forward;
      if e in before {
        ReportIsCalibrated(rows, minTrain, n - 1, e);
      }
    }
  }

  /** Every settled row is either scored or skipped for want of training rows. */
  lemma {:induction false} ReportCoversAll(rows: seq<Row>, minTrain: int, n: nat)
    requires n <= |Settled(rows)|
    ensures var r := ReportUpTo(rows, minTrain, n); |r.forward| + r.skipped == n && |r.sizes| == |r.forward|
    ensures forall k :: 0 <= k < |ReportUpTo(rows, minTrain, n).sizes| ==> ReportUpTo(rows, minTrain, n).sizes[k] >= Required(minTrain)
  {
    hide Settled, Filter, Fitted;
    if n > 0 {
      ReportCoversAll(rows, minTrain, n - 1);
    }
  }

  // ----- the rows that count -----

  /** The settled rows are the complete, causal ones, in order of decision and then of id. */
  lemma SettledRows(rows: seq<Row>, r: Row)
    ensures r in Settled(rows) <==>
              && r in rows && r.model.Some? && r.market.Some? && r.outcome.Some?
              && r.decided.At? && r.settled.At? && r.decided.time < r.settled.time
    ensures var settled := Settled(rows);
            forall i, j :: 0 <= i < j < |settled| ==>
              var (a, b) := (Time(settled[i].decided), Time(settled[j].decided));
              a < b || (a == b && TextLeq(settled[i].id, settled[j].id))
  {
    SoonerIsPreorder();
    SortMembers(Filter(IsCausal(), Filter(IsComplete(), rows)), Sooner);
    SortSorted(Filter(IsCausal(), Filter(IsComplete(), rows)), Sooner);
    hide Sort, TotalPreorder;
  }

  /** What trains for a decision at `t`: exactly the complete rows both decided and settled strictly before it. */
  lemma TrainingRows(rows: seq<Row>, t: int, r: Row)
    ensures r in Training(rows, t) <==>
              && r in rows && r.model.Some? && r.market.Some? && r.outcome.Some?
              && r.decided.At? && r.settled.At? && r.decided.time < r.settled.time < t
    ensures |Training(rows, t)| == |Filter(Usable(t), rows)|
  {
    TrainingIsPicked(rows, t);
    SortMembers(Filter(Usable(t), rows), Sooner);
    hide Sort, Training;
  }

  function NoDecision(): Row -> bool { (r: Row) => r.decided == Missing }

  function NoSettlement(): Row -> bool { (r: Row) => r.decided != Missing && r.settled == Missing }

  function BadDecision(): Row -> bool { (r: Row) => r.settled != Missing && r.decided == Malformed }

  function BadSettlement(): Row -> bool { (r: Row) => r.decided.At? && r.settled == Malformed }

  function NotAfter(): Row -> bool { (r: Row) => r.decided.At? && r.settled.At? && r.settled.time <= r.decided.time }

  /** Every row is usable or counted under exactly one reason. */
  lemma {:induction false} ExclusionsCount(rows: seq<Row>)
    ensures var e := Exclude(rows);
            && e.noDecision == |Filter(NoDecision(), rows)| && e.noSettlement == |Filter(NoSettlement(), rows)|
            && e.badDecision == |Filter(BadDecision(), rows)| && e.badSettlement == |Filter(BadSettlement(), rows)|
            && e.notAfter == |Filter(NotAfter(), rows)|
            && |Filter(IsCausal(), rows)| + e.noDecision + e.noSettlement + e.badDecision + e.badSettlement + e.notAfter == |rows|
  {
    if rows != [] {
      ExclusionsCount(rows[..|rows| - 1]);
    }
  }

  // ----- what the fit is -----

  function Lean(): Row -> real {
    (r: Row) => (r.model.GetOr(0.0) - r.market.GetOr(0.0)) * (r.outcome.GetOr(0.0) - r.market.GetOr(0.0))
  }

  function Spread(): Row -> real {
    (r: Row) => (r.model.GetOr(0.0) - r.market.GetOr(0.0)) * (r.model.GetOr(0.0) - r.market.GetOr(0.0))
  }

  function MarketMiss(): Row -> real {
    (r: Row) => (r.market.GetOr(0.0) - r.outcome.GetOr(0.0)) * (r.market.GetOr(0.0) - r.outcome.GetOr(0.0))
  }

  function Parabola(s: real, constant: real, slope: real, square: real): real {
    constant - 2.0 * s * slope + s * s * square
  }

  lemma OneError(r: Row, s: real)
    ensures SquaredError(s)(r) == Parabola(s, MarketMiss()(r), Lean()(r), Spread()(r))
  {
    var d, m := r.model.GetOr(0.0) - r.market.GetOr(0.0), r.market.GetOr(0.0) - r.outcome.GetOr(0.0);
    assert Blend(r, s) - r.outcome.GetOr(0.0) == m + s * d;
    assert (m + s * d) * (m + s * d) == m * m + 2.0 * s * (d * m) + s * s * (d * d);
    assert Lean()(r) == d * (-m) == -(d * m);
  }

  lemma ParabolasAdd(s: real, a: real, b: real, c: real, x: real, y: real, z: real)
    ensures Parabola(s, a + x, b + y, c + z) == Parabola(s, a, b, c) + Parabola(s, x, y, z)
  {
    assert 2.0 * s * (b + y) == 2.0 * s * b + 2.0 * s * y;
    assert s * s * (c + z) == s * s * c + s * s * z;
  }

  /** The squared errors of a share, summed, are a parabola in the share. */
  lemma {:induction false} ErrorIsParabola(usable: seq<Row>, s: real)
    ensures RealSum(SquaredError(s), usable)
            == Parabola(s, RealSum(MarketMiss(), usable), RealSum(Lean(), usable), RealSum(Spread(), usable))
  {
    if usable != [] {
      var front, r := usable[..|usable| - 1], usable[|usable| - 1];
      ErrorIsParabola(front, s);
      OneError(r, s);
      hide Parabola, SquaredError, MarketMiss, Lean, Spread;
      ParabolasAdd(s, RealSum(MarketMiss(), front), RealSum(Lean(), front), RealSum(Spread(), front),
                   MarketMiss()(r), Lean()(r), Spread()(r));
    } else {
      assert Parabola(s, 0.0, 0.0, 0.0) == 0.0;
    }
  }

  function Apart(x: real, y: real): real { if x <= y then y - x else x - y }

  lemma Squares(x: real, y: real)
    ensures (x * x <= y * y) <==> Apart(x, 0.0) <= Apart(y, 0.0)
  {
    var a, b := Apart(x, 0.0), Apart(y, 0.0);
    assert a * a == x * x && b * b == y * y;
    if a <= b {
      Grows(a, b);
    } else {
      GrowsStrictly(b, a);
    }
  }

  lemma Grows(a: real, b: real)
    requires 0.0 <= a <= b
    ensures a * a <= b * b
  {
  }

  lemma GrowsStrictly(a: real, b: real)
    requires 0.0 <= a < b
    ensures a * a < b * b
  {
    var gap := b - a;
    assert b * b == a * a + 2.0 * (gap * a) + gap * gap;
    assert gap * gap > 0.0 && gap * a >= 0.0;
  }

  /** On a parabola opening upward, lower means nearer to the vertex `lean / spread`. */
  lemma LowerIsNearer(spread: real, lean: real, f: real, s: real)
    requires spread > 0.0
    ensures (f * f * spread - 2.0 * f * lean <= s * s * spread - 2.0 * s * lean)
            <==> Apart(spread * f, lean) <= Apart(spread * s, lean)
  {
    var x, y := spread * f - lean, spread * s - lean;
    var p, q := f * f * spread - 2.0 * f * lean, s * s * spread - 2.0 * s * lean;
    Completed(spread, lean, f);
    Completed(spread, lean, s);
    assert spread * p == x * x - lean * lean && spread * q == y * y - lean * lean;
    Squares(x, y);
    ScaledOrder(spread, p, q);
  }

  lemma Completed(spread: real, lean: real, f: real)
    ensures spread * (f * f * spread - 2.0 * f * lean) == (spread * f - lean) * (spread * f - lean) - lean * lean
  {
    var x := spread * f;
    assert spread * (f * f * spread - 2.0 * f * lean) == x * x - 2.0 * x * lean;
  }

  lemma ScaledOrder(k: real, p: real, q: real)
    requires k > 0.0
    ensures p <= q <==> k * p <= k * q
  {
    if p < q {
      assert k * (q - p) > 0.0;
    } else if q < p {
      assert k * (p - q) > 0.0;
    }
  }

  /** How far a share is from `lean / spread`, times `spread`. */
  function Off(share: real, lean: real, spread: real): real {
    Apart(spread * share, lean)
  }

  lemma ParabolaOrder(f: real, s: real, constant: real, slope: real, square: real)
    requires square > 0.0
    ensures Parabola(f, constant, slope, square) <= Parabola(s, constant, slope, square)
            <==> Off(f, slope, square) <= Off(s, slope, square)
  {
    LowerIsNearer(square, slope, f, s);
  }

  lemma QuotientOrder(x: real, y: real, n: real)
    requires n > 0.0
    ensures x / n <= y / n <==> x <= y
  {
    var p, q := x / n, y / n;
    assert p * n == x && q * n == y;
    ScaledOrder(n, p, q);
  }

  lemma LossOrder(usable: seq<Row>, f: real, s: real)
    requires usable != [] && RealSum(Spread(), usable) > 0.0
    ensures var lean, spread := RealSum(Lean(), usable), RealSum(Spread(), usable);
            Loss(usable, f) <= Loss(usable, s) <==> Off(f, lean, spread) <= Off(s, lean, spread)
  {
    ErrorIsParabola(usable, f);
    ErrorIsParabola(usable, s);
    ParabolaOrder(f, s, RealSum(MarketMiss(), usable), RealSum(Lean(), usable), RealSum(Spread(), usable));
    QuotientOrder(RealSum(SquaredError(f), usable), RealSum(SquaredError(s), usable), |usable| as real);
    hide RealSum, Parabola, Off;
  }

  /**
   The fitted share is the grid point nearest to the least-squares share `lean / spread` of model against market, and the
   nearer to the market of two equally near ones; where model and market never differ, it is zero.
   */
  lemma FitIsNearest(rows: seq<Row>, j: nat)
    requires j <= 20
    ensures var usable, f, s := Filter(IsComplete(), rows), Fitted(rows), (5 * j) as real / 100.0;
            var lean, spread := RealSum(Lean(), usable), RealSum(Spread(), usable);
            && (exists k: nat :: k <= 20 && f == (5 * k) as real / 100.0)
            && (spread > 0.0 ==>
                  && Off(f, lean, spread) <= Off(s, lean, spread)
                  && (s < f ==> Off(f, lean, spread) < Off(s, lean, spread)))
            && (spread <= 0.0 ==> f == 0.0)
  {
    var usable := Filter(IsComplete(), rows);
    assert (5 * j) as real / 100.0 == Share(j);
    OnGrid(rows);
    if usable != [] {
      hide Filter, Loss, RealSum, Share, Off;
      if RealSum(Spread(), usable) > 0.0 {
        NearestStep(usable, j);
      } else {
        FlatLoss(usable);
        FlatStep(usable, STEPS);
        assert Share(0) == 0.0 by { ShareZero(); }
      }
    }
  }

  lemma ShareZero()
    ensures Share(0) == 0.0
  {
  }

  lemma NearestStep(usable: seq<Row>, j: nat)
    requires usable != [] && j <= STEPS && RealSum(Spread(), usable) > 0.0
    ensures var lean, spread, f := RealSum(Lean(), usable), RealSum(Spread(), usable), Share(BestStep(usable, STEPS));
            && Off(f, lean, spread) <= Off(Share(j), lean, spread)
            && (Share(j) < f ==> Off(f, lean, spread) < Off(Share(j), lean, spread))
  {
    var f := Share(BestStep(usable, STEPS));
    BestStepIsBest(usable, STEPS, j);
    if Share(j) < f {
      assert j < BestStep(usable, STEPS);
    }
    hide Loss, RealSum, Off, Share, BestStep;
    LossOrder(usable, f, Share(j));
    LossOrder(usable, Share(j), f);
  }

  lemma OnGrid(rows: seq<Row>)
    ensures exists k: nat :: k <= 20 && Fitted(rows) == (5 * k) as real / 100.0
  {
    var usable := Filter(IsComplete(), rows);
    var k := if usable == [] then 0 else BestStep(usable, STEPS);
    hide Filter, BestStep;
    assert Fitted(rows) == (5 * k) as real / 100.0;
  }

  lemma {:induction false} SpreadNonnegative(usable: seq<Row>)
    ensures RealSum(Spread(), usable) >= 0.0
    ensures RealSum(Spread(), usable) <= 0.0 ==> RealSum(Spread(), usable) == 0.0 == RealSum(Lean(), usable)
  {
    if usable != [] {
      var r := usable[|usable| - 1];
      SpreadNonnegative(usable[..|usable| - 1]);
      SquareZero(r.model.GetOr(0.0) - r.market.GetOr(0.0), r.outcome.GetOr(0.0) - r.market.GetOr(0.0));
      hide RealSum;
    }
  }

  lemma SquareZero(x: real, y: real)
    ensures x * x >= 0.0 && (x * x <= 0.0 ==> x * y == 0.0)
  {
    if x > 0.0 {
      assert x * x > 0.0;
    } else if x < 0.0 {
      assert (-x) * (-x) > 0.0;
    }
  }

  /** Where model and market agree on every row, every share fits alike. */
  lemma FlatLoss(usable: seq<Row>)
    requires usable != [] && RealSum(Spread(), usable) <= 0.0
    ensures forall k: nat :: Loss(usable, Share(k)) == Loss(usable, Share(0))
  {
    SpreadNonnegative(usable);
    forall k: nat ensures Loss(usable, Share(k)) == Loss(usable, Share(0)) {
      ErrorIsParabola(usable, Share(k));
      ErrorIsParabola(usable, Share(0));
      hide RealSum, Share;
      FlatParabola(Share(k), RealSum(MarketMiss(), usable));
      FlatParabola(Share(0), RealSum(MarketMiss(), usable));
    }
  }

  lemma FlatParabola(s: real, constant: real)
    ensures Parabola(s, constant, 0.0, 0.0) == constant
  {
  }

  lemma {:induction false} FlatStep(usable: seq<Row>, k: nat)
    requires usable != [] && forall k: nat :: Loss(usable, Share(k)) == Loss(usable, Share(0))
    ensures BestStep(usable, k) == 0
  {
    hide Loss, Share;
    if k > 0 {
      FlatStep(usable, k - 1);
    }
  }

  // ----- what the report says -----

  /** The calibrated probability moves from the market toward the model by the fitted share, kept within [0.005, 0.995]. */
  lemma CalibratedMoves(rows: seq<Row>, t: int, model: real, market: real, minTrain: int, moved: real)
    requires moved == market + Fitted(Training(rows, t)) * (model - market)
    ensures var training := Training(rows, t);
            var p := Calibrated(rows, t, Some(model), Some(market), minTrain);
            && (p.None? <==> |training| < 1 || |training| < minTrain)
            && (p.Some? ==>
                  && (0.005 <= moved <= 0.995 ==> p.value == moved)
                  && (moved < 0.005 ==> p.value == 0.005) && (moved > 0.995 ==> p.value == 0.995))
  {
    CalibratedIs(rows, t, model, market, minTrain);
    MixIs(market, model, Fitted(Training(rows, t)), moved);
    ClampedMeans(moved);
    hide *;
  }

  lemma CalibratedIs(rows: seq<Row>, t: int, model: real, market: real, minTrain: int)
    ensures var training := Training(rows, t);
            Calibrated(rows, t, Some(model), Some(market), minTrain)
            == if |training| < 1 || |training| < minTrain then None else Some(Clamped(Mix(market, model, Fitted(training))))
  {
    hide Training, Fitted, Mix, Clamped;
  }

  lemma ClampedMeans(p: real)
    ensures (0.005 <= p <= 0.995 ==> Clamped(p) == p) && (p < 0.005 ==> Clamped(p) == 0.005) && (p > 0.995 ==> Clamped(p) == 0.995)
  {
  }

  lemma MixIs(market: real, model: real, share: real, moved: real)
    requires moved == market + share * (model - market)
    ensures Mix(market, model, share) == moved
  {
  }

  /** The rows a report scores. */
  function Tests(forward: seq<Scored>): seq<Row> {
    seq(|forward|, k requires 0 <= k < |forward| => forward[k].test)
  }

  function HasTraining(rows: seq<Row>, minTrain: int): Row -> bool {
    (r: Row) => |Training(rows, Time(r.decided))| >= 1 && |Training(rows, Time(r.decided))| >= minTrain
  }

  /** Decided before a row's decision, but not settled by then. */
  function OpenAt(rows: seq<Row>): Row -> int {
    (r: Row) => |Filter((q: Row) => Time(q.decided) < Time(r.decided) <= Time(q.settled), Settled(rows))|
  }

  lemma WithheldCount(rows: seq<Row>, r: Row)
    ensures |Filter(WithheldFrom(Time(r.decided)), Settled(rows))| == OpenAt(rows)(r)
  {
    FilterSame(WithheldFrom(Time(r.decided)), (q: Row) => Time(q.decided) < Time(r.decided) <= Time(q.settled), Settled(rows));
    hide Filter, Settled;
  }

  lemma TestedIs(rows: seq<Row>, before: Report, test: Row, withheld: nat, minTrain: int)
    ensures var after := Tested(before, test, Training(rows, Time(test.decided)), withheld, minTrain);
            && after.withheld == before.withheld + withheld
            && (HasTraining(rows, minTrain)(test) ==>
                  && Tests(after.forward) == Tests(before.forward) + [test]
                  && after.sizes == before.sizes + [|Training(rows, Time(test.decided))|])
            && (!HasTraining(rows, minTrain)(test) ==> after.forward == before.forward && after.sizes == before.sizes)
  {
    hide Training, Fitted, Clamped, Mix, Square;
  }

  /** Test by test, how many rows train for it. */
  ghost predicate SizesAre(sizes: seq<nat>, rows: seq<Row>, tests: seq<Row>) {
    && |sizes| == |tests|
    && forall k :: 0 <= k < |tests| ==> sizes[k] == |Training(rows, Time(tests[k].decided))|
  }

  lemma SizesNext(sizes: seq<nat>, rows: seq<Row>, tests: seq<Row>, test: Row)
    requires SizesAre(sizes, rows, tests)
    ensures SizesAre(sizes + [|Training(rows, Time(test.decided))|], rows, tests + [test])
  {
    hide Training, Time;
  }

  /** What a report over some tests should say. */
  ghost predicate Reports(report: Report, rows: seq<Row>, minTrain: int, tests: seq<Row>) {
    var scored := Filter(HasTraining(rows, minTrain), tests);
    && Tests(report.forward) == scored && SizesAre(report.sizes, rows, scored)
    && report.withheld == Sum(OpenAt(rows), tests)
  }

  lemma ReportsNext(rows: seq<Row>, minTrain: int, before: Report, tests: seq<Row>, test: Row)
    requires Reports(before, rows, minTrain, tests)
    ensures Reports(Tested(before, test, Training(rows, Time(test.decided)), OpenAt(rows)(test), minTrain),
                    rows, minTrain, tests + [test])
  {
    FilterSnoc(HasTraining(rows, minTrain), tests, test);
    SumSnoc(OpenAt(rows), tests, test);
    TestedIs(rows, before, test, OpenAt(rows)(test), minTrain);
    SizesNext(before.sizes, rows, Filter(HasTraining(rows, minTrain), tests), test);
    hide Filter, Sum, Training, Tested, HasTraining, OpenAt, Tests, SizesAre, Time;
  }

  lemma NothingReported(rows: seq<Row>, minTrain: int)
    ensures Settled(rows)[..0] == [] && Reports(ReportUpTo(rows, minTrain, 0), rows, minTrain, [])
  {
    hide Settled, HasTraining, OpenAt;
  }

  lemma ReportStep(rows: seq<Row>, minTrain: int, n: nat)
    requires 0 < n <= |Settled(rows)|
    ensures var test := Settled(rows)[n - 1];
            ReportUpTo(rows, minTrain, n)
            == Tested(ReportUpTo(rows, minTrain, n - 1), test, Training(rows, Time(test.decided)), OpenAt(rows)(test), minTrain)
  {
    WithheldCount(rows, Settled(rows)[n - 1]);
    hide Settled, Tested, Training, Filter, OpenAt, WithheldFrom;
  }

  /**
   The report scores exactly the settled rows that have enough training rows, in decision order, gives the size of each
   training set, and counts the rows withheld from each decision because they had not settled by then.
   */
  lemma {:induction false} ReportIs(rows: seq<Row>, minTrain: int, n: nat)
    requires n <= |Settled(rows)|
    ensures Reports(ReportUpTo(rows, minTrain, n), rows, minTrain, Settled(rows)[..n])
  {
    if n == 0 {
      NothingReported(rows, minTrain);
      hide *;
    } else {
      var settled := Settled(rows);
      ReportIs(rows, minTrain, n - 1);
      TakeNext(settled, n);
      ReportStep(rows, minTrain, n);
      hide *;
      ReportsNext(rows, minTrain, ReportUpTo(rows, minTrain, n - 1), settled[..n - 1], settled[n - 1]);
    }
  }
}
