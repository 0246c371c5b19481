/**
 The recalibration gate and the validator that guards the weight write (`autonomy/backtest.py`):
 the gate scores candidate and incumbent weights on the holdout of `RecalPartition` and issues a receipt.
 */
module RecalReceipt {
  import opened Options
  import opened TextOrder
  import opened StableSorting
  import opened Rounding
  import opened Percentiles
  import opened TimeBlocks
  import opened RecalPartition

  const MIN_SAMPLES: nat := 200
  const MOST_SAMPLES: nat := 1000
  const MAX_DRAWS: nat := 2_000_000
  const MAX_CLUSTERS: nat := MAX_DRAWS / MIN_SAMPLES

  const MODE := "held_out_research_challenger"
  const AUTHORITY := "weight_recalibration_only"
  const SEED := "recal-oos-paired-event-cluster-v1"
  const METHOD := "paired_equal_event_cluster_brier_improvement_percentile_bootstrap_95_v1"
  const UNIT := "equal_weight_event_cluster_mean"
  const IDENTITY_METHOD := "autonomy.correlation.group_key_v1"
  const SPLIT_METHOD := "chronological_settlement_intervals_whole_event_cluster_time_blocks_v1"

  datatype Status = OK | SKIPPED | INVALID | ERROR

  datatype Why =
    | NoReason | InvalidConfiguration | Unsplit(partition: Reason) | NoCandidateWeights | CohortMismatch
    | NothingScorable | TooFewScorable | TooFewScorableClusters | BootstrapFailed | LowerBoundNotPositive

  datatype PairedInterval = PairedInterval(
    mean: real, lower: real, upper: real, confidence: real, method_: string, unit_: string,
    clusters: int, resamples: int, seed: string, maxDraws: int)

  datatype Evidence = Evidence(
    holdoutMarkets: int, minHoldout: int, trainMarkets: int, holdoutClusters: int, minClusters: int, trainClusters: int,
    partitionClusters: int, overlap: int, candidate: real, incumbent: real, delta: real, improvement: real,
    minImprovement: real, interval: PairedInterval, identityComplete: bool, atomicSplit: bool,
    identityMethod: string, splitMethod: string)

  /** `evidence` is None where the scored fields are missing. */
  datatype Receipt = Receipt(
    status: Status, reason: Why, adopted: bool, verified: bool, mode: string, authority: string,
    execution: bool, capital: bool, evidence: Option<Evidence>)

  // ----- the validator -----

  function Abs(x: real): real { if x < 0.0 then -x else x }

  /** `math.isclose(a, b, abs_tol=tolerance)`, whose relative tolerance stays at its default. */
  predicate IsClose(a: real, b: real, tolerance: real) {
    Abs(a - b) <= tolerance || Abs(a - b) <= 0.000000001 * Abs(a) || Abs(a - b) <= 0.000000001 * Abs(b)
  }

  function Resamples(clusters: int): int
    requires clusters > 0
  {
    var affordable := MAX_DRAWS / clusters;
    var wanted := if affordable < MOST_SAMPLES then affordable else MOST_SAMPLES;
    if wanted > MIN_SAMPLES then wanted else MIN_SAMPLES
  }

  predicate HeaderValid(r: Receipt) {
    r.status == OK && r.adopted && r.verified && r.mode == MODE && r.authority == AUTHORITY && !r.execution && !r.capital
  }

  predicate CountsValid(e: Evidence) {
    && e.minHoldout > 0 && e.holdoutMarkets >= e.minHoldout && e.trainMarkets > 0
    && e.minClusters > 0 && e.holdoutClusters >= e.minClusters && e.holdoutClusters <= e.holdoutMarkets
    && e.holdoutClusters <= MAX_CLUSTERS && e.partitionClusters >= e.holdoutClusters && e.trainClusters > 0 && e.overlap == 0
  }

  predicate IntervalValid(i: PairedInterval, clusters: int) {
    && i.clusters == clusters && i.method_ == METHOD && i.unit_ == UNIT && i.seed == SEED
    && IsClose(i.confidence, 0.95, 0.000000000001) && i.maxDraws == MAX_DRAWS
    && (clusters == 1 ==> i.resamples == 0)
    && (clusters > 1 ==> i.resamples == Resamples(clusters))
  }

  predicate ScoresValid(e: Evidence) {
    var least := if e.minImprovement > 0.0 then e.minImprovement else 0.0;
    && e.candidate < e.incumbent && e.improvement > least && e.interval.lower > least && e.interval.upper >= e.interval.lower
    && IsClose(e.delta, e.candidate - e.incumbent, 0.000000001)
    && IsClose(e.improvement, e.incumbent - e.candidate, 0.000000001)
    && IsClose(e.interval.mean, e.improvement, 0.000000001)
  }

  /** `_recal_oos_adoption_valid` */
  predicate AdoptionValid(r: Receipt) {
    && HeaderValid(r) && r.evidence.Some?
    && var e := r.evidence.value;
       CountsValid(e) && IntervalValid(e.interval, e.holdoutClusters) && ScoresValid(e)
       && e.identityComplete && e.atomicSplit && e.identityMethod == IDENTITY_METHOD && e.splitMethod == SPLIT_METHOD
  }

  // ----- scoring the holdout -----

  /** A market's Brier score under some weights; None where its signals or the weights cannot be used. */
  type Scorer = string -> Option<real>

  /** What the three per-cluster dictionaries hold for one cluster. */
  datatype Group = Group(cluster: string, candidate: seq<real>, incumbent: seq<real>, improvement: seq<real>)

  function FindGroup(groups: seq<Group>, cluster: string): (k: nat)
    ensures k <= |groups|
    ensures k < |groups| ==> groups[k].cluster == cluster
    ensures k == |groups| ==> forall j :: 0 <= j < |groups| ==> groups[j].cluster != cluster
  {
    if groups == [] then 0
    else
      var k := FindGroup(groups[..|groups| - 1], cluster);
      if k < |groups| - 1 || groups[|groups| - 1].cluster == cluster then k else |groups|
  }

  function Note(groups: seq<Group>, cluster: string, candidate: real, incumbent: real): seq<Group> {
    var k := FindGroup(groups, cluster);
    if k < |groups| then
      var g := groups[k];
      groups[k := Group(cluster, g.candidate + [candidate], g.incumbent + [incumbent], g.improvement + [incumbent - candidate])]
    else
      groups + [Group(cluster, [candidate], [incumbent], [incumbent - candidate])]
  }

  predicate Both(m: Market, candidate: Scorer, incumbent: Scorer) {
    candidate(m.ticker).Some? && incumbent(m.ticker).Some?
  }

  function GroupsOf(holdout: seq<Market>, candidate: Scorer, incumbent: Scorer): seq<Group> {
    if holdout == [] then []
    else
      var groups, m := GroupsOf(holdout[..|holdout| - 1], candidate, incumbent), holdout[|holdout| - 1];
      if Both(m, candidate, incumbent)
      then Note(groups, m.cluster.GetOr(""), candidate(m.ticker).value, incumbent(m.ticker).value)
      else groups
  }

  /** Markets that only one of the two weight vectors can score. */
  function Mismatches(holdout: seq<Market>, candidate: Scorer, incumbent: Scorer): nat {
    if holdout == [] then 0
    else
      var m := holdout[|holdout| - 1];
      Mismatches(holdout[..|holdout| - 1], candidate, incumbent)
      + if candidate(m.ticker).Some? != incumbent(m.ticker).Some? then 1 else 0
  }

  function Size(): Group -> int { (g: Group) => |g.improvement| }

  function Scored(groups: seq<Group>): int { Sum(Size(), groups) }

  predicate GroupLeq(a: Group, b: Group) { TextLeq(a.cluster, b.cluster) }

  function ByName(groups: seq<Group>): seq<Group> {
    Sort(groups, GroupLeq)
  }

  function CandidateMeans(groups: seq<Group>): seq<real> {
    seq(|groups|, k requires 0 <= k < |groups| => Mean(groups[k].candidate))
  }

  function IncumbentMeans(groups: seq<Group>): seq<real> {
    seq(|groups|, k requires 0 <= k < |groups| => Mean(groups[k].incumbent))
  }

  function ImprovementMeans(groups: seq<Group>): seq<real> {
    seq(|groups|, k requires 0 <= k < |groups| => Mean(groups[k].improvement))
  }

  function Round10(x: real): real { RoundTo(x, 10000000000.0) }

  // ----- the paired bootstrap -----

  type Stream = nat -> nat

  function Drawn(means: seq<real>, stream: Stream, from: nat, count: nat): seq<real>
    requires means != []
  {
    seq(count, j requires 0 <= j < count => means[stream(from + j) % |means|])
  }

  function Samples(means: seq<real>, stream: Stream, count: nat): (r: seq<real>)
    requires means != []
    ensures |r| == count
  {
    seq(count, i requires 0 <= i < count => Mean(Drawn(means, stream, i * |means|, |means|)))
  }

  function Described(mean: real, lower: real, upper: real, clusters: nat, resamples: int): PairedInterval {
    PairedInterval(Round10(mean), Round10(lower), Round10(upper), 0.95, METHOD, UNIT, clusters, resamples, SEED, MAX_DRAWS)
  }

  /** `_recal_paired_cluster_improvement_ci` on the means of the named clusters. */
  function PairedCi(means: seq<real>, stream: Stream): Option<PairedInterval> {
    if means == [] || |means| > MAX_CLUSTERS then None
    else if |means| == 1 then Some(Described(Mean(means), Mean(means), Mean(means), 1, 0))
    else
      var samples := Samples(means, stream, Resamples(|means|));
      Some(Described(Mean(means), Percentile(samples, 0.025), Percentile(samples, 0.975), |means|, Resamples(|means|)))
  }

  method PairedImprovementCi(means: seq<real>, stream: Stream) returns (ci: Option<PairedInterval>)
    ensures ci == PairedCi(means, stream)
  {
    if means == [] || |means| > MAX_CLUSTERS {
      return None;
    }
    var observed := Mean(means);
    if |means| == 1 {
      return Some(Described(observed, observed, observed, 1, 0));
    }
    hide Mean, Percentile, Described;
    var samples: seq<real> := [];
    var draw: nat := 0;
    for i := 0 to Resamples(|means|)
      invariant draw == i * |means| && samples == Samples(means, stream, i)
    {
      var drawn: seq<real> := [];
      for j := 0 to |means|
        invariant drawn == Drawn(means, stream, draw, j)
      {
        drawn := drawn + [means[stream(draw + j) % |means|]];
      }
      samples := samples + [Mean(drawn)];
      draw := draw + |means|;
    }
    return Some(Described(observed, Percentile(samples, 0.025), Percentile(samples, 0.975), |means|, Resamples(|means|)));
  }

  // ----- the gate -----

  function Held(holdout: set<string>): Market -> bool { (m: Market) => m.ticker in holdout }

  predicate TickerLeq(a: Market, b: Market) { TextLeq(a.ticker, b.ticker) }

  /** The holdout markets in ticker order. */
  function HoldoutList(markets: seq<Market>, holdout: set<string>): seq<Market> {
    Sort(Filter(Held(holdout), markets), TickerLeq)
  }

  function Refused(status: Status, reason: Why): Receipt {
    Receipt(status, reason, false, false, MODE, AUTHORITY, false, false, None)
  }

  function Judged(groups: seq<Group>, interval: PairedInterval, p: Partition, c: Config): Receipt
    requires p.Ok?
  {
    var candidate, incumbent := Round10(Mean(CandidateMeans(ByName(groups)))), Round10(Mean(IncumbentMeans(ByName(groups))));
    var delta, improvement := Round10(candidate - incumbent), Round10(incumbent - candidate);
    var adopted := improvement > 0.0 && interval.lower > 0.0;
    Receipt(OK, if adopted then NoReason else LowerBoundNotPositive, adopted, adopted, MODE, AUTHORITY, false, false,
      Some(Evidence(Scored(groups), c.minHoldout, |p.train|, |groups|, c.minClusters, |p.trainClusters|, |p.holdoutClusters|, 0,
                    candidate, incumbent, delta, improvement, 0.0, interval, true, true, IDENTITY_METHOD, SPLIT_METHOD)))
  }

  function Assessed(groups: seq<Group>, mismatches: nat, p: Partition, c: Config, stream: Stream): Receipt
    requires p.Ok?
  {
    if mismatches > 0 then Refused(SKIPPED, CohortMismatch)
    else if Scored(groups) == 0 then Refused(SKIPPED, NothingScorable)
    else if Scored(groups) < c.minHoldout then Refused(SKIPPED, TooFewScorable)
    else if |groups| < c.minClusters then Refused(SKIPPED, TooFewScorableClusters)
    else
      match PairedCi(ImprovementMeans(ByName(groups)), stream)
      case None => Refused(ERROR, BootstrapFailed)
      case Some(interval) => Judged(groups, interval, p, c)
  }

  function PartitionStatus(p: Partition): Status
    requires !p.Ok?
  {
    match p case Skipped(_) => SKIPPED case Invalid(_) => INVALID case Error(_) => ERROR
  }

  /** The gate's receipt; `trained` gives the candidate scorer of some training tickers, if any weights come out. */
  function GateReceipt(
    markets: seq<Market>, trained: set<string> -> Option<Scorer>, incumbent: Scorer, c: Config, stream: Stream): Receipt
  {
    if !ValidConfig(c) then Refused(INVALID, InvalidConfiguration)
    else
      var p := PartitionOf(markets, c);
      if !p.Ok? then Refused(PartitionStatus(p), Unsplit(p.reason))
      else
        match trained(p.train)
        case None => Refused(SKIPPED, NoCandidateWeights)
        case Some(candidate) =>
          var holdout := HoldoutList(markets, p.holdout);
          Assessed(GroupsOf(holdout, candidate, incumbent), Mismatches(holdout, candidate, incumbent), p, c, stream)
  }

  /** The loop over the holdout tickers. */
  method ScoreHoldout(holdout: seq<Market>, candidate: Scorer, incumbent: Scorer) returns (groups: seq<Group>, mismatches: nat)
    ensures groups == GroupsOf(holdout, candidate, incumbent)
    ensures mismatches == Mismatches(holdout, candidate, incumbent)
  {
    groups, mismatches := [], 0;
    hide Note;
    for i := 0 to |holdout|
      invariant groups == GroupsOf(holdout[..i], candidate, incumbent)
      invariant mismatches == Mismatches(holdout[..i], candidate, incumbent)
    {
      assert holdout[..i + 1][..i] == holdout[..i];
      var m := holdout[i];
      var mine, theirs := candidate(m.ticker), incumbent(m.ticker);
      if mine.Some? && theirs.Some? {
        groups := Note(groups, m.cluster.GetOr(""), mine.value, theirs.value);
      } else if mine.Some? || theirs.Some? {
        mismatches := mismatches + 1;
      }
    }
    assert holdout[..|holdout|] == holdout;
  }

  /** `_recal_oos_gate` */
  method RecalGate(
    markets: seq<Market>, trained: set<string> -> Option<Scorer>, incumbent: Scorer, c: Config, stream: Stream)
    returns (r: Receipt)
    ensures r == GateReceipt(markets, trained, incumbent, c, stream)
  {
    hide PartitionOf, HoldoutList, GroupsOf, Mismatches, Assessed, ValidConfig;
    if !ValidConfig(c) {
      return Refused(INVALID, InvalidConfiguration);
    }
    var p := ClusterAtomicPartition(markets, c);
    if !p.Ok? {
      return Refused(PartitionStatus(p), Unsplit(p.reason));
    }
    var weights := trained(p.train);
    if weights.None? {
      return Refused(SKIPPED, NoCandidateWeights);
    }
    var groups, mismatches := ScoreHoldout(HoldoutList(markets, p.holdout), weights.value, incumbent);
    r := Assess(groups, mismatches, p, c, stream);
  }

  method Assess(groups: seq<Group>, mismatches: nat, p: Partition, c: Config, stream: Stream) returns (r: Receipt)
    requires p.Ok?
    ensures r == Assessed(groups, mismatches, p, c, stream)
  {
    hide PairedCi, Judged, Scored, ImprovementMeans, ByName;
    if mismatches > 0 {
      return Refused(SKIPPED, CohortMismatch);
    }
    if Scored(groups) == 0 {
      return Refused(SKIPPED, NothingScorable);
    }
    if Scored(groups) < c.minHoldout {
      return Refused(SKIPPED, TooFewScorable);
    }
    if |groups| < c.minClusters {
      return Refused(SKIPPED, TooFewScorableClusters);
    }
    var interval := PairedImprovementCi(ImprovementMeans(ByName(groups)), stream);
    if interval.None? {
      return Refused(ERROR, BootstrapFailed);
    }
    r := Judged(groups, interval.value, p, c);
  }

  // ----- the three tables agree -----

  /** The three lists of a cluster belong to the same markets. */
  ghost predicate Paired(g: Group) {
    && g.improvement != [] && |g.candidate| == |g.improvement| == |g.incumbent|
    && forall k :: 0 <= k < |g.improvement| ==> g.improvement[k] == g.incumbent[k] - g.candidate[k]
  }

  ghost predicate AllPaired(groups: seq<Group>) {
    forall g {:trigger g in groups} :: g in groups ==> Paired(g)
  }

  ghost predicate OnePerCluster(groups: seq<Group>) {
    forall i, j :: 0 <= i < j < |groups| ==> groups[i].cluster != groups[j].cluster
  }

  ghost predicate ClustersIn(groups: seq<Group>, clusters: set<string>) {
    forall g {:trigger g in groups} :: g in groups ==> g.cluster in clusters
  }

  ghost predicate Sound(groups: seq<Group>, clusters: set<string>) {
    AllPaired(groups) && OnePerCluster(groups) && ClustersIn(groups, clusters)
  }

  lemma NoteSound(groups: seq<Group>, cluster: string, candidate: real, incumbent: real, clusters: set<string>)
    requires Sound(groups, clusters) && cluster in clusters
    ensures Sound(Note(groups, cluster, candidate, incumbent), clusters)
  {
    var k := FindGroup(groups, cluster);
    var after := Note(groups, cluster, candidate, incumbent);
    if k < |groups| {
      assert groups[k] in groups && Paired(groups[k]);
      assert Paired(after[k]);
    } else {
      assert Paired(after[k]);
    }
    forall g {:trigger g in after} | g in after ensures Paired(g) && g.cluster in clusters {
      var i :| 0 <= i < |after| && after[i] == g;
      assert i == k || g == groups[i];
      assert i < |groups| ==> groups[i] in groups;
    }
  }

  lemma {:induction false} GroupsSound(holdout: seq<Market>, candidate: Scorer, incumbent: Scorer, clusters: set<string>)
    requires forall m {:trigger m in holdout} :: m in holdout ==> m.cluster.GetOr("") in clusters
    ensures Sound(GroupsOf(holdout, candidate, incumbent), clusters)
  {
    hide Note;
    if holdout == [] {
      assert Sound([], clusters);
    } else {
      hide Sound;
      var front, m := holdout[..|holdout| - 1], holdout[|holdout| - 1];
      assert holdout == front + [m] && m in holdout;
      forall x {:trigger x in front} | x in front ensures x.cluster.GetOr("") in clusters { assert x in holdout; }
      GroupsSound(front, candidate, incumbent, clusters);
      if Both(m, candidate, incumbent) {
        NoteSound(GroupsOf(front, candidate, incumbent), m.cluster.GetOr(""), candidate(m.ticker).value, incumbent(m.ticker).value, clusters);
      }
    }
  }

  lemma {:induction false} TotalsSubtract(a: seq<real>, b: seq<real>, d: seq<real>)
    requires |a| == |b| == |d| && forall k :: 0 <= k < |d| ==> d[k] == a[k] - b[k]
    ensures Totals(d) == Totals(a) - Totals(b) && Mean(d) == Mean(a) - Mean(b)
  {
    if d != [] {
      TotalsSubtract(a[..|a| - 1], b[..|b| - 1], d[..|d| - 1]);
      QuotientSubtract(Totals(a), Totals(b), |d| as real);
    }
  }

  lemma QuotientSubtract(x: real, y: real, n: real)
    requires n > 0.0
    ensures x / n - y / n == (x - y) / n
  {
  }

  /** The mean of paired improvements is the difference of the equal-cluster means. */
  lemma MeansLinear(groups: seq<Group>)
    requires AllPaired(groups)
    ensures Mean(ImprovementMeans(groups)) == Mean(IncumbentMeans(groups)) - Mean(CandidateMeans(groups))
  {
    hide Mean;
    forall k | 0 <= k < |groups| ensures Mean(groups[k].improvement) == Mean(groups[k].incumbent) - Mean(groups[k].candidate) {
      assert groups[k] in groups;
      TotalsSubtract(groups[k].incumbent, groups[k].candidate, groups[k].improvement);
    }
    TotalsSubtract(IncumbentMeans(groups), CandidateMeans(groups), ImprovementMeans(groups));
  }

  lemma {:induction false} AtLeastOneEach(groups: seq<Group>)
    requires AllPaired(groups)
    ensures |groups| <= Scored(groups)
  {
    if groups != [] {
      var front, g := groups[..|groups| - 1], groups[|groups| - 1];
      assert groups == front + [g] && g in groups;
      assert AllPaired(front) by {
        forall x {:trigger x in front} | x in front ensures x in groups { }
      }
      AtLeastOneEach(front);
      assert Paired(g);
    }
  }

  lemma {:induction false} DistinctFit(groups: seq<Group>, clusters: set<string>)
    requires OnePerCluster(groups) && ClustersIn(groups, clusters)
    ensures |groups| <= |clusters|
  {
    if groups != [] {
      var front, g := groups[..|groups| - 1], groups[|groups| - 1];
      assert groups == front + [g] && g in groups;
      forall x {:trigger x in front} | x in front ensures x.cluster in clusters - {g.cluster} {
        var i :| 0 <= i < |front| && front[i] == x;
        assert groups[i] == x && x in groups;
      }
      DistinctFit(front, clusters - {g.cluster});
    }
  }

  // ----- rounding keeps the figures within tolerance of each other -----

  lemma RoundClose(x: real)
    ensures -0.00000000005 <= Round10(x) - x <= 0.00000000005
  {
    RoundNear(x * 10000000000.0);
  }

  /** A difference of two ten-decimal figures is a ten-decimal figure. */
  lemma RoundDifference(x: real, y: real)
    ensures Round10(Round10(x) - Round10(y)) == Round10(x) - Round10(y)
  {
    var m, n := RoundHalfEven(x * 10000000000.0), RoundHalfEven(y * 10000000000.0);
    assert (Round10(x) - Round10(y)) * 10000000000.0 == (m - n) as real;
    RoundInteger(m - n);
  }

  /** The rounded improvement and the interval's mean are never more than 1.5e-10 apart. */
  lemma FiguresAgree(candidate: real, incumbent: real)
    ensures var a, b := Round10(candidate), Round10(incumbent);
            var improvement, mean := Round10(b - a), Round10(incumbent - candidate);
            Round10(a - b) == a - b && improvement == b - a
            && -0.00000000015 <= mean - improvement <= 0.00000000015
  {
    RoundDifference(candidate, incumbent);
    RoundDifference(incumbent, candidate);
    RoundClose(candidate);
    RoundClose(incumbent);
    RoundClose(incumbent - candidate);
    hide Round10;
  }

  // ----- the partition behind a receipt -----

  lemma TrainingLeft(rows: seq<Row>, holdout: set<string>)
    requires SomethingLeft(rows, holdout)
    ensures |TickersOf(rows) - holdout| > 0
    ensures |set r | r in rows && r.ticker in TickersOf(rows) - holdout :: r.cluster| > 0
  {
    var r :| r in rows && r.ticker !in holdout;
    assert r.ticker in TickersOf(rows) - holdout;
    var clusters := set q | q in rows && q.ticker in TickersOf(rows) - holdout :: q.cluster;
    assert r.cluster in clusters;
  }

  lemma ConcludedClusters(rows: seq<Row>, holdout: set<string>, held: set<string>, blocks: nat, target: int)
    requires Conclude(rows, holdout, held, blocks, target).Ok?
    ensures var p := Conclude(rows, holdout, held, blocks, target);
            p.train == TickersOf(rows) - holdout && p.trainClusters == set r | r in rows && r.ticker in p.train :: r.cluster
  {
  }

  lemma PartitionSound(markets: seq<Market>, c: Config)
    requires ValidConfig(c) && UniqueTickers(markets) && PartitionOf(markets, c).Ok?
    ensures var p := PartitionOf(markets, c);
            |p.train| > 0 && |p.trainClusters| > 0 && p.holdoutClusters == HeldClusters(RowsOf(markets), p.holdout)
  {
    var rows, target := RowsOf(markets), Target(markets, c);
    TargetInRange(markets, c);
    TickerCount(markets);
    MarketRowsDistinct(markets);
    SplitOutcome(rows, target, c.minClusters);
    var p := Split(rows, target, c.minClusters);
    var blocks := BlocksOf(rows);
    var s := PickFrom(blocks, |blocks|, target, c.minClusters);
    assert PartitionOf(markets, c) == p;
    assert p == Conclude(rows, SuffixTickers(blocks, s), SuffixClusterIds(blocks, s), |blocks|, target);
    ConcludedClusters(rows, SuffixTickers(blocks, s), SuffixClusterIds(blocks, s), |blocks|, target);
    TrainingLeft(rows, p.holdout);
  }

  lemma HoldoutClustersKnown(markets: seq<Market>, holdout: set<string>, m: Market)
    requires m in HoldoutList(markets, holdout)
    ensures m.cluster.GetOr("") in HeldClusters(RowsOf(markets), holdout)
  {
    SortMembers(Filter(Held(holdout), markets), TickerLeq);
    hide Sort;
    assert m in Filter(Held(holdout), markets);
    var k :| 0 <= k < |markets| && markets[k] == m;
    assert RowsOf(markets)[k] in RowsOf(markets);
  }

  // ----- adopted receipts are valid -----

  lemma IntervalSound(means: seq<real>, stream: Stream)
    requires PairedCi(means, stream).Some?
    ensures var i := PairedCi(means, stream).value;
            0 < |means| <= MAX_CLUSTERS && IntervalValid(i, |means|) && i.mean == Round10(Mean(means)) && i.upper >= i.lower
  {
    hide Mean, Percentile;
    assert IsClose(0.95, 0.95, 0.000000000001);
    if |means| > 1 {
      var samples := Samples(means, stream, Resamples(|means|));
      PercentileMonotone(samples, 0.025, 0.975);
      RoundToMonotone(Percentile(samples, 0.025), Percentile(samples, 0.975), 10000000000.0);
    }
  }

  lemma ByNameSound(groups: seq<Group>)
    requires AllPaired(groups)
    ensures AllPaired(ByName(groups)) && |ByName(groups)| == |groups|
  {
    SortMembers(groups, GroupLeq);
  }

  lemma Near(a: real, b: real)
    requires -0.000000001 <= a - b <= 0.000000001
    ensures IsClose(a, b, 0.000000001)
  {
  }

  /** The scores of an adopted receipt pass every comparison of the validator. */
  lemma ScoresPass(groups: seq<Group>, interval: PairedInterval, p: Partition, c: Config)
    requires p.Ok? && AllPaired(groups)
    requires interval.mean == Round10(Mean(ImprovementMeans(ByName(groups)))) && interval.upper >= interval.lower
    requires Judged(groups, interval, p, c).adopted
    ensures ScoresValid(Judged(groups, interval, p, c).evidence.value)
  {
    var ordered := ByName(groups);
    ByNameSound(groups);
    MeansLinear(ordered);
    hide Mean, Round10, ByName, CandidateMeans, IncumbentMeans, ImprovementMeans, Scored, IsClose;
    FiguresAgree(Mean(CandidateMeans(ordered)), Mean(IncumbentMeans(ordered)));
    var e := Judged(groups, interval, p, c).evidence.value;
    Near(e.delta, e.candidate - e.incumbent);
    Near(e.improvement, e.incumbent - e.candidate);
    Near(interval.mean, e.improvement);
  }

  lemma JudgedValid(groups: seq<Group>, interval: PairedInterval, p: Partition, c: Config)
    requires p.Ok? && Sound(groups, p.holdoutClusters) && c.minHoldout > 0 && c.minClusters > 0
    requires Scored(groups) >= c.minHoldout && c.minClusters <= |groups| <= MAX_CLUSTERS && |p.train| > 0 && |p.trainClusters| > 0
    requires interval.mean == Round10(Mean(ImprovementMeans(ByName(groups)))) && interval.upper >= interval.lower
    requires IntervalValid(interval, |groups|)
    ensures AdoptionValid(Judged(groups, interval, p, c)) <==> Judged(groups, interval, p, c).adopted
  {
    AtLeastOneEach(groups);
    DistinctFit(groups, p.holdoutClusters);
    if Judged(groups, interval, p, c).adopted {
      ScoresPass(groups, interval, p, c);
      hide ScoresValid, IntervalValid, Sound, Mean, Round10;
    }
  }

  lemma AssessedValid(groups: seq<Group>, mismatches: nat, p: Partition, c: Config, stream: Stream)
    requires p.Ok? && ValidConfig(c) && Sound(groups, p.holdoutClusters) && |p.train| > 0 && |p.trainClusters| > 0
    ensures AdoptionValid(Assessed(groups, mismatches, p, c, stream)) <==> Assessed(groups, mismatches, p, c, stream).adopted
  {
    ByNameSound(groups);
    var means := ImprovementMeans(ByName(groups));
    hide Judged, Mean, Round10, ByName, PairedCi, Scored, IntervalValid, CountsValid, ScoresValid, Sound;
    if mismatches == 0 && Scored(groups) != 0 && Scored(groups) >= c.minHoldout && |groups| >= c.minClusters
       && PairedCi(means, stream).Some? {
      IntervalSound(means, stream);
      JudgedValid(groups, PairedCi(means, stream).value, p, c);
    }
  }

  /**
   Whatever the ledger, the weights and the draws: a receipt of the gate passes the independent validator exactly when it
   says that the candidate weights are adopted.
   */
  lemma AdoptedExactlyWhenValid(
    markets: seq<Market>, trained: set<string> -> Option<Scorer>, incumbent: Scorer, c: Config, stream: Stream)
    requires UniqueTickers(markets)
    ensures var r := GateReceipt(markets, trained, incumbent, c, stream); AdoptionValid(r) <==> r.adopted
  {
    hide AdoptionValid, PartitionOf, HoldoutList, GroupsOf, Mismatches, Assessed, HeldClusters, Sound, RowsOf;
    var p := PartitionOf(markets, c);
    RefusedNeverValid();
    if ValidConfig(c) && p.Ok? && trained(p.train).Some? {
      var candidate, holdout := trained(p.train).value, HoldoutList(markets, p.holdout);
      PartitionSound(markets, c);
      forall m {:trigger m in holdout} | m in holdout ensures m.cluster.GetOr("") in p.holdoutClusters {
        HoldoutClustersKnown(markets, p.holdout, m);
      }
      GroupsSound(holdout, candidate, incumbent, p.holdoutClusters);
      AssessedValid(GroupsOf(holdout, candidate, incumbent), Mismatches(holdout, candidate, incumbent), p, c, stream);
    }
  }

  lemma RefusedNeverValid()
    ensures forall status, reason {:trigger Refused(status, reason)} ::
      !AdoptionValid(Refused(status, reason)) && !Refused(status, reason).adopted
  {
  }
}
