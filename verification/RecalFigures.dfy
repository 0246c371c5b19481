/**
 What the figures of a recalibration receipt (`autonomy/backtest.py`) say about the weights: the two scores are plain
 equal-cluster means over the held markets, worse weights are never adopted, and plainly better ones are.
 */
module RecalFigures {
  import opened Options
  import opened Percentiles
  import opened RecalPartition
  import opened RecalReceipt
  import opened Rounding
  import opened StableSorting
  import opened TextOrder

  // ----- the scores of a holdout -----

  /** The markets of a cluster that the weights can score. */
  function InCluster(cluster: string, score: Scorer): Market -> bool {
    (m: Market) => m.cluster.GetOr("") == cluster && score(m.ticker).Some?
  }

  function ScoreOf(score: Scorer): Market -> real {
    (m: Market) => score(m.ticker).GetOr(0.0)
  }

  /** The mean score of a cluster's markets. */
  function ClusterScore(held: seq<Market>, score: Scorer): string -> real {
    (cluster: string) =>
      var mine := Filter(InCluster(cluster, score), held);
      if mine == [] then 0.0 else RealSum(ScoreOf(score), mine) / |mine| as real
  }

  /** The mean over clusters of their means: every cluster weighs the same, however many markets it has. */
  function EqualClusterMean(held: seq<Market>, names: seq<string>, score: Scorer): real
    requires names != []
  {
    RealSum(ClusterScore(held, score), names) / |names| as real
  }

  ghost predicate Distinct(names: seq<string>) {
    forall i, j :: 0 <= i < j < |names| ==> names[i] != names[j]
  }

  ghost predicate HasScored(held: seq<Market>, cluster: string, score: Scorer) {
    exists m {:trigger m in held} :: m in held && InCluster(cluster, score)(m)
  }

  /** `names` lists each cluster with a scored market once, in any order. */
  ghost predicate Lists(names: seq<string>, held: seq<Market>, score: Scorer) {
    Distinct(names) && forall c :: c in names <==> HasScored(held, c, score)
  }

  /** Both weight vectors can score a held market, or neither can. */
  ghost predicate SameCohort(held: seq<Market>, candidate: Scorer, incumbent: Scorer) {
    forall m {:trigger m in held} :: m in held ==> (candidate(m.ticker).Some? <==> incumbent(m.ticker).Some?)
  }

  // ----- the tables of the gate -----

  function InBoth(cluster: string, candidate: Scorer, incumbent: Scorer): Market -> bool {
    (m: Market) => m.cluster.GetOr("") == cluster && Both(m, candidate, incumbent)
  }

  function Scores(markets: seq<Market>, score: Scorer): (r: seq<real>)
    ensures |r| == |markets|
  {
    seq(|markets|, k requires 0 <= k < |markets| => score(markets[k].ticker).GetOr(0.0))
  }

  /** The lists of a cluster's table are the scores of its markets, in order. */
  ghost predicate TableOf(g: Group, held: seq<Market>, candidate: Scorer, incumbent: Scorer) {
    var mine := Filter(InBoth(g.cluster, candidate, incumbent), held);
    mine != [] && g.candidate == Scores(mine, candidate) && g.incumbent == Scores(mine, incumbent) && |g.improvement| == |mine|
  }

  ghost predicate Tables(groups: seq<Group>, held: seq<Market>, candidate: Scorer, incumbent: Scorer) {
    && OnePerCluster(groups)
    && (forall k :: 0 <= k < |groups| ==> TableOf(groups[k], held, candidate, incumbent))
    && (forall m {:trigger m in held} :: m in held && Both(m, candidate, incumbent) ==> HasGroup(groups, m.cluster.GetOr("")))
  }

  ghost predicate HasGroup(groups: seq<Group>, cluster: string) {
    exists k :: 0 <= k < |groups| && groups[k].cluster == cluster
  }

  lemma TableGrows(g: Group, held: seq<Market>, m: Market, candidate: Scorer, incumbent: Scorer)
    requires TableOf(g, held, candidate, incumbent) && Both(m, candidate, incumbent) && m.cluster.GetOr("") == g.cluster
    ensures var x, y := candidate(m.ticker).value, incumbent(m.ticker).value;
            TableOf(Group(g.cluster, g.candidate + [x], g.incumbent + [y], g.improvement + [y - x]), held + [m], candidate, incumbent)
  {
    FilterSnoc(InBoth(g.cluster, candidate, incumbent), held, m);
  }

  lemma TableStays(g: Group, held: seq<Market>, m: Market, candidate: Scorer, incumbent: Scorer)
    requires TableOf(g, held, candidate, incumbent) && !(Both(m, candidate, incumbent) && m.cluster.GetOr("") == g.cluster)
    ensures TableOf(g, held + [m], candidate, incumbent)
  {
    FilterSnoc(InBoth(g.cluster, candidate, incumbent), held, m);
  }

  lemma TableStarts(held: seq<Market>, m: Market, candidate: Scorer, incumbent: Scorer)
    requires Both(m, candidate, incumbent)
    requires forall x {:trigger x in held} :: x in held && Both(x, candidate, incumbent) ==> x.cluster.GetOr("") != m.cluster.GetOr("")
    ensures var x, y := candidate(m.ticker).value, incumbent(m.ticker).value;
            TableOf(Group(m.cluster.GetOr(""), [x], [y], [y - x]), held + [m], candidate, incumbent)
  {
    var c := m.cluster.GetOr("");
    FilterSnoc(InBoth(c, candidate, incumbent), held, m);
    FilterNone(InBoth(c, candidate, incumbent), held);
    hide Filter;
  }

  lemma NoteTables(groups: seq<Group>, held: seq<Market>, m: Market, candidate: Scorer, incumbent: Scorer)
    requires Tables(groups, held, candidate, incumbent) && Both(m, candidate, incumbent)
    ensures Tables(Note(groups, m.cluster.GetOr(""), candidate(m.ticker).value, incumbent(m.ticker).value), held + [m], candidate, incumbent)
  {
    var c := m.cluster.GetOr("");
    var after := Note(groups, c, candidate(m.ticker).value, incumbent(m.ticker).value);
    var k := FindGroup(groups, c);
    hide TableOf;
    assert forall j :: 0 <= j < |after| && j != k ==> after[j] == groups[j];
    assert after[k].cluster == c;
    if k < |groups| {
      TableGrows(groups[k], held, m, candidate, incumbent);
    } else {
      TableStarts(held, m, candidate, incumbent);
    }
    forall j | 0 <= j < |after| && j != k ensures TableOf(after[j], held + [m], candidate, incumbent) {
      TableStays(groups[j], held, m, candidate, incumbent);
    }
    forall x {:trigger x in held + [m]} | x in held + [m] && Both(x, candidate, incumbent)
      ensures HasGroup(after, x.cluster.GetOr(""))
    {
      if x in held && x.cluster.GetOr("") != c {
        var j :| 0 <= j < |groups| && groups[j].cluster == x.cluster.GetOr("");
        assert after[j].cluster == x.cluster.GetOr("");
      }
    }
  }

  lemma {:induction false} GroupsAreTables(held: seq<Market>, candidate: Scorer, incumbent: Scorer)
    ensures Tables(GroupsOf(held, candidate, incumbent), held, candidate, incumbent)
  {
    if held != [] {
      var front, m := held[..|held| - 1], held[|held| - 1];
      var groups := GroupsOf(front, candidate, incumbent);
      GroupsAreTables(front, candidate, incumbent);
      assert held == front + [m];
      if Both(m, candidate, incumbent) {
        NoteTables(groups, front, m, candidate, incumbent);
      } else {
        hide TableOf;
        forall k | 0 <= k < |groups| ensures TableOf(groups[k], held, candidate, incumbent) {
          TableStays(groups[k], front, m, candidate, incumbent);
        }
      }
    }
  }

  lemma {:induction false} NoMismatch(held: seq<Market>, candidate: Scorer, incumbent: Scorer)
    ensures Mismatches(held, candidate, incumbent) == 0 <==> SameCohort(held, candidate, incumbent)
  {
    if held != [] {
      var front, m := held[..|held| - 1], held[|held| - 1];
      NoMismatch(front, candidate, incumbent);
      assert held == front + [m] && m in held;
      assert forall x {:trigger x in front} :: x in front ==> x in held;
      assert forall x {:trigger x in held} :: x in held ==> x in front || x == m;
    }
  }

  // ----- from the tables to the scores -----

  lemma {:induction false} ScoresTotal(markets: seq<Market>, score: Scorer)
    ensures Totals(Scores(markets, score)) == RealSum(ScoreOf(score), markets)
  {
    if markets != [] {
      var front := markets[..|markets| - 1];
      ScoresTotal(front, score);
      assert Scores(markets, score)[..|front|] == Scores(front, score);
    }
  }

  lemma SameMarkets(cluster: string, held: seq<Market>, candidate: Scorer, incumbent: Scorer)
    requires SameCohort(held, candidate, incumbent)
    ensures Filter(InBoth(cluster, candidate, incumbent), held) == Filter(InCluster(cluster, candidate), held)
    ensures Filter(InBoth(cluster, candidate, incumbent), held) == Filter(InCluster(cluster, incumbent), held)
  {
    FilterSame(InBoth(cluster, candidate, incumbent), InCluster(cluster, candidate), held);
    FilterSame(InBoth(cluster, candidate, incumbent), InCluster(cluster, incumbent), held);
  }

  lemma TableScores(g: Group, held: seq<Market>, candidate: Scorer, incumbent: Scorer)
    requires TableOf(g, held, candidate, incumbent) && SameCohort(held, candidate, incumbent)
    ensures Mean(g.candidate) == ClusterScore(held, candidate)(g.cluster)
    ensures Mean(g.incumbent) == ClusterScore(held, incumbent)(g.cluster)
  {
    var mine := Filter(InBoth(g.cluster, candidate, incumbent), held);
    SameMarkets(g.cluster, held, candidate, incumbent);
    ScoresTotal(mine, candidate);
    ScoresTotal(mine, incumbent);
    hide Totals, RealSum, Scores;
  }

  function NamesOf(groups: seq<Group>): (names: seq<string>)
    ensures |names| == |groups| && forall k :: 0 <= k < |names| ==> names[k] == groups[k].cluster
  {
    seq(|groups|, k requires 0 <= k < |groups| => groups[k].cluster)
  }

  /** The means of the named tables, summed, are the cluster scores, summed. */
  lemma {:induction false} TotalOfMeans(means: seq<real>, names: seq<string>, f: string -> real)
    requires |means| == |names| && forall k :: 0 <= k < |names| ==> means[k] == f(names[k])
    ensures Totals(means) == RealSum(f, names)
  {
    if names != [] {
      TotalOfMeans(means[..|means| - 1], names[..|names| - 1], f);
    }
  }

  lemma TablesName(groups: seq<Group>, held: seq<Market>, candidate: Scorer, incumbent: Scorer)
    requires Tables(groups, held, candidate, incumbent) && SameCohort(held, candidate, incumbent)
    ensures Lists(NamesOf(groups), held, candidate) && Lists(NamesOf(groups), held, incumbent)
  {
    forall c ensures c in NamesOf(groups) <==> HasScored(held, c, candidate)
             ensures HasScored(held, c, candidate) <==> HasScored(held, c, incumbent) {
      if c in NamesOf(groups) {
        var k :| 0 <= k < |groups| && groups[k].cluster == c;
        var mine := Filter(InBoth(c, candidate, incumbent), held);
        assert TableOf(groups[k], held, candidate, incumbent) && mine[0] in mine;
      }
      if m :| m in held && InCluster(c, candidate)(m) {
        assert HasGroup(groups, c) && InCluster(c, incumbent)(m);
      }
      if m :| m in held && InCluster(c, incumbent)(m) {
        assert InCluster(c, candidate)(m);
      }
    }
  }

  lemma SameNames(a: seq<string>, b: seq<string>)
    requires Distinct(a) && Distinct(b) && forall c :: c in a <==> c in b
    ensures multiset(a) == multiset(b) && |a| == |b|
  {
    forall c ensures multiset(a)[c] == multiset(b)[c] {
      OnceOrNever(a, c);
      OnceOrNever(b, c);
    }
    assert multiset(a) == multiset(b);
    assert |a| == |multiset(a)| == |multiset(b)| == |b|;
  }

  lemma {:induction false} OnceOrNever(names: seq<string>, c: string)
    requires Distinct(names)
    ensures multiset(names)[c] == if c in names then 1 else 0
  {
    if names != [] {
      var front, last := names[..|names| - 1], names[|names| - 1];
      assert names == front + [last];
      OnceOrNever(front, c);
    }
  }

  lemma AnyOrder(f: string -> real, a: seq<string>, b: seq<string>)
    requires multiset(a) == multiset(b)
    ensures RealSum(f, a) == RealSum(f, b)
  {
    LinearOrder();
    RealSumIgnoresOrder(f, a, b, TextLeq);
  }

  lemma ByNameTables(groups: seq<Group>, held: seq<Market>, candidate: Scorer, incumbent: Scorer)
    requires Tables(groups, held, candidate, incumbent)
    ensures Tables(ByName(groups), held, candidate, incumbent)
  {
    var ordered := ByName(groups);
    SortMembers(groups, GroupLeq);
    SortDistinctBy(groups, GroupLeq, (g: Group) => g.cluster);
    hide TableOf, Sort;
    forall k | 0 <= k < |ordered| ensures TableOf(ordered[k], held, candidate, incumbent) {
      assert ordered[k] in ordered;
    }
    forall m {:trigger m in held} | m in held && Both(m, candidate, incumbent) ensures HasGroup(ordered, m.cluster.GetOr("")) {
      var j :| 0 <= j < |groups| && groups[j].cluster == m.cluster.GetOr("");
      assert groups[j] in ordered;
    }
  }

  /** The gate's two scores before rounding, for any listing of the scored clusters. */
  lemma TableMeans(groups: seq<Group>, held: seq<Market>, candidate: Scorer, incumbent: Scorer, names: seq<string>)
    requires Tables(groups, held, candidate, incumbent) && SameCohort(held, candidate, incumbent) && Lists(names, held, candidate)
    ensures |names| == |groups|
    ensures names != [] ==>
              && Mean(CandidateMeans(ByName(groups))) == EqualClusterMean(held, names, candidate)
              && Mean(IncumbentMeans(ByName(groups))) == EqualClusterMean(held, names, incumbent)
  {
    var ordered := ByName(groups);
    ByNameTables(groups, held, candidate, incumbent);
    TablesName(ordered, held, candidate, incumbent);
    SameNames(NamesOf(ordered), names);
    hide ByName;
    forall k | 0 <= k < |ordered|
      ensures CandidateMeans(ordered)[k] == ClusterScore(held, candidate)(NamesOf(ordered)[k])
      ensures IncumbentMeans(ordered)[k] == ClusterScore(held, incumbent)(NamesOf(ordered)[k])
    {
      TableScores(ordered[k], held, candidate, incumbent);
    }
    hide ClusterScore, Tables, Lists;
    TotalOfMeans(CandidateMeans(ordered), NamesOf(ordered), ClusterScore(held, candidate));
    TotalOfMeans(IncumbentMeans(ordered), NamesOf(ordered), ClusterScore(held, incumbent));
    AnyOrder(ClusterScore(held, candidate), NamesOf(ordered), names);
    AnyOrder(ClusterScore(held, incumbent), NamesOf(ordered), names);
  }

  // ----- the held markets, in any order -----

  function HeldMarkets(markets: seq<Market>, holdout: set<string>): seq<Market> {
    Filter((m: Market) => m.ticker in holdout, markets)
  }

  lemma HoldoutIsHeld(markets: seq<Market>, holdout: set<string>)
    ensures HoldoutList(markets, holdout) == Sort(HeldMarkets(markets, holdout), TickerLeq)
    ensures forall m :: m in HoldoutList(markets, holdout) <==> m in HeldMarkets(markets, holdout)
  {
    FilterSame(Held(holdout), (m: Market) => m.ticker in holdout, markets);
    SortMembers(HeldMarkets(markets, holdout), TickerLeq);
  }

  lemma ClusterScoreInAnyOrder(held: seq<Market>, score: Scorer, cluster: string)
    ensures ClusterScore(Sort(held, TickerLeq), score)(cluster) == ClusterScore(held, score)(cluster)
  {
    LinearOrder();
    assert TotalPreorder(TickerLeq);
    FilterSort(InCluster(cluster, score), held, TickerLeq);
    var mine := Filter(InCluster(cluster, score), held);
    RealSumSort(ScoreOf(score), mine, TickerLeq);
    hide Sort, Filter, RealSum;
  }

  lemma MeanInAnyOrder(held: seq<Market>, names: seq<string>, score: Scorer)
    requires names != []
    ensures EqualClusterMean(Sort(held, TickerLeq), names, score) == EqualClusterMean(held, names, score)
  {
    var f, g := ClusterScore(Sort(held, TickerLeq), score), ClusterScore(held, score);
    hide ClusterScore, RealSum, Sort;
    forall c ensures f(c) == g(c) {
      ClusterScoreInAnyOrder(held, score, c);
    }
    RealSumLeq(f, g, names);
    RealSumLeq(g, f, names);
  }

  /** The gate's tables, read over the held markets as the ledger lists them. */
  lemma HeldMeans(held: seq<Market>, candidate: Scorer, incumbent: Scorer, names: seq<string>)
    requires SameCohort(held, candidate, incumbent) && Lists(names, held, candidate)
    ensures var groups := GroupsOf(Sort(held, TickerLeq), candidate, incumbent);
            && |names| == |groups|
            && (names != [] ==>
                  && Mean(CandidateMeans(ByName(groups))) == EqualClusterMean(held, names, candidate)
                  && Mean(IncumbentMeans(ByName(groups))) == EqualClusterMean(held, names, incumbent))
  {
    var sorted := Sort(held, TickerLeq);
    SortMembers(held, TickerLeq);
    GroupsAreTables(sorted, candidate, incumbent);
    assert forall c :: HasScored(sorted, c, candidate) <==> HasScored(held, c, candidate);
    hide Sort, InCluster, Tables, EqualClusterMean, ByName, Mean, CandidateMeans, IncumbentMeans;
    TableMeans(GroupsOf(sorted, candidate, incumbent), sorted, candidate, incumbent, names);
    if names != [] {
      MeanInAnyOrder(held, names, candidate);
      MeanInAnyOrder(held, names, incumbent);
    }
  }

  // ----- what a receipt reports -----

  /**
   The two scores of a receipt are the equal-cluster means of the markets held out, under the weights trained on the rest
   and under the incumbent ones, to ten decimals; it adopts exactly on a positive difference and a positive lower bound.
   */
  lemma ReceiptFigures(markets: seq<Market>, trained: set<string> -> Option<Scorer>, incumbent: Scorer, c: Config,
                       stream: RecalReceipt.Stream, candidate: Scorer, names: seq<string>)
    requires PartitionOf(markets, c).Ok? && trained(PartitionOf(markets, c).train) == Some(candidate)
    requires Lists(names, HeldMarkets(markets, PartitionOf(markets, c).holdout), candidate)
    requires GateReceipt(markets, trained, incumbent, c, stream).evidence.Some?
    ensures var r, held := GateReceipt(markets, trained, incumbent, c, stream), HeldMarkets(markets, PartitionOf(markets, c).holdout);
            var e := r.evidence.value;
            && names != [] && SameCohort(held, candidate, incumbent) && e.holdoutClusters == |names|
            && e.candidate == Round10(EqualClusterMean(held, names, candidate))
            && e.incumbent == Round10(EqualClusterMean(held, names, incumbent))
            && e.improvement == e.incumbent - e.candidate
            && (r.adopted <==> e.candidate < e.incumbent && e.interval.lower > 0.0)
  {
    hide *;
    GateAssesses(markets, trained, incumbent, c, stream, candidate);
    var p := PartitionOf(markets, c);
    var held, sorted := HeldMarkets(markets, p.holdout), HoldoutList(markets, p.holdout);
    HoldoutIsHeld(markets, p.holdout);
    NoMismatch(sorted, candidate, incumbent);
    SameCohortSorted(held, candidate, incumbent);
    var groups, mismatches := GroupsOf(sorted, candidate, incumbent), Mismatches(sorted, candidate, incumbent);
    AssessedFigures(groups, mismatches, p, c, stream);
    HeldMeans(held, candidate, incumbent, names);
  }

  lemma GateAssesses(markets: seq<Market>, trained: set<string> -> Option<Scorer>, incumbent: Scorer, c: Config,
                     stream: RecalReceipt.Stream, candidate: Scorer)
    requires PartitionOf(markets, c).Ok? && trained(PartitionOf(markets, c).train) == Some(candidate)
    requires GateReceipt(markets, trained, incumbent, c, stream).evidence.Some?
    ensures var p := PartitionOf(markets, c);
            var holdout := HoldoutList(markets, p.holdout);
            GateReceipt(markets, trained, incumbent, c, stream)
            == Assessed(GroupsOf(holdout, candidate, incumbent), Mismatches(holdout, candidate, incumbent), p, c, stream)
  {
    hide PartitionOf, HoldoutList, GroupsOf, Mismatches, Assessed, ValidConfig;
  }

  /** What a receipt with evidence reports of the scored groups. */
  lemma AssessedFigures(groups: seq<Group>, mismatches: nat, p: Partition, c: Config, stream: RecalReceipt.Stream)
    requires p.Ok? && Assessed(groups, mismatches, p, c, stream).evidence.Some?
    ensures var r := Assessed(groups, mismatches, p, c, stream);
            var e := r.evidence.value;
            && mismatches == 0 && groups != [] && e.holdoutClusters == |groups|
            && e.candidate == Round10(Mean(CandidateMeans(ByName(groups))))
            && e.incumbent == Round10(Mean(IncumbentMeans(ByName(groups))))
            && e.improvement == e.incumbent - e.candidate
            && (r.adopted <==> e.candidate < e.incumbent && e.interval.lower > 0.0)
  {
    if groups == [] {
      NothingScored();
    }
    RoundDifference(Mean(IncumbentMeans(ByName(groups))), Mean(CandidateMeans(ByName(groups))));
    hide Scored, ByName, Mean, PairedCi, Round10, CandidateMeans, IncumbentMeans, ImprovementMeans;
  }

  lemma NothingScored()
    ensures Scored([]) == 0
  {
  }

  // ----- what it takes to be adopted -----

  /** A listing of the scored clusters always exists. */
  lemma SomeListing(held: seq<Market>, candidate: Scorer, incumbent: Scorer) returns (names: seq<string>)
    requires SameCohort(held, candidate, incumbent)
    ensures Lists(names, held, candidate)
  {
    GroupsAreTables(held, candidate, incumbent);
    TablesName(GroupsOf(held, candidate, incumbent), held, candidate, incumbent);
    names := NamesOf(GroupsOf(held, candidate, incumbent));
  }

  lemma QuotientLeq(x: real, y: real, n: real)
    requires x <= y && n > 0.0
    ensures x / n <= y / n
  {
    Unscaled(x, y, n);
  }

  lemma ClusterScoreLeq(held: seq<Market>, a: Scorer, b: Scorer, cluster: string)
    requires SameCohort(held, a, b)
    requires forall m {:trigger m in held} :: m in held && a(m.ticker).Some? && b(m.ticker).Some? ==> a(m.ticker).value <= b(m.ticker).value
    ensures ClusterScore(held, a)(cluster) <= ClusterScore(held, b)(cluster)
  {
    SameMarkets(cluster, held, a, b);
    var mine := Filter(InCluster(cluster, a), held);
    RealSumLeq(ScoreOf(a), ScoreOf(b), mine);
    hide RealSum, Filter;
    if mine != [] {
      QuotientLeq(RealSum(ScoreOf(a), mine), RealSum(ScoreOf(b), mine), |mine| as real);
    }
  }

  lemma MeanLeq(held: seq<Market>, names: seq<string>, a: Scorer, b: Scorer)
    requires names != [] && SameCohort(held, a, b)
    requires forall m {:trigger m in held} :: m in held && a(m.ticker).Some? && b(m.ticker).Some? ==> a(m.ticker).value <= b(m.ticker).value
    ensures EqualClusterMean(held, names, a) <= EqualClusterMean(held, names, b)
  {
    var f, g := ClusterScore(held, a), ClusterScore(held, b);
    hide ClusterScore, RealSum;
    forall c ensures f(c) <= g(c) {
      ClusterScoreLeq(held, a, b, c);
    }
    RealSumLeq(f, g, names);
    QuotientLeq(RealSum(f, names), RealSum(g, names), |names| as real);
  }

  /** Evidence is only given on scored weights; without it nothing is adopted. */
  lemma EvidenceNeedsWeights(markets: seq<Market>, trained: set<string> -> Option<Scorer>, incumbent: Scorer, c: Config,
                             stream: RecalReceipt.Stream)
    ensures var r, p := GateReceipt(markets, trained, incumbent, c, stream), PartitionOf(markets, c);
            && (r.evidence.None? ==> !r.adopted)
            && (r.evidence.Some? ==>
                  p.Ok? && trained(p.train).Some? && SameCohort(HeldMarkets(markets, p.holdout), trained(p.train).value, incumbent))
  {
    var p := PartitionOf(markets, c);
    hide PartitionOf, HoldoutList, HeldMarkets, GroupsOf, Mismatches, Scored, ByName, PairedCi, ValidConfig;
    if p.Ok? && trained(p.train).Some? {
      HoldoutIsHeld(markets, p.holdout);
      NoMismatch(HoldoutList(markets, p.holdout), trained(p.train).value, incumbent);
    }
  }

  /** Weights that score no held market better than the incumbent ones are never adopted. */
  lemma NeverAdoptsWorse(markets: seq<Market>, trained: set<string> -> Option<Scorer>, incumbent: Scorer, c: Config,
                         stream: RecalReceipt.Stream)
    requires var p := PartitionOf(markets, c);
             p.Ok? && trained(p.train).Some? ==>
               forall m {:trigger m in markets} :: m in markets && m.ticker in p.holdout && Both(m, trained(p.train).value, incumbent) ==>
                 trained(p.train).value(m.ticker).value >= incumbent(m.ticker).value
    ensures !GateReceipt(markets, trained, incumbent, c, stream).adopted
  {
    var r, p := GateReceipt(markets, trained, incumbent, c, stream), PartitionOf(markets, c);
    EvidenceNeedsWeights(markets, trained, incumbent, c, stream);
    if r.evidence.Some? {
      var held, candidate := HeldMarkets(markets, p.holdout), trained(p.train).value;
      var names := SomeListing(held, candidate, incumbent);
      hide GateReceipt, PartitionOf, EqualClusterMean, Lists;
      ReceiptFigures(markets, trained, incumbent, c, stream, candidate, names);
      MeanLeq(held, names, incumbent, candidate);
      RoundToMonotone(EqualClusterMean(held, names, incumbent), EqualClusterMean(held, names, candidate), 10000000000.0);
    }
  }

  lemma {:induction false} TotalsAtLeast(values: seq<real>, low: real)
    requires forall x {:trigger x in values} :: x in values ==> x >= low
    ensures Totals(values) >= low * |values| as real
  {
    if values != [] {
      var front, last := values[..|values| - 1], values[|values| - 1];
      assert values == front + [last] && last in values;
      forall x {:trigger x in front} | x in front ensures x >= low { assert x in values; }
      TotalsAtLeast(front, low);
      assert low * |values| as real == low * |front| as real + low;
    }
  }

  lemma MeanAtLeast(values: seq<real>, low: real)
    requires values != [] && forall x {:trigger x in values} :: x in values ==> x >= low
    ensures Mean(values) >= low
  {
    TotalsAtLeast(values, low);
    var n := |values| as real;
    Unscaled(low * n, Totals(values), n);
    assert low * n / n == low;
  }

  lemma SamplesAtLeast(means: seq<real>, stream: RecalReceipt.Stream, count: nat, low: real)
    requires means != [] && forall x {:trigger x in means} :: x in means ==> x >= low
    ensures forall x {:trigger x in Samples(means, stream, count)} :: x in Samples(means, stream, count) ==> x >= low
  {
    hide Mean;
    var samples := Samples(means, stream, count);
    forall x {:trigger x in samples} | x in samples ensures x >= low {
      var i :| 0 <= i < |samples| && samples[i] == x;
      DrawnAtLeast(means, stream, i * |means|, low);
    }
  }

  lemma DrawnAtLeast(means: seq<real>, stream: RecalReceipt.Stream, from: nat, low: real)
    requires means != [] && forall x {:trigger x in means} :: x in means ==> x >= low
    ensures Mean(Drawn(means, stream, from, |means|)) >= low
  {
    var drawn := Drawn(means, stream, from, |means|);
    forall x {:trigger x in drawn} | x in drawn ensures x >= low {
      var j :| 0 <= j < |drawn| && drawn[j] == x;
      assert means[stream(from + j) % |means|] in means;
    }
    MeanAtLeast(drawn, low);
  }

  lemma RoundedStaysPositive(x: real)
    requires x >= 0.000000001
    ensures Round10(x) >= 0.000000001
  {
    RoundToMonotone(0.000000001, x, 10000000000.0);
    RoundInteger(10);
    assert 0.000000001 * 10000000000.0 == 10 as real;
  }

  /** A bound on every cluster's improvement bounds the interval from below. */
  lemma LowerAtLeast(means: seq<real>, stream: RecalReceipt.Stream)
    requires means != [] && |means| <= MAX_CLUSTERS && forall x {:trigger x in means} :: x in means ==> x >= 0.000000001
    ensures PairedCi(means, stream).Some? && PairedCi(means, stream).value.lower >= 0.000000001
  {
    hide Mean, Percentile, Samples, Round10;
    MeanAtLeast(means, 0.000000001);
    RoundedStaysPositive(Mean(means));
    if |means| > 1 {
      var samples := Samples(means, stream, Resamples(|means|));
      SamplesAtLeast(means, stream, Resamples(|means|), 0.000000001);
      PercentileInSample(samples, 0.025);
      RoundedStaysPositive(Percentile(samples, 0.025));
    }
  }

  lemma SumUpdate(groups: seq<Group>, k: nat, g: Group)
    requires k < |groups|
    ensures Scored(groups[k := g]) == Scored(groups) - |groups[k].improvement| + |g.improvement|
  {
    var low, high := groups[..k], groups[k + 1..];
    assert groups == low + [groups[k]] + high && groups[k := g] == low + [g] + high;
    SumAppend(Size(), low + [groups[k]], high);
    SumAppend(Size(), low + [g], high);
    SumSnoc(Size(), low, groups[k]);
    SumSnoc(Size(), low, g);
    hide Sum;
  }

  function ScoredBy(score: Scorer): Market -> bool { (m: Market) => score(m.ticker).Some? }

  function ScoredByBoth(candidate: Scorer, incumbent: Scorer): Market -> bool {
    (m: Market) => Both(m, candidate, incumbent)
  }

  lemma NoteCounts(groups: seq<Group>, cluster: string, x: real, y: real)
    ensures Scored(Note(groups, cluster, x, y)) == Scored(groups) + 1
  {
    var k := FindGroup(groups, cluster);
    if k < |groups| {
      SumUpdate(groups, k, Note(groups, cluster, x, y)[k]);
    } else {
      SumSnoc(Size(), groups, Group(cluster, [x], [y], [y - x]));
    }
    hide Sum;
  }

  lemma {:induction false} TablesCount(held: seq<Market>, candidate: Scorer, incumbent: Scorer)
    ensures Scored(GroupsOf(held, candidate, incumbent)) == |Filter(ScoredByBoth(candidate, incumbent), held)|
  {
    if held != [] {
      var front, m := held[..|held| - 1], held[|held| - 1];
      TablesCount(front, candidate, incumbent);
      if Both(m, candidate, incumbent) {
        NoteCounts(GroupsOf(front, candidate, incumbent), m.cluster.GetOr(""), candidate(m.ticker).value, incumbent(m.ticker).value);
      }
      hide Scored, Note;
    }
  }

  /** How many held markets the gate scores. */
  lemma HeldCount(held: seq<Market>, candidate: Scorer, incumbent: Scorer)
    requires SameCohort(held, candidate, incumbent)
    ensures Scored(GroupsOf(Sort(held, TickerLeq), candidate, incumbent)) == |Filter(ScoredBy(candidate), held)|
  {
    TablesCount(Sort(held, TickerLeq), candidate, incumbent);
    LinearOrder();
    assert TotalPreorder(TickerLeq);
    FilterSort(ScoredByBoth(candidate, incumbent), held, TickerLeq);
    FilterSame(ScoredByBoth(candidate, incumbent), ScoredBy(candidate), held);
    hide Sort, Filter, Scored, GroupsOf;
  }

  /** In the gate's tables a cluster's mean improvement is the difference of its two scores. */
  lemma GroupImproves(groups: seq<Group>, held: seq<Market>, candidate: Scorer, incumbent: Scorer, k: nat)
    requires Tables(groups, held, candidate, incumbent) && AllPaired(groups) && SameCohort(held, candidate, incumbent) && k < |groups|
    ensures ImprovementMeans(groups)[k] == ClusterScore(held, incumbent)(groups[k].cluster) - ClusterScore(held, candidate)(groups[k].cluster)
    ensures groups[k].cluster in NamesOf(groups)
  {
    var g := groups[k];
    assert g in groups && Paired(g) && NamesOf(groups)[k] == g.cluster;
    TotalsSubtract(g.incumbent, g.candidate, g.improvement);
    hide ClusterScore, Mean, Totals, TableOf;
    TableScores(g, held, candidate, incumbent);
  }

  /** Every scored cluster does better under the candidate weights, by at least the ten-decimal figures' resolution times ten. */
  ghost predicate EveryClusterImproves(held: seq<Market>, names: seq<string>, candidate: Scorer, incumbent: Scorer) {
    forall n {:trigger n in names} :: n in names ==>
      ClusterScore(held, incumbent)(n) - ClusterScore(held, candidate)(n) >= 0.000000001
  }

  lemma ImprovementsAtLeast(held: seq<Market>, names: seq<string>, candidate: Scorer, incumbent: Scorer, groups: seq<Group>)
    requires SameCohort(held, candidate, incumbent) && Lists(names, held, candidate)
    requires EveryClusterImproves(held, names, candidate, incumbent)
    requires groups == GroupsOf(Sort(held, TickerLeq), candidate, incumbent)
    ensures AllPaired(ByName(groups)) && |ByName(groups)| == |groups|
    ensures forall x {:trigger x in ImprovementMeans(ByName(groups))} :: x in ImprovementMeans(ByName(groups)) ==> x >= 0.000000001
  {
    var sorted, ordered := Sort(held, TickerLeq), ByName(groups);
    SortMembers(held, TickerLeq);
    GroupsSound(sorted, candidate, incumbent, set m | m in sorted :: m.cluster.GetOr(""));
    ByNameSound(groups);
    GroupsAreTables(sorted, candidate, incumbent);
    ByNameTables(groups, sorted, candidate, incumbent);
    TablesName(ordered, sorted, candidate, incumbent);
    assert forall c :: HasScored(sorted, c, candidate) <==> HasScored(held, c, candidate);
    var means := ImprovementMeans(ordered);
    hide Sort, ByName, InCluster, ClusterScore, Tables, Mean, GroupsOf, AllPaired;
    forall x {:trigger x in means} | x in means ensures x >= 0.000000001 {
      var k :| 0 <= k < |means| && means[k] == x;
      var n := ordered[k].cluster;
      GroupImproves(ordered, sorted, candidate, incumbent, k);
      assert n in names;
      ClusterScoreInAnyOrder(held, candidate, n);
      ClusterScoreInAnyOrder(held, incumbent, n);
    }
  }

  lemma JudgedAdopts(groups: seq<Group>, interval: PairedInterval, p: Partition, c: Config)
    requires p.Ok? && groups != [] && AllPaired(ByName(groups)) && |ByName(groups)| == |groups| && interval.lower >= 0.000000001
    requires forall x {:trigger x in ImprovementMeans(ByName(groups))} :: x in ImprovementMeans(ByName(groups)) ==> x >= 0.000000001
    ensures Judged(groups, interval, p, c).adopted
  {
    var ordered := ByName(groups);
    MeanAtLeast(ImprovementMeans(ordered), 0.000000001);
    MeansLinear(ordered);
    var mine, theirs := Mean(CandidateMeans(ordered)), Mean(IncumbentMeans(ordered));
    hide Mean, Round10, ByName;
    RoundedStaysPositive(theirs - mine);
    FiguresAgree(mine, theirs);
  }

  /**
   Weights that improve every scored cluster are adopted, whatever the draws, once the partition stands, the two weight
   vectors score the same markets, and markets and clusters reach the thresholds without exceeding the bootstrap's bound.
   */
  lemma AdoptsWhenEveryClusterImproves(markets: seq<Market>, trained: set<string> -> Option<Scorer>, incumbent: Scorer, c: Config,
                                       stream: RecalReceipt.Stream, candidate: Scorer, names: seq<string>)
    requires ValidConfig(c) && PartitionOf(markets, c).Ok? && trained(PartitionOf(markets, c).train) == Some(candidate)
    requires var held := HeldMarkets(markets, PartitionOf(markets, c).holdout);
             && SameCohort(held, candidate, incumbent) && Lists(names, held, candidate)
             && |Filter(ScoredBy(candidate), held)| >= c.minHoldout && c.minClusters <= |names| <= 10_000
             && EveryClusterImproves(held, names, candidate, incumbent)
    ensures GateReceipt(markets, trained, incumbent, c, stream).adopted
  {
    var p := PartitionOf(markets, c);
    var held := HeldMarkets(markets, p.holdout);
    var sorted := HoldoutList(markets, p.holdout);
    HoldoutIsHeld(markets, p.holdout);
    NoMismatch(sorted, candidate, incumbent);
    hide PartitionOf, HoldoutList, HeldMarkets, GroupsOf, Mismatches, Scored, ByName, PairedCi, ImprovementMeans, Judged,
         Filter, Sort, EveryClusterImproves, Lists, AllPaired;
    HeldMeans(held, candidate, incumbent, names);
    HeldCount(held, candidate, incumbent);
    var groups := GroupsOf(sorted, candidate, incumbent);
    ImprovementsAtLeast(held, names, candidate, incumbent, groups);
    AdoptsTables(groups, p, c, stream);
  }

  lemma AdoptsTables(groups: seq<Group>, p: Partition, c: Config, stream: RecalReceipt.Stream)
    requires p.Ok? && ValidConfig(c) && AllPaired(ByName(groups)) && |ByName(groups)| == |groups|
    requires Scored(groups) >= c.minHoldout && c.minClusters <= |groups| <= 10_000
    requires forall x {:trigger x in ImprovementMeans(ByName(groups))} :: x in ImprovementMeans(ByName(groups)) ==> x >= 0.000000001
    ensures Assessed(groups, 0, p, c, stream).adopted
  {
    var means := ImprovementMeans(ByName(groups));
    hide Scored, ByName, PairedCi, Judged, AllPaired;
    LowerAtLeast(means, stream);
    JudgedAdopts(groups, PairedCi(means, stream).value, p, c);
  }

  // ----- the interval -----

  /** The resamples are as many as the draw budget affords, between 200 and 1000. */
  lemma BudgetHolds(clusters: int)
    requires 1 <= clusters <= 10_000
    ensures var n := Resamples(clusters);
            200 <= n <= 1000 && n * clusters <= 2_000_000 && (n == 1000 || (n + 1) * clusters > 2_000_000)
  {
    var q := 2_000_000 / clusters;
    assert q * clusters <= 2_000_000 < (q + 1) * clusters;
    AtLeastTwoHundred(q, clusters);
    if q >= 1000 {
      Products(1000, q, clusters);
    }
  }

  lemma AtLeastTwoHundred(q: int, clusters: int)
    requires 1 <= clusters <= 10_000 && 2_000_000 < (q + 1) * clusters
    ensures q >= 200
  {
    if q < 200 {
      Products(q + 1, 200, clusters);
    }
  }

  lemma Products(a: int, b: int, n: int)
    requires a <= b && n >= 0
    ensures a * n <= b * n
  {
  }

  /** The interval's ends are read off the ordered resamples at the two tails of 0.025, and each leaves its share outside. */
  lemma EndsCutTheTails(means: seq<real>, stream: RecalReceipt.Stream) returns (samples: seq<real>, lower: real, upper: real)
    requires 2 <= |means| <= 10_000
    ensures PairedCi(means, stream).Some?
    ensures var i := PairedCi(means, stream).value; i.lower == Round10(lower) && i.upper == Round10(upper)
    ensures 200 <= |samples| <= 1000 && |samples| * |means| <= 2_000_000
    ensures |samples| == 1000 || (|samples| + 1) * |means| > 2_000_000
    ensures forall i :: 0 <= i < |samples| ==> samples[i] == DrawnMean(means, stream, i * |means|)
    ensures var last := (|samples| - 1) as real;
            && ReadAt(Sort(samples, RealLeq), last * 0.025, lower) && ReadAt(Sort(samples, RealLeq), last * 0.975, upper)
            && |Filter(Below(lower), samples)| as real < last * 0.025 + 1.0
            && |Filter(Above(upper), samples)| as real < last * 0.025 + 1.0
  {
    samples := Samples(means, stream, Resamples(|means|));
    lower, upper := Percentile(samples, 0.025), Percentile(samples, 0.975);
    BudgetHolds(|means|);
    hide Percentile, Mean, Sort, Filter, ReadAt, Resamples;
    TailsCut(samples);
  }

  /** The plain mean of one resample: as many draws as there are clusters. */
  function DrawnMean(means: seq<real>, stream: RecalReceipt.Stream, from: nat): real
    requires means != []
  {
    Mean(seq(|means|, j requires 0 <= j < |means| => means[stream(from + j) % |means|]))
  }

  lemma TailsCut(samples: seq<real>)
    requires samples != []
    ensures var last, lower, upper := (|samples| - 1) as real, Percentile(samples, 0.025), Percentile(samples, 0.975);
            && ReadAt(Sort(samples, RealLeq), last * 0.025, lower) && ReadAt(Sort(samples, RealLeq), last * 0.975, upper)
            && |Filter(Below(lower), samples)| as real < last * 0.025 + 1.0
            && |Filter(Above(upper), samples)| as real < last * 0.025 + 1.0
  {
    var last := (|samples| - 1) as real;
    hide Percentile, Sort, Filter, ReadAt;
    PercentileInterpolates(samples, 0.025, last * 0.025);
    PercentileInterpolates(samples, 0.975, last * 0.975);
    PercentileRank(samples, 0.025, last * 0.025);
    PercentileRank(samples, 0.975, last * 0.975);
  }

  // ----- what a refusal says -----

  ghost predicate ListsBetween(held: seq<Market>, candidate: Scorer, low: int, high: int) {
    exists names {:trigger Lists(names, held, candidate)} :: Lists(names, held, candidate) && low <= |names| <= high
  }

  /** The obstacle that a receipt without evidence names is there. */
  ghost predicate Obstacle(why: Why, markets: seq<Market>, trained: set<string> -> Option<Scorer>, incumbent: Scorer, c: Config) {
    var p := PartitionOf(markets, c);
    var valid := 0.0 < c.fraction < 1.0 && c.minHoldout >= 1 && c.minClusters >= 1;
    if why == InvalidConfiguration then !valid
    else if why.Unsplit? then valid && !p.Ok? && p.reason == why.partition
    else if why == NoCandidateWeights then valid && p.Ok? && trained(p.train) == None
    else valid && p.Ok? && trained(p.train).Some? && ScoringObstacle(why, HeldMarkets(markets, p.holdout), trained(p.train).value, incumbent, c)
  }

  ghost predicate ScoringObstacle(why: Why, held: seq<Market>, candidate: Scorer, incumbent: Scorer, c: Config) {
    var scored := |Filter(ScoredBy(candidate), held)|;
    if why == CohortMismatch then !SameCohort(held, candidate, incumbent)
    else
      && SameCohort(held, candidate, incumbent)
      && match why
         case NothingScorable => scored == 0
         case TooFewScorable => 0 < scored < c.minHoldout
         case TooFewScorableClusters => scored >= c.minHoldout && ListsBetween(held, candidate, 0, c.minClusters - 1)
         case BootstrapFailed => scored >= c.minHoldout && ListsBetween(held, candidate, 10_001, |held|)
         case _ => false
  }

  /** The reason a scored cohort is refused for, from its counts. */
  lemma AssessedReason(groups: seq<Group>, p: Partition, c: Config, stream: RecalReceipt.Stream)
    requires p.Ok? && c.minHoldout >= 1 && c.minClusters >= 1
    ensures var r := Assessed(groups, 0, p, c, stream);
            r.evidence.None? ==>
              || (r.reason == NothingScorable && Scored(groups) == 0)
              || (r.reason == TooFewScorable && Scored(groups) != 0 && Scored(groups) < c.minHoldout)
              || (r.reason == TooFewScorableClusters && Scored(groups) >= c.minHoldout && |groups| < c.minClusters)
              || (r.reason == BootstrapFailed && Scored(groups) >= c.minHoldout && |groups| > 10_000)
  {
    assert |ImprovementMeans(ByName(groups))| == |ByName(groups)| == |groups|;
    assert groups == [] ==> Scored(groups) == 0;
    hide Scored, Mean, Percentile, Samples, Round10, ByName, ImprovementMeans;
  }

  lemma CountsExplain(why: Why, names: seq<string>, held: seq<Market>, candidate: Scorer, incumbent: Scorer, c: Config)
    requires SameCohort(held, candidate, incumbent) && Lists(names, held, candidate) && |names| <= |held|
    requires var scored := |Filter(ScoredBy(candidate), held)|;
             || (why == NothingScorable && scored == 0)
             || (why == TooFewScorable && scored != 0 && scored < c.minHoldout)
             || (why == TooFewScorableClusters && scored >= c.minHoldout && |names| < c.minClusters)
             || (why == BootstrapFailed && scored >= c.minHoldout && |names| > 10_000)
    ensures ScoringObstacle(why, held, candidate, incumbent, c)
  {
    hide Filter, SameCohort, Lists;
  }

  lemma MismatchReason(groups: seq<Group>, mismatches: nat, p: Partition, c: Config, stream: RecalReceipt.Stream)
    requires p.Ok? && mismatches > 0
    ensures Assessed(groups, mismatches, p, c, stream).reason == CohortMismatch
  {
  }

  lemma AssessedObstacle(held: seq<Market>, candidate: Scorer, incumbent: Scorer, p: Partition, c: Config, stream: RecalReceipt.Stream)
    requires p.Ok? && c.minHoldout >= 1 && c.minClusters >= 1
    ensures var sorted := Sort(held, TickerLeq);
            var r := Assessed(GroupsOf(sorted, candidate, incumbent), Mismatches(sorted, candidate, incumbent), p, c, stream);
            r.evidence.None? ==> ScoringObstacle(r.reason, held, candidate, incumbent, c)
  {
    var sorted := Sort(held, TickerLeq);
    var groups, mismatches := GroupsOf(sorted, candidate, incumbent), Mismatches(sorted, candidate, incumbent);
    hide *;
    NoMismatch(sorted, candidate, incumbent);
    SameCohortSorted(held, candidate, incumbent);
    var r := Assessed(groups, mismatches, p, c, stream);
    if !SameCohort(held, candidate, incumbent) {
      MismatchReason(groups, mismatches, p, c, stream);
      MismatchExplains(held, candidate, incumbent, c);
    } else if r.evidence.None? {
      var names := SomeListing(held, candidate, incumbent);
      HeldCount(held, candidate, incumbent);
      HeldMeans(held, candidate, incumbent, names);
      ListingFits(names, held, candidate);
      AssessedReason(groups, p, c, stream);
      CountsExplain(r.reason, names, held, candidate, incumbent, c);
    }
  }

  lemma MismatchExplains(held: seq<Market>, candidate: Scorer, incumbent: Scorer, c: Config)
    requires !SameCohort(held, candidate, incumbent)
    ensures ScoringObstacle(CohortMismatch, held, candidate, incumbent, c)
  {
    hide SameCohort;
  }

  lemma SameCohortSorted(held: seq<Market>, candidate: Scorer, incumbent: Scorer)
    ensures SameCohort(Sort(held, TickerLeq), candidate, incumbent) <==> SameCohort(held, candidate, incumbent)
  {
    SortMembers(held, TickerLeq);
    hide Sort;
  }

  lemma ListingFits(names: seq<string>, held: seq<Market>, candidate: Scorer)
    requires Lists(names, held, candidate)
    ensures |names| <= |held|
  {
    var clusters := set m | m in held :: m.cluster.GetOr("");
    forall n | n in names ensures n in clusters {
      assert HasScored(held, n, candidate);
    }
    NamesFit(names, clusters);
    ClustersFit(held);
  }

  lemma {:induction false} NamesFit(names: seq<string>, clusters: set<string>)
    requires Distinct(names) && forall n :: n in names ==> n in clusters
    ensures |names| <= |clusters|
  {
    if names != [] {
      var front, last := names[..|names| - 1], names[|names| - 1];
      assert names == front + [last] && last in names;
      forall n | n in front ensures n in clusters - {last} {
        var i :| 0 <= i < |front| && front[i] == n;
        assert names[i] == n;
      }
      NamesFit(front, clusters - {last});
    }
  }

  lemma {:induction false} ClustersFit(held: seq<Market>)
    ensures |set m | m in held :: m.cluster.GetOr("")| <= |held|
  {
    if held != [] {
      var front, last := held[..|held| - 1], held[|held| - 1];
      ClustersFit(front);
      var before, all := set m | m in front :: m.cluster.GetOr(""), set m | m in held :: m.cluster.GetOr("");
      assert held == front + [last];
      assert all == before + {last.cluster.GetOr("")};
    }
  }

  /** A receipt without evidence names an obstacle that is there. */
  lemma RefusalIsTrue(markets: seq<Market>, trained: set<string> -> Option<Scorer>, incumbent: Scorer, c: Config,
                      stream: RecalReceipt.Stream)
    requires GateReceipt(markets, trained, incumbent, c, stream).evidence.None?
    ensures Obstacle(GateReceipt(markets, trained, incumbent, c, stream).reason, markets, trained, incumbent, c)
  {
    var p := PartitionOf(markets, c);
    if ValidConfig(c) && p.Ok? && trained(p.train).Some? {
      HoldoutIsHeld(markets, p.holdout);
      hide PartitionOf, HoldoutList, HeldMarkets, Assessed, GroupsOf, Mismatches, ScoringObstacle, Sort;
      AssessedObstacle(HeldMarkets(markets, p.holdout), trained(p.train).value, incumbent, p, c, stream);
      ScoringReasons(GateReceipt(markets, trained, incumbent, c, stream).reason, HeldMarkets(markets, p.holdout),
                     trained(p.train).value, incumbent, c);
    }
  }

  lemma ScoringReasons(why: Why, held: seq<Market>, candidate: Scorer, incumbent: Scorer, c: Config)
    requires ScoringObstacle(why, held, candidate, incumbent, c)
    ensures why in {CohortMismatch, NothingScorable, TooFewScorable, TooFewScorableClusters, BootstrapFailed}
  {
  }

  // ----- what the validator lets through -----

  ghost predicate Within(a: real, b: real, gap: real) {
    -gap <= a - b <= gap
  }

  /** On figures of Brier size the validator's closeness is an absolute one. */
  lemma CloseIsNear(a: real, b: real)
    requires IsClose(a, b, 0.000000001) && -1.0 <= b <= 1.0
    ensures Within(a, b, 0.0000000011)
  {
  }

  /** Whoever wrote it, a receipt the validator lets through claims a real improvement on enough evidence, and nothing else. */
  lemma ValidReceiptMeans(r: Receipt)
    requires AdoptionValid(r) && 0.0 <= r.evidence.value.candidate <= 1.0 && 0.0 <= r.evidence.value.incumbent <= 1.0
    ensures r.status == OK && r.adopted && r.verified && !r.execution && !r.capital
    ensures r.mode == "held_out_research_challenger" && r.authority == "weight_recalibration_only"
    ensures var e := r.evidence.value;
            && e.candidate < e.incumbent && e.improvement > 0.0 && e.improvement > e.minImprovement
            && e.interval.lower > 0.0 && e.interval.lower > e.minImprovement && e.interval.lower <= e.interval.upper
            && Within(e.improvement, e.incumbent - e.candidate, 0.0000000011)
            && Within(e.delta, e.candidate - e.incumbent, 0.0000000011)
            && Within(e.interval.mean, e.incumbent - e.candidate, 0.0000000024)
    ensures var e := r.evidence.value;
            && 1 <= e.minHoldout <= e.holdoutMarkets && 1 <= e.minClusters <= e.holdoutClusters <= e.holdoutMarkets
            && e.holdoutClusters <= 10_000 && e.holdoutClusters <= e.partitionClusters
            && e.trainMarkets >= 1 && e.trainClusters >= 1 && e.overlap == 0 && e.identityComplete && e.atomicSplit
    ensures var i, n := r.evidence.value.interval, r.evidence.value.holdoutClusters;
            && i.clusters == n && i.maxDraws == 2_000_000 && Within(i.confidence, 0.95, 0.000000001)
            && (n == 1 ==> i.resamples == 0)
            && (n > 1 ==> 200 <= i.resamples <= 1000 && i.resamples * n <= 2_000_000
                          && (i.resamples == 1000 || (i.resamples + 1) * n > 2_000_000))
  {
    var e := r.evidence.value;
    BudgetHolds(e.holdoutClusters);
    CloseIsNear(e.delta, e.candidate - e.incumbent);
    CloseIsNear(e.improvement, e.incumbent - e.candidate);
    ConfidenceNear(e.interval.confidence);
    MeanNear(e.interval.mean, e.improvement, e.incumbent - e.candidate);
    hide IsClose, Resamples;
  }

  lemma ConfidenceNear(x: real)
    ensures IsClose(x, 0.95, 0.000000000001) ==> Within(x, 0.95, 0.000000001)
  {
  }

  lemma MeanNear(mean: real, improvement: real, gap: real)
    requires IsClose(mean, improvement, 0.000000001) && Within(improvement, gap, 0.0000000011) && -1.0 <= gap <= 1.0
    ensures Within(mean, gap, 0.0000000024)
  {
  }
}
