/**
 The recalibration gate's chronological split (`autonomy/backtest.py`): the shortest run of
 latest time blocks that meets both holdout thresholds, with something left to train on.
 */
module RecalPartition {
  import opened Options
  import opened Rounding
  import opened StableSorting
  import opened TimeBlocks

  /** A settled market; `cluster` is None when its identity is rejected, `settled` when its timestamp is. */
  datatype Market = Market(ticker: string, cluster: Option<string>, settled: Option<int>)

  datatype Reason =
    | InsufficientHoldout | InsufficientEventClusters | InsufficientClusterAtomicHoldout
    | NoEarlierTrainingPartition | InvalidIdentity | InvalidTimestamps | ChronologyInvariantFailed

  datatype Partition =
    | Skipped(reason: Reason)
    | Invalid(reason: Reason)
    | Error(reason: Reason)
    | Ok(train: set<string>, holdout: set<string>, trainClusters: set<string>, holdoutClusters: set<string>, blocks: nat, target: int)

  datatype Config = Config(fraction: real, minHoldout: int, minClusters: int)

  /** What the gate checks before it asks for a split. */
  predicate ValidConfig(c: Config) {
    0.0 < c.fraction < 1.0 && c.minHoldout > 0 && c.minClusters > 0
  }

  predicate ValidMarket(m: Market) {
    m.cluster.Some? && m.settled.Some?
  }

  function RowOf(m: Market): Row {
    Row(m.cluster.GetOr(""), m.ticker, m.settled.GetOr(0), m.settled.GetOr(0))
  }

  function RowsOf(markets: seq<Market>): (rows: seq<Row>)
    ensures |rows| == |markets|
    ensures forall i :: 0 <= i < |rows| ==> rows[i] == RowOf(markets[i])
  {
    seq(|markets|, i requires 0 <= i < |markets| => RowOf(markets[i]))
  }

  function Target(markets: seq<Market>, c: Config): int {
    Trunc(|markets| as real * c.fraction)
  }

  function TickersOf(rows: seq<Row>): set<string> {
    set r | r in rows :: r.ticker
  }

  function ClustersOf(rows: seq<Row>): set<string> {
    set r | r in rows :: r.cluster
  }

  // ----- runs of latest blocks -----

  function SuffixMarkets(blocks: seq<Block>, from: nat): nat
    requires from <= |blocks|
    decreases |blocks| - from
  {
    if from == |blocks| then 0 else |TickersOf(blocks[from].rows)| + SuffixMarkets(blocks, from + 1)
  }

  function SuffixClusters(blocks: seq<Block>, from: nat): nat
    requires from <= |blocks|
    decreases |blocks| - from
  {
    if from == |blocks| then 0 else |blocks[from].clusters| + SuffixClusters(blocks, from + 1)
  }

  predicate Enough(blocks: seq<Block>, from: nat, target: int, minClusters: int)
    requires from <= |blocks|
  {
    SuffixMarkets(blocks, from) >= target && SuffixClusters(blocks, from) >= minClusters
  }

  /** Walking back from the latest block until both thresholds are met. */
  function PickFrom(blocks: seq<Block>, k: nat, target: int, minClusters: int): (s: nat)
    requires k <= |blocks|
    ensures s <= k
  {
    if k == 0 || Enough(blocks, k, target, minClusters) then k
    else PickFrom(blocks, k - 1, target, minClusters)
  }

  function SuffixTickers(blocks: seq<Block>, from: nat): set<string>
    requires from <= |blocks|
    decreases |blocks| - from
  {
    if from == |blocks| then {} else TickersOf(blocks[from].rows) + SuffixTickers(blocks, from + 1)
  }

  function SuffixClusterIds(blocks: seq<Block>, from: nat): set<string>
    requires from <= |blocks|
    decreases |blocks| - from
  {
    if from == |blocks| then {} else blocks[from].clusters + SuffixClusterIds(blocks, from + 1)
  }

  // ----- the split -----

  function Split(rows: seq<Row>, target: int, minClusters: int): Partition {
    var blocks := BlocksOf(rows);
    if |ClusterKeys(rows)| <= minClusters then Skipped(InsufficientEventClusters)
    else
      var s := PickFrom(blocks, |blocks|, target, minClusters);
      if !Enough(blocks, s, target, minClusters) then Skipped(InsufficientClusterAtomicHoldout)
      else if s == 0 then Skipped(NoEarlierTrainingPartition)
      else Conclude(rows, SuffixTickers(blocks, s), SuffixClusterIds(blocks, s), |blocks|, target)
  }

  /** The closing checks: no shared cluster, and the latest training time before the earliest holdout time. */
  function Conclude(rows: seq<Row>, holdout: set<string>, holdoutClusters: set<string>, blocks: nat, target: int): Partition {
    var train := TickersOf(rows) - holdout;
    var trainClusters := set r | r in rows && r.ticker in train :: r.cluster;
    if trainClusters * holdoutClusters != {} || !StrictlyBefore(rows, holdout)
    then Error(ChronologyInvariantFailed)
    else Ok(train, holdout, trainClusters, holdoutClusters, blocks, target)
  }

  predicate StrictlyBefore(rows: seq<Row>, holdout: set<string>) {
    forall r, q {:trigger r in rows, q in rows} | r in rows && q in rows ::
      r.ticker !in holdout && q.ticker in holdout ==> r.at < q.at
  }

  function PartitionOf(markets: seq<Market>, c: Config): Partition {
    if Target(markets, c) < c.minHoldout then Skipped(InsufficientHoldout)
    else if exists m | m in markets :: m.cluster.None? then Invalid(InvalidIdentity)
    else if exists m | m in markets :: m.settled.None? then Invalid(InvalidTimestamps)
    else Split(RowsOf(markets), Target(markets, c), c.minClusters)
  }

  method ClusterAtomicPartition(markets: seq<Market>, c: Config) returns (p: Partition)
    ensures p == PartitionOf(markets, c)
  {
    var target := Target(markets, c);
    if target < c.minHoldout {
      return Skipped(InsufficientHoldout);
    }
    var badIdentities, badTimes := 0, 0;
    for i := 0 to |markets|
      invariant badIdentities >= 0 && badTimes >= 0
      invariant badIdentities > 0 <==> exists k :: 0 <= k < i && markets[k].cluster.None?
      invariant badIdentities == 0 ==> (badTimes > 0 <==> exists k :: 0 <= k < i && markets[k].settled.None?)
    {
      if markets[i].cluster.None? {
        badIdentities := badIdentities + 1;
      } else if markets[i].settled.None? {
        badTimes := badTimes + 1;
      }
    }
    if badIdentities > 0 {
      var k :| 0 <= k < |markets| && markets[k].cluster.None?;
      assert markets[k] in markets;
      return Invalid(InvalidIdentity);
    }
    if badTimes > 0 {
      var k :| 0 <= k < |markets| && markets[k].settled.None?;
      assert markets[k] in markets;
      return Invalid(InvalidTimestamps);
    }
    p := SplitRows(RowsOf(markets), target, c.minClusters);
  }

  method SplitRows(rows: seq<Row>, target: int, minClusters: int) returns (p: Partition)
    ensures p == Split(rows, target, minClusters)
  {
    hide BlocksOf, ClusterKeys, Conclude, TickersOf, SuffixMarkets, SuffixClusters, SuffixTickers, SuffixClusterIds;
    if |ClusterKeys(rows)| <= minClusters {
      return Skipped(InsufficientEventClusters);
    }
    var blocks := BuildBlocks(rows);
    var s := |blocks|;
    EmptySuffix(blocks);
    var holdout: set<string>, holdoutClusters: set<string> := {}, {};
    var markets, clusters := 0, 0;
    while s > 0 && !(markets >= target && clusters >= minClusters)
      invariant 0 <= s <= |blocks|
      invariant PickFrom(blocks, |blocks|, target, minClusters) == PickFrom(blocks, s, target, minClusters)
      invariant markets == SuffixMarkets(blocks, s) && clusters == SuffixClusters(blocks, s)
      invariant holdout == SuffixTickers(blocks, s) && holdoutClusters == SuffixClusterIds(blocks, s)
    {
      s := s - 1;
      SuffixStep(blocks, s);
      markets := markets + |TickersOf(blocks[s].rows)|;
      clusters := clusters + |blocks[s].clusters|;
      holdout := TickersOf(blocks[s].rows) + holdout;
      holdoutClusters := blocks[s].clusters + holdoutClusters;
    }
    if markets < target || clusters < minClusters {
      return Skipped(InsufficientClusterAtomicHoldout);
    }
    if s == 0 {
      return Skipped(NoEarlierTrainingPartition);
    }
    p := Conclude(rows, holdout, holdoutClusters, |blocks|, target);
  }

  lemma EmptySuffix(blocks: seq<Block>)
    ensures SuffixMarkets(blocks, |blocks|) == 0 && SuffixClusters(blocks, |blocks|) == 0
    ensures SuffixTickers(blocks, |blocks|) == {} && SuffixClusterIds(blocks, |blocks|) == {}
  {
  }

  lemma SuffixStep(blocks: seq<Block>, s: nat)
    requires s < |blocks|
    ensures SuffixMarkets(blocks, s) == SuffixMarkets(blocks, s + 1) + |TickersOf(blocks[s].rows)|
    ensures SuffixClusters(blocks, s) == SuffixClusters(blocks, s + 1) + |blocks[s].clusters|
    ensures SuffixTickers(blocks, s) == TickersOf(blocks[s].rows) + SuffixTickers(blocks, s + 1)
    ensures SuffixClusterIds(blocks, s) == blocks[s].clusters + SuffixClusterIds(blocks, s + 1)
  {
    hide TickersOf;
  }

  // ----- legal splits -----

  ghost predicate DistinctTickers(rows: seq<Row>) {
    forall r, q {:trigger r in rows, q in rows} :: r in rows && q in rows && r.ticker == q.ticker ==> r == q
  }

  ghost predicate ClustersWhole(rows: seq<Row>, holdout: set<string>) {
    forall r, q {:trigger r in rows, q in rows} ::
      r in rows && q in rows && r.cluster == q.cluster ==> (r.ticker in holdout <==> q.ticker in holdout)
  }

  ghost predicate SomethingLeft(rows: seq<Row>, holdout: set<string>) {
    exists r {:trigger r in rows} :: r in rows && r.ticker !in holdout
  }

  /** No cluster divided, something to train on, every training time before every holdout time. */
  ghost predicate AtomicCut(rows: seq<Row>, holdout: set<string>) {
    && holdout <= TickersOf(rows) && ClustersWhole(rows, holdout)
    && SomethingLeft(rows, holdout) && StrictlyBefore(rows, holdout)
  }

  ghost function HeldClusters(rows: seq<Row>, holdout: set<string>): set<string> {
    set r | r in rows && r.ticker in holdout :: r.cluster
  }

  ghost predicate Legal(rows: seq<Row>, holdout: set<string>, target: int, minClusters: int) {
    AtomicCut(rows, holdout) && |holdout| >= target && |HeldClusters(rows, holdout)| >= minClusters
  }

  /** The blocks hold exactly the rows, in order, and a ticker names one row. */
  ghost predicate Tiles(blocks: seq<Block>, rows: seq<Row>) {
    && Chain(blocks) && DistinctTickers(rows)
    && (forall i, r {:trigger r in blocks[i].rows} :: 0 <= i < |blocks| && r in blocks[i].rows ==> r in rows)
    && (forall r {:trigger r in rows} :: r in rows ==> exists i :: 0 <= i < |blocks| && r in blocks[i].rows)
  }

  lemma BlocksTile(rows: seq<Row>)
    requires DistinctTickers(rows)
    ensures Tiles(BlocksOf(rows), rows)
  {
    BlocksPartition(rows);
    var blocks := BlocksOf(rows);
    hide BlocksOf, Chain, DistinctTickers;
    forall i, r | 0 <= i < |blocks| && r in blocks[i].rows ensures r in rows {
      RowHasBlock(rows, r);
    }
    forall r | r in rows ensures exists i :: 0 <= i < |blocks| && r in blocks[i].rows {
      RowHasBlock(rows, r);
    }
  }

  lemma RowAt(blocks: seq<Block>, rows: seq<Row>, i: nat, r: Row)
    requires Tiles(blocks, rows) && i < |blocks| && r in blocks[i].rows
    ensures r in rows && blocks[i].start <= r.at <= blocks[i].end && r.cluster in blocks[i].clusters
  {
    hide DistinctTickers;
    assert BlockOk(blocks[i]);
  }

  lemma BlockFor(blocks: seq<Block>, rows: seq<Row>, r: Row) returns (i: nat)
    requires Tiles(blocks, rows) && r in rows
    ensures i < |blocks| && r in blocks[i].rows
  {
    hide DistinctTickers, Chain;
    i :| 0 <= i < |blocks| && r in blocks[i].rows;
  }

  lemma RowFor(blocks: seq<Block>, rows: seq<Row>, i: nat, c: string) returns (r: Row)
    requires Tiles(blocks, rows) && i < |blocks| && c in blocks[i].clusters
    ensures r in blocks[i].rows && r.cluster == c
  {
    hide DistinctTickers;
    assert BlockOk(blocks[i]);
    r :| r in blocks[i].rows && r.cluster == c;
  }

  lemma SomeRow(blocks: seq<Block>, rows: seq<Row>, i: nat) returns (r: Row)
    requires Tiles(blocks, rows) && i < |blocks|
    ensures r in blocks[i].rows && r in rows
  {
    assert BlockOk(blocks[i]);
    r := blocks[i].rows[0];
    assert r in blocks[i].rows;
  }

  lemma BlocksApart(blocks: seq<Block>, i: nat, j: nat)
    requires Chain(blocks) && i < j < |blocks|
    ensures blocks[i].end < blocks[j].start && blocks[i].clusters !! blocks[j].clusters
  {
  }

  lemma InTime(blocks: seq<Block>, rows: seq<Row>, i: nat, j: nat, r: Row, q: Row)
    requires Tiles(blocks, rows) && i < j < |blocks| && r in blocks[i].rows && q in blocks[j].rows
    ensures r.at < q.at
  {
    RowAt(blocks, rows, i, r);
    RowAt(blocks, rows, j, q);
    hide DistinctTickers;
    BlocksApart(blocks, i, j);
  }

  lemma SameBlock(blocks: seq<Block>, rows: seq<Row>, i: nat, j: nat, r: Row, q: Row)
    requires Tiles(blocks, rows) && i < |blocks| && j < |blocks|
    requires r in blocks[i].rows && q in blocks[j].rows && (r.ticker == q.ticker || r.cluster == q.cluster)
    ensures i == j
  {
    RowAt(blocks, rows, i, r);
    RowAt(blocks, rows, j, q);
    assert r.cluster == q.cluster;
    hide DistinctTickers, Chain;
    if i < j {
      BlocksApart(blocks, i, j);
    } else if j < i {
      BlocksApart(blocks, j, i);
    }
  }

  lemma {:induction false} InSuffix(blocks: seq<Block>, from: nat, t: string)
    requires from <= |blocks|
    ensures t in SuffixTickers(blocks, from)
            <==> exists i, r :: from <= i < |blocks| && r in blocks[i].rows && r.ticker == t
    decreases |blocks| - from
  {
    if from < |blocks| {
      InSuffix(blocks, from + 1, t);
    }
  }

  lemma {:induction false} ClusterInSuffix(blocks: seq<Block>, from: nat, c: string)
    requires from <= |blocks|
    ensures c in SuffixClusterIds(blocks, from) <==> exists i :: from <= i < |blocks| && c in blocks[i].clusters
    decreases |blocks| - from
  {
    if from < |blocks| {
      ClusterInSuffix(blocks, from + 1, c);
    }
  }

  lemma HeldFrom(blocks: seq<Block>, rows: seq<Row>, s: nat, i: nat, r: Row)
    requires Tiles(blocks, rows) && s <= |blocks| && i < |blocks| && r in blocks[i].rows
    ensures r.ticker in SuffixTickers(blocks, s) <==> s <= i
  {
    InSuffix(blocks, s, r.ticker);
    hide SuffixTickers, Tiles;
    if r.ticker in SuffixTickers(blocks, s) {
      var j, q :| s <= j < |blocks| && q in blocks[j].rows && q.ticker == r.ticker;
      SameBlock(blocks, rows, i, j, r, q);
    }
  }

  lemma DisjointSizes(a: set<string>, b: set<string>)
    requires a !! b
    ensures |a + b| == |a| + |b|
  {
  }

  lemma {:induction false} CountSuffix(blocks: seq<Block>, rows: seq<Row>, s: nat)
    requires Tiles(blocks, rows) && s <= |blocks|
    ensures |SuffixTickers(blocks, s)| == SuffixMarkets(blocks, s)
    ensures |SuffixClusterIds(blocks, s)| == SuffixClusters(blocks, s)
    decreases |blocks| - s
  {
    hide Tiles, TickersOf;
    if s < |blocks| {
      CountSuffix(blocks, rows, s + 1);
      TickersApart(blocks, rows, s);
      ClustersApart(blocks, rows, s);
      DisjointSizes(TickersOf(blocks[s].rows), SuffixTickers(blocks, s + 1));
      DisjointSizes(blocks[s].clusters, SuffixClusterIds(blocks, s + 1));
    }
  }

  lemma TickersApart(blocks: seq<Block>, rows: seq<Row>, s: nat)
    requires Tiles(blocks, rows) && s < |blocks|
    ensures TickersOf(blocks[s].rows) !! SuffixTickers(blocks, s + 1)
  {
    hide Tiles, SuffixTickers;
    forall t | t in TickersOf(blocks[s].rows) ensures t !in SuffixTickers(blocks, s + 1) {
      var r :| r in blocks[s].rows && r.ticker == t;
      HeldFrom(blocks, rows, s + 1, s, r);
    }
  }

  lemma ClustersApart(blocks: seq<Block>, rows: seq<Row>, s: nat)
    requires Tiles(blocks, rows) && s < |blocks|
    ensures blocks[s].clusters !! SuffixClusterIds(blocks, s + 1)
  {
    hide SuffixClusterIds, DistinctTickers, BlockOk;
    forall c | c in blocks[s].clusters ensures c !in SuffixClusterIds(blocks, s + 1) {
      ClusterInSuffix(blocks, s + 1, c);
      forall i | s + 1 <= i < |blocks| ensures c !in blocks[i].clusters {
        BlocksApart(blocks, s, i);
      }
    }
  }

  lemma SuffixHolds(blocks: seq<Block>, rows: seq<Row>, s: nat)
    requires Tiles(blocks, rows) && s <= |blocks|
    ensures HeldClusters(rows, SuffixTickers(blocks, s)) == SuffixClusterIds(blocks, s)
    ensures SuffixTickers(blocks, s) <= TickersOf(rows)
  {
    hide Tiles, SuffixTickers, SuffixClusterIds;
    var held := HeldClusters(rows, SuffixTickers(blocks, s));
    forall c | c in held ensures c in SuffixClusterIds(blocks, s) {
      var r :| r in rows && r.ticker in SuffixTickers(blocks, s) && r.cluster == c;
      var i := BlockFor(blocks, rows, r);
      HeldFrom(blocks, rows, s, i, r);
      RowAt(blocks, rows, i, r);
      ClusterInSuffix(blocks, s, c);
    }
    forall c | c in SuffixClusterIds(blocks, s) ensures c in held {
      ClusterInSuffix(blocks, s, c);
      var i :| s <= i < |blocks| && c in blocks[i].clusters;
      var r := RowFor(blocks, rows, i, c);
      HeldFrom(blocks, rows, s, i, r);
      RowAt(blocks, rows, i, r);
    }
    forall t | t in SuffixTickers(blocks, s) ensures t in TickersOf(rows) {
      InSuffix(blocks, s, t);
      var i, r :| s <= i < |blocks| && r in blocks[i].rows && r.ticker == t;
      RowAt(blocks, rows, i, r);
    }
  }

  lemma SuffixPair(blocks: seq<Block>, rows: seq<Row>, s: nat, r: Row, q: Row)
    requires Tiles(blocks, rows) && s <= |blocks| && r in rows && q in rows
    ensures var holdout := SuffixTickers(blocks, s);
            && (r.cluster == q.cluster ==> (r.ticker in holdout <==> q.ticker in holdout))
            && (r.ticker !in holdout && q.ticker in holdout ==> r.at < q.at)
  {
    hide SuffixTickers, Tiles;
    var i := BlockFor(blocks, rows, r);
    var j := BlockFor(blocks, rows, q);
    HeldFrom(blocks, rows, s, i, r);
    HeldFrom(blocks, rows, s, j, q);
    if r.cluster == q.cluster {
      SameBlock(blocks, rows, i, j, r, q);
    }
    if i < j {
      InTime(blocks, rows, i, j, r, q);
    }
  }

  lemma SuffixKeepsClusters(blocks: seq<Block>, rows: seq<Row>, s: nat)
    requires Tiles(blocks, rows) && s <= |blocks|
    ensures ClustersWhole(rows, SuffixTickers(blocks, s))
  {
    hide SuffixTickers, Tiles;
    forall r, q {:trigger r in rows, q in rows} | r in rows && q in rows && r.cluster == q.cluster
      ensures r.ticker in SuffixTickers(blocks, s) <==> q.ticker in SuffixTickers(blocks, s)
    {
      SuffixPair(blocks, rows, s, r, q);
    }
  }

  lemma SuffixIsLater(blocks: seq<Block>, rows: seq<Row>, s: nat)
    requires Tiles(blocks, rows) && s <= |blocks|
    ensures StrictlyBefore(rows, SuffixTickers(blocks, s))
  {
    hide SuffixTickers, Tiles;
    forall r, q {:trigger r in rows, q in rows} |
      r in rows && q in rows && r.ticker !in SuffixTickers(blocks, s) && q.ticker in SuffixTickers(blocks, s)
      ensures r.at < q.at
    {
      SuffixPair(blocks, rows, s, r, q);
    }
  }

  lemma SuffixLeavesSome(blocks: seq<Block>, rows: seq<Row>, s: nat)
    requires Tiles(blocks, rows) && 0 < s <= |blocks|
    ensures SomethingLeft(rows, SuffixTickers(blocks, s))
  {
    hide SuffixTickers, Tiles;
    var first := SomeRow(blocks, rows, 0);
    HeldFrom(blocks, rows, s, 0, first);
  }

  /** Holding out the latest blocks, but not all of them, divides no cluster and respects time. */
  lemma SuffixIsCut(blocks: seq<Block>, rows: seq<Row>, s: nat)
    requires Tiles(blocks, rows) && 0 < s <= |blocks|
    ensures AtomicCut(rows, SuffixTickers(blocks, s))
  {
    hide SuffixTickers, Tiles, ClustersWhole, StrictlyBefore, SomethingLeft, TickersOf, HeldClusters, SuffixClusterIds;
    SuffixHolds(blocks, rows, s);
    SuffixKeepsClusters(blocks, rows, s);
    SuffixIsLater(blocks, rows, s);
    SuffixLeavesSome(blocks, rows, s);
  }

  // ----- every legal holdout is a run of latest blocks -----

  lemma LateClusters(rows: seq<Row>, holdout: set<string>, a: Row)
    requires AtomicCut(rows, holdout) && a in rows
    ensures a.cluster in HeldClusters(rows, holdout) <==> a.ticker in holdout
  {
    if a.cluster in HeldClusters(rows, holdout) {
      var b :| b in rows && b.ticker in holdout && b.cluster == a.cluster;
    }
  }

  lemma CutOfHoldout(rows: seq<Row>, holdout: set<string>)
    requires AtomicCut(rows, holdout)
    ensures Cut(rows, HeldClusters(rows, holdout))
  {
    forall r, q | r in rows && q in rows && r.cluster !in HeldClusters(rows, holdout) && q.cluster in HeldClusters(rows, holdout)
      ensures r.at < q.at
    {
      LateClusters(rows, holdout, r);
      LateClusters(rows, holdout, q);
    }
  }

  lemma BlockAllOrNothing(rows: seq<Row>, holdout: set<string>, i: nat, r: Row, q: Row)
    requires DistinctTickers(rows) && AtomicCut(rows, holdout) && i < |BlocksOf(rows)|
    requires r in BlocksOf(rows)[i].rows && q in BlocksOf(rows)[i].rows
    ensures r.ticker in holdout <==> q.ticker in holdout
  {
    hide BlocksOf, Tiles, DistinctTickers;
    BlocksTile(rows);
    RowAt(BlocksOf(rows), rows, i, r);
    RowAt(BlocksOf(rows), rows, i, q);
    LateClusters(rows, holdout, r);
    LateClusters(rows, holdout, q);
    CutOfHoldout(rows, holdout);
    BlocksIndivisible(rows, HeldClusters(rows, holdout), i);
    hide HeldClusters, AtomicCut, Cut;
  }

  ghost predicate BlockHeld(b: Block, holdout: set<string>) {
    forall r {:trigger r in b.rows} :: r in b.rows ==> r.ticker in holdout
  }

  ghost predicate BlockFree(b: Block, holdout: set<string>) {
    forall r {:trigger r in b.rows} :: r in b.rows ==> r.ticker !in holdout
  }

  lemma BlockDecided(rows: seq<Row>, holdout: set<string>, i: nat)
    requires DistinctTickers(rows) && AtomicCut(rows, holdout) && i < |BlocksOf(rows)|
    ensures BlockHeld(BlocksOf(rows)[i], holdout) || BlockFree(BlocksOf(rows)[i], holdout)
  {
    var b := BlocksOf(rows)[i];
    if !BlockHeld(b, holdout) {
      var r :| r in b.rows && r.ticker !in holdout;
      forall q | q in b.rows ensures q.ticker !in holdout {
        BlockAllOrNothing(rows, holdout, i, r, q);
      }
    }
  }

  lemma CutInTime(rows: seq<Row>, holdout: set<string>, r: Row, q: Row)
    requires AtomicCut(rows, holdout) && r in rows && q in rows && r.ticker !in holdout && q.ticker in holdout
    ensures r.at < q.at
  {
  }

  /** Once some block is free of the holdout, so is every earlier one. */
  lemma EarlierFree(rows: seq<Row>, holdout: set<string>, i: nat, k: nat)
    requires DistinctTickers(rows) && AtomicCut(rows, holdout) && i < k < |BlocksOf(rows)|
    requires BlockFree(BlocksOf(rows)[k], holdout)
    ensures BlockFree(BlocksOf(rows)[i], holdout)
  {
    var blocks := BlocksOf(rows);
    BlocksTile(rows);
    hide BlocksOf, Tiles, DistinctTickers, AtomicCut;
    var r := SomeRow(blocks, rows, k);
    assert r.ticker !in holdout;
    forall q | q in blocks[i].rows ensures q.ticker !in holdout {
      RowAt(blocks, rows, i, q);
      InTime(blocks, rows, i, k, q, r);
      if q.ticker in holdout {
        CutInTime(rows, holdout, r, q);
      }
    }
  }

  lemma {:induction false} HeldFromSomewhere(rows: seq<Row>, holdout: set<string>, k: nat) returns (m: nat)
    requires DistinctTickers(rows) && AtomicCut(rows, holdout) && k <= |BlocksOf(rows)|
    requires forall i :: k <= i < |BlocksOf(rows)| ==> BlockHeld(BlocksOf(rows)[i], holdout)
    ensures m <= k
    ensures forall i :: m <= i < |BlocksOf(rows)| ==> BlockHeld(BlocksOf(rows)[i], holdout)
    ensures forall i :: 0 <= i < m ==> BlockFree(BlocksOf(rows)[i], holdout)
  {
    hide BlocksOf, BlockHeld, BlockFree, AtomicCut, DistinctTickers;
    if k == 0 {
      m := 0;
    } else {
      BlockDecided(rows, holdout, k - 1);
      if BlockHeld(BlocksOf(rows)[k - 1], holdout) {
        m := HeldFromSomewhere(rows, holdout, k - 1);
      } else {
        m := k;
        forall i | 0 <= i < k - 1 ensures BlockFree(BlocksOf(rows)[i], holdout) {
          EarlierFree(rows, holdout, i, k - 1);
        }
      }
    }
  }

  lemma NotFree(blocks: seq<Block>, holdout: set<string>, m: nat, i: nat, r: Row)
    requires i < |blocks| && m <= |blocks| && r in blocks[i].rows && r.ticker in holdout
    requires forall j :: 0 <= j < m ==> BlockFree(blocks[j], holdout)
    ensures m <= i
  {
  }

  lemma HeldInSuffix(blocks: seq<Block>, rows: seq<Row>, holdout: set<string>, m: nat, t: string)
    requires Tiles(blocks, rows) && m <= |blocks| && holdout <= TickersOf(rows) && t in holdout
    requires forall i :: 0 <= i < m ==> BlockFree(blocks[i], holdout)
    ensures t in SuffixTickers(blocks, m)
  {
    var r :| r in rows && r.ticker == t;
    hide Tiles, SuffixTickers, TickersOf;
    var i := BlockFor(blocks, rows, r);
    NotFree(blocks, holdout, m, i, r);
    HeldFrom(blocks, rows, m, i, r);
  }

  lemma HeldTickers(blocks: seq<Block>, rows: seq<Row>, holdout: set<string>, m: nat, t: string)
    requires Tiles(blocks, rows) && m <= |blocks| && holdout <= TickersOf(rows)
    requires forall i :: m <= i < |blocks| ==> BlockHeld(blocks[i], holdout)
    requires forall i :: 0 <= i < m ==> BlockFree(blocks[i], holdout)
    ensures t in holdout <==> t in SuffixTickers(blocks, m)
  {
    hide Tiles, SuffixTickers, TickersOf;
    if t in holdout {
      HeldInSuffix(blocks, rows, holdout, m, t);
    }
    if t in SuffixTickers(blocks, m) {
      InSuffix(blocks, m, t);
      var i, r :| m <= i < |blocks| && r in blocks[i].rows && r.ticker == t;
      assert BlockHeld(blocks[i], holdout);
    }
  }

  lemma HeldIsSuffix(blocks: seq<Block>, rows: seq<Row>, holdout: set<string>, m: nat)
    requires Tiles(blocks, rows) && m <= |blocks| && holdout <= TickersOf(rows)
    requires forall i :: m <= i < |blocks| ==> BlockHeld(blocks[i], holdout)
    requires forall i :: 0 <= i < m ==> BlockFree(blocks[i], holdout)
    ensures holdout == SuffixTickers(blocks, m)
  {
    hide Tiles, SuffixTickers, TickersOf, BlockHeld, BlockFree;
    forall t ensures t in holdout <==> t in SuffixTickers(blocks, m) {
      HeldTickers(blocks, rows, holdout, m, t);
    }
  }

  lemma SuffixNotAll(blocks: seq<Block>, rows: seq<Row>, m: nat)
    requires Tiles(blocks, rows) && m <= |blocks| && SomethingLeft(rows, SuffixTickers(blocks, m))
    ensures m > 0
  {
    hide Tiles, SuffixTickers;
    var free :| free in rows && free.ticker !in SuffixTickers(blocks, m);
    var k := BlockFor(blocks, rows, free);
    HeldFrom(blocks, rows, m, k, free);
  }

  /** A legal holdout is the run of latest blocks from some block after the first. */
  lemma LegalIsSuffix(rows: seq<Row>, holdout: set<string>) returns (m: nat)
    requires DistinctTickers(rows) && AtomicCut(rows, holdout)
    ensures 0 < m <= |BlocksOf(rows)| && holdout == SuffixTickers(BlocksOf(rows), m)
  {
    hide BlocksOf, Tiles, DistinctTickers, SuffixTickers, BlockHeld, BlockFree, TickersOf;
    hide ClustersWhole, SomethingLeft, StrictlyBefore;
    m := HeldFromSomewhere(rows, holdout, |BlocksOf(rows)|);
    BlocksTile(rows);
    HeldIsSuffix(BlocksOf(rows), rows, holdout, m);
    SuffixNotAll(BlocksOf(rows), rows, m);
  }

  // ----- the main result -----

  lemma {:induction false} PickIsLatest(blocks: seq<Block>, k: nat, target: int, minClusters: int, m: nat)
    requires m <= k <= |blocks| && Enough(blocks, m, target, minClusters)
    ensures m <= PickFrom(blocks, k, target, minClusters)
    ensures Enough(blocks, PickFrom(blocks, k, target, minClusters), target, minClusters)
  {
    hide Enough;
    if m < k && !Enough(blocks, k, target, minClusters) {
      PickIsLatest(blocks, k - 1, target, minClusters, m);
    }
  }

  lemma SuffixShrinks(blocks: seq<Block>, m: nat, s: nat)
    requires m <= s <= |blocks|
    ensures SuffixTickers(blocks, s) <= SuffixTickers(blocks, m)
  {
    hide SuffixTickers;
    forall t | t in SuffixTickers(blocks, s) ensures t in SuffixTickers(blocks, m) {
      InSuffix(blocks, s, t);
      InSuffix(blocks, m, t);
    }
  }

  lemma {:induction false} KeysSize(keys: seq<string>)
    requires forall i, j :: 0 <= i < j < |keys| ==> keys[i] != keys[j]
    ensures |set k | k in keys| == |keys|
  {
    if keys != [] {
      var front, last := keys[..|keys| - 1], keys[|keys| - 1];
      KeysSize(front);
      assert (set k | k in keys) == (set k | k in front) + {last};
    }
  }

  lemma KeysAreClusters(rows: seq<Row>)
    ensures (set k | k in ClusterKeys(rows)) == ClustersOf(rows)
    ensures |ClusterKeys(rows)| == |ClustersOf(rows)|
  {
    KeysSize(ClusterKeys(rows));
    forall k | k in ClusterKeys(rows) ensures k in ClustersOf(rows) {
      KeysOccur(rows, k);
      var r := Members(rows, k)[0];
      assert r in Members(rows, k);
    }
    assert (set k | k in ClusterKeys(rows)) == ClustersOf(rows);
  }

  /** All blocks together hold every ticker and every cluster. */
  lemma WholeSuffix(blocks: seq<Block>, rows: seq<Row>)
    requires Tiles(blocks, rows)
    ensures SuffixTickers(blocks, 0) == TickersOf(rows) && SuffixClusterIds(blocks, 0) == ClustersOf(rows)
  {
    SuffixHolds(blocks, rows, 0);
    hide Tiles, SuffixTickers, SuffixClusterIds;
    forall r | r in rows ensures r.ticker in SuffixTickers(blocks, 0) {
      var i := BlockFor(blocks, rows, r);
      HeldFrom(blocks, rows, 0, i, r);
    }
    WholeHeld(rows, SuffixTickers(blocks, 0));
  }

  lemma WholeHeld(rows: seq<Row>, tickers: set<string>)
    requires tickers <= TickersOf(rows) && forall r :: r in rows ==> r.ticker in tickers
    ensures tickers == TickersOf(rows) && HeldClusters(rows, tickers) == ClustersOf(rows)
  {
    forall t | t in TickersOf(rows) ensures t in tickers {
      var r :| r in rows && r.ticker == t;
    }
  }

  lemma LegalSuffix(rows: seq<Row>, s: nat, target: int, minClusters: int)
    requires DistinctTickers(rows) && 0 < s <= |BlocksOf(rows)|
    ensures AtomicCut(rows, SuffixTickers(BlocksOf(rows), s))
    ensures Legal(rows, SuffixTickers(BlocksOf(rows), s), target, minClusters)
            <==> Enough(BlocksOf(rows), s, target, minClusters)
  {
    hide BlocksOf, Tiles, DistinctTickers, AtomicCut;
    BlocksTile(rows);
    SuffixIsCut(BlocksOf(rows), rows, s);
    SuffixHolds(BlocksOf(rows), rows, s);
    CountSuffix(BlocksOf(rows), rows, s);
  }

  lemma ConcludeOk(rows: seq<Row>, holdout: set<string>, blocks: nat, target: int)
    requires AtomicCut(rows, holdout)
    ensures Conclude(rows, holdout, HeldClusters(rows, holdout), blocks, target).Ok?
  {
    var train := TickersOf(rows) - holdout;
    var trainClusters := set r | r in rows && r.ticker in train :: r.cluster;
    forall c | c in trainClusters ensures c !in HeldClusters(rows, holdout) {
      var r :| r in rows && r.ticker in train && r.cluster == c;
      LateClusters(rows, holdout, r);
    }
  }

  /** A legal split leaves a cluster out, so it can only exist above the cluster floor. */
  lemma LegalNeedsClusters(rows: seq<Row>, holdout: set<string>, target: int, minClusters: int)
    requires Legal(rows, holdout, target, minClusters)
    ensures |ClusterKeys(rows)| > minClusters
  {
    KeysAreClusters(rows);
    var free :| free in rows && free.ticker !in holdout;
    var held := HeldClusters(rows, holdout);
    LateClusters(rows, holdout, free);
    hide AtomicCut, ClusterKeys;
    assert held <= ClustersOf(rows) - {free.cluster};
    SubsetSize(held, ClustersOf(rows) - {free.cluster});
  }

  /** A legal holdout makes the walk back stop at or after it, short of the first block. */
  lemma LegalBoundsPick(rows: seq<Row>, holdout: set<string>, target: int, minClusters: int)
    requires DistinctTickers(rows) && Legal(rows, holdout, target, minClusters)
    ensures var blocks := BlocksOf(rows);
            var s := PickFrom(blocks, |blocks|, target, minClusters);
            0 < s && Enough(blocks, s, target, minClusters) && SuffixTickers(blocks, s) <= holdout
  {
    var m := LegalIsSuffix(rows, holdout);
    LegalSuffix(rows, m, target, minClusters);
    hide BlocksOf, Legal, DistinctTickers, SuffixTickers, Enough;
    PickIsLatest(BlocksOf(rows), |BlocksOf(rows)|, target, minClusters, m);
    SuffixShrinks(BlocksOf(rows), m, PickFrom(BlocksOf(rows), |BlocksOf(rows)|, target, minClusters));
  }

  lemma EnoughOverall(rows: seq<Row>, target: int, minClusters: int)
    requires DistinctTickers(rows) && target <= |TickersOf(rows)| && minClusters < |ClusterKeys(rows)|
    ensures Enough(BlocksOf(rows), 0, target, minClusters)
  {
    hide BlocksOf, Tiles, DistinctTickers;
    BlocksTile(rows);
    WholeSuffix(BlocksOf(rows), rows);
    CountSuffix(BlocksOf(rows), rows, 0);
    KeysAreClusters(rows);
  }

  lemma SplitConcludes(rows: seq<Row>, target: int, minClusters: int, s: nat)
    requires minClusters < |ClusterKeys(rows)| && s == PickFrom(BlocksOf(rows), |BlocksOf(rows)|, target, minClusters)
    requires Enough(BlocksOf(rows), s, target, minClusters)
    ensures Split(rows, target, minClusters)
            == if s == 0 then Skipped(NoEarlierTrainingPartition)
               else Conclude(rows, SuffixTickers(BlocksOf(rows), s), SuffixClusterIds(BlocksOf(rows), s),
                             |BlocksOf(rows)|, target)
  {
    hide BlocksOf, ClusterKeys, Enough, Conclude, SuffixTickers, SuffixClusterIds, PickFrom;
  }

  lemma ConcludeSuffix(rows: seq<Row>, s: nat, target: int)
    requires DistinctTickers(rows) && 0 < s <= |BlocksOf(rows)|
    ensures var holdout := SuffixTickers(BlocksOf(rows), s);
            var p := Conclude(rows, holdout, SuffixClusterIds(BlocksOf(rows), s), |BlocksOf(rows)|, target);
            p.Ok? && p.holdout == holdout && p.train == TickersOf(rows) - holdout
            && p.holdoutClusters == HeldClusters(rows, holdout)
  {
    hide BlocksOf, DistinctTickers, SuffixTickers, SuffixClusterIds, AtomicCut, Tiles, TickersOf;
    BlocksTile(rows);
    SuffixIsCut(BlocksOf(rows), rows, s);
    SuffixHolds(BlocksOf(rows), rows, s);
    ConcludeOk(rows, SuffixTickers(BlocksOf(rows), s), |BlocksOf(rows)|, target);
  }

  /** Exactly when the split is made, and what it holds out. */
  lemma SplitOutcome(rows: seq<Row>, target: int, minClusters: int)
    requires DistinctTickers(rows) && target <= |TickersOf(rows)|
    ensures var p, blocks := Split(rows, target, minClusters), BlocksOf(rows);
            var s := PickFrom(blocks, |blocks|, target, minClusters);
            && !p.Error? && !p.Invalid? && p != Skipped(InsufficientClusterAtomicHoldout)
            && (p.Ok? <==> minClusters < |ClusterKeys(rows)| && s > 0)
            && (p.Ok? ==> && p.holdout == SuffixTickers(blocks, s) && p.train == TickersOf(rows) - p.holdout
                          && p.holdoutClusters == HeldClusters(rows, p.holdout)
                          && Legal(rows, p.holdout, target, minClusters))
  {
    if minClusters < |ClusterKeys(rows)| {
      EnoughOverall(rows, target, minClusters);
      hide BlocksOf, DistinctTickers, Enough, Legal, ClusterKeys, SuffixTickers, SuffixClusterIds, AtomicCut;
      hide TickersOf, Conclude, Split, HeldClusters;
      PickIsLatest(BlocksOf(rows), |BlocksOf(rows)|, target, minClusters, 0);
      var s := PickFrom(BlocksOf(rows), |BlocksOf(rows)|, target, minClusters);
      SplitConcludes(rows, target, minClusters, s);
      if s > 0 {
        LegalSuffix(rows, s, target, minClusters);
        ConcludeSuffix(rows, s, target);
      }
    }
  }

  /**
   Given valid markets and a target no larger than the market count, the split succeeds
   exactly when some legal split exists; its holdout is legal and contained in every legal
   holdout; and two of the declared failures cannot happen.
   */
  lemma SplitExactlyWhenPossible(rows: seq<Row>, target: int, minClusters: int)
    requires DistinctTickers(rows) && 1 <= target <= |TickersOf(rows)| && minClusters >= 1
    ensures var p := Split(rows, target, minClusters);
            && (p.Ok? <==> exists holdout :: Legal(rows, holdout, target, minClusters))
            && (p.Ok? ==> Legal(rows, p.holdout, target, minClusters) && p.train == TickersOf(rows) - p.holdout
                          && forall holdout :: Legal(rows, holdout, target, minClusters) ==> p.holdout <= holdout)
            && !p.Error? && p != Skipped(InsufficientClusterAtomicHoldout)
  {
    SplitOutcome(rows, target, minClusters);
    hide Split, Legal, BlocksOf, ClusterKeys, DistinctTickers, Enough, SuffixTickers;
    forall holdout | Legal(rows, holdout, target, minClusters)
      ensures Split(rows, target, minClusters).Ok? && Split(rows, target, minClusters).holdout <= holdout
    {
      LegalNeedsClusters(rows, holdout, target, minClusters);
      LegalBoundsPick(rows, holdout, target, minClusters);
    }
  }

  // ----- for the gate's markets -----

  ghost predicate UniqueTickers(markets: seq<Market>) {
    forall i, j :: 0 <= i < j < |markets| ==> markets[i].ticker != markets[j].ticker
  }

  lemma OneMoreTicker(markets: seq<Market>)
    requires markets != []
    ensures TickersOf(RowsOf(markets)) == TickersOf(RowsOf(markets[..|markets| - 1])) + {markets[|markets| - 1].ticker}
  {
    assert RowsOf(markets) == RowsOf(markets[..|markets| - 1]) + [RowOf(markets[|markets| - 1])];
  }

  lemma {:induction false} TickerCount(markets: seq<Market>)
    requires UniqueTickers(markets)
    ensures |TickersOf(RowsOf(markets))| == |markets|
  {
    if markets != [] {
      var front, m := markets[..|markets| - 1], markets[|markets| - 1];
      TickerCount(front);
      OneMoreTicker(markets);
      forall t | t in TickersOf(RowsOf(front)) ensures t != m.ticker {
        var r :| r in RowsOf(front) && r.ticker == t;
      }
      hide TickersOf, RowsOf, UniqueTickers;
    }
  }

  lemma TargetInRange(markets: seq<Market>, c: Config)
    requires ValidConfig(c)
    ensures 0 <= Target(markets, c) <= |markets|
  {
    var n := |markets| as real;
    assert 0.0 <= n * c.fraction <= n;
  }

  lemma MarketRowsDistinct(markets: seq<Market>)
    requires UniqueTickers(markets)
    ensures DistinctTickers(RowsOf(markets))
  {
  }

  lemma ValidMarketsReachSplit(markets: seq<Market>, c: Config)
    requires Target(markets, c) >= c.minHoldout
    requires forall m {:trigger m in markets} :: m in markets ==> ValidMarket(m)
    ensures PartitionOf(markets, c) == Split(RowsOf(markets), Target(markets, c), c.minClusters)
  {
    hide Split, RowsOf, Target;
  }

  /** The recalibration gate's split, over every ledger whose markets are all usable. */
  lemma PartitionExactlyWhenPossible(markets: seq<Market>, c: Config)
    requires ValidConfig(c) && UniqueTickers(markets) && Target(markets, c) >= c.minHoldout
    requires forall m {:trigger m in markets} :: m in markets ==> ValidMarket(m)
    ensures var p, rows, target := PartitionOf(markets, c), RowsOf(markets), Target(markets, c);
            && (p.Ok? <==> exists holdout :: Legal(rows, holdout, target, c.minClusters))
            && (p.Ok? ==> Legal(rows, p.holdout, target, c.minClusters) && p.train == TickersOf(rows) - p.holdout
                          && forall holdout :: Legal(rows, holdout, target, c.minClusters) ==> p.holdout <= holdout)
            && !p.Error? && p != Skipped(InsufficientClusterAtomicHoldout)
  {
    TargetInRange(markets, c);
    TickerCount(markets);
    MarketRowsDistinct(markets);
    ValidMarketsReachSplit(markets, c);
    hide Split, Legal, Target, RowsOf, UniqueTickers, PartitionOf, TickersOf, DistinctTickers;
    SplitExactlyWhenPossible(RowsOf(markets), Target(markets, c), c.minClusters);
  }

  ghost predicate AllValid(markets: seq<Market>) {
    forall m {:trigger m in markets} :: m in markets ==> m.cluster.Some? && m.settled.Some?
  }

  /** A cut that holds out the fraction, less at most one market, in enough clusters. */
  ghost predicate HoldsOut(rows: seq<Row>, holdout: set<string>, share: real, minClusters: int) {
    AtomicCut(rows, holdout) && |holdout| as real > share - 1.0 && |HeldClusters(rows, holdout)| >= minClusters
  }

  lemma TargetIsShare(markets: seq<Market>, c: Config, n: int)
    requires 0.0 < c.fraction < 1.0
    ensures var share := |markets| as real * c.fraction;
            (n >= Target(markets, c) <==> n as real > share - 1.0) && (Target(markets, c) < n <==> share < n as real)
  {
    TargetInShare(|markets| as real * c.fraction, n);
    assert |markets| as real * c.fraction >= 0.0;
  }

  lemma TargetInShare(share: real, n: int)
    requires share >= 0.0
    ensures (n >= Trunc(share) <==> n as real > share - 1.0) && (Trunc(share) < n <==> share < n as real)
  {
  }

  lemma LegalHoldsOut(markets: seq<Market>, c: Config, rows: seq<Row>, holdout: set<string>, share: real)
    requires 0.0 < c.fraction < 1.0 && share == |markets| as real * c.fraction
    ensures Legal(rows, holdout, Target(markets, c), c.minClusters) <==> HoldsOut(rows, holdout, share, c.minClusters)
  {
    TargetIsShare(markets, c, |holdout|);
    hide AtomicCut, HeldClusters, Target;
  }

  /** What each outcome of a split says, over rows of distinct tickers. */
  lemma SplitReasons(rows: seq<Row>, target: int, minClusters: int)
    requires DistinctTickers(rows) && 1 <= target <= |TickersOf(rows)| && minClusters >= 1
    ensures var p := Split(rows, target, minClusters);
            && (p.Ok? || p in {Skipped(InsufficientEventClusters), Skipped(NoEarlierTrainingPartition)})
            && (p == Skipped(InsufficientEventClusters) <==> |ClustersOf(rows)| <= minClusters)
  {
    SplitOutcome(rows, target, minClusters);
    KeysAreClusters(rows);
    hide BlocksOf, ClusterKeys, DistinctTickers, Enough, SuffixTickers, Legal, PickFrom, TickersOf, ClustersOf;
  }

  /**
   The whole split by its outcome, for every ledger of distinct markets and every configuration the gate lets through: too
   few markets for the minimum, an unusable identity or timestamp, too few clusters, no way to cut, or else a cut.
   */
  lemma PartitionOutcomes(markets: seq<Market>, c: Config, share: real)
    requires 0.0 < c.fraction < 1.0 && c.minHoldout >= 1 && c.minClusters >= 1 && UniqueTickers(markets)
    requires share == |markets| as real * c.fraction
    ensures var p, rows := PartitionOf(markets, c), RowsOf(markets);
            var enough := c.minHoldout as real <= share;
            && (p == Skipped(InsufficientHoldout) <==> !enough)
            && (p == Invalid(InvalidIdentity) <==> enough && exists m {:trigger m in markets} :: m in markets && m.cluster.None?)
            && (p.Invalid? <==> enough && !AllValid(markets))
            && (p == Skipped(InsufficientEventClusters) <==>
                  enough && AllValid(markets) && |ClustersOf(rows)| <= c.minClusters)
            && (p.Ok? <==> enough && AllValid(markets) && exists holdout :: HoldsOut(rows, holdout, share, c.minClusters))
            && (p.Ok? || p.Invalid?
                || p in {Skipped(InsufficientHoldout), Skipped(InsufficientEventClusters), Skipped(NoEarlierTrainingPartition)})
  {
    TargetIsShare(markets, c, c.minHoldout);
    if c.minHoldout <= Target(markets, c) {
      assert (exists m | m in markets :: m.cluster.None?) <==> exists m {:trigger m in markets} :: m in markets && m.cluster.None?;
      assert AllValid(markets) <==> !(exists m | m in markets :: m.cluster.None?) && !(exists m | m in markets :: m.settled.None?);
      if AllValid(markets) {
        TargetInRange(markets, c);
        TickerCount(markets);
        MarketRowsDistinct(markets);
        ValidMarketsReachSplit(markets, c);
        hide Split, Legal, Target, RowsOf, UniqueTickers, PartitionOf, TickersOf, DistinctTickers, HoldsOut, ClustersOf;
        SplitReasons(RowsOf(markets), Target(markets, c), c.minClusters);
        SplitExactlyWhenPossible(RowsOf(markets), Target(markets, c), c.minClusters);
        forall holdout
          ensures Legal(RowsOf(markets), holdout, Target(markets, c), c.minClusters)
                  <==> HoldsOut(RowsOf(markets), holdout, share, c.minClusters)
        {
          LegalHoldsOut(markets, c, RowsOf(markets), holdout, share);
        }
      }
    }
  }
}
