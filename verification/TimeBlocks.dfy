/**
 Indivisible time blocks: the interval merge shared by the evolution lab's folds
 (`autonomy/evolution_lab.py`) and the recalibration split (`autonomy/backtest.py`).
 Event clusters become intervals; intervals that overlap are merged, so that no
 strict chronological cut can pass through a block.  Timestamps are integers.
 */
module TimeBlocks {
  import opened Extrema
  import opened TextOrder
  import opened StableSorting

  /** `at` is the time the split is made by; `settled` is when the outcome became known. */
  datatype Row = Row(cluster: string, ticker: string, at: int, settled: int)

  datatype Interval = Interval(start: int, end: int, cluster: string, rows: seq<Row>)

  datatype Block = Block(start: int, end: int, clusters: set<string>, rows: seq<Row>)

  // ----- grouping by cluster -----

  /** The dictionary's keys, in order of first appearance. */
  function ClusterKeys(rows: seq<Row>): (keys: seq<string>)
    ensures forall r {:trigger r in rows} :: r in rows ==> r.cluster in keys
    ensures forall i, j :: 0 <= i < j < |keys| ==> keys[i] != keys[j]
  {
    if rows == [] then []
    else
      var keys, r := ClusterKeys(rows[..|rows| - 1]), rows[|rows| - 1];
      assert rows == rows[..|rows| - 1] + [r];
      if r.cluster in keys then keys else keys + [r.cluster]
  }

  function Members(rows: seq<Row>, c: string): (m: seq<Row>)
    ensures forall r {:trigger r in m} :: r in m ==> r.cluster == c && r in rows
  {
    if rows == [] then []
    else
      var front, r := rows[..|rows| - 1], rows[|rows| - 1];
      assert rows == front + [r];
      if r.cluster == c then Members(front, c) + [r] else Members(front, c)
  }

  lemma {:induction false} KeysOccur(rows: seq<Row>, c: string)
    requires c in ClusterKeys(rows)
    ensures Members(rows, c) != []
  {
    var front, r := rows[..|rows| - 1], rows[|rows| - 1];
    if r.cluster != c {
      KeysOccur(front, c);
    }
  }

  method GroupByCluster(rows: seq<Row>) returns (keys: seq<string>, groups: map<string, seq<Row>>)
    ensures keys == ClusterKeys(rows)
    ensures forall c :: c in groups <==> c in keys
    ensures forall c :: c in groups ==> groups[c] == Members(rows, c)
  {
    keys, groups := [], map[];
    for i := 0 to |rows|
      invariant keys == ClusterKeys(rows[..i])
      invariant forall c :: c in groups <==> c in keys
      invariant forall c :: c in groups ==> groups[c] == Members(rows[..i], c)
      invariant forall c :: c !in groups ==> Members(rows[..i], c) == []
    {
      assert rows[..i + 1][..i] == rows[..i];
      var c := rows[i].cluster;
      if c in groups {
        groups := groups[c := groups[c] + [rows[i]]];
      } else {
        keys, groups := keys + [c], groups[c := [rows[i]]];
      }
    }
    assert rows[..|rows|] == rows;
  }

  // ----- intervals -----

  predicate ChronoLeq(a: Row, b: Row) {
    a.at < b.at || (a.at == b.at && TextLeq(a.ticker, b.ticker))
  }

  lemma ChronoOrder()
    ensures TotalPreorder(ChronoLeq)
  {
    LinearOrder();
  }

  predicate IntervalLeq(a: Interval, b: Interval) {
    a.start < b.start
    || (a.start == b.start && (a.end < b.end || (a.end == b.end && TextLeq(a.cluster, b.cluster))))
  }

  lemma IntervalOrder()
    ensures TotalPreorder(IntervalLeq)
  {
    LinearOrder();
  }

  function IntervalOf(members: seq<Row>, c: string): Interval
    requires members != []
  {
    var ordered := Sort(members, ChronoLeq);
    Interval(ordered[0].at, ordered[|ordered| - 1].at, c, ordered)
  }

  ghost predicate HasMembers(rows: seq<Row>, keys: seq<string>) {
    forall c {:trigger c in keys} :: c in keys ==> Members(rows, c) != []
  }

  lemma HasMembersFront(rows: seq<Row>, keys: seq<string>)
    requires HasMembers(rows, keys) && keys != []
    ensures HasMembers(rows, keys[..|keys| - 1]) && Members(rows, keys[|keys| - 1]) != []
  {
    assert keys[|keys| - 1] in keys;
    var front := keys[..|keys| - 1];
    assert keys == front + [keys[|keys| - 1]];
    forall c | c in front ensures Members(rows, c) != [] { assert c in keys; }
  }

  lemma KeysHaveMembers(rows: seq<Row>)
    ensures HasMembers(rows, ClusterKeys(rows))
  {
    forall c | c in ClusterKeys(rows) ensures Members(rows, c) != [] { KeysOccur(rows, c); }
  }

  function Intervals(rows: seq<Row>, keys: seq<string>): (r: seq<Interval>)
    requires HasMembers(rows, keys)
    ensures |r| == |keys|
  {
    if keys == [] then []
    else
      var front, c := keys[..|keys| - 1], keys[|keys| - 1];
      HasMembersFront(rows, keys);
      Intervals(rows, front) + [IntervalOf(Members(rows, c), c)]
  }

  lemma {:induction false} IntervalsAt(rows: seq<Row>, keys: seq<string>, i: nat)
    requires HasMembers(rows, keys) && i < |keys|
    ensures Members(rows, keys[i]) != []
    ensures Intervals(rows, keys)[i] == IntervalOf(Members(rows, keys[i]), keys[i])
  {
    assert keys[i] in keys;
    HasMembersFront(rows, keys);
    if i < |keys| - 1 {
      IntervalsAt(rows, keys[..|keys| - 1], i);
    }
  }

  /** The interval covers exactly its rows' times and belongs to one cluster. */
  ghost predicate IntervalOk(v: Interval) {
    && v.rows != []
    && (forall r {:trigger r in v.rows} :: r in v.rows ==> v.start <= r.at <= v.end && r.cluster == v.cluster)
    && Attains(v.rows, v.start) && Attains(v.rows, v.end)
  }

  ghost predicate Attains(rows: seq<Row>, time: int) {
    exists r {:trigger r in rows} :: r in rows && r.at == time
  }

  lemma IntervalOfOk(members: seq<Row>, c: string)
    requires members != [] && forall r {:trigger r in members} :: r in members ==> r.cluster == c
    ensures IntervalOk(IntervalOf(members, c))
    ensures multiset(IntervalOf(members, c).rows) == multiset(members)
  {
    var ordered := Sort(members, ChronoLeq);
    ChronoOrder();
    SortSorted(members, ChronoLeq);
    SortPermutes(members, ChronoLeq);
    SortMembers(members, ChronoLeq);
    assert ordered[0] in ordered && ordered[|ordered| - 1] in ordered;
    forall r | r in ordered ensures ordered[0].at <= r.at <= ordered[|ordered| - 1].at && r.cluster == c {
      var i :| 0 <= i < |ordered| && ordered[i] == r;
      assert i == 0 || ChronoLeq(ordered[0], ordered[i]);
      assert i == |ordered| - 1 || ChronoLeq(ordered[i], ordered[|ordered| - 1]);
    }
  }

  // ----- merging -----

  function Absorb(blocks: seq<Block>, v: Interval): seq<Block> {
    if blocks != [] && v.start <= blocks[|blocks| - 1].end then
      var b := blocks[|blocks| - 1];
      blocks[..|blocks| - 1] + [Block(b.start, Max(b.end, v.end), b.clusters + {v.cluster}, b.rows + v.rows)]
    else
      blocks + [Block(v.start, v.end, {v.cluster}, v.rows)]
  }

  function Merge(vs: seq<Interval>): seq<Block> {
    if vs == [] then [] else Absorb(Merge(vs[..|vs| - 1]), vs[|vs| - 1])
  }

  ghost predicate BlockOk(b: Block) {
    && b.rows != []
    && (forall r {:trigger r in b.rows} :: r in b.rows ==> b.start <= r.at <= b.end && r.cluster in b.clusters)
    && (forall c :: c in b.clusters ==> exists r {:trigger r in b.rows} :: r in b.rows && r.cluster == c)
    && Attains(b.rows, b.start) && Attains(b.rows, b.end)
  }

  /** Blocks in strict chronological order that share no cluster. */
  ghost predicate Chain(blocks: seq<Block>) {
    && (forall i :: 0 <= i < |blocks| ==> BlockOk(blocks[i]))
    && (forall i, j :: 0 <= i < j < |blocks| ==> blocks[i].end < blocks[j].start)
    && (forall i, j :: 0 <= i < j < |blocks| ==> blocks[i].clusters !! blocks[j].clusters)
  }

  /** Valid intervals of distinct clusters, sorted by start. */
  ghost predicate Sequenced(vs: seq<Interval>) {
    && (forall i :: 0 <= i < |vs| ==> IntervalOk(vs[i]))
    && (forall i, j :: 0 <= i < j < |vs| ==> vs[i].start <= vs[j].start && vs[i].cluster != vs[j].cluster)
  }

  ghost predicate ClustersFrom(blocks: seq<Block>, vs: seq<Interval>) {
    forall i, c :: 0 <= i < |blocks| && c in blocks[i].clusters ==> exists k :: 0 <= k < |vs| && vs[k].cluster == c
  }

  lemma ExtendBlock(b: Block, v: Interval)
    requires BlockOk(b) && IntervalOk(v) && b.start <= v.start <= b.end
    ensures BlockOk(Block(b.start, Max(b.end, v.end), b.clusters + {v.cluster}, b.rows + v.rows))
  {
    var rows := b.rows + v.rows;
    var low :| low in b.rows && low.at == b.start;
    var high :| high in b.rows && high.at == b.end;
    var top :| top in v.rows && top.at == v.end;
    assert low in rows && high in rows && top in rows;
    var n := Block(b.start, Max(b.end, v.end), b.clusters + {v.cluster}, rows);
    forall c | c in n.clusters ensures exists r {:trigger r in rows} :: r in rows && r.cluster == c {
      if c in b.clusters {
        var r :| r in b.rows && r.cluster == c;
        assert r in rows;
      } else {
        assert top.cluster == c;
      }
    }
  }

  ghost predicate Follows(front: seq<Interval>, v: Interval) {
    && (forall k :: 0 <= k < |front| ==> front[k].cluster != v.cluster)
    && (front != [] ==> front[|front| - 1].start <= v.start)
  }

  lemma NothingChains()
    ensures Chain([]) && ClustersFrom([], [])
  {
  }

  lemma SequencedFront(vs: seq<Interval>)
    requires Sequenced(vs) && vs != []
    ensures Sequenced(vs[..|vs| - 1]) && IntervalOk(vs[|vs| - 1]) && Follows(vs[..|vs| - 1], vs[|vs| - 1])
    ensures vs == vs[..|vs| - 1] + [vs[|vs| - 1]]
    ensures |vs| > 1 ==> vs[|vs| - 2].start <= vs[|vs| - 1].start
  {
    hide IntervalOk;
  }

  lemma {:induction false} MergeChain(vs: seq<Interval>)
    requires Sequenced(vs)
    ensures Chain(Merge(vs)) && ClustersFrom(Merge(vs), vs)
    ensures vs != [] ==> Merge(vs) != [] && Merge(vs)[|Merge(vs)| - 1].start <= vs[|vs| - 1].start
  {
    hide Chain, ClustersFrom, Absorb, IntervalOk, Sequenced, Follows;
    if vs == [] {
      NothingChains();
    } else {
      var front, v := vs[..|vs| - 1], vs[|vs| - 1];
      SequencedFront(vs);
      MergeChain(front);
      AbsorbChain(Merge(front), front, v);
    }
  }

  lemma AbsorbChain(blocks: seq<Block>, front: seq<Interval>, v: Interval)
    requires Chain(blocks) && ClustersFrom(blocks, front) && IntervalOk(v)
    requires Follows(front, v)
    requires blocks != [] ==> blocks[|blocks| - 1].start <= v.start
    ensures Chain(Absorb(blocks, v)) && ClustersFrom(Absorb(blocks, v), front + [v])
    ensures Absorb(blocks, v) != [] && Absorb(blocks, v)[|Absorb(blocks, v)| - 1].start <= v.start
  {
    var after := Absorb(blocks, v);
    if blocks != [] && v.start <= blocks[|blocks| - 1].end {
      ExtendBlock(blocks[|blocks| - 1], v);
    } else {
      assert BlockOk(after[|blocks|]);
    }
    hide BlockOk;
    AbsorbClusters(blocks, front, v);
  }

  lemma AbsorbClusters(blocks: seq<Block>, front: seq<Interval>, v: Interval)
    requires ClustersFrom(blocks, front)
    ensures ClustersFrom(Absorb(blocks, v), front + [v])
  {
    var after := Absorb(blocks, v);
    forall i, c | 0 <= i < |after| && c in after[i].clusters
      ensures exists k :: 0 <= k < |front + [v]| && (front + [v])[k].cluster == c
    {
      if c == v.cluster {
        assert (front + [v])[|front|].cluster == c;
      } else {
        assert c in blocks[i].clusters;
        var k :| 0 <= k < |front| && front[k].cluster == c;
        assert (front + [v])[k].cluster == c;
      }
    }
  }

  // ----- nothing is lost -----

  ghost function IntervalBag(vs: seq<Interval>): multiset<Row> {
    if vs == [] then multiset{} else IntervalBag(vs[..|vs| - 1]) + multiset(vs[|vs| - 1].rows)
  }

  ghost function BlockBag(blocks: seq<Block>): multiset<Row> {
    if blocks == [] then multiset{} else BlockBag(blocks[..|blocks| - 1]) + multiset(blocks[|blocks| - 1].rows)
  }

  lemma {:induction false} MergeBag(vs: seq<Interval>)
    ensures BlockBag(Merge(vs)) == IntervalBag(vs)
  {
    if vs != [] {
      var blocks, v := Merge(vs[..|vs| - 1]), vs[|vs| - 1];
      MergeBag(vs[..|vs| - 1]);
      var n := |Absorb(blocks, v)| - 1;
      assert Absorb(blocks, v)[..n] == if n == |blocks| then blocks else blocks[..n];
    }
  }

  lemma {:induction false} IntervalBagAppend(a: seq<Interval>, b: seq<Interval>)
    ensures IntervalBag(a + b) == IntervalBag(a) + IntervalBag(b)
  {
    if b == [] {
      assert a + b == a;
    } else {
      var front, v := b[..|b| - 1], b[|b| - 1];
      IntervalBagAppend(a, front);
      var ab := a + b;
      assert ab[..|ab| - 1] == a + front && ab[|ab| - 1] == v;
      assert IntervalBag(ab) == IntervalBag(a + front) + multiset(v.rows);
      hide IntervalBag;
    }
  }

  lemma InsertBag(v: Interval, vs: seq<Interval>)
    ensures IntervalBag(Insert(v, vs, IntervalLeq)) == IntervalBag(vs) + multiset(v.rows)
  {
    BagAround(v, vs, InsertPos(v, vs, IntervalLeq));
  }

  lemma IntervalBagSnoc(vs: seq<Interval>, v: Interval)
    ensures IntervalBag(vs + [v]) == IntervalBag(vs) + multiset(v.rows)
  {
    assert (vs + [v])[..|vs|] == vs;
  }

  lemma BagAround(v: Interval, vs: seq<Interval>, p: nat)
    requires p <= |vs|
    ensures IntervalBag(vs[..p] + [v] + vs[p..]) == IntervalBag(vs) + multiset(v.rows)
  {
    hide IntervalBag;
    var low, high := vs[..p], vs[p..];
    IntervalBagAppend(low, high);
    IntervalBagAppend(low + [v], high);
    IntervalBagSnoc(low, v);
    assert vs == low + high;
  }

  lemma {:induction false} SortBag(vs: seq<Interval>)
    ensures IntervalBag(Sort(vs, IntervalLeq)) == IntervalBag(vs)
  {
    if vs != [] {
      SortBag(vs[..|vs| - 1]);
      InsertBag(vs[|vs| - 1], Sort(vs[..|vs| - 1], IntervalLeq));
    }
  }

  ghost function MembersBag(rows: seq<Row>, keys: seq<string>): multiset<Row> {
    if keys == [] then multiset{}
    else MembersBag(rows, keys[..|keys| - 1]) + multiset(Members(rows, keys[|keys| - 1]))
  }

  ghost predicate Distinct(keys: seq<string>) {
    forall i, j :: 0 <= i < j < |keys| ==> keys[i] != keys[j]
  }

  /** A row is counted under exactly one of several distinct keys. */
  lemma {:induction false} MembersBagStep(rows: seq<Row>, keys: seq<string>)
    requires rows != [] && Distinct(keys)
    ensures var r := rows[|rows| - 1];
            MembersBag(rows, keys)
            == MembersBag(rows[..|rows| - 1], keys) + if r.cluster in keys then multiset{r} else multiset{}
  {
    if keys != [] {
      var front, last := keys[..|keys| - 1], keys[|keys| - 1];
      assert keys == front + [last];
      MembersBagStep(rows, front);
    }
  }

  lemma {:induction false} NoRowsNoMembers(keys: seq<string>)
    ensures MembersBag([], keys) == multiset{}
  {
    if keys != [] {
      NoRowsNoMembers(keys[..|keys| - 1]);
    }
  }

  lemma {:induction false} MembersCover(rows: seq<Row>, keys: seq<string>)
    requires Distinct(keys) && forall r {:trigger r in rows} :: r in rows ==> r.cluster in keys
    ensures MembersBag(rows, keys) == multiset(rows)
  {
    if rows == [] {
      NoRowsNoMembers(keys);
    } else {
      var front, r := rows[..|rows| - 1], rows[|rows| - 1];
      assert rows == front + [r] && r in rows;
      forall q | q in front ensures q.cluster in keys { assert q in rows; }
      MembersCover(front, keys);
      MembersBagStep(rows, keys);
    }
  }

  lemma {:induction false} IntervalsBag(rows: seq<Row>, keys: seq<string>)
    requires HasMembers(rows, keys)
    ensures IntervalBag(Intervals(rows, keys)) == MembersBag(rows, keys)
  {
    if keys != [] {
      var front, c := keys[..|keys| - 1], keys[|keys| - 1];
      HasMembersFront(rows, keys);
      IntervalsBag(rows, front);
      IntervalOfOk(Members(rows, c), c);
      var vs := Intervals(rows, front);
      hide IntervalOf, Members;
      assert (vs + [IntervalOf(Members(rows, c), c)])[..|vs|] == vs;
    }
  }

  // ----- the blocks of a set of rows -----

  function SortedIntervals(rows: seq<Row>): seq<Interval> {
    var keys := ClusterKeys(rows);
    KeysHaveMembers(rows);
    Sort(Intervals(rows, keys), IntervalLeq)
  }

  function BlocksOf(rows: seq<Row>): seq<Block> {
    Merge(SortedIntervals(rows))
  }

  ghost predicate OneEach(vs: seq<Interval>) {
    forall i, j :: 0 <= i < j < |vs| ==> vs[i].cluster != vs[j].cluster
  }

  lemma {:induction false} SortKeepsOneEach(vs: seq<Interval>)
    requires OneEach(vs)
    ensures OneEach(Sort(vs, IntervalLeq))
  {
    if vs != [] {
      var front, v := vs[..|vs| - 1], vs[|vs| - 1];
      SortKeepsOneEach(front);
      SortMembers(front, IntervalLeq);
      var t := Sort(front, IntervalLeq);
      forall i | 0 <= i < |t| ensures t[i].cluster != v.cluster {
        assert t[i] in t;
        var k :| 0 <= k < |front| && front[k] == t[i];
        assert vs[k].cluster != v.cluster;
      }
    }
  }

  lemma IntervalsOk(rows: seq<Row>)
    ensures HasMembers(rows, ClusterKeys(rows))
    ensures var vs := Intervals(rows, ClusterKeys(rows));
            OneEach(vs) && forall v {:trigger v in vs} :: v in vs ==> IntervalOk(v)
  {
    var keys := ClusterKeys(rows);
    KeysHaveMembers(rows);
    var vs := Intervals(rows, keys);
    forall i | 0 <= i < |vs| ensures IntervalOk(vs[i]) && vs[i].cluster == keys[i] {
      IntervalsAt(rows, keys, i);
      IntervalOfOk(Members(rows, keys[i]), keys[i]);
    }
  }

  lemma SortedIntervalsOk(vs: seq<Interval>)
    requires OneEach(vs) && forall v {:trigger v in vs} :: v in vs ==> IntervalOk(v)
    ensures Sequenced(Sort(vs, IntervalLeq))
  {
    SortKeepsOneEach(vs);
    IntervalOrder();
    SortSorted(vs, IntervalLeq);
    SortMembers(vs, IntervalLeq);
    hide IntervalOk;
    var sorted := Sort(vs, IntervalLeq);
    forall i | 0 <= i < |sorted| ensures IntervalOk(sorted[i]) {
      assert sorted[i] in sorted;
    }
    forall i, j | 0 <= i < j < |sorted| ensures sorted[i].start <= sorted[j].start {
      assert IntervalLeq(sorted[i], sorted[j]);
    }
  }

  lemma IntervalsFit(rows: seq<Row>)
    ensures Sequenced(SortedIntervals(rows))
    ensures IntervalBag(SortedIntervals(rows)) == multiset(rows)
  {
    var keys := ClusterKeys(rows);
    IntervalsOk(rows);
    SortedIntervalsOk(Intervals(rows, keys));
    SortBag(Intervals(rows, keys));
    IntervalsBag(rows, keys);
    MembersCover(rows, keys);
  }

  /** Blocks are in strict chronological order, share no cluster, and hold exactly the given rows. */
  lemma BlocksPartition(rows: seq<Row>)
    ensures Chain(BlocksOf(rows)) && BlockBag(BlocksOf(rows)) == multiset(rows)
    ensures rows != [] ==> BlocksOf(rows) != []
  {
    IntervalsFit(rows);
    MergeChain(SortedIntervals(rows));
    MergeBag(SortedIntervals(rows));
    assert rows != [] ==> rows[0] in multiset(rows);
  }

  lemma {:induction false} InSomeBlock(blocks: seq<Block>, r: Row)
    ensures r in BlockBag(blocks) <==> exists i :: 0 <= i < |blocks| && r in blocks[i].rows
  {
    if blocks != [] {
      var front := blocks[..|blocks| - 1];
      InSomeBlock(front, r);
      if i :| 0 <= i < |blocks| && r in blocks[i].rows {
        assert i < |front| ==> r in front[i].rows;
      }
      if i :| 0 <= i < |front| && r in front[i].rows {
        assert r in blocks[i].rows;
      }
    }
  }

  lemma RowHasBlock(rows: seq<Row>, r: Row)
    ensures r in rows <==> exists i :: 0 <= i < |BlocksOf(rows)| && r in BlocksOf(rows)[i].rows
  {
    BlocksPartition(rows);
    InSomeBlock(BlocksOf(rows), r);
    assert r in rows <==> r in multiset(rows);
  }

  lemma NoIntervals(rows: seq<Row>)
    ensures HasMembers(rows, []) && Intervals(rows, []) == []
  {
  }

  lemma IntervalsNext(rows: seq<Row>, keys: seq<string>, i: nat)
    requires HasMembers(rows, keys) && i < |keys|
    ensures HasMembers(rows, keys[..i]) && HasMembers(rows, keys[..i + 1]) && Members(rows, keys[i]) != []
    ensures Intervals(rows, keys[..i + 1]) == Intervals(rows, keys[..i]) + [IntervalOf(Members(rows, keys[i]), keys[i])]
  {
    hide Members, IntervalOf;
    assert keys[..i + 1][..i] == keys[..i] && keys[i] in keys;
    forall c {:trigger c in keys[..i + 1]} {:trigger c in keys[..i]} | c in keys[..i + 1] ensures c in keys { }
  }

  method BuildIntervals(rows: seq<Row>) returns (vs: seq<Interval>)
    ensures vs == SortedIntervals(rows)
  {
    var keys, groups := GroupByCluster(rows);
    KeysHaveMembers(rows);
    hide IntervalOf, Members, ClusterKeys;
    vs := [];
    hide Intervals, HasMembers;
    NoIntervals(rows);
    for i := 0 to |keys|
      invariant HasMembers(rows, keys[..i]) && vs == Intervals(rows, keys[..i])
    {
      IntervalsNext(rows, keys, i);
      vs := vs + [IntervalOf(groups[keys[i]], keys[i])];
    }
    assert keys[..|keys|] == keys;
    vs := Sort(vs, IntervalLeq);
  }

  method BuildBlocks(rows: seq<Row>) returns (blocks: seq<Block>)
    ensures blocks == BlocksOf(rows)
  {
    var vs := BuildIntervals(rows);
    blocks := [];
    for i := 0 to |vs|
      invariant blocks == Merge(vs[..i])
    {
      assert vs[..i + 1][..i] == vs[..i];
      blocks := Absorb(blocks, vs[i]);
    }
    assert vs[..|vs|] == vs;
  }

  // ----- no chronological cut divides a block -----

  /** A cut puts the clusters of `late` strictly after all other rows. */
  ghost predicate Cut(rows: seq<Row>, late: set<string>) {
    forall r, q {:trigger r in rows, q in rows} ::
      r in rows && q in rows && r.cluster !in late && q.cluster in late ==> r.at < q.at
  }

  ghost predicate Undivided(b: Block, late: set<string>) {
    b.clusters <= late || b.clusters !! late
  }

  lemma AbsorbUndivided(rows: seq<Row>, late: set<string>, b: Block, v: Interval)
    requires Cut(rows, late) && BlockOk(b) && IntervalOk(v) && Undivided(b, late)
    requires b.start <= v.start <= b.end
    requires forall r {:trigger r in b.rows} :: r in b.rows ==> r in rows
    requires forall r {:trigger r in v.rows} :: r in v.rows ==> r in rows
    ensures v.cluster in late <==> b.clusters <= late
    ensures v.cluster !in late <==> b.clusters !! late
  {
    var low :| low in b.rows && low.at == b.start;
    var high :| high in b.rows && high.at == b.end;
    var first :| first in v.rows && first.at == v.start;
    assert low in rows && high in rows && first in rows;
    assert low.cluster in b.clusters && high.cluster in b.clusters;
  }

  ghost predicate AllFrom(rows: seq<Row>, part: seq<Row>) {
    forall r {:trigger r in part} :: r in part ==> r in rows
  }

  ghost predicate AllUndivided(blocks: seq<Block>, rows: seq<Row>, late: set<string>) {
    forall i :: 0 <= i < |blocks| ==> Undivided(blocks[i], late) && AllFrom(rows, blocks[i].rows)
  }

  lemma AbsorbAllUndivided(blocks: seq<Block>, v: Interval, rows: seq<Row>, late: set<string>)
    requires AllUndivided(blocks, rows, late) && Chain(blocks) && IntervalOk(v) && AllFrom(rows, v.rows)
    requires Cut(rows, late) && (blocks != [] ==> blocks[|blocks| - 1].start <= v.start)
    ensures AllUndivided(Absorb(blocks, v), rows, late)
  {
    if blocks != [] && v.start <= blocks[|blocks| - 1].end {
      AbsorbUndivided(rows, late, blocks[|blocks| - 1], v);
    }
    hide Cut, BlockOk, IntervalOk;
  }

  lemma NothingDivided(rows: seq<Row>, late: set<string>)
    ensures AllUndivided([], rows, late)
  {
  }

  lemma {:induction false} MergeUndivided(vs: seq<Interval>, rows: seq<Row>, late: set<string>)
    requires Sequenced(vs) && Cut(rows, late)
    requires forall i :: 0 <= i < |vs| ==> AllFrom(rows, vs[i].rows)
    ensures AllUndivided(Merge(vs), rows, late)
  {
    hide Sequenced, Chain, AllUndivided, Absorb, IntervalOk, Cut, Follows, AllFrom, ClustersFrom;
    if vs == [] {
      NothingDivided(rows, late);
    } else {
      var front, v := vs[..|vs| - 1], vs[|vs| - 1];
      SequencedFront(vs);
      MergeChain(front);
      MergeUndivided(front, rows, late);
      AbsorbAllUndivided(Merge(front), v, rows, late);
    }
  }

  /** A strict chronological cut between clusters never passes through a time block. */
  lemma BlocksIndivisible(rows: seq<Row>, late: set<string>, i: nat)
    requires Cut(rows, late) && i < |BlocksOf(rows)|
    ensures BlocksOf(rows)[i].clusters <= late || BlocksOf(rows)[i].clusters !! late
  {
    var vs := SortedIntervals(rows);
    IntervalsFit(rows);
    forall k, r | 0 <= k < |vs| && r in vs[k].rows ensures r in rows {
      InIntervalBag(vs, k, r);
      assert r in multiset(rows);
    }
    MergeUndivided(vs, rows, late);
  }

  lemma {:induction false} InIntervalBag(vs: seq<Interval>, k: nat, r: Row)
    requires k < |vs| && r in vs[k].rows
    ensures r in IntervalBag(vs)
  {
    if k < |vs| - 1 {
      InIntervalBag(vs[..|vs| - 1], k, r);
    }
  }
}
