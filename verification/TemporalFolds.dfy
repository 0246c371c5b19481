/**
 The evolution lab's temporal folds and the purge that follows them
 (`autonomy/evolution_lab.py`): blocks spread evenly over folds, no cluster in two
 folds, every fold strictly before the next.
 */
module TemporalFolds {
  import opened Extrema
  import opened StableSorting
  import opened TextOrder
  import opened TimeBlocks

  /** Which of `count` folds block `index` of `total` goes to. */
  function FoldIndex(index: nat, count: nat, total: nat): int
    requires total > 0
  {
    Min(count - 1, index * count / total)
  }

  /** The rows of the first `k` blocks that belong to fold `f`. */
  function Gather(blocks: seq<Block>, k: nat, count: nat, f: nat): seq<Row>
    requires k <= |blocks|
  {
    if k == 0 then []
    else
      Gather(blocks, k - 1, count, f)
      + if FoldIndex(k - 1, count, |blocks|) == f then blocks[k - 1].rows else []
  }

  function FoldOf(blocks: seq<Block>, count: nat, f: nat): seq<Row> {
    Sort(Gather(blocks, |blocks|, count, f), ChronoLeq)
  }

  function FoldCount(rows: seq<Row>, requested: int): nat {
    if requested <= 0 then 0 else Min(requested, |BlocksOf(rows)|)
  }

  function Folds(rows: seq<Row>, requested: int): (r: seq<seq<Row>>)
    ensures |r| == FoldCount(rows, requested)
    ensures forall f :: 0 <= f < |r| ==> r[f] == FoldOf(BlocksOf(rows), |r|, f)
  {
    var count := FoldCount(rows, requested);
    seq(count, f requires 0 <= f < count => FoldOf(BlocksOf(rows), count, f))
  }

  // ----- which blocks a fold gets -----

  /** The first block of fold `f`: `f * total / count`, rounded up. */
  function First(f: nat, count: nat, total: nat): nat
    requires count > 0
  {
    (f * total + count - 1) / count
  }

  lemma DivideBounds(a: int, d: int)
    requires d > 0
    ensures a / d * d <= a < (a / d + 1) * d
  {
  }

  lemma Sign(x: int, d: int)
    requires d > 0 && x * d > 0
    ensures x > 0
  {
  }

  /** Fold `f` is exactly the run of blocks from `First(f)` up to `First(f + 1)`. */
  lemma FoldIsRun(index: nat, f: nat, count: nat, total: nat)
    requires 0 < count <= total && index < total && f < count
    ensures FoldIndex(index, count, total) == f <==> First(f, count, total) <= index < First(f + 1, count, total)
  {
    var q := index * count / total;
    IndexBelow(index, count, total);
    FirstBound(index, f, count, total);
    FirstBound(index, f + 1, count, total);
    QuotientBound(index * count, total, f);
    QuotientBound(index * count, total, f + 1);
  }

  lemma IndexBelow(index: nat, count: nat, total: nat)
    requires 0 < count <= total && index < total
    ensures 0 <= index * count / total < count
  {
    DivideBounds(index * count, total);
    var q := index * count / total;
    assert index * count < total * count;
    assert (count - q) * total > 0;
    Sign(count - q, total);
    assert index * count >= 0;
    Sign(q + 1, total);
  }

  /** Rounding up: `First(f) <= index` says `f * total <= index * count`. */
  lemma FirstBound(index: nat, f: nat, count: nat, total: nat)
    requires count > 0
    ensures First(f, count, total) <= index <==> f * total <= index * count
  {
    var a := f * total + count - 1;
    DivideBounds(a, count);
    var p := a / count;
    if p <= index {
      assert p * count <= index * count;
      assert (p + 1) * count == p * count + count;
    }
    if f * total <= index * count {
      assert p * count < (index + 1) * count;
      assert (index + 1 - p) * count > 0;
      Sign(index + 1 - p, count);
    }
  }

  lemma Scaled2(a: int, b: int, d: int)
    requires a <= b && d > 0
    ensures a * d <= b * d
  {
  }

  lemma QuotientBound(a: int, d: int, q: int)
    requires d > 0
    ensures q <= a / d <==> q * d <= a
  {
    var p := a / d;
    DivideBounds(a, d);
    if q <= p {
      Scaled2(q, p, d);
    }
    if q * d <= a {
      assert (p + 1 - q) * d > 0;
      Sign(p + 1 - q, d);
    }
  }

  lemma FirstIsCeiling(f: nat, count: nat, total: nat)
    requires count > 0
    ensures var low := First(f, count, total);
            f * total <= low * count && (low > 0 ==> f * total > (low - 1) * count)
  {
    var low := First(f, count, total);
    FirstBound(low, f, count, total);
    if low > 0 {
      FirstBound(low - 1, f, count, total);
    }
  }

  lemma FirstWithin(f: nat, count: nat, total: nat)
    requires 0 < count && f <= count
    ensures First(f, count, total) <= total
  {
    FirstBound(total, f, count, total);
    Scaled(f, count, total);
  }

  lemma Scaled(a: nat, b: nat, c: nat)
    requires a <= b
    ensures a * c <= c * b
  {
  }

  /** Folds get between `total / count` and one more block, so their sizes differ by at most one. */
  lemma FoldsBalanced(f: nat, count: nat, total: nat)
    requires 0 < count <= total && f < count
    ensures total / count <= First(f + 1, count, total) - First(f, count, total) <= total / count + 1
    ensures First(f, count, total) < First(f + 1, count, total) <= total
  {
    DivideBounds(total, count);
    FirstIsCeiling(f, count, total);
    QuotientBound(total, count, 1);
    FirstWithin(f + 1, count, total);
    hide First;
    ShiftUp(f, count, total, First(f, count, total), total / count);
  }

  lemma ShiftUp(f: nat, count: nat, total: nat, low: nat, q: nat)
    requires 0 < count && q * count <= total < (q + 1) * count
    requires f * total <= low * count && (low > 0 ==> f * total > (low - 1) * count)
    ensures low + q <= First(f + 1, count, total) <= low + q + 1
  {
    assert (f + 1) * total == f * total + total;
    assert (low + q + 1) * count == low * count + (q + 1) * count;
    FirstBound(low + q + 1, f + 1, count, total);
    NotEarlier(f, count, total, low, q);
  }

  lemma NotEarlier(f: nat, count: nat, total: nat, low: nat, q: nat)
    requires 0 < count && q * count <= total
    requires low > 0 ==> f * total > (low - 1) * count
    ensures low + q <= First(f + 1, count, total)
  {
    if low + q > 0 {
      FirstBound(low + q - 1, f + 1, count, total);
      hide First;
      assert (f + 1) * total == f * total + total;
      assert (low + q - 1) * count == (low - 1) * count + q * count;
      if low == 0 {
        assert (low - 1) * count + count == 0;
      }
    }
  }

  // ----- conservation -----

  ghost function FoldBag(folds: seq<seq<Row>>): multiset<Row> {
    if folds == [] then multiset{} else FoldBag(folds[..|folds| - 1]) + multiset(folds[|folds| - 1])
  }

  function Times(s: seq<Row>, r: Row): nat { multiset(s)[r] }

  /** How often folds `0 .. n` hold `r` once the first `k` blocks have been dealt out. */
  function Dealt(blocks: seq<Block>, k: nat, count: nat, n: nat, r: Row): nat
    requires k <= |blocks|
  {
    if n == 0 then 0
    else Dealt(blocks, k, count, n - 1, r) + Times(Gather(blocks, k, count, n - 1), r)
  }

  lemma GatherStep(blocks: seq<Block>, k: nat, count: nat, f: nat)
    requires k < |blocks|
    ensures Gather(blocks, k + 1, count, f)
            == Gather(blocks, k, count, f) + if FoldIndex(k, count, |blocks|) == f then blocks[k].rows else []
  {
  }

  lemma GatherTimes(blocks: seq<Block>, k: nat, count: nat, f: nat, r: Row)
    requires k < |blocks|
    ensures Times(Gather(blocks, k + 1, count, f), r)
            == Times(Gather(blocks, k, count, f), r)
               + if FoldIndex(k, count, |blocks|) == f then Times(blocks[k].rows, r) else 0
  {
    var g := Gather(blocks, k, count, f);
    GatherStep(blocks, k, count, f);
    hide Gather, FoldIndex;
    assert multiset(g + blocks[k].rows) == multiset(g) + multiset(blocks[k].rows);
    assert g + [] == g;
  }

  lemma {:induction false} DealOne(blocks: seq<Block>, k: nat, count: nat, n: nat, r: Row)
    requires k < |blocks|
    ensures Dealt(blocks, k + 1, count, n, r)
            == Dealt(blocks, k, count, n, r)
               + if 0 <= FoldIndex(k, count, |blocks|) < n then Times(blocks[k].rows, r) else 0
  {
    hide Gather, FoldIndex, Times;
    if n > 0 {
      DealOne(blocks, k, count, n - 1, r);
      GatherTimes(blocks, k, count, n - 1, r);
    }
  }

  lemma {:induction false} DealNone(blocks: seq<Block>, count: nat, n: nat, r: Row)
    ensures Dealt(blocks, 0, count, n, r) == 0
  {
    if n > 0 {
      DealNone(blocks, count, n - 1, r);
    }
  }

  lemma {:induction false} DealAll(blocks: seq<Block>, k: nat, count: nat, r: Row)
    requires 0 < count <= |blocks| && k <= |blocks|
    ensures Dealt(blocks, k, count, count, r) == BlockBag(blocks[..k])[r]
  {
    if k == 0 {
      DealNone(blocks, count, count, r);
    } else {
      DealAll(blocks, k - 1, count, r);
      DealOne(blocks, k - 1, count, count, r);
      FoldIndexInRange(k - 1, count, |blocks|);
      assert blocks[..k][..k - 1] == blocks[..k - 1];
      hide FoldIndex, Dealt;
    }
  }

  lemma FoldIndexInRange(index: nat, count: nat, total: nat)
    requires 0 < count <= total && index < total
    ensures 0 <= FoldIndex(index, count, total) < count
  {
    IndexBelow(index, count, total);
  }

  lemma FoldBagStep(folds: seq<seq<Row>>, n: nat)
    requires 0 < n <= |folds|
    ensures FoldBag(folds[..n]) == FoldBag(folds[..n - 1]) + multiset(folds[n - 1])
  {
    assert folds[..n][..n - 1] == folds[..n - 1] && folds[..n][n - 1] == folds[n - 1];
  }

  lemma {:induction false} FoldBagIsDealt(rows: seq<Row>, requested: int, n: nat, r: Row)
    requires n <= FoldCount(rows, requested)
    ensures FoldBag(Folds(rows, requested)[..n])[r]
            == Dealt(BlocksOf(rows), |BlocksOf(rows)|, FoldCount(rows, requested), n, r)
  {
    if n > 0 {
      var folds := Folds(rows, requested);
      FoldBagIsDealt(rows, requested, n - 1, r);
      SortPermutes(Gather(BlocksOf(rows), |BlocksOf(rows)|, |folds|, n - 1), ChronoLeq);
      assert folds[n - 1] == FoldOf(BlocksOf(rows), |folds|, n - 1);
      FoldBagStep(folds, n);
      hide Gather, FoldIndex, BlocksOf, FoldCount, Folds, FoldBag;
    }
  }

  lemma AllFoldsDealt(rows: seq<Row>, requested: int, r: Row)
    ensures FoldBag(Folds(rows, requested))[r]
            == Dealt(BlocksOf(rows), |BlocksOf(rows)|, FoldCount(rows, requested), FoldCount(rows, requested), r)
  {
    FoldBagIsDealt(rows, requested, FoldCount(rows, requested), r);
    hide FoldBag, BlocksOf, Dealt;
    assert Folds(rows, requested)[..FoldCount(rows, requested)] == Folds(rows, requested);
  }

  lemma AllBlocksDealt(blocks: seq<Block>, count: nat, r: Row)
    requires 0 < count <= |blocks|
    ensures Dealt(blocks, |blocks|, count, count, r) == BlockBag(blocks)[r]
  {
    DealAll(blocks, |blocks|, count, r);
    hide BlockBag, Dealt;
    assert blocks[..|blocks|] == blocks;
  }

  lemma RowConserved(rows: seq<Row>, requested: int, r: Row)
    requires requested > 0
    ensures FoldBag(Folds(rows, requested))[r] == multiset(rows)[r]
  {
    hide BlocksOf, Chain, Gather, Folds, FoldBag;
    BlocksPartition(rows);
    AllFoldsDealt(rows, requested, r);
    if |BlocksOf(rows)| > 0 {
      AllBlocksDealt(BlocksOf(rows), FoldCount(rows, requested), r);
    }
  }

  /** Every row lands in the folds exactly as often as it was given. */
  lemma FoldsConserveRows(rows: seq<Row>, requested: int)
    requires requested > 0
    ensures FoldBag(Folds(rows, requested)) == multiset(rows)
  {
    hide Folds, FoldBag;
    forall r ensures FoldBag(Folds(rows, requested))[r] == multiset(rows)[r] {
      RowConserved(rows, requested, r);
    }
  }

  // ----- clusters, order, nonemptiness -----

  lemma {:induction false} GatherMembers(blocks: seq<Block>, k: nat, count: nat, f: nat, r: Row)
    requires k <= |blocks|
    ensures r in Gather(blocks, k, count, f)
            <==> exists i :: 0 <= i < k && FoldIndex(i, count, |blocks|) == f && r in blocks[i].rows
  {
    if k > 0 {
      GatherMembers(blocks, k - 1, count, f, r);
    }
  }

  lemma FoldMembers(rows: seq<Row>, requested: int, f: nat, r: Row)
    requires f < |Folds(rows, requested)|
    ensures r in Folds(rows, requested)[f]
            <==> exists i :: 0 <= i < |BlocksOf(rows)|
                   && FoldIndex(i, |Folds(rows, requested)|, |BlocksOf(rows)|) == f && r in BlocksOf(rows)[i].rows
  {
    var blocks, count := BlocksOf(rows), |Folds(rows, requested)|;
    SortMembers(Gather(blocks, |blocks|, count, f), ChronoLeq);
    GatherMembers(blocks, |blocks|, count, f, r);
  }

  lemma FoldIndexGrows(i: nat, j: nat, count: nat, total: nat)
    requires i <= j && total > 0
    ensures FoldIndex(i, count, total) <= FoldIndex(j, count, total)
  {
    assert i * count <= j * count;
    DivideBounds(i * count, total);
    QuotientBound(j * count, total, i * count / total);
  }

  /** No event cluster appears in two folds. */
  lemma ClusterInOneFold(rows: seq<Row>, requested: int, f: nat, g: nat, r: Row, q: Row)
    requires f < |Folds(rows, requested)| && g < |Folds(rows, requested)|
    requires r in Folds(rows, requested)[f] && q in Folds(rows, requested)[g] && r.cluster == q.cluster
    ensures f == g
  {
    BlocksPartition(rows);
    FoldMembers(rows, requested, f, r);
    FoldMembers(rows, requested, g, q);
    var blocks, count := BlocksOf(rows), |Folds(rows, requested)|;
    hide FoldIndex;
    var i :| 0 <= i < |blocks| && FoldIndex(i, count, |blocks|) == f && r in blocks[i].rows;
    var j :| 0 <= j < |blocks| && FoldIndex(j, count, |blocks|) == g && q in blocks[j].rows;
    assert BlockOk(blocks[i]) && BlockOk(blocks[j]);
    assert i == j;
  }

  /** Every fold ends strictly before the next one starts. */
  lemma FoldsInOrder(rows: seq<Row>, requested: int, f: nat, g: nat, r: Row, q: Row)
    requires f < g < |Folds(rows, requested)|
    requires r in Folds(rows, requested)[f] && q in Folds(rows, requested)[g]
    ensures r.at < q.at
  {
    BlocksPartition(rows);
    FoldMembers(rows, requested, f, r);
    FoldMembers(rows, requested, g, q);
    var blocks, count := BlocksOf(rows), |Folds(rows, requested)|;
    var i :| 0 <= i < |blocks| && FoldIndex(i, count, |blocks|) == f && r in blocks[i].rows;
    var j :| 0 <= j < |blocks| && FoldIndex(j, count, |blocks|) == g && q in blocks[j].rows;
    if j <= i {
      FoldIndexGrows(j, i, count, |blocks|);
      assert false;
    }
    hide FoldIndex;
    assert BlockOk(blocks[i]) && BlockOk(blocks[j]);
  }

  /** No fold is empty. */
  lemma FoldsNonempty(rows: seq<Row>, requested: int, f: nat)
    requires f < |Folds(rows, requested)|
    ensures Folds(rows, requested)[f] != []
  {
    var blocks, count := BlocksOf(rows), |Folds(rows, requested)|;
    BlocksPartition(rows);
    FoldsBalanced(f, count, |blocks|);
    var i := First(f, count, |blocks|);
    FoldIsRun(i, f, count, |blocks|);
    hide First, FoldIndex;
    assert BlockOk(blocks[i]) && blocks[i].rows[0] in blocks[i].rows;
    FoldMembers(rows, requested, f, blocks[i].rows[0]);
  }

  lemma NoBlocks()
    ensures BlocksOf([]) == []
  {
    assert ClusterKeys([]) == [];
  }

  /** Every non-empty list is divided for a positive request, into no more folds than asked for. */
  lemma FoldsAsAsked(rows: seq<Row>, requested: int)
    ensures |Folds(rows, requested)| == 0 <==> requested <= 0 || rows == []
    ensures requested > 0 ==> |Folds(rows, requested)| <= requested
  {
    BlocksPartition(rows);
    NoBlocks();
    hide BlocksOf;
  }

  lemma OwnBlock(i: nat, f: nat, total: nat)
    requires i < total && f < total
    ensures FoldIndex(i, total, total) == f <==> i == f
  {
    WholeQuotient(i, total);
  }

  lemma WholeQuotient(i: nat, total: nat)
    requires total > 0
    ensures i * total / total == i
  {
    QuotientBound(i * total, total, i);
    QuotientBound(i * total, total, i + 1);
    assert (i + 1) * total == i * total + total;
  }

  /**
   Where there are fewer folds than asked for, there could not be more: no strict chronological cut that keeps clusters
   whole divides any of them.
   */
  lemma FoldsCannotBeMore(rows: seq<Row>, requested: int, late: set<string>, f: nat)
    requires f < |Folds(rows, requested)| < requested && Cut(rows, late)
    ensures var fold := Folds(rows, requested)[f];
            || (forall r {:trigger r in fold} :: r in fold ==> r.cluster in late)
            || (forall r {:trigger r in fold} :: r in fold ==> r.cluster !in late)
  {
    var blocks, fold := BlocksOf(rows), Folds(rows, requested)[f];
    BlocksPartition(rows);
    BlocksIndivisible(rows, late, f);
    forall r {:trigger r in fold} | r in fold ensures r in blocks[f].rows {
      FoldMembers(rows, requested, f, r);
      var i :| 0 <= i < |blocks| && FoldIndex(i, |blocks|, |blocks|) == f && r in blocks[i].rows;
      OwnBlock(i, f, |blocks|);
    }
    hide BlocksOf, Folds;
    assert BlockOk(blocks[f]);
  }

  /** Within a fold rows are in order of decision and then of ticker. */
  lemma FoldInOrder(rows: seq<Row>, requested: int, f: nat, i: nat, j: nat)
    requires f < |Folds(rows, requested)| && i < j < |Folds(rows, requested)[f]|
    ensures var a, b := Folds(rows, requested)[f][i], Folds(rows, requested)[f][j];
            a.at < b.at || (a.at == b.at && TextLeq(a.ticker, b.ticker))
  {
    LinearOrder();
    assert TotalPreorder(ChronoLeq);
    var gathered := Gather(BlocksOf(rows), |BlocksOf(rows)|, |Folds(rows, requested)|, f);
    SortSorted(gathered, ChronoLeq);
    hide Gather, BlocksOf, Sort;
  }

  method DealBlocks(blocks: seq<Block>, count: nat) returns (dealt: array<seq<Row>>)
    requires 0 < count <= |blocks|
    ensures fresh(dealt) && dealt.Length == count
    ensures forall f :: 0 <= f < count ==> dealt[f] == Gather(blocks, |blocks|, count, f)
  {
    dealt := new seq<Row>[count](_ => []);
    assert forall f :: 0 <= f < count ==> Gather(blocks, 0, count, f) == [];
    hide Gather, FoldIndex;
    for index := 0 to |blocks|
      invariant forall f :: 0 <= f < count ==> dealt[f] == Gather(blocks, index, count, f)
    {
      forall f | 0 <= f < count
        ensures Gather(blocks, index + 1, count, f)
                == Gather(blocks, index, count, f) + if FoldIndex(index, count, |blocks|) == f then blocks[index].rows else []
      {
        GatherStep(blocks, index, count, f);
      }
      FoldIndexInRange(index, count, |blocks|);
      var fold := FoldIndex(index, count, |blocks|);
      dealt[fold] := dealt[fold] + blocks[index].rows;
    }
  }

  method SortFolds(dealt: array<seq<Row>>)
    modifies dealt
    ensures forall f :: 0 <= f < dealt.Length ==> dealt[f] == Sort(old(dealt[f]), ChronoLeq)
  {
    for f := 0 to dealt.Length
      invariant forall g :: 0 <= g < f ==> dealt[g] == Sort(old(dealt[g]), ChronoLeq)
      invariant forall g :: f <= g < dealt.Length ==> dealt[g] == old(dealt[g])
    {
      dealt[f] := Sort(dealt[f], ChronoLeq);
    }
  }

  method TemporalFolds(rows: seq<Row>, requested: int := 5) returns (folds: seq<seq<Row>>)
    ensures folds == Folds(rows, requested)
  {
    if requested <= 0 || rows == [] {
      return [];
    }
    var blocks := BuildBlocks(rows);
    BlocksPartition(rows);
    hide Gather, BlocksOf;
    var dealt := DealBlocks(blocks, Min(requested, |blocks|));
    SortFolds(dealt);
    folds := dealt[..];
  }

  // ----- the lab's purge -----

  function Earliest(rows: seq<Row>): (t: int)
    requires rows != []
    ensures exists r {:trigger r in rows} :: r in rows && r.at == t
    ensures forall r {:trigger r in rows} :: r in rows ==> t <= r.at
  {
    var front, r := rows[..|rows| - 1], rows[|rows| - 1];
    assert rows == front + [r] && r in rows;
    if front == [] then r.at
    else
      var t := Earliest(front);
      assert forall q {:trigger q in front} :: q in front ==> q in rows;
      Min(t, r.at)
  }

  function History(folds: seq<seq<Row>>, k: nat): seq<Row>
    requires k <= |folds|
  {
    if k == 0 then [] else History(folds, k - 1) + folds[k - 1]
  }

  /** What the lab trains on before fold `k`, and what it keeps of fold `k` to test on. */
  datatype Window = Window(training: seq<Row>, purged: seq<Row>)

  function WindowOf(history: seq<Row>, test: seq<Row>): Window
    requires test != []
  {
    var start := Earliest(test);
    var training := Filter((r: Row) => r.settled < start, history);
    var clusters := set r | r in training :: r.cluster;
    Window(training, Filter((r: Row) => r.cluster !in clusters, test))
  }

  lemma FirstHistory(folds: seq<seq<Row>>)
    requires folds != []
    ensures History(folds, 1) == folds[0]
  {
    assert History(folds, 1) == [] + folds[0];
  }

  lemma NextHistory(folds: seq<seq<Row>>, k: nat)
    requires k < |folds|
    ensures History(folds, k + 1) == History(folds, k) + folds[k]
  {
  }

  /** The fold loop: the first fold only seeds the history. */
  method LabWindows(folds: seq<seq<Row>>) returns (windows: seq<Window>)
    requires forall f :: 0 <= f < |folds| ==> folds[f] != []
    ensures |windows| == if folds == [] then 0 else |folds| - 1
    ensures forall k :: 1 <= k < |folds| ==> windows[k - 1] == WindowOf(History(folds, k), folds[k])
  {
    hide History, WindowOf;
    windows := [];
    if folds != [] {
      var history := folds[0];
      FirstHistory(folds);
      for k := 1 to |folds|
        invariant history == History(folds, k) && |windows| == k - 1
        invariant forall j :: 1 <= j < k ==> windows[j - 1] == WindowOf(History(folds, j), folds[j])
      {
        NextHistory(folds, k);
        windows := windows + [WindowOf(history, folds[k])];
        history := history + folds[k];
      }
    }
  }

  lemma {:induction false} HistoryFold(folds: seq<seq<Row>>, k: nat, r: Row) returns (f: nat)
    requires k <= |folds| && r in History(folds, k)
    ensures f < k && r in folds[f]
  {
    if r in folds[k - 1] {
      f := k - 1;
    } else {
      f := HistoryFold(folds, k - 1, r);
    }
  }

  /**
   The purge has nothing to remove, and nothing the lab trains on was decided or settled
   at or after the first test decision.
   */
  lemma PurgeRemovesNothing(rows: seq<Row>, requested: int, k: nat)
    requires 1 <= k < |Folds(rows, requested)|
    ensures Folds(rows, requested)[k] != []
    ensures var folds := Folds(rows, requested);
            var w := WindowOf(History(folds, k), folds[k]);
            && w.purged == folds[k]
            && forall r: Row, q: Row {:trigger r in w.training, q in folds[k]} ::
                 r in w.training && q in folds[k] ==> r.settled < q.at && r.at < q.at
  {
    FoldsNonempty(rows, requested, k);
    var folds := Folds(rows, requested);
    var w := WindowOf(History(folds, k), folds[k]);
    hide Folds;
    forall r: Row, q: Row | r in w.training && q in folds[k]
      ensures r.cluster != q.cluster && r.at < q.at
    {
      var f := HistoryFold(folds, k, r);
      FoldsInOrder(rows, requested, f, k, r, q);
      if r.cluster == q.cluster {
        ClusterInOneFold(rows, requested, f, k, r, q);
      }
    }
    var clusters := set r | r in w.training :: r.cluster;
    FilterAll((r: Row) => r.cluster !in clusters, folds[k]);
  }

  lemma {:induction false} HistoryHolds(folds: seq<seq<Row>>, k: nat, r: Row)
    requires k <= |folds|
    ensures r in History(folds, k) <==> exists f :: 0 <= f < k && r in folds[f]
  {
    if k > 0 {
      HistoryHolds(folds, k - 1, r);
    }
  }

  /** A window trains on exactly the rows of earlier folds settled before every decision of its fold, and tests on exactly
      the rows of its fold whose clusters it does not train on. */
  lemma WindowRows(folds: seq<seq<Row>>, k: nat, r: Row)
    requires k < |folds| && folds[k] != []
    ensures var w := WindowOf(History(folds, k), folds[k]);
            && (r in w.training <==>
                  && (exists f :: 0 <= f < k && r in folds[f])
                  && forall q {:trigger q in folds[k]} :: q in folds[k] ==> r.settled < q.at)
            && (r in w.purged <==>
                  r in folds[k] && forall q {:trigger q in w.training} :: q in w.training ==> q.cluster != r.cluster)
  {
    HistoryHolds(folds, k, r);
    hide History;
  }
}
