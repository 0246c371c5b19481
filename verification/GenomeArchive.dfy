/** The quality-diversity archive of the evolution lab (`autonomy/evolution_lab.py`). */
module GenomeArchive {
  import opened Options
  import opened TextOrder
  import opened StableSorting
  import opened Genomes

  const MAX_CELLS: nat := 48

  /** The fitness figures an entry is ranked by; a missing bound ranks below every number. */
  datatype Rank = Rank(
    lower: Option<real>, advantage: Option<real>, severe: int, net: int, drawdown: int, complexity: real, id: string)

  datatype Entry = Entry(cell: string, genome: Genome, rank: Rank)

  /** A row of the previous report: None where it is not an object; its cell or genome may be missing. */
  datatype Saved = Saved(cell: string, genome: Option<Genome>, rank: Rank) | NotAnObject

  predicate Below(a: Option<real>, b: Option<real>) {
    b.Some? && (a.None? || a.value < b.value)
  }

  /** `_archive_rank(a) <= _archive_rank(b)`, compared part by part. */
  predicate RankLeq(a: Rank, b: Rank) {
    if a.lower != b.lower then Below(a.lower, b.lower)
    else if a.advantage != b.advantage then Below(a.advantage, b.advantage)
    else if a.severe != b.severe then a.severe < b.severe
    else if a.net != b.net then a.net < b.net
    else if a.drawdown != b.drawdown then a.drawdown > b.drawdown
    else if a.complexity != b.complexity then a.complexity > b.complexity
    else TextLeq(a.id, b.id)
  }

  lemma RankLinear()
    ensures forall a, b :: RankLeq(a, b) || RankLeq(b, a)
    ensures forall a, b, c :: RankLeq(a, b) && RankLeq(b, c) ==> RankLeq(a, c)
  {
    LinearOrder();
  }

  predicate AtLeast(a: Entry, b: Entry) { RankLeq(b.rank, a.rank) }

  lemma AtLeastIsPreorder()
    ensures TotalPreorder(AtLeast)
  {
    hide RankLeq;
    RankLinear();
  }

  // ----- the cells as a dictionary in insertion order -----

  function Find(cells: seq<Entry>, cell: string): (k: nat)
    ensures k <= |cells|
    ensures k < |cells| ==> cells[k].cell == cell
    ensures k == |cells| ==> forall j :: 0 <= j < |cells| ==> cells[j].cell != cell
  {
    if cells == [] then 0
    else
      var k := Find(cells[..|cells| - 1], cell);
      if k < |cells| - 1 || cells[|cells| - 1].cell == cell then k else |cells|
  }

  function Put(cells: seq<Entry>, e: Entry): seq<Entry> {
    var k := Find(cells, e.cell);
    if k < |cells| then cells[k := e] else cells + [e]
  }

  function Loaded(previous: seq<Saved>): seq<Entry> {
    if previous == [] then []
    else
      var cells, row := Loaded(previous[..|previous| - 1]), previous[|previous| - 1];
      if row.Saved? && row.cell != "" && row.genome.Some? then Put(cells, Entry(row.cell, row.genome.value, row.rank)) else cells
  }

  predicate Improves(cells: seq<Entry>, e: Entry) {
    var k := Find(cells, e.cell);
    k == |cells| || !RankLeq(e.rank, cells[k].rank)
  }

  function Challenge(cells: seq<Entry>, e: Entry): seq<Entry> {
    if Improves(cells, e) then Put(cells, e) else cells
  }

  function Challenged(cells: seq<Entry>, candidates: seq<Entry>): seq<Entry> {
    if candidates == [] then cells
    else Challenge(Challenged(cells, candidates[..|candidates| - 1]), candidates[|candidates| - 1])
  }

  function Improvements(cells: seq<Entry>, candidates: seq<Entry>): nat {
    if candidates == [] then 0
    else
      var front, e := candidates[..|candidates| - 1], candidates[|candidates| - 1];
      Improvements(cells, front) + if Improves(Challenged(cells, front), e) then 1 else 0
  }

  function FirstCells(s: seq<Entry>): seq<Entry> {
    if |s| > MAX_CELLS then s[..MAX_CELLS] else s
  }

  function Merged(previous: seq<Saved>, candidates: seq<Entry>): seq<Entry> {
    FirstCells(Sort(Challenged(Loaded(previous), candidates), AtLeast))
  }

  /** `merge_quality_diversity_archive` */
  method MergeArchive(previous: seq<Saved>, candidates: seq<Entry>) returns (kept: seq<Entry>, improvements: nat)
    ensures kept == Merged(previous, candidates)
    ensures improvements == Improvements(Loaded(previous), candidates)
  {
    hide Find, Put, Sort, RankLeq;
    var cells: seq<Entry> := [];
    for i := 0 to |previous|
      invariant cells == Loaded(previous[..i])
    {
      assert previous[..i + 1][..i] == previous[..i];
      var row := previous[i];
      if row.Saved? && row.cell != "" && row.genome.Some? {
        cells := Put(cells, Entry(row.cell, row.genome.value, row.rank));
      }
    }
    assert previous[..|previous|] == previous;
    improvements := 0;
    for i := 0 to |candidates|
      invariant cells == Challenged(Loaded(previous), candidates[..i])
      invariant improvements == Improvements(Loaded(previous), candidates[..i])
    {
      assert candidates[..i + 1][..i] == candidates[..i];
      if Improves(cells, candidates[i]) {
        cells := Put(cells, candidates[i]);
        improvements := improvements + 1;
      }
    }
    assert candidates[..|candidates|] == candidates;
    kept := FirstCells(Sort(cells, AtLeast));
  }

  // ----- one entry per cell, the best there is -----

  ghost predicate OnePerCell(cells: seq<Entry>) {
    forall i, j :: 0 <= i < j < |cells| ==> cells[i].cell != cells[j].cell
  }

  lemma PutKeepsOne(cells: seq<Entry>, e: Entry)
    requires OnePerCell(cells)
    ensures OnePerCell(Put(cells, e))
    ensures forall x {:trigger x in Put(cells, e)} :: x in Put(cells, e) <==> x == e || (x in cells && x.cell != e.cell)
  {
    var k := Find(cells, e.cell);
    var after := Put(cells, e);
    forall x {:trigger x in after} ensures x in after <==> x == e || (x in cells && x.cell != e.cell) {
      if x in after {
        var i :| 0 <= i < |after| && after[i] == x;
        assert i == k || x == cells[i];
      }
      if x == e {
        assert after[k] == e;
      } else if x in cells && x.cell != e.cell {
        var i :| 0 <= i < |cells| && cells[i] == x;
        assert after[i] == x;
      }
    }
  }

  lemma {:induction false} LoadedOnePerCell(previous: seq<Saved>)
    ensures OnePerCell(Loaded(previous))
  {
    if previous != [] {
      hide Put, OnePerCell;
      LoadedOnePerCell(previous[..|previous| - 1]);
      var row := previous[|previous| - 1];
      if row.Saved? && row.cell != "" && row.genome.Some? {
        PutKeepsOne(Loaded(previous[..|previous| - 1]), Entry(row.cell, row.genome.value, row.rank));
      }
    } else {
      assert OnePerCell([]);
    }
  }

  /** `x` is at least as good as everything in `s` that competes for its cell. */
  ghost predicate BestOf(x: Entry, s: seq<Entry>) {
    forall y {:trigger y in s} :: y in s && y.cell == x.cell ==> AtLeast(x, y)
  }

  ghost predicate HasCell(s: seq<Entry>, cell: string) {
    exists x {:trigger x in s} :: x in s && x.cell == cell
  }

  ghost predicate CoversCells(s: seq<Entry>, pool: seq<Entry>) {
    forall y {:trigger y in pool} :: y in pool ==> HasCell(s, y.cell)
  }

  ghost predicate AllBest(s: seq<Entry>, pool: seq<Entry>) {
    forall x {:trigger x in s} :: x in s ==> x in pool && BestOf(x, pool)
  }

  /** Each cell named in the pool has exactly one entry: one of the pool that none of that cell outranks. */
  ghost predicate BestPerCell(s: seq<Entry>, pool: seq<Entry>) {
    OnePerCell(s) && AllBest(s, pool) && CoversCells(s, pool)
  }

  lemma UniqueInCell(cells: seq<Entry>, x: Entry)
    requires OnePerCell(cells) && x in cells
    ensures Find(cells, x.cell) < |cells| && cells[Find(cells, x.cell)] == x
  {
    var i :| 0 <= i < |cells| && cells[i] == x;
    var k := Find(cells, x.cell);
    assert k < |cells|;
    assert !(k < i) && !(i < k);
  }

  ghost predicate InChallenge(cells: seq<Entry>, e: Entry, x: Entry) {
    if x.cell == e.cell && Improves(cells, e) then x == e else x in cells
  }

  lemma ChallengeKeepsOne(cells: seq<Entry>, e: Entry)
    requires OnePerCell(cells)
    ensures OnePerCell(Challenge(cells, e))
    ensures forall x {:trigger x in Challenge(cells, e)} :: x in Challenge(cells, e) <==> InChallenge(cells, e, x)
    ensures exists x :: x in Challenge(cells, e) && x.cell == e.cell && AtLeast(x, e)
    ensures !Improves(cells, e) ==> forall x {:trigger x in cells} :: x in cells && x.cell == e.cell ==> AtLeast(x, e)
    ensures Improves(cells, e) ==> forall x {:trigger x in cells} :: x in cells && x.cell == e.cell ==> AtLeast(e, x)
  {
    hide RankLeq;
    RankLinear();
    forall x {:trigger x in cells} | x in cells && x.cell == e.cell
      ensures if Improves(cells, e) then AtLeast(e, x) else AtLeast(x, e)
    {
      UniqueInCell(cells, x);
    }
    if Improves(cells, e) {
      PutKeepsOne(cells, e);
      assert e in Challenge(cells, e);
    } else {
      assert cells[Find(cells, e.cell)] in cells;
    }
  }

  lemma BestGrows(x: Entry, pool: seq<Entry>, e: Entry)
    requires BestOf(x, pool) && (e.cell == x.cell ==> AtLeast(x, e))
    ensures BestOf(x, pool + [e])
  {
  }

  lemma StaysBest(s: seq<Entry>, pool: seq<Entry>, e: Entry)
    requires OnePerCell(s) && AllBest(s, pool) && CoversCells(s, pool)
    ensures AllBest(Challenge(s, e), pool + [e])
  {
    hide OnePerCell, RankLeq, Challenge, Improves, BestOf, CoversCells;
    RankLinear();
    ChallengeKeepsOne(s, e);
    var after := Challenge(s, e);
    forall x {:trigger x in after} | x in after ensures x in pool + [e] && BestOf(x, pool + [e]) {
      if x in s {
        BestGrows(x, pool, e);
      } else {
        NewcomerIsBest(s, pool, e);
        BestGrows(e, pool, e);
      }
    }
  }

  lemma NewcomerIsBest(s: seq<Entry>, pool: seq<Entry>, e: Entry)
    requires OnePerCell(s) && AllBest(s, pool) && CoversCells(s, pool) && Improves(s, e)
    ensures BestOf(e, pool)
  {
    hide RankLeq, Improves, OnePerCell;
    RankLinear();
    ChallengeKeepsOne(s, e);
    forall y {:trigger y in pool} | y in pool && y.cell == e.cell ensures AtLeast(e, y) {
      assert HasCell(s, y.cell);
      var x :| x in s && x.cell == y.cell;
      assert BestOf(x, pool);
    }
  }

  lemma StaysCovered(s: seq<Entry>, pool: seq<Entry>, e: Entry)
    requires OnePerCell(s) && CoversCells(s, pool)
    ensures CoversCells(Challenge(s, e), pool + [e])
  {
    hide OnePerCell, RankLeq, Challenge, Improves;
    ChallengeKeepsOne(s, e);
    var after := Challenge(s, e);
    forall y {:trigger y in pool + [e]} | y in pool + [e] ensures HasCell(after, y.cell) {
      if y.cell != e.cell {
        assert y in pool && HasCell(s, y.cell);
        var x :| x in s && x.cell == y.cell;
        assert x in after;
      }
    }
  }

  lemma ReflexiveRank(r: Rank)
    ensures RankLeq(r, r)
  {
    LeqTotal(r.id, r.id);
  }

  lemma OnesAreBest(s: seq<Entry>)
    requires OnePerCell(s)
    ensures BestPerCell(s, s)
  {
    forall x {:trigger x in s} | x in s ensures BestOf(x, s) {
      forall y {:trigger y in s} | y in s && y.cell == x.cell ensures AtLeast(x, y) {
        UniqueInCell(s, x);
        UniqueInCell(s, y);
        ReflexiveRank(x.rank);
      }
    }
  }

  /** Whatever order candidates challenge in, every cell ends with a best entry of that cell. */
  lemma {:induction false} ChallengedIsBest(cells: seq<Entry>, candidates: seq<Entry>)
    requires OnePerCell(cells)
    ensures BestPerCell(Challenged(cells, candidates), cells + candidates)
  {
    hide OnePerCell, AllBest, CoversCells, Challenge;
    if candidates == [] {
      OnesAreBest(cells);
      assert cells + candidates == cells;
    } else {
      var front, e := candidates[..|candidates| - 1], candidates[|candidates| - 1];
      ChallengedIsBest(cells, front);
      var s, pool := Challenged(cells, front), cells + front;
      ChallengeKeepsOne(s, e);
      StaysBest(s, pool, e);
      StaysCovered(s, pool, e);
      assert cells + candidates == pool + [e];
    }
  }

  // ----- the merged archive -----

  function Pool(previous: seq<Saved>, candidates: seq<Entry>): seq<Entry> {
    Loaded(previous) + candidates
  }

  lemma RankedFacts(previous: seq<Saved>, candidates: seq<Entry>)
    ensures var all := Sort(Challenged(Loaded(previous), candidates), AtLeast);
            Sorted(all, AtLeast) && AllBest(all, Pool(previous, candidates)) && CoversCells(all, Pool(previous, candidates))
  {
    var cells := Challenged(Loaded(previous), candidates);
    LoadedOnePerCell(previous);
    ChallengedIsBest(Loaded(previous), candidates);
    AtLeastIsPreorder();
    hide Sort, RankLeq, Challenged, Loaded;
    SortSorted(cells, AtLeast);
    SortMembers(cells, AtLeast);
    var all := Sort(cells, AtLeast);
    forall y {:trigger y in Pool(previous, candidates)} | y in Pool(previous, candidates) ensures HasCell(all, y.cell) {
      assert HasCell(cells, y.cell);
      var x :| x in cells && x.cell == y.cell;
      assert x in all;
    }
  }

  /** The kept entries are the best of their cells, best first, and at most 48. */
  lemma KeptAreBest(previous: seq<Saved>, candidates: seq<Entry>)
    ensures var kept := Merged(previous, candidates);
            |kept| <= 48 && Sorted(kept, AtLeast) && AllBest(kept, Pool(previous, candidates))
  {
    RankedFacts(previous, candidates);
    hide Challenged, Loaded, Sort, BestOf;
    var all := Sort(Challenged(Loaded(previous), candidates), AtLeast);
    forall x {:trigger x in FirstCells(all)} | x in FirstCells(all) ensures x in all { }
  }

  /** A cell that stays never gets a worse elite. */
  lemma ElitesNeverWorsen(previous: seq<Saved>, candidates: seq<Entry>, before: Entry, after: Entry)
    requires before in Loaded(previous) && after in Merged(previous, candidates) && after.cell == before.cell
    ensures AtLeast(after, before)
  {
    hide Merged, Loaded;
    KeptAreBest(previous, candidates);
    assert before in Pool(previous, candidates);
  }

  ghost predicate AllAtLeast(s: seq<Entry>, x: Entry) {
    forall y {:trigger y in s} :: y in s ==> AtLeast(y, x)
  }

  lemma KeptIfEarly(all: seq<Entry>, j: nat)
    requires j < |all|
    ensures j < MAX_CELLS ==> all[j] in FirstCells(all)
  {
    assert all[j] in all[..j + 1];
  }

  /** A cell is dropped only when 48 retained entries rank at least as high as everything in it. */
  lemma DroppedOnlyWhenFull(previous: seq<Saved>, candidates: seq<Entry>, x: Entry)
    requires x in Pool(previous, candidates) && !HasCell(Merged(previous, candidates), x.cell)
    ensures |Merged(previous, candidates)| == 48 && AllAtLeast(Merged(previous, candidates), x)
  {
    RankedFacts(previous, candidates);
    hide Challenged, Loaded, Sort, RankLeq;
    RankLinear();
    var all := Sort(Challenged(Loaded(previous), candidates), AtLeast);
    assert HasCell(all, x.cell);
    var y :| y in all && y.cell == x.cell;
    var j :| 0 <= j < |all| && all[j] == y;
    KeptIfEarly(all, j);
    assert BestOf(y, Pool(previous, candidates));
    forall z {:trigger z in FirstCells(all)} | z in FirstCells(all) ensures AtLeast(z, x) {
      var i :| 0 <= i < MAX_CELLS && all[i] == z;
      assert AtLeast(all[i], all[j]);
    }
  }

  /** The first entry of a merged archive ranks at least as high as everything before and beside it. */
  lemma BestOnTop(previous: seq<Saved>, candidates: seq<Entry>, x: Entry)
    requires x in Pool(previous, candidates)
    ensures Merged(previous, candidates) != [] && AtLeast(Merged(previous, candidates)[0], x)
  {
    var kept := Merged(previous, candidates);
    hide Merged, RankLeq, Pool;
    RankLinear();
    KeptAreBest(previous, candidates);
    if HasCell(kept, x.cell) {
      var y :| y in kept && y.cell == x.cell;
      assert BestOf(y, Pool(previous, candidates));
      var i :| 0 <= i < |kept| && kept[i] == y;
      assert i == 0 || AtLeast(kept[0], kept[i]);
    } else {
      DroppedOnlyWhenFull(previous, candidates, x);
      assert kept[0] in kept;
    }
  }

  // ----- across generations -----

  /** What a report saves of an archive, as the next generation reads it. */
  function Save(cells: seq<Entry>): seq<Saved> {
    seq(|cells|, k requires 0 <= k < |cells| => Saved(cells[k].cell, Some(cells[k].genome), cells[k].rank))
  }

  ghost predicate Named(cells: seq<Entry>) {
    forall x {:trigger x in cells} :: x in cells ==> x.cell != ""
  }

  lemma NothingSaved()
    ensures Loaded(Save([])) == []
  {
  }

  lemma SavedFront(cells: seq<Entry>)
    requires cells != [] && OnePerCell(cells) && Named(cells)
    ensures var front, x := cells[..|cells| - 1], cells[|cells| - 1];
            && OnePerCell(front) && Named(front) && x.cell != "" && cells == front + [x]
            && Save(cells) == Save(front) + [Saved(x.cell, Some(x.genome), x.rank)]
            && forall i :: 0 <= i < |front| ==> front[i].cell != x.cell
  {
    var front, x := cells[..|cells| - 1], cells[|cells| - 1];
    assert cells == front + [x] && x in cells;
    forall y {:trigger y in front} | y in front ensures y.cell != "" { assert y in cells; }
  }

  lemma LoadedSnoc(previous: seq<Saved>, row: Saved)
    requires row.Saved? && row.cell != "" && row.genome.Some?
    ensures Loaded(previous + [row]) == Put(Loaded(previous), Entry(row.cell, row.genome.value, row.rank))
  {
    hide Put;
    assert (previous + [row])[..|previous|] == previous;
  }

  lemma PutNew(cells: seq<Entry>, x: Entry)
    requires forall i :: 0 <= i < |cells| ==> cells[i].cell != x.cell
    ensures Put(cells, x) == cells + [x]
  {
  }

  /** Saving and loading an archive changes nothing. */
  lemma {:induction false} LoadSaved(cells: seq<Entry>)
    requires OnePerCell(cells) && Named(cells)
    ensures Loaded(Save(cells)) == cells
  {
    hide Put, Find, OnePerCell, Named;
    if cells == [] {
      NothingSaved();
    } else {
      var front, x := cells[..|cells| - 1], cells[|cells| - 1];
      SavedFront(cells);
      LoadSaved(front);
      LoadedSnoc(Save(front), Saved(x.cell, Some(x.genome), x.rank));
      PutNew(front, x);
    }
  }

  /** The archive after each generation of candidates. */
  function Generations(start: seq<Saved>, generations: seq<seq<Entry>>): seq<Entry> {
    if generations == [] then Loaded(start)
    else Merged(Save(Generations(start, generations[..|generations| - 1])), generations[|generations| - 1])
  }

  ghost predicate AllNamed(generations: seq<seq<Entry>>) {
    forall k :: 0 <= k < |generations| ==> Named(generations[k])
  }

  lemma {:induction false} LoadedNamed(previous: seq<Saved>)
    ensures Named(Loaded(previous))
  {
    if previous != [] {
      LoadedNamed(previous[..|previous| - 1]);
      LoadedOnePerCell(previous[..|previous| - 1]);
      var row := previous[|previous| - 1];
      if row.Saved? && row.cell != "" && row.genome.Some? {
        PutKeepsOne(Loaded(previous[..|previous| - 1]), Entry(row.cell, row.genome.value, row.rank));
      }
    }
  }

  lemma MergedOnePerCell(previous: seq<Saved>, candidates: seq<Entry>)
    ensures OnePerCell(Merged(previous, candidates))
  {
    var cells := Challenged(Loaded(previous), candidates);
    LoadedOnePerCell(previous);
    ChallengedIsBest(Loaded(previous), candidates);
    hide Challenged, Loaded;
    SortOnePerCell(cells);
  }

  lemma {:induction false} SortOnePerCell(s: seq<Entry>)
    requires OnePerCell(s)
    ensures OnePerCell(Sort(s, AtLeast))
  {
    if s != [] {
      var front, x := s[..|s| - 1], s[|s| - 1];
      SortOnePerCell(front);
      SortMembers(front, AtLeast);
      var sorted := Sort(front, AtLeast);
      forall k | 0 <= k < |sorted| ensures sorted[k].cell != x.cell {
        assert sorted[k] in front;
      }
    }
  }

  lemma GenerationsSound(start: seq<Saved>, generations: seq<seq<Entry>>)
    requires AllNamed(generations)
    ensures OnePerCell(Generations(start, generations)) && Named(Generations(start, generations))
  {
    if generations == [] {
      LoadedOnePerCell(start);
      LoadedNamed(start);
    } else {
      var previous, candidates := Save(Generations(start, generations[..|generations| - 1])), generations[|generations| - 1];
      hide Merged, Loaded, OnePerCell, Save;
      MergedOnePerCell(previous, candidates);
      KeptAreBest(previous, candidates);
      LoadedNamed(previous);
      forall x {:trigger x in Merged(previous, candidates)} | x in Merged(previous, candidates) ensures x.cell != "" {
        assert x in Pool(previous, candidates);
      }
    }
  }

  /** Over any run, the best rank never decreases: the head of the archive ranks at least as high as every entry it ever held. */
  lemma {:induction false} BestNeverDecreases(start: seq<Saved>, generations: seq<seq<Entry>>, since: nat, x: Entry)
    requires AllNamed(generations) && since < |generations| && x in Generations(start, generations[..since])
    ensures Generations(start, generations) != [] && AtLeast(Generations(start, generations)[0], x)
    decreases |generations| - since
  {
    assert generations[..|generations|] == generations;
    var now, candidates := Generations(start, generations[..since]), generations[since];
    var next := Generations(start, generations[..since + 1]);
    assert generations[..since + 1][..since] == generations[..since];
    GenerationsSound(start, generations[..since]);
    LoadSaved(now);
    hide Merged, Loaded, OnePerCell, Save, RankLeq;
    RankLinear();
    BestOnTop(Save(now), candidates, x);
    if since + 1 < |generations| {
      BestNeverDecreases(start, generations, since + 1, next[0]);
    }
  }

  /** No candidate improving means every candidate met an elite of its cell that ranks at least as high. */
  lemma {:induction false} NoImprovement(cells: seq<Entry>, candidates: seq<Entry>)
    ensures Improvements(cells, candidates) == 0 <==> forall k :: 0 <= k < |candidates| ==> !Improves(cells, candidates[k])
    ensures Improvements(cells, candidates) == 0 ==> Challenged(cells, candidates) == cells
  {
    if candidates != [] {
      hide Improves;
      NoImprovement(cells, candidates[..|candidates| - 1]);
    }
  }

  // ----- the ranking as a comparison of keys -----

  /** The figures in the order they are compared, each so that more is better; a missing bound is below every number. */
  function Key(r: Rank): (k: seq<real>)
    ensures |k| == 8
  {
    [if r.lower.Some? then 1.0 else 0.0, r.lower.GetOr(0.0), if r.advantage.Some? then 1.0 else 0.0, r.advantage.GetOr(0.0),
     r.severe as real, r.net as real, -(r.drawdown as real), -r.complexity]
  }

  /** The first figure in which the keys differ is higher in `a`. */
  ghost predicate Higher(a: seq<real>, b: seq<real>)
    requires |a| == |b|
  {
    exists k :: 0 <= k < |a| && a[k] > b[k] && forall j :: 0 <= j < k ==> a[j] == b[j]
  }

  lemma HigherAt(a: seq<real>, b: seq<real>, k: nat)
    requires |a| == |b| && k < |a| && a[k] != b[k] && forall j :: 0 <= j < k ==> a[j] == b[j]
    ensures Higher(a, b) <==> a[k] > b[k]
  {
    if j :| 0 <= j < |a| && a[j] > b[j] && forall i :: 0 <= i < j ==> a[i] == b[i] {
      assert j == k;
    }
  }

  lemma FirstDifference(a: seq<real>, b: seq<real>, k: nat) returns (m: nat)
    requires |a| == |b| && k <= |a| && forall j :: 0 <= j < k ==> a[j] == b[j]
    ensures k <= m <= |a| && (forall j :: 0 <= j < m ==> a[j] == b[j]) && (m < |a| ==> a[m] != b[m])
    decreases |a| - k
  {
    if k < |a| && a[k] == b[k] {
      m := FirstDifference(a, b, k + 1);
    } else {
      m := k;
    }
  }

  /** An entry ranks at least as high as another exactly when its key is higher, or the same with no earlier a name. */
  lemma RanksByKey(a: Entry, b: Entry)
    ensures AtLeast(a, b) <==>
              Higher(Key(a.rank), Key(b.rank)) || (Key(a.rank) == Key(b.rank) && TextLeq(b.rank.id, a.rank.id))
  {
    var x, y := Key(a.rank), Key(b.rank);
    var m := FirstDifference(x, y, 0);
    if m < 8 {
      HigherAt(x, y, m);
      hide Higher;
      DifferAt(a.rank, b.rank, m);
    } else {
      SameFigures(a.rank, b.rank);
      assert x == y;
    }
  }

  lemma SameFigures(a: Rank, b: Rank)
    requires forall j :: 0 <= j < 8 ==> Key(a)[j] == Key(b)[j]
    ensures a.lower == b.lower && a.advantage == b.advantage && a.severe == b.severe && a.net == b.net
    ensures a.drawdown == b.drawdown && a.complexity == b.complexity
  {
    assert Key(a)[0] == Key(b)[0] && Key(a)[1] == Key(b)[1] && Key(a)[2] == Key(b)[2] && Key(a)[3] == Key(b)[3];
    assert Key(a)[4] == Key(b)[4] && Key(a)[5] == Key(b)[5] && Key(a)[6] == Key(b)[6] && Key(a)[7] == Key(b)[7];
  }

  lemma DifferAt(a: Rank, b: Rank, m: nat)
    requires m < 8 && Key(a)[m] != Key(b)[m] && forall j :: 0 <= j < m ==> Key(a)[j] == Key(b)[j]
    ensures RankLeq(b, a) <==> Key(a)[m] > Key(b)[m]
  {
    var x, y := Key(a), Key(b);
    assert m > 0 ==> x[0] == y[0];
    assert m > 1 ==> x[1] == y[1];
    assert m > 2 ==> x[2] == y[2];
    assert m > 3 ==> x[3] == y[3];
    assert m > 4 ==> x[4] == y[4];
    assert m > 5 ==> x[5] == y[5];
    assert m > 6 ==> x[6] == y[6];
  }

  ghost predicate Usable(row: Saved) {
    row.Saved? && row.cell != "" && row.genome.Some?
  }

  /** `x` was saved in a usable row after which none of its cell follows. */
  ghost predicate SavedLast(previous: seq<Saved>, x: Entry) {
    exists k :: 0 <= k < |previous| && Usable(previous[k]) && x == Entry(previous[k].cell, previous[k].genome.value, previous[k].rank)
                && forall j :: k < j < |previous| && Usable(previous[j]) ==> previous[j].cell != x.cell
  }

  lemma SavedLastNext(front: seq<Saved>, row: Saved, x: Entry)
    ensures SavedLast(front + [row], x) <==>
              if !Usable(row) then SavedLast(front, x)
              else x == Entry(row.cell, row.genome.value, row.rank) || (SavedLast(front, x) && x.cell != row.cell)
  {
    var all, n := front + [row], |front|;
    hide Usable;
    assert all[n] == row && forall k :: 0 <= k < n ==> all[k] == front[k];
  }

  /** Loading keeps, of every cell, the last usable row saved for it. */
  lemma {:induction false} LoadedIsLast(previous: seq<Saved>, x: Entry)
    ensures x in Loaded(previous) <==> SavedLast(previous, x)
  {
    if previous != [] {
      var front, row := previous[..|previous| - 1], previous[|previous| - 1];
      assert previous == front + [row];
      LoadedIsLast(front, x);
      LoadedOnePerCell(front);
      SavedLastNext(front, row, x);
      hide SavedLast, Put;
      if Usable(row) {
        PutMembers(Loaded(front), Entry(row.cell, row.genome.value, row.rank), x);
      }
    }
  }

  lemma PutMembers(cells: seq<Entry>, e: Entry, x: Entry)
    requires OnePerCell(cells)
    ensures x in Put(cells, e) <==> x == e || (x in cells && x.cell != e.cell)
  {
    var k := Find(cells, e.cell);
    var after := Put(cells, e);
    assert after[k] == e;
    if x in cells && x.cell != e.cell {
      var i :| 0 <= i < |cells| && cells[i] == x;
      assert after[i] == x;
    }
    if x in after && x != e {
      var i :| 0 <= i < |after| && after[i] == x;
      assert i != k && cells[i] == x;
    }
  }
}
