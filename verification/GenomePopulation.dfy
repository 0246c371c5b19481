/** The next candidate population of the evolution lab (`autonomy/evolution_lab.py`). */
module GenomePopulation {
  import opened Options
  import opened TextOrder
  import opened StableSorting
  import opened Rounding
  import opened Genomes
  import GenomeArchive

  /** How genomes are named: the digest of their contents. */
  type Naming = Genome -> string

  // ----- genes stay in the box -----

  lemma RoundKeepsBounds(low: int, x: real, high: int)
    requires low as real / 10000.0 <= x <= high as real / 10000.0
    ensures low as real / 10000.0 <= Round4(x) <= high as real / 10000.0
  {
    RoundMonotone(low as real, x * 10000.0);
    RoundMonotone(x * 10000.0, high as real);
    RoundInteger(low);
    RoundInteger(high);
  }

  lemma RoundTwice(x: real)
    ensures Round4(Round4(x)) == Round4(x)
  {
    RoundInteger(RoundHalfEven(x * 10000.0));
    assert Round4(x) * 10000.0 == RoundHalfEven(x * 10000.0) as real;
  }

  /** Whatever genes go in, a bounded genome comes out, and reading it back from a report gives it again. */
  lemma AlwaysBounded(shrinkage: real, edge: int, uncertainty: real, price: int)
    ensures var g := BoundedGenome(shrinkage, edge, uncertainty, price);
            IsBounded(g) && FromMapping(g) == Some(g)
  {
    RoundKeepsBounds(2000, Clamp(0.20, shrinkage, 1.35), 13500);
    RoundKeepsBounds(800, Clamp(0.08, uncertainty, 0.40), 4000);
    RoundTwice(Clamp(0.20, shrinkage, 1.35));
    RoundTwice(Clamp(0.08, uncertainty, 0.40));
  }

  // ----- the genomes tried, in order -----

  function Shift(g: Genome, ds: real, de: real, du: real, dp: real): Genome {
    BoundedGenome(g.shrinkage + ds, g.edge + RoundHalfEven(de), g.uncertainty + du, g.price + RoundHalfEven(dp))
  }

  /** Two local probes around each of the first eight elites. */
  function Probes(elites: seq<Genome>, scale: real): seq<Genome> {
    if elites == [] then []
    else
      var g := elites[0];
      [Shift(g, -0.08 * scale, -2.0 * scale, -0.03 * scale, -5.0 * scale),
       Shift(g, 0.08 * scale, 2.0 * scale, 0.03 * scale, 5.0 * scale)]
      + Probes(elites[1..], scale)
  }

  /** `crossover_genomes`: two complementary swaps and the midpoint. */
  function Crossover(a: Genome, b: Genome): seq<Genome> {
    [BoundedGenome(a.shrinkage, b.edge, a.uncertainty, b.price),
     BoundedGenome(b.shrinkage, a.edge, b.uncertainty, a.price),
     BoundedGenome((a.shrinkage + b.shrinkage) / 2.0, RoundHalfEven((a.edge + b.edge) as real / 2.0),
                   (a.uncertainty + b.uncertainty) / 2.0, RoundHalfEven((a.price + b.price) as real / 2.0))]
  }

  function CrossesWith(parent: Genome, partners: seq<Genome>): seq<Genome> {
    if partners == [] then [] else Crossover(parent, partners[0]) + CrossesWith(parent, partners[1..])
  }

  function NeighbourCrosses(partners: seq<Genome>): seq<Genome> {
    if |partners| < 2 then [] else Crossover(partners[0], partners[1]) + NeighbourCrosses(partners[1..])
  }

  const STEP_SHRINKAGE := [-0.20, -0.08, 0.08, 0.20]
  const STEP_EDGE := [-3.0, 0.0, 3.0]
  const STEP_UNCERTAINTY := [-0.08, 0.0, 0.08]
  const STEP_PRICE := [-15.0, 0.0, 15.0]

  function Mutant(parent: Genome, scale: real, ds: real, de: real, du: real, dp: real): Genome {
    Shift(parent, ds * scale, de * scale, du * scale, dp * scale)
  }

  function Mutation(parent: Genome, scale: real, k: nat): Genome
    requires k < 108
  {
    Mutant(parent, scale, STEP_SHRINKAGE[k / 27], STEP_EDGE[k / 9 % 3], STEP_UNCERTAINTY[k / 3 % 3], STEP_PRICE[k % 3])
  }

  function Mutations(parent: Genome, scale: real): seq<Genome> {
    seq(108, k requires 0 <= k < 108 => Mutation(parent, scale, k))
  }

  const LATTICE_SHRINKAGE := [0.25, 0.50, 0.75, 1.00, 1.25]
  const LATTICE_EDGE := [3, 5, 8, 12, 16]
  const LATTICE_UNCERTAINTY := [0.12, 0.18, 0.25, 0.35]
  const LATTICE_PRICE := [50, 65, 75, 90]

  function LatticePoint(k: nat): Genome
    requires k < 400
  {
    Genome(LATTICE_SHRINKAGE[k / 80], LATTICE_EDGE[k / 16 % 5], LATTICE_UNCERTAINTY[k / 4 % 4], LATTICE_PRICE[k % 4])
  }

  /** The broad lattice, shuffled by the generation's digest of each genome. */
  function Lattice(digest: Naming): seq<Genome> {
    Sort(seq(400, k requires 0 <= k < 400 => LatticePoint(k)), (a: Genome, b: Genome) => TextLeq(digest(a), digest(b)))
  }

  function FirstEight(elites: seq<Genome>): seq<Genome> {
    if |elites| > 8 then elites[..8] else elites
  }

  /** Everything tried before the lattice. */
  function Directed(parent: Genome, elites: seq<Genome>, scale: real): seq<Genome> {
    [INCUMBENT, parent] + elites + Probes(FirstEight(elites), scale) + CrossesWith(parent, FirstEight(elites))
    + NeighbourCrosses(FirstEight(elites)) + Mutations(parent, scale)
  }

  // ----- collecting them -----

  predicate Named(s: seq<Genome>, name: string, id: Naming) {
    exists k :: 0 <= k < |s| && id(s[k]) == name
  }

  /** Only bounded genomes are added, and the first of each name. */
  function Add(s: seq<Genome>, g: Genome, id: Naming): seq<Genome> {
    if IsBounded(g) && !Named(s, id(g), id) then s + [g] else s
  }

  function AddAll(s: seq<Genome>, tried: seq<Genome>, id: Naming): seq<Genome> {
    if tried == [] then s else Add(AddAll(s, tried[..|tried| - 1], id), tried[|tried| - 1], id)
  }

  function First(s: seq<Genome>, n: nat): seq<Genome> {
    if |s| > n then s[..n] else s
  }

  function Room(limit: int): nat { if limit < 8 then 8 else limit }

  function Scale(mutation: real): real { Clamp(0.25, mutation, 2.0) }

  /** The population by its meaning: the first distinct bounded genomes of everything that could be tried. */
  function Population(active: Option<Genome>, elites: seq<Genome>, mutation: real, limit: int, id: Naming, digest: Naming): seq<Genome> {
    First(AddAll([], Directed(active.GetOr(INCUMBENT), elites, Scale(mutation)) + Lattice(digest), id), Room(limit))
  }

  method AddEach(s: seq<Genome>, tried: seq<Genome>, id: Naming) returns (r: seq<Genome>)
    ensures r == AddAll(s, tried, id)
  {
    r := s;
    for i := 0 to |tried|
      invariant r == AddAll(s, tried[..i], id)
    {
      assert tried[..i + 1][..i] == tried[..i];
      r := Add(r, tried[i], id);
    }
    assert tried[..|tried|] == tried;
  }

  /** `candidate_population`: the lattice is left as soon as there are enough genomes. */
  method CandidatePopulation(active: Option<Genome>, elites: seq<Genome>, mutation: real, limit: int, id: Naming, digest: Naming)
    returns (population: seq<Genome>)
    ensures population == Population(active, elites, mutation, limit, id, digest)
  {
    hide *;
    var parent := active.GetOr(INCUMBENT);
    var scale := Scale(mutation);
    var unique := AddEach([], Directed(parent, elites, scale), id);
    var lattice := Lattice(digest);
    ghost var directed := Directed(parent, elites, scale);
    var i, enough := 0, false;
    AddNothing(directed, id);
    while i < |lattice| && !enough
      invariant 0 <= i <= |lattice| && unique == AddAll([], directed + lattice[..i], id)
      invariant enough ==> |unique| >= Room(limit)
      decreases |lattice| - i
    {
      AddNext(directed, lattice, i, id);
      unique := Add(unique, lattice[i], id);
      enough := |unique| >= Room(limit);
      i := i + 1;
    }
    StoppingIsHarmless(directed, lattice, i, Room(limit), id);
    population := First(unique, Room(limit));
    PopulationIs(active, elites, mutation, limit, id, digest);
  }

  lemma PopulationIs(active: Option<Genome>, elites: seq<Genome>, mutation: real, limit: int, id: Naming, digest: Naming)
    ensures Population(active, elites, mutation, limit, id, digest)
         == First(AddAll([], Directed(active.GetOr(INCUMBENT), elites, Scale(mutation)) + Lattice(digest), id), Room(limit))
  {
    hide First, AddAll, Directed, Lattice;
  }

  lemma AddNothing(directed: seq<Genome>, id: Naming)
    ensures AddAll([], directed + [], id) == AddAll([], directed, id)
    ensures forall s: seq<Genome> {:trigger s[..0]} :: s[..0] == []
  {
    assert directed + [] == directed;
  }

  lemma AddNext(directed: seq<Genome>, lattice: seq<Genome>, i: nat, id: Naming)
    requires i < |lattice|
    ensures AddAll([], directed + lattice[..i + 1], id) == Add(AddAll([], directed + lattice[..i], id), lattice[i], id)
  {
    var tried := directed + lattice[..i + 1];
    assert tried[..|tried| - 1] == directed + lattice[..i];
    hide Add;
  }

  lemma {:induction false} AddAllExtends(tried: seq<Genome>, more: seq<Genome>, id: Naming)
    ensures AddAll([], tried, id) <= AddAll([], tried + more, id)
  {
    if more == [] {
      assert tried + more == tried;
    } else {
      AddAllExtends(tried, more[..|more| - 1], id);
      assert (tried + more)[..|tried + more| - 1] == tried + more[..|more| - 1];
    }
  }

  lemma StoppingIsHarmless(directed: seq<Genome>, lattice: seq<Genome>, i: nat, room: nat, id: Naming)
    requires i <= |lattice| && (i == |lattice| || |AddAll([], directed + lattice[..i], id)| >= room)
    ensures First(AddAll([], directed + lattice[..i], id), room) == First(AddAll([], directed + lattice, id), room)
  {
    assert lattice == lattice[..i] + lattice[i..];
    assert directed + lattice == (directed + lattice[..i]) + lattice[i..];
    AddAllExtends(directed + lattice[..i], lattice[i..], id);
    hide AddAll;
    if i == |lattice| {
      assert lattice[..i] == lattice;
    }
  }

  // ----- what the population is -----

  ghost predicate Distinct(s: seq<Genome>, id: Naming) {
    forall i, j :: 0 <= i < j < |s| ==> id(s[i]) != id(s[j])
  }

  ghost predicate AllBounded(s: seq<Genome>) {
    forall k :: 0 <= k < |s| ==> IsBounded(s[k])
  }

  lemma {:induction false} AddedAreSound(tried: seq<Genome>, id: Naming)
    ensures AllBounded(AddAll([], tried, id)) && Distinct(AddAll([], tried, id), id)
  {
    if tried != [] {
      AddedAreSound(tried[..|tried| - 1], id);
    }
  }

  /** At most `max(8, limit)` genomes, all in the box, no two with one name. */
  lemma PopulationIsSound(active: Option<Genome>, elites: seq<Genome>, mutation: real, limit: int, id: Naming, digest: Naming)
    ensures var p := Population(active, elites, mutation, limit, id, digest);
            |p| <= Room(limit) && AllBounded(p) && Distinct(p, id)
  {
    AddedAreSound(Directed(active.GetOr(INCUMBENT), elites, Scale(mutation)) + Lattice(digest), id);
  }

  /** Genome number `k` tried, if bounded, is found, by name, among the first `k + 1` collected. */
  lemma {:induction false} EarlyOnesAreIn(tried: seq<Genome>, k: nat, id: Naming)
    requires k < |tried| && IsBounded(tried[k])
    ensures Named(First(AddAll([], tried, id), k + 1), id(tried[k]), id)
  {
    if k + 1 < |tried| {
      var front := tried[..|tried| - 1];
      EarlyOnesAreIn(front, k, id);
      assert tried == front + [tried[|tried| - 1]];
      AddAllExtends(front, [tried[|tried| - 1]], id);
      var a, b := AddAll([], front, id), AddAll([], tried, id);
      var i :| 0 <= i < |First(a, k + 1)| && id(First(a, k + 1)[i]) == id(tried[k]);
      assert First(b, k + 1)[i] == First(a, k + 1)[i];
    } else {
      AddedAreFew(tried, id);
      var front := tried[..|tried| - 1];
      var a := AddAll([], front, id);
      if Named(a, id(tried[k]), id) {
        var i :| 0 <= i < |a| && id(a[i]) == id(tried[k]);
        assert AddAll([], tried, id)[i] == a[i];
      } else {
        assert AddAll([], tried, id)[|a|] == tried[k];
      }
    }
  }

  lemma {:induction false} AddedAreFew(tried: seq<Genome>, id: Naming)
    ensures |AddAll([], tried, id)| <= |tried|
  {
    if tried != [] {
      AddedAreFew(tried[..|tried| - 1], id);
    }
  }

  function Tried(active: Option<Genome>, elites: seq<Genome>, mutation: real, digest: Naming): seq<Genome> {
    Directed(active.GetOr(INCUMBENT), elites, Scale(mutation)) + Lattice(digest)
  }

  /** No two of these genomes share a name: the digest does not collide on them. */
  ghost predicate NamesApart(s: seq<Genome>, id: Naming) {
    forall i, j :: 0 <= i < |s| && 0 <= j < |s| && id(s[i]) == id(s[j]) ==> s[i] == s[j]
  }

  lemma {:induction false} AddedWereTried(tried: seq<Genome>, id: Naming)
    ensures forall k :: 0 <= k < |AddAll([], tried, id)| ==> AddAll([], tried, id)[k] in tried
  {
    if tried != [] {
      AddedWereTried(tried[..|tried| - 1], id);
    }
  }

  lemma ElitesAreTried(active: Option<Genome>, elites: seq<Genome>, mutation: real, digest: Naming, k: nat)
    requires k < |elites|
    ensures var tried := Tried(active, elites, mutation, digest);
            |tried| > k + 2 && tried[k + 2] == elites[k]
  {
    hide Lattice, Probes, CrossesWith, NeighbourCrosses, Mutations;
  }

  /** With room for two more than the elites, every bounded elite is in the population. */
  lemma ElitesReappear(active: Option<Genome>, elites: seq<Genome>, mutation: real, limit: int, id: Naming, digest: Naming, k: nat)
    requires k < |elites| && IsBounded(elites[k]) && |elites| + 2 <= Room(limit)
    requires NamesApart(Tried(active, elites, mutation, digest), id)
    ensures elites[k] in Population(active, elites, mutation, limit, id, digest)
  {
    var tried := Tried(active, elites, mutation, digest);
    ElitesAreTried(active, elites, mutation, digest, k);
    PopulationIs(active, elites, mutation, limit, id, digest);
    hide AddAll, Directed, Lattice, Population, Add;
    EarlyOnesAreIn(tried, k + 2, id);
    AddedWereTried(tried, id);
    var all := AddAll([], tried, id);
    var i :| 0 <= i < |First(all, k + 3)| && id(First(all, k + 3)[i]) == id(elites[k]);
    assert First(all, Room(limit))[i] == First(all, k + 3)[i] == all[i];
    var j :| 0 <= j < |tried| && tried[j] == all[i];
    assert tried[j] == tried[k + 2];
  }

  /** The incumbent always leads the population. */
  lemma IncumbentLeads(active: Option<Genome>, elites: seq<Genome>, mutation: real, limit: int, id: Naming, digest: Naming)
    ensures Population(active, elites, mutation, limit, id, digest) != []
         && Population(active, elites, mutation, limit, id, digest)[0] == INCUMBENT
  {
    var tried := Directed(active.GetOr(INCUMBENT), elites, Scale(mutation)) + Lattice(digest);
    assert tried == [INCUMBENT] + tried[1..] by {
      hide Lattice, Probes, CrossesWith, NeighbourCrosses, Mutations;
    }
    assert AddAll([], [INCUMBENT], id) == [INCUMBENT] by {
      assert [INCUMBENT][..0] == [];
    }
    AddAllExtends([INCUMBENT], tried[1..], id);
  }

  // ----- from one generation's archive to the next population -----

  /** The distinct genomes a saved archive gives as parents. */
  function Parents(cells: seq<GenomeArchive.Saved>): (r: seq<Genome>)
    ensures |r| <= |cells|
  {
    if cells == [] then []
    else
      var r, row := Parents(cells[..|cells| - 1]), cells[|cells| - 1];
      var g := if row.Saved? && row.genome.Some? then FromMapping(row.genome.value) else None;
      if g.Some? && g.value !in r then r + [g.value] else r
  }

  /** `archive_parents` in `run_evolution_lab` */
  method CollectParents(cells: seq<GenomeArchive.Saved>) returns (r: seq<Genome>)
    ensures r == Parents(cells)
  {
    r := [];
    for i := 0 to |cells|
      invariant r == Parents(cells[..i])
    {
      assert cells[..i + 1][..i] == cells[..i];
      if cells[i].Saved? && cells[i].genome.Some? {
        var g := FromMapping(cells[i].genome.value);
        if g.Some? && g.value !in r {
          r := r + [g.value];
        }
      }
    }
    assert cells[..|cells|] == cells;
  }

  lemma {:induction false} SavedAreParents(cells: seq<GenomeArchive.Saved>, k: nat)
    requires k < |cells| && cells[k].Saved? && cells[k].genome.Some? && FromMapping(cells[k].genome.value).Some?
    ensures FromMapping(cells[k].genome.value).value in Parents(cells)
  {
    if k < |cells| - 1 {
      SavedAreParents(cells[..|cells| - 1], k);
    }
  }

  /** Reading a genome back from a saved report gives it again. */
  predicate Readable(g: Genome) {
    FromMapping(g) == Some(g)
  }

  predicate AllReadable(s: seq<Genome>) {
    forall k :: 0 <= k < |s| ==> Readable(s[k])
  }

  lemma {:induction false} ProbesReadable(elites: seq<Genome>, scale: real)
    ensures AllReadable(Probes(elites, scale))
  {
    hide Readable, BoundedGenome;
    if elites != [] {
      var g := elites[0];
      ProbesReadable(elites[1..], scale);
      ShiftReadable(g, -0.08 * scale, -2.0 * scale, -0.03 * scale, -5.0 * scale);
      ShiftReadable(g, 0.08 * scale, 2.0 * scale, 0.03 * scale, 5.0 * scale);
    }
  }

  lemma ShiftReadable(g: Genome, ds: real, de: real, du: real, dp: real)
    ensures Readable(Shift(g, ds, de, du, dp))
  {
    hide BoundedGenome;
    AlwaysBounded(g.shrinkage + ds, g.edge + RoundHalfEven(de), g.uncertainty + du, g.price + RoundHalfEven(dp));
  }

  lemma CrossoverReadable(a: Genome, b: Genome)
    ensures AllReadable(Crossover(a, b))
  {
    hide BoundedGenome, RoundHalfEven;
    AlwaysBounded(a.shrinkage, b.edge, a.uncertainty, b.price);
    AlwaysBounded(b.shrinkage, a.edge, b.uncertainty, a.price);
    AlwaysBounded((a.shrinkage + b.shrinkage) / 2.0, RoundHalfEven((a.edge + b.edge) as real / 2.0),
                  (a.uncertainty + b.uncertainty) / 2.0, RoundHalfEven((a.price + b.price) as real / 2.0));
  }

  lemma ReadableAppend(a: seq<Genome>, b: seq<Genome>)
    requires AllReadable(a) && AllReadable(b)
    ensures AllReadable(a + b)
  {
    hide Readable;
  }

  lemma {:induction false} CrossesReadable(parent: Genome, partners: seq<Genome>)
    ensures AllReadable(CrossesWith(parent, partners)) && AllReadable(NeighbourCrosses(partners))
  {
    hide Crossover, Readable;
    if partners != [] {
      CrossesReadable(parent, partners[1..]);
      CrossoverReadable(parent, partners[0]);
      ReadableAppend(Crossover(parent, partners[0]), CrossesWith(parent, partners[1..]));
      if |partners| > 1 {
        CrossoverReadable(partners[0], partners[1]);
        ReadableAppend(Crossover(partners[0], partners[1]), NeighbourCrosses(partners[1..]));
      }
    }
  }

  lemma MutationsReadable(parent: Genome, scale: real)
    ensures AllReadable(Mutations(parent, scale))
  {
    var mutations := Mutations(parent, scale);
    hide Mutation, Readable;
    forall k | 0 <= k < |mutations| ensures Readable(mutations[k]) {
      MutationReadable(parent, scale, k);
    }
  }

  lemma MutationReadable(parent: Genome, scale: real, k: nat)
    requires k < 108
    ensures Readable(Mutation(parent, scale, k))
  {
    hide Shift, Readable;
    ShiftReadable(parent, STEP_SHRINKAGE[k / 27] * scale, STEP_EDGE[k / 9 % 3] * scale,
                  STEP_UNCERTAINTY[k / 3 % 3] * scale, STEP_PRICE[k % 3] * scale);
  }

  lemma FourDecimals(x: real, n: int)
    requires x * 10000.0 == n as real
    ensures Round4(x) == x
  {
    RoundInteger(n);
  }

  lemma LatticePointReadable(k: nat)
    requires k < 400
    ensures Readable(LatticePoint(k))
  {
    var g := LatticePoint(k);
    var s, u := k / 80, k / 4 % 4;
    assert g.shrinkage == [0.25, 0.50, 0.75, 1.00, 1.25][s];
    FourDecimals(g.shrinkage, [2500, 5000, 7500, 10000, 12500][s]);
    FourDecimals(g.uncertainty, [1200, 1800, 2500, 3500][u]);
    hide Round4;
  }

  lemma LatticeReadable(digest: Naming)
    ensures AllReadable(Lattice(digest))
  {
    var points := seq(400, k requires 0 <= k < 400 => LatticePoint(k));
    var leq := (a: Genome, b: Genome) => TextLeq(digest(a), digest(b));
    SortMembers(points, leq);
    var lattice := Lattice(digest);
    assert lattice == Sort(points, leq);
    hide Sort, Readable, LatticePoint, Lattice;
    forall i | 0 <= i < |lattice| ensures Readable(lattice[i]) {
      assert lattice[i] in points;
      var k :| 0 <= k < |points| && points[k] == lattice[i];
      LatticePointReadable(k);
    }
  }

  lemma IncumbentReadable()
    ensures Readable(INCUMBENT)
  {
    FourDecimals(1.0, 10000);
    FourDecimals(0.35, 3500);
    hide Round4;
  }

  lemma TriedReadable(active: Option<Genome>, elites: seq<Genome>, mutation: real, digest: Naming)
    requires (active.Some? ==> Readable(active.value)) && AllReadable(elites)
    ensures AllReadable(Tried(active, elites, mutation, digest))
  {
    hide Readable, Probes, CrossesWith, NeighbourCrosses, Mutations, Lattice, FirstEight, Scale;
    var parent, scale, first := active.GetOr(INCUMBENT), Scale(mutation), FirstEight(elites);
    IncumbentReadable();
    ProbesReadable(first, scale);
    CrossesReadable(parent, first);
    MutationsReadable(parent, scale);
    LatticeReadable(digest);
    assert AllReadable([INCUMBENT, parent]);
    hide AllReadable;
    ReadableAppend([INCUMBENT, parent], elites);
    ReadableAppend([INCUMBENT, parent] + elites, Probes(first, scale));
    ReadableAppend([INCUMBENT, parent] + elites + Probes(first, scale), CrossesWith(parent, first));
    var soFar := [INCUMBENT, parent] + elites + Probes(first, scale) + CrossesWith(parent, first);
    ReadableAppend(soFar, NeighbourCrosses(first));
    ReadableAppend(soFar + NeighbourCrosses(first), Mutations(parent, scale));
    ReadableAppend(Directed(parent, elites, scale), Lattice(digest));
  }

  /** A population bred from readable genomes is readable: every member can come back as an elite. */
  lemma PopulationReadable(active: Option<Genome>, elites: seq<Genome>, mutation: real, limit: int, id: Naming, digest: Naming)
    requires (active.Some? ==> Readable(active.value)) && AllReadable(elites)
    ensures AllReadable(Population(active, elites, mutation, limit, id, digest))
  {
    hide Readable, AllReadable, Population, AddAll, Directed, Lattice;
    TriedReadable(active, elites, mutation, digest);
    PopulationIs(active, elites, mutation, limit, id, digest);
    AddedReadable(Tried(active, elites, mutation, digest), id);
    FirstReadable(AddAll([], Tried(active, elites, mutation, digest), id), Room(limit));
  }

  lemma {:induction false} AddedReadable(tried: seq<Genome>, id: Naming)
    requires AllReadable(tried)
    ensures AllReadable(AddAll([], tried, id))
  {
    hide Readable, Named, IsBounded;
    if tried != [] {
      AddedReadable(tried[..|tried| - 1], id);
    }
  }

  lemma FirstReadable(s: seq<Genome>, n: nat)
    requires AllReadable(s)
    ensures AllReadable(First(s, n))
  {
    hide Readable;
  }

  lemma {:induction false} ParentsReadable(cells: seq<GenomeArchive.Saved>)
    ensures AllReadable(Parents(cells))
  {
    if cells != [] {
      ParentsReadable(cells[..|cells| - 1]);
      var row := cells[|cells| - 1];
      if row.Saved? && row.genome.Some? && FromMapping(row.genome.value).Some? {
        ReadAgain(row.genome.value);
      }
      hide FromMapping;
    }
  }

  lemma ReadAgain(g: Genome)
    requires FromMapping(g).Some?
    ensures Readable(FromMapping(g).value)
  {
    RoundTwice(g.shrinkage);
    RoundTwice(g.uncertainty);
    hide Round4;
  }

  // ----- many generations -----

  /** What a generation breeds with besides its archive: the active genome, the pressure, and its names and digest. */
  datatype Breeding = Breeding(active: Option<Genome>, mutation: real, id: Naming, digest: Naming)

  const ROOM := 96

  function Bred(cells: seq<GenomeArchive.Entry>, how: Breeding): seq<Genome> {
    Population(how.active, Parents(GenomeArchive.Save(cells)), how.mutation, ROOM, how.id, how.digest)
  }

  ghost predicate EntriesReadable(cells: seq<GenomeArchive.Entry>) {
    forall e {:trigger e in cells} :: e in cells ==> Readable(e.genome)
  }

  /**
   A run of the lab: each generation's entries carry genomes of the population bred from the archive before them, and
   active genomes were read from reports.
   */
  ghost predicate Lineage(start: seq<GenomeArchive.Saved>, generations: seq<seq<GenomeArchive.Entry>>, hows: seq<Breeding>)
    requires |hows| == |generations|
  {
    forall t :: 0 <= t < |generations| ==>
      && (hows[t].active.Some? ==> Readable(hows[t].active.value))
      && BredFrom(generations[t], GenomeArchive.Generations(start, generations[..t]), hows[t])
  }

  ghost predicate BredFrom(entries: seq<GenomeArchive.Entry>, cells: seq<GenomeArchive.Entry>, how: Breeding) {
    forall e {:trigger e in entries} :: e in entries ==> e.genome in Bred(cells, how)
  }

  lemma BredReadable(entries: seq<GenomeArchive.Entry>, cells: seq<GenomeArchive.Entry>, how: Breeding)
    requires BredFrom(entries, cells, how) && (how.active.Some? ==> Readable(how.active.value))
    ensures EntriesReadable(entries)
  {
    hide Population, Readable, Parents;
    ParentsReadable(GenomeArchive.Save(cells));
    PopulationReadable(how.active, Parents(GenomeArchive.Save(cells)), how.mutation, ROOM, how.id, how.digest);
    forall e {:trigger e in entries} | e in entries ensures Readable(e.genome) {
      var k :| 0 <= k < |Bred(cells, how)| && Bred(cells, how)[k] == e.genome;
    }
  }

  lemma MergedReadable(previous: seq<GenomeArchive.Saved>, candidates: seq<GenomeArchive.Entry>)
    requires EntriesReadable(GenomeArchive.Loaded(previous)) && EntriesReadable(candidates)
    ensures EntriesReadable(GenomeArchive.Merged(previous, candidates))
  {
    hide GenomeArchive.Merged, GenomeArchive.Loaded, Readable;
    GenomeArchive.KeptAreBest(previous, candidates);
    var kept := GenomeArchive.Merged(previous, candidates);
    forall e {:trigger e in kept} | e in kept ensures Readable(e.genome) {
      assert e in GenomeArchive.Pool(previous, candidates);
    }
  }

  /** From a readable archive, every archive of the run is readable. */
  lemma {:induction false} GenerationsReadable(
    start: seq<GenomeArchive.Saved>, generations: seq<seq<GenomeArchive.Entry>>, hows: seq<Breeding>)
    requires |hows| == |generations| && Lineage(start, generations, hows) && GenomeArchive.AllNamed(generations)
    requires EntriesReadable(GenomeArchive.Loaded(start))
    ensures EntriesReadable(GenomeArchive.Generations(start, generations))
  {
    if generations != [] {
      var n := |generations| - 1;
      var front := generations[..n];
      LineageFront(start, generations, hows);
      GenerationsReadable(start, front, hows[..n]);
      GenomeArchive.GenerationsSound(start, front);
      var before := GenomeArchive.Generations(start, front);
      GenomeArchive.LoadSaved(before);
      BredReadable(generations[n], before, hows[n]);
      hide EntriesReadable, GenomeArchive.Merged, GenomeArchive.Loaded, GenomeArchive.Save;
      MergedReadable(GenomeArchive.Save(before), generations[n]);
    }
  }

  lemma LineageFront(start: seq<GenomeArchive.Saved>, generations: seq<seq<GenomeArchive.Entry>>, hows: seq<Breeding>)
    requires |hows| == |generations| && generations != [] && Lineage(start, generations, hows) && GenomeArchive.AllNamed(generations)
    ensures var n := |generations| - 1;
            && Lineage(start, generations[..n], hows[..n]) && GenomeArchive.AllNamed(generations[..n])
            && BredFrom(generations[n], GenomeArchive.Generations(start, generations[..n]), hows[n])
            && (hows[n].active.Some? ==> Readable(hows[n].active.value))
  {
    hide Readable, BredFrom, GenomeArchive.Generations, GenomeArchive.Named;
    var n := |generations| - 1;
    forall t | 0 <= t < n
      ensures hows[..n][t].active.Some? ==> Readable(hows[..n][t].active.value)
      ensures BredFrom(generations[..n][t], GenomeArchive.Generations(start, generations[..n][..t]), hows[..n][t])
    {
      assert generations[..n][..t] == generations[..t];
    }
  }

  /** Every readable elite that survives a merge is in the next population. */
  lemma ReadableSurvivorRetried(cells: seq<GenomeArchive.Entry>, e: GenomeArchive.Entry, how: Breeding)
    requires |cells| <= GenomeArchive.MAX_CELLS && e in cells && Readable(e.genome)
    requires NamesApart(Tried(how.active, Parents(GenomeArchive.Save(cells)), how.mutation, how.digest), how.id)
    ensures e.genome in Bred(cells, how)
  {
    hide Population, Tried, NamesApart;
    var saved := GenomeArchive.Save(cells);
    var k :| 0 <= k < |cells| && cells[k] == e;
    SavedAreParents(saved, k);
    ReadIsBounded(e.genome);
    var elites := Parents(saved);
    var i :| 0 <= i < |elites| && elites[i] == e.genome;
    ElitesReappear(how.active, elites, how.mutation, ROOM, how.id, how.digest, i);
  }

  /**
   Over any run of the lab from a readable archive, every elite an archive holds after a merge is tried again in the next
   generation: 48 cells and the two standing genomes never crowd one out of 96.
   */
  lemma EverySurvivorIsRetried(
    start: seq<GenomeArchive.Saved>, generations: seq<seq<GenomeArchive.Entry>>, hows: seq<Breeding>,
    e: GenomeArchive.Entry, next: Breeding)
    requires generations != [] && |hows| == |generations| && Lineage(start, generations, hows)
    requires GenomeArchive.AllNamed(generations) && EntriesReadable(GenomeArchive.Loaded(start))
    requires e in GenomeArchive.Generations(start, generations)
    requires NamesApart(Tried(next.active, Parents(GenomeArchive.Save(GenomeArchive.Generations(start, generations))),
                              next.mutation, next.digest), next.id)
    ensures e.genome in Bred(GenomeArchive.Generations(start, generations), next)
  {
    hide Readable, Lineage, Tried, NamesApart, Bred, GenomeArchive.Merged, GenomeArchive.AllNamed;
    GenerationsReadable(start, generations, hows);
    var n := |generations| - 1;
    GenomeArchive.KeptAreBest(GenomeArchive.Save(GenomeArchive.Generations(start, generations[..n])), generations[n]);
    ReadableSurvivorRetried(GenomeArchive.Generations(start, generations), e, next);
  }

  lemma ReadIsBounded(g: Genome)
    requires FromMapping(g) == Some(g)
    ensures IsBounded(g)
  {
  }
}
