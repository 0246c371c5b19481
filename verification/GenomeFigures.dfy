/**
 Which genomes the evolution lab tries (`autonomy/evolution_lab.py`), place by place and gene by gene: the incumbent, the
 active parent and the elites, their local probes, their crosses, the parent's mutations, and the lattice.
 */
module GenomeFigures {
  import opened GenomePopulation
  import opened Genomes
  import opened Options
  import opened Rounding
  import opened StableSorting
  import opened TextOrder

  // ----- genes -----

  /** `y` is `x` moved into the range, to four decimals. */
  ghost predicate Settles(y: real, x: real, low: real, high: real) {
    && (x <= low ==> y == low) && (x >= high ==> y == high)
    && (low <= x <= high ==> low <= y <= high && -0.00005 <= y - x <= 0.00005)
  }

  lemma RoundedSettles(x: real, low: int, high: int)
    requires low <= high
    ensures Settles(Round4(Clamp(low as real / 10000.0, x, high as real / 10000.0)), x, low as real / 10000.0, high as real / 10000.0)
  {
    var c := Clamp(low as real / 10000.0, x, high as real / 10000.0);
    RoundKeepsBounds(low, c, high);
    RoundNear(c * 10000.0);
    RoundInteger(low);
    RoundInteger(high);
    assert low as real / 10000.0 * 10000.0 == low as real && high as real / 10000.0 * 10000.0 == high as real;
    hide RoundHalfEven;
  }

  /** Whole genes move to the nearer end of their range; the others also onto the four-decimal grid. */
  lemma GenesSettle(shrinkage: real, edge: int, uncertainty: real, price: int)
    ensures var g := BoundedGenome(shrinkage, edge, uncertainty, price);
            && Settles(g.shrinkage, shrinkage, 0.20, 1.35) && Settles(g.uncertainty, uncertainty, 0.08, 0.40)
            && (edge < 3 ==> g.edge == 3) && (edge > 20 ==> g.edge == 20) && (3 <= edge <= 20 ==> g.edge == edge)
            && (price < 40 ==> g.price == 40) && (price > 90 ==> g.price == 90) && (40 <= price <= 90 ==> g.price == price)
  {
    RoundedSettles(shrinkage, 2000, 13500);
    RoundedSettles(uncertainty, 800, 4000);
    hide Round4, Settles;
  }

  /** Two readable parents' children: the two complementary swaps of their genes, and their midpoint. */
  lemma ChildrenMix(a: Genome, b: Genome)
    requires Readable(a) && Readable(b)
    ensures var c := Crossover(a, b);
            && |c| == 3
            && c[0] == Genome(a.shrinkage, b.edge, a.uncertainty, b.price)
            && c[1] == Genome(b.shrinkage, a.edge, b.uncertainty, a.price)
            && -0.00005 <= c[2].shrinkage - (a.shrinkage + b.shrinkage) / 2.0 <= 0.00005
            && -0.00005 <= c[2].uncertainty - (a.uncertainty + b.uncertainty) / 2.0 <= 0.00005
            && -1 <= 2 * c[2].edge - (a.edge + b.edge) <= 1 && -1 <= 2 * c[2].price - (a.price + b.price) <= 1
  {
    var mid, deal := RoundHalfEven((a.edge + b.edge) as real / 2.0), RoundHalfEven((a.price + b.price) as real / 2.0);
    HalfWay(a.edge, b.edge, 3, 20);
    HalfWay(a.price, b.price, 40, 90);
    GenesSettle((a.shrinkage + b.shrinkage) / 2.0, mid, (a.uncertainty + b.uncertainty) / 2.0, deal);
    hide Round4, RoundHalfEven;
  }

  lemma HalfWay(x: int, y: int, low: int, high: int)
    requires low <= x <= high && low <= y <= high
    ensures var mid := RoundHalfEven((x + y) as real / 2.0); low <= mid <= high && -1 <= 2 * mid - (x + y) <= 1
  {
    RoundNear((x + y) as real / 2.0);
    RoundMonotone(low as real, (x + y) as real / 2.0);
    RoundMonotone((x + y) as real / 2.0, high as real);
    RoundInteger(low);
    RoundInteger(high);
    hide RoundHalfEven;
  }

  // ----- the places in the list -----

  /** The two probes around `g`: every gene a step down, and every gene a step up. */
  ghost predicate AreProbes(down: Genome, up: Genome, g: Genome, scale: real) {
    && down == BoundedGenome(g.shrinkage - 0.08 * scale, g.edge + RoundHalfEven(-2.0 * scale),
                             g.uncertainty - 0.03 * scale, g.price + RoundHalfEven(-5.0 * scale))
    && up == BoundedGenome(g.shrinkage + 0.08 * scale, g.edge + RoundHalfEven(2.0 * scale),
                           g.uncertainty + 0.03 * scale, g.price + RoundHalfEven(5.0 * scale))
  }

  lemma FirstProbes(elites: seq<Genome>, scale: real)
    requires elites != []
    ensures |Probes(elites, scale)| == 2 + |Probes(elites[1..], scale)|
    ensures AreProbes(Probes(elites, scale)[0], Probes(elites, scale)[1], elites[0], scale)
    ensures Probes(elites, scale)[2..] == Probes(elites[1..], scale)
  {
    hide BoundedGenome, RoundHalfEven;
  }

  /** Probes come in pairs, elite by elite. */
  lemma {:induction false} ProbeAt(elites: seq<Genome>, scale: real, i: nat)
    ensures |Probes(elites, scale)| == 2 * |elites|
    ensures i < |elites| ==> AreProbes(Probes(elites, scale)[2 * i], Probes(elites, scale)[2 * i + 1], elites[i], scale)
  {
    if elites != [] {
      FirstProbes(elites, scale);
      ProbeAt(elites[1..], scale, if i > 0 then i - 1 else 0);
      hide AreProbes, Probes;
      var all, rest := Probes(elites, scale), Probes(elites[1..], scale);
      assert |elites[1..]| == |elites| - 1;
      if 0 < i < |elites| {
        assert all[2 * i] == rest[2 * (i - 1)] && all[2 * i + 1] == rest[2 * (i - 1) + 1];
        assert elites[1..][i - 1] == elites[i];
      }
    } else {
      hide AreProbes;
    }
  }

  lemma {:induction false} CrossAt(parent: Genome, partners: seq<Genome>, i: nat)
    ensures |CrossesWith(parent, partners)| == 3 * |partners|
    ensures i < |partners| ==> CrossesWith(parent, partners)[3 * i..3 * i + 3] == Crossover(parent, partners[i])
  {
    hide BoundedGenome;
    if partners != [] {
      CrossAt(parent, partners[1..], if i > 0 then i - 1 else 0);
      var rest := CrossesWith(parent, partners[1..]);
      if 0 < i < |partners| {
        assert CrossesWith(parent, partners)[3 * i..3 * i + 3] == rest[3 * (i - 1)..3 * (i - 1) + 3];
      }
    }
  }

  lemma {:induction false} NeighbourAt(partners: seq<Genome>, i: nat)
    ensures |NeighbourCrosses(partners)| == if |partners| < 2 then 0 else 3 * (|partners| - 1)
    ensures i + 1 < |partners| ==> NeighbourCrosses(partners)[3 * i..3 * i + 3] == Crossover(partners[i], partners[i + 1])
  {
    hide BoundedGenome;
    if |partners| >= 2 {
      NeighbourAt(partners[1..], if i > 0 then i - 1 else 0);
      var rest := NeighbourCrosses(partners[1..]);
      if 0 < i && i + 1 < |partners| {
        assert NeighbourCrosses(partners)[3 * i..3 * i + 3] == rest[3 * (i - 1)..3 * (i - 1) + 3];
      }
    }
  }

  lemma Digits(k: nat, a: nat, b: nat, c: nat, d: nat)
    requires b < 3 && c < 3 && d < 3 && k == 27 * a + 9 * b + 3 * c + d
    ensures k / 27 == a && k / 9 % 3 == b && k / 3 % 3 == c && k % 3 == d
  {
    assert k / 9 == 3 * a + b && k / 3 == 9 * a + 3 * b + c;
    LastDigit(3 * a + b, a, b);
    LastDigit(9 * a + 3 * b + c, 3 * a + b, c);
    LastDigit(k, 9 * a + 3 * b + c, d);
  }

  lemma LastDigit(k: nat, high: nat, low: nat)
    requires low < 3 && k == 3 * high + low
    ensures k % 3 == low
  {
  }

  /** The mutations run through the product of the four step lists, the last gene fastest. */
  lemma MutationAt(parent: Genome, scale: real, a: nat, b: nat, c: nat, d: nat)
    requires a < 4 && b < 3 && c < 3 && d < 3
    ensures |Mutations(parent, scale)| == 108 && 27 * a + 9 * b + 3 * c + d < 108
    ensures Mutations(parent, scale)[27 * a + 9 * b + 3 * c + d]
         == BoundedGenome(parent.shrinkage + [-0.20, -0.08, 0.08, 0.20][a] * scale,
                          parent.edge + RoundHalfEven([-3.0, 0.0, 3.0][b] * scale),
                          parent.uncertainty + [-0.08, 0.0, 0.08][c] * scale,
                          parent.price + RoundHalfEven([-15.0, 0.0, 15.0][d] * scale))
  {
    var k := 27 * a + 9 * b + 3 * c + d;
    assert Mutations(parent, scale)[k] == Mutation(parent, scale, k) by {
      hide Mutation;
    }
    hide Mutation, Mutations;
    MutationIs(parent, scale, k, a, b, c, d);
    MutantMeans(parent, scale, [-0.20, -0.08, 0.08, 0.20][a], [-3.0, 0.0, 3.0][b], [-0.08, 0.0, 0.08][c], [-15.0, 0.0, 15.0][d]);
    hide Mutant;
  }

  lemma MutationIs(parent: Genome, scale: real, k: nat, a: nat, b: nat, c: nat, d: nat)
    requires k < 108 && a < 4 && b < 3 && c < 3 && d < 3 && k == 27 * a + 9 * b + 3 * c + d
    ensures Mutation(parent, scale, k)
         == Mutant(parent, scale, [-0.20, -0.08, 0.08, 0.20][a], [-3.0, 0.0, 3.0][b], [-0.08, 0.0, 0.08][c], [-15.0, 0.0, 15.0][d])
  {
    Digits(k, a, b, c, d);
    hide Mutant;
  }

  lemma MutantMeans(g: Genome, scale: real, ds: real, de: real, du: real, dp: real)
    ensures Mutant(g, scale, ds, de, du, dp)
         == BoundedGenome(g.shrinkage + ds * scale, g.edge + RoundHalfEven(de * scale),
                          g.uncertainty + du * scale, g.price + RoundHalfEven(dp * scale))
  {
    hide BoundedGenome, RoundHalfEven;
  }

  /** A point of the lattice: one value from each of the four lists. */
  ghost predicate OnLattice(g: Genome) {
    && g.shrinkage in [0.25, 0.50, 0.75, 1.00, 1.25] && g.edge in [3, 5, 8, 12, 16]
    && g.uncertainty in [0.12, 0.18, 0.25, 0.35] && g.price in [50, 65, 75, 90]
  }

  lemma LatticeDigits(k: nat, a: nat, b: nat, c: nat, d: nat)
    requires b < 5 && c < 4 && d < 4 && k == 80 * a + 16 * b + 4 * c + d
    ensures k / 80 == a && k / 16 == 5 * a + b && k / 4 == 20 * a + 4 * b + c && k % 4 == d
    ensures (5 * a + b) % 5 == b && (20 * a + 4 * b + c) % 4 == c
  {
    LowDigits(a, b, c);
  }

  lemma LowDigits(a: nat, b: nat, c: nat)
    requires b < 5 && c < 4
    ensures (5 * a + b) % 5 == b && (20 * a + 4 * b + c) % 4 == c
  {
  }

  lemma PointsOnLattice(k: nat)
    requires k < 400
    ensures OnLattice(LatticePoint(k))
  {
  }

  lemma LatticeNumber(g: Genome) returns (k: nat)
    requires OnLattice(g)
    ensures k < 400 && LatticePoint(k) == g
  {
    var a: nat :| a < 5 && LATTICE_SHRINKAGE[a] == g.shrinkage;
    var b: nat :| b < 5 && LATTICE_EDGE[b] == g.edge;
    var c: nat :| c < 4 && LATTICE_UNCERTAINTY[c] == g.uncertainty;
    var d: nat :| d < 4 && LATTICE_PRICE[d] == g.price;
    k := 80 * a + 16 * b + 4 * c + d;
    LatticeDigits(k, a, b, c, d);
  }

  lemma DigestOrder(digest: Naming, leq: (Genome, Genome) -> bool)
    requires leq == ((a: Genome, b: Genome) => TextLeq(digest(a), digest(b)))
    ensures TotalPreorder(leq)
  {
    LinearOrder();
    hide TextLeq;
  }

  /** The lattice holds every combination of the four lists, and nothing else, in the order of the digests. */
  lemma LatticeIs(digest: Naming, g: Genome)
    ensures g in Lattice(digest) <==> OnLattice(g)
    ensures forall i, j :: 0 <= i < j < |Lattice(digest)| ==> TextLeq(digest(Lattice(digest)[i]), digest(Lattice(digest)[j]))
  {
    var points := seq(400, k requires 0 <= k < 400 => LatticePoint(k));
    var leq := (a: Genome, b: Genome) => TextLeq(digest(a), digest(b));
    DigestOrder(digest, leq);
    SortSorted(points, leq);
    SortMembers(points, leq);
    hide Sort, OnLattice, LatticePoint;
    if OnLattice(g) {
      var k := LatticeNumber(g);
      assert points[k] == g;
    }
    if g in points {
      var k :| 0 <= k < 400 && points[k] == g;
      PointsOnLattice(k);
    }
  }

  // ----- the whole list -----

  /** `part` stands in `s` from place `at` on. */
  ghost predicate StandsAt(s: seq<Genome>, at: nat, part: seq<Genome>) {
    at + |part| <= |s| && s[at..at + |part|] == part
  }

  lemma SixParts(a: seq<Genome>, b: seq<Genome>, c: seq<Genome>, d: seq<Genome>, e: seq<Genome>, f: seq<Genome>, l: seq<Genome>)
    ensures var s := a + b + c + d + e + f + l;
            && StandsAt(s, |a|, b) && StandsAt(s, |a| + |b|, c) && StandsAt(s, |a| + |b| + |c|, d)
            && StandsAt(s, |a| + |b| + |c| + |d|, e) && StandsAt(s, |a| + |b| + |c| + |d| + |e|, f)
            && StandsAt(s, |a| + |b| + |c| + |d| + |e| + |f|, l)
  {
    StandsFirst(a, b);
    StandsLonger(a + b, c, |a|, b);
    StandsFirst(a + b, c);
    StandsLonger(a + b + c, d, |a|, b);
    StandsLonger(a + b + c, d, |a + b|, c);
    StandsFirst(a + b + c, d);
    var abcd := a + b + c + d;
    StandsLonger(abcd, e, |a|, b);
    StandsLonger(abcd, e, |a + b|, c);
    StandsLonger(abcd, e, |a + b + c|, d);
    StandsFirst(abcd, e);
    var abcde := abcd + e;
    StandsLonger(abcde, f, |a|, b);
    StandsLonger(abcde, f, |a + b|, c);
    StandsLonger(abcde, f, |a + b + c|, d);
    StandsLonger(abcde, f, |abcd|, e);
    StandsFirst(abcde, f);
    var abcdef := abcde + f;
    StandsLonger(abcdef, l, |a|, b);
    StandsLonger(abcdef, l, |a + b|, c);
    StandsLonger(abcdef, l, |a + b + c|, d);
    StandsLonger(abcdef, l, |abcd|, e);
    StandsLonger(abcdef, l, |abcde|, f);
    StandsFirst(abcdef, l);
    hide StandsAt;
  }

  lemma StandsFirst(a: seq<Genome>, b: seq<Genome>)
    ensures StandsAt(a + b, |a|, b)
  {
  }

  lemma StandsLonger(s: seq<Genome>, more: seq<Genome>, at: nat, part: seq<Genome>)
    requires StandsAt(s, at, part)
    ensures StandsAt(s + more, at, part)
  {
    assert (s + more)[at..at + |part|] == s[at..at + |part|];
  }

  /** The seven lists follow each other; `few` are the elites bred from. */
  ghost predicate LaidOut(tried: seq<Genome>, parent: Genome, elites: seq<Genome>, few: seq<Genome>, scale: real, lattice: seq<Genome>) {
    var bred := 2 + |elites| + 5 * |few|;
    var neighbours: nat := if few == [] then 0 else 3 * (|few| - 1);
    && |tried| == bred + neighbours + 108 + |lattice|
    && StandsAt(tried, 0, [Genome(1.0, 3, 0.35, 90), parent])
    && StandsAt(tried, 2, elites)
    && StandsAt(tried, 2 + |elites|, Probes(few, scale))
    && StandsAt(tried, 2 + |elites| + 2 * |few|, CrossesWith(parent, few))
    && StandsAt(tried, bred, NeighbourCrosses(few))
    && StandsAt(tried, bred + neighbours, Mutations(parent, scale))
    && StandsAt(tried, bred + neighbours + 108, lattice)
  }

  /** Where everything stands that is tried: only the first eight elites are bred from, in steps of the clamped scale. */
  lemma TriedPlaces(active: Option<Genome>, elites: seq<Genome>, mutation: real, digest: Naming)
    ensures LaidOut(Tried(active, elites, mutation, digest),
                    if active.Some? then active.value else Genome(1.0, 3, 0.35, 90),
                    elites,
                    if |elites| <= 8 then elites else elites[..8],
                    if mutation <= 0.25 then 0.25 else if mutation >= 2.0 then 2.0 else mutation,
                    Lattice(digest))
    ensures |Lattice(digest)| == 400
  {
    TriedIs(active, elites, mutation, digest);
    DirectedPlaces(active.GetOr(INCUMBENT), elites, FirstEight(elites), Scale(mutation), Lattice(digest));
    LatticeSize(digest);
    hide LaidOut, Tried, Lattice, Probes, CrossesWith, NeighbourCrosses, Mutations;
  }

  lemma TriedIs(active: Option<Genome>, elites: seq<Genome>, mutation: real, digest: Naming)
    ensures Tried(active, elites, mutation, digest)
         == [INCUMBENT, active.GetOr(INCUMBENT)] + elites + Probes(FirstEight(elites), Scale(mutation))
            + CrossesWith(active.GetOr(INCUMBENT), FirstEight(elites)) + NeighbourCrosses(FirstEight(elites))
            + Mutations(active.GetOr(INCUMBENT), Scale(mutation)) + Lattice(digest)
  {
    hide Probes, CrossesWith, NeighbourCrosses, Mutations, Lattice, FirstEight, Scale;
  }

  lemma DirectedPlaces(parent: Genome, elites: seq<Genome>, few: seq<Genome>, scale: real, lattice: seq<Genome>)
    ensures LaidOut([INCUMBENT, parent] + elites + Probes(few, scale) + CrossesWith(parent, few) + NeighbourCrosses(few)
                    + Mutations(parent, scale) + lattice, parent, elites, few, scale, lattice)
  {
    BredLengths(parent, few, scale);
    hide Probes, CrossesWith, NeighbourCrosses, Mutations, StandsAt;
    PartsPlaces(INCUMBENT, parent, elites, |few|, Probes(few, scale), CrossesWith(parent, few), NeighbourCrosses(few),
                Mutations(parent, scale), lattice);
  }

  lemma BredLengths(parent: Genome, few: seq<Genome>, scale: real)
    ensures |Probes(few, scale)| == 2 * |few| && |CrossesWith(parent, few)| == 3 * |few| && |Mutations(parent, scale)| == 108
    ensures |NeighbourCrosses(few)| == if few == [] then 0 else 3 * (|few| - 1)
  {
    ProbeAt(few, scale, |few|);
    CrossAt(parent, few, |few|);
    NeighbourAt(few, |few|);
    hide Probes, CrossesWith, NeighbourCrosses, Mutation;
  }

  lemma PartsPlaces(first: Genome, parent: Genome, elites: seq<Genome>, m: nat,
                    b: seq<Genome>, c: seq<Genome>, d: seq<Genome>, e: seq<Genome>, lattice: seq<Genome>)
    requires |b| == 2 * m && |c| == 3 * m && |d| == (if m == 0 then 0 else 3 * (m - 1)) && |e| == 108
    ensures var tried := [first, parent] + elites + b + c + d + e + lattice;
            var bred := 2 + |elites| + 5 * m;
            && |tried| == bred + |d| + 108 + |lattice|
            && StandsAt(tried, 0, [first, parent])
            && StandsAt(tried, 2, elites)
            && StandsAt(tried, 2 + |elites|, b)
            && StandsAt(tried, 2 + |elites| + 2 * m, c)
            && StandsAt(tried, bred, d)
            && StandsAt(tried, bred + |d|, e)
            && StandsAt(tried, bred + |d| + 108, lattice)
  {
    PairStands(first, parent, [first, parent] + elites + b + c + d + e + lattice);
    SixParts([first, parent], elites, b, c, d, e, lattice);
    hide StandsAt;
  }

  lemma PairStands(a: Genome, b: Genome, s: seq<Genome>)
    requires |s| >= 2 && s[0] == a && s[1] == b
    ensures StandsAt(s, 0, [a, b])
  {
  }

  lemma LatticeSize(digest: Naming)
    ensures |Lattice(digest)| == 400
  {
    hide LatticePoint;
  }

  /**
   The population: what was tried, first of each name, in the order tried, and all of it unless there are more than
   `max(8, limit)`; everything in the box.
   */
  lemma PopulationFigures(active: Option<Genome>, elites: seq<Genome>, mutation: real, limit: int, id: Naming, digest: Naming)
    ensures var p := Population(active, elites, mutation, limit, id, digest);
            && |p| <= (if limit <= 8 then 8 else limit)
            && (forall g {:trigger g in p} :: g in p ==>
                  g in Tried(active, elites, mutation, digest)
                  && 0.20 <= g.shrinkage <= 1.35 && 3 <= g.edge <= 20 && 0.08 <= g.uncertainty <= 0.40 && 40 <= g.price <= 90)
            && (|p| < (if limit <= 8 then 8 else limit) ==>
                  forall g {:trigger g in Tried(active, elites, mutation, digest)} ::
                    g in Tried(active, elites, mutation, digest) && IsBounded(g) ==> Named(p, id(g), id))
  {
    var tried := Tried(active, elites, mutation, digest);
    var all := AddAll([], tried, id);
    PopulationIs(active, elites, mutation, limit, id, digest);
    PopulationIsSound(active, elites, mutation, limit, id, digest);
    AddedWereTried(tried, id);
    hide Directed, Lattice, AddAll, Population, Named;
    var p := Population(active, elites, mutation, limit, id, digest);
    forall g {:trigger g in p} | g in p
      ensures g in tried && IsBounded(g)
    {
      var k :| 0 <= k < |p| && p[k] == g;
      assert all[k] == g;
    }
    if |p| < Room(limit) {
      assert p == all;
      forall g {:trigger g in tried} | g in tried && IsBounded(g)
        ensures Named(p, id(g), id)
      {
        AllAreNamed(tried, g, id);
      }
    }
  }

  lemma AllAreNamed(tried: seq<Genome>, g: Genome, id: Naming)
    requires g in tried && IsBounded(g)
    ensures Named(AddAll([], tried, id), id(g), id)
  {
    var k :| 0 <= k < |tried| && tried[k] == g;
    EarlyOnesAreIn(tried, k, id);
    hide AddAll;
    var i :| 0 <= i < |First(AddAll([], tried, id), k + 1)| && id(First(AddAll([], tried, id), k + 1)[i]) == id(g);
    assert AddAll([], tried, id)[i] == First(AddAll([], tried, id), k + 1)[i];
  }
}
