/** Candle streams and their roll-up (`autonomy/crypto_chartist.py`). */
module Candles {
  import opened Options
  import opened StableSorting

  datatype Candle = Candle(open: real, high: real, low: real, close: real, volume: real)

  function Max(a: real, b: real): real { if a >= b then a else b }

  function Min(a: real, b: real): real { if a <= b then a else b }

  /** What a candle must satisfy to be let into a stream. */
  predicate Sane(c: Candle) {
    && Min(Min(c.open, c.high), Min(c.low, c.close)) > 0.0
    && c.volume >= 0.0
    && c.high >= Max(Max(c.open, c.close), c.low)
    && c.low <= Min(Min(c.open, c.close), c.high)
  }

  predicate AllSane(s: seq<Candle>) {
    forall c {:trigger c in s} :: c in s ==> Sane(c)
  }

  // ----- one group of candles -----

  function Highest(g: seq<Candle>): (h: real)
    requires g != []
    ensures exists k :: 0 <= k < |g| && g[k].high == h
    ensures forall k :: 0 <= k < |g| ==> g[k].high <= h
  {
    if |g| == 1 then g[0].high else Max(Highest(g[..|g| - 1]), g[|g| - 1].high)
  }

  function Lowest(g: seq<Candle>): (l: real)
    requires g != []
    ensures exists k :: 0 <= k < |g| && g[k].low == l
    ensures forall k :: 0 <= k < |g| ==> l <= g[k].low
  {
    if |g| == 1 then g[0].low else Min(Lowest(g[..|g| - 1]), g[|g| - 1].low)
  }

  function Volume(): Candle -> real { (c: Candle) => c.volume }

  function Bar(g: seq<Candle>): Candle
    requires g != []
  {
    Candle(g[0].open, Highest(g), Lowest(g), g[|g| - 1].close, RealSum(Volume(), g))
  }

  /** Two bars that follow each other, seen as one. */
  function Join(a: Candle, b: Candle): Candle {
    Candle(a.open, Max(a.high, b.high), Min(a.low, b.low), b.close, a.volume + b.volume)
  }

  lemma {:induction false} ExtremesAppend(x: seq<Candle>, y: seq<Candle>)
    requires x != [] && y != []
    ensures Highest(x + y) == Max(Highest(x), Highest(y)) && Lowest(x + y) == Min(Lowest(x), Lowest(y))
  {
    assert (x + y)[..|x + y| - 1] == x + y[..|y| - 1];
    if |y| > 1 {
      ExtremesAppend(x, y[..|y| - 1]);
    } else {
      assert x + y[..|y| - 1] == x;
    }
  }

  lemma BarAppend(x: seq<Candle>, y: seq<Candle>)
    requires x != [] && y != []
    ensures Bar(x + y) == Join(Bar(x), Bar(y))
  {
    ExtremesAppend(x, y);
    RealSumAppend(Volume(), x, y);
  }

  lemma BarOfOne(c: Candle)
    ensures Bar([c]) == c
  {
    assert [c][..0] == [];
    assert RealSum(Volume(), [c][..0]) == 0.0;
    assert RealSum(Volume(), [c]) == c.volume;
  }

  lemma JoinSane(a: Candle, b: Candle)
    requires Sane(a) && Sane(b)
    ensures Sane(Join(a, b))
  {
  }

  lemma {:induction false} BarSane(g: seq<Candle>)
    requires g != [] && AllSane(g)
    ensures Sane(Bar(g))
  {
    hide Bar, Sane, Join;
    var front, last := g[..|g| - 1], g[|g| - 1];
    assert g == front + [last] && last in g;
    BarOfOne(last);
    if front != [] {
      assert AllSane(front) by {
        forall c | c in front ensures Sane(c) { assert c in g; }
      }
      BarSane(front);
      BarAppend(front, [last]);
      JoinSane(Bar(front), last);
    }
  }

  // ----- roll-up -----

  /** One bar for every full group of `factor` candles, from the oldest on. */
  function Rolled(candles: seq<Candle>, factor: nat): seq<Candle>
    requires factor >= 1
  {
    if |candles| < factor then [] else [Bar(candles[..factor])] + Rolled(candles[factor..], factor)
  }

  function Aggregate(candles: seq<Candle>, factor: int): seq<Candle> {
    if factor <= 1 then candles else Rolled(candles, factor)
  }

  /** `aggregate_candles`: the loop over the starts of the full groups. */
  method AggregateCandles(candles: seq<Candle>, factor: int) returns (out: seq<Candle>)
    ensures out == Aggregate(candles, factor)
  {
    if factor <= 1 {
      out := candles;
    } else {
      out := RollUp(candles, factor);
    }
  }

  method RollUp(candles: seq<Candle>, factor: nat) returns (out: seq<Candle>)
    requires factor > 1
    ensures out == Rolled(candles, factor)
  {
    hide *;
    out := [];
    var start: nat := 0;
    RolledBegin(candles, factor);
    while start + factor <= |candles|
      invariant start <= |candles| && RolledSoFar(candles, factor, start, out)
    {
      RolledStep(candles, start, factor, out);
      out := out + [Bar(candles[start..start + factor])];
      start := start + factor;
    }
    RolledEnd(candles, factor, start, out);
  }

  ghost predicate RolledSoFar(candles: seq<Candle>, factor: nat, start: nat, out: seq<Candle>)
    requires factor >= 1 && start <= |candles|
  {
    out + Rolled(candles[start..], factor) == Rolled(candles, factor)
  }

  lemma RolledBegin(candles: seq<Candle>, factor: nat)
    requires factor >= 1
    ensures RolledSoFar(candles, factor, 0, [])
  {
    assert candles[0..] == candles;
  }

  lemma RolledEnd(candles: seq<Candle>, factor: nat, start: nat, out: seq<Candle>)
    requires factor >= 1 && start <= |candles| < start + factor && RolledSoFar(candles, factor, start, out)
    ensures out == Rolled(candles, factor)
  {
    assert Rolled(candles[start..], factor) == [];
    hide Rolled;
  }

  lemma RolledHead(s: seq<Candle>, factor: nat)
    requires 1 <= factor <= |s|
    ensures Rolled(s, factor) == [Bar(s[..factor])] + Rolled(s[factor..], factor)
  {
    hide Bar;
  }

  lemma RolledStep(candles: seq<Candle>, start: nat, factor: nat, out: seq<Candle>)
    requires factor >= 1 && start + factor <= |candles| && RolledSoFar(candles, factor, start, out)
    ensures RolledSoFar(candles, factor, start + factor, out + [Bar(candles[start..start + factor])])
  {
    var s := candles[start..];
    assert s[..factor] == candles[start..start + factor] && s[factor..] == candles[start + factor..];
    hide Rolled, Bar;
    RolledHead(s, factor);
    var bar, rest := Bar(s[..factor]), Rolled(s[factor..], factor);
    assert out + ([bar] + rest) == (out + [bar]) + rest;
  }

  lemma {:induction false} RolledByOne(candles: seq<Candle>)
    ensures Rolled(candles, 1) == candles
  {
    if candles != [] {
      BarOfOne(candles[0]);
      RolledByOne(candles[1..]);
      assert candles[..1] == [candles[0]];
    }
  }

  lemma AggregateIsRolled(candles: seq<Candle>, factor: nat)
    requires factor >= 1
    ensures Aggregate(candles, factor) == Rolled(candles, factor)
  {
    RolledByOne(candles);
  }

  /** Groups of `groups * factor` candles roll up on their own, whatever follows them. */
  lemma {:induction false} RolledSplit(x: seq<Candle>, y: seq<Candle>, factor: nat, groups: nat)
    requires factor >= 1 && |x| == groups * factor
    ensures Rolled(x + y, factor) == Rolled(x, factor) + Rolled(y, factor) && |Rolled(x, factor)| == groups
  {
    hide Bar;
    if groups == 0 {
      assert x == [] && x + y == y;
    } else {
      MoreGroups(groups, factor);
      var first, rest := x[..factor], x[factor..];
      RolledSplit(rest, y, factor, groups - 1);
      assert x == first + rest && x + y == first + (rest + y);
      RolledFirst(first, rest, factor);
      RolledFirst(first, rest + y, factor);
      hide Rolled;
    }
  }

  lemma MoreGroups(groups: nat, factor: nat)
    requires groups > 0
    ensures groups * factor == (groups - 1) * factor + factor && (groups - 1) * factor >= 0
  {
  }

  lemma {:induction false} BarOfBars(x: seq<Candle>, factor: nat, groups: nat)
    requires factor >= 1 && groups >= 1 && |x| == groups * factor
    ensures Rolled(x, factor) != [] && Bar(Rolled(x, factor)) == Bar(x)
  {
    MoreGroups(groups, factor);
    var first, rest := x[..factor], x[factor..];
    assert x == first + rest;
    BarOfOne(Bar(first));
    if groups == 1 {
      assert rest == [] && x == first;
    } else {
      MoreGroups(groups - 1, factor);
      BarOfBars(rest, factor, groups - 1);
      hide Bar;
      BarAppend(first, rest);
      BarAppend([Bar(first)], Rolled(rest, factor));
    }
  }

  /** How many bars: the number of full groups. */
  lemma {:induction false} RolledLength(candles: seq<Candle>, factor: nat)
    requires factor >= 1
    ensures |Rolled(candles, factor)| * factor <= |candles| < |Rolled(candles, factor)| * factor + factor
  {
    if |candles| >= factor {
      RolledLength(candles[factor..], factor);
      MoreGroups(|Rolled(candles, factor)|, factor);
    }
  }

  lemma FewGroups(groups: nat, factor: nat, most: nat, length: nat)
    requires groups * factor <= length < most * factor
    ensures groups < most
  {
    assert (most - groups) * factor == most * factor - groups * factor;
  }

  lemma {:induction false} RolledComposes(candles: seq<Candle>, a: nat, b: nat)
    requires a >= 1 && b >= 1 && a * b >= 1
    ensures Rolled(Rolled(candles, a), b) == Rolled(candles, a * b)
    decreases |candles|
  {
    hide Bar;
    RolledLength(candles, a);
    if |candles| < a * b {
      FewGroups(|Rolled(candles, a)|, a, b, |candles|);
    } else {
      var first, rest := candles[..a * b], candles[a * b..];
      assert candles == first + rest;
      RolledSplit(first, rest, a, b);
      BarOfBars(first, a, b);
      RolledComposes(rest, a, b);
      RolledFirst(Rolled(first, a), Rolled(rest, a), b);
    }
  }

  lemma RolledFirst(x: seq<Candle>, y: seq<Candle>, factor: nat)
    requires factor >= 1 && |x| == factor
    ensures Rolled(x + y, factor) == [Bar(x)] + Rolled(y, factor)
  {
    assert (x + y)[..factor] == x && (x + y)[factor..] == y;
  }

  /** Rolling up by `a` and then by `b` is rolling up by `a * b`, dropped partial groups included. */
  lemma AggregateComposes(candles: seq<Candle>, a: nat, b: nat)
    requires a >= 1 && b >= 1
    ensures Aggregate(Aggregate(candles, a), b) == Aggregate(candles, a * b)
  {
    hide Aggregate, Rolled;
    Product(a, b);
    AggregateIsRolled(candles, a);
    AggregateIsRolled(Rolled(candles, a), b);
    AggregateIsRolled(candles, a * b);
    RolledComposes(candles, a, b);
  }

  lemma Product(a: nat, b: nat)
    requires a >= 1 && b >= 1
    ensures a * b >= 1
  {
  }

  /** No repainting: later candles never change a bar already closed. */
  lemma {:induction false} BarsNeverRepaint(candles: seq<Candle>, later: seq<Candle>, factor: nat)
    requires factor >= 1
    ensures Rolled(candles, factor) <= Rolled(candles + later, factor)
  {
    if |candles| >= factor {
      BarsNeverRepaint(candles[factor..], later, factor);
      assert (candles + later)[..factor] == candles[..factor];
      assert (candles + later)[factor..] == candles[factor..] + later;
    }
  }

  lemma {:induction false} RolledSane(candles: seq<Candle>, factor: nat)
    requires factor >= 1 && AllSane(candles)
    ensures AllSane(Rolled(candles, factor))
  {
    if |candles| >= factor {
      var first, rest := candles[..factor], candles[factor..];
      assert AllSane(first) && AllSane(rest) by {
        forall c | c in first || c in rest ensures Sane(c) { assert c in candles; }
      }
      BarSane(first);
      RolledSane(rest, factor);
    }
  }

  // ----- streams -----

  datatype Clock = Absent | Unreadable | At(seconds: real)

  /** A stream row as read; `candle` is None where a field is missing or not a number. */
  datatype Row = Row(open: bool, closes: Clock, received: Clock, at: Option<int>, candle: Option<Candle>)

  datatype Result<+T> = Ok(value: T) | Conflict

  predicate Closed(r: Row) {
    && !r.open
    && (r.closes.Absent? || r.received.Absent? || (r.closes.At? && r.received.At? && r.closes.seconds <= r.received.seconds))
  }

  predicate Usable(r: Row) {
    Closed(r) && r.candle.Some? && Sane(r.candle.value)
  }

  function IsUsable(): Row -> bool { (r: Row) => Usable(r) }

  datatype Stamped = Stamped(at: int, candle: Candle)

  predicate Earlier(a: Stamped, b: Stamped) { a.at <= b.at }

  /** Adjacent equal stamps collapse; adjacent equal times with different candles are refused. */
  function Dedup(s: seq<Stamped>): (r: Result<seq<Stamped>>)
  {
    if s == [] then Ok([])
    else
      match Dedup(s[..|s| - 1])
      case Conflict => Conflict
      case Ok(kept) =>
        var x := s[|s| - 1];
        if kept != [] && kept[|kept| - 1].at == x.at then
          if kept[|kept| - 1] == x then Ok(kept) else Conflict
        else Ok(kept + [x])
  }

  /** The loop of `candles_from_state` over the sorted rows. */
  method DedupLoop(s: seq<Stamped>) returns (r: Result<seq<Stamped>>)
    ensures r == Dedup(s)
  {
    var kept: seq<Stamped> := [];
    var conflict := false;
    for i := 0 to |s|
      invariant Dedup(s[..i]) == if conflict then Conflict else Ok(kept)
    {
      assert s[..i + 1][..i] == s[..i];
      if !conflict {
        if kept != [] && kept[|kept| - 1].at == s[i].at {
          conflict := s[i] != kept[|kept| - 1];
        } else {
          kept := kept + [s[i]];
        }
      }
    }
    assert s[..|s|] == s;
    r := if conflict then Conflict else Ok(kept);
  }

  ghost predicate Increasing(s: seq<Stamped>) {
    forall i, j :: 0 <= i < j < |s| ==> s[i].at < s[j].at
  }

  ghost predicate Conflicting(s: seq<Stamped>) {
    exists x, y :: x in s && y in s && x.at == y.at && x != y
  }

  lemma EarlierIsPreorder()
    ensures TotalPreorder(Earlier)
  {
  }

  /** What a time-sorted list of kept stamps is to the list it was kept from. */
  ghost predicate Kept(kept: seq<Stamped>, s: seq<Stamped>) {
    && Increasing(kept)
    && (forall x {:trigger x in kept} {:trigger x in s} :: x in kept <==> x in s)
    && (s != [] ==> kept != [] && kept[|kept| - 1] == s[|s| - 1])
  }

  /** On time-sorted rows the loop keeps one row per time, and refuses exactly when two rows conflict. */
  lemma {:induction false} DedupSorted(s: seq<Stamped>)
    requires Sorted(s, Earlier)
    ensures Dedup(s).Conflict? <==> Conflicting(s)
    ensures Dedup(s).Ok? ==> Kept(Dedup(s).value, s)
  {
    if s != [] {
      var front, x := s[..|s| - 1], s[|s| - 1];
      assert s == front + [x];
      assert Sorted(front, Earlier);
      hide Sorted, Conflicting, Kept;
      DedupSorted(front);
      ConflictStep(front, x);
      if Dedup(front).Ok? {
        KeptStep(Dedup(front).value, front, x);
      }
    } else {
      assert !Conflicting([]);
    }
  }

  ghost predicate Clashes(front: seq<Stamped>, x: Stamped) {
    exists y {:trigger y in front} :: y in front && y.at == x.at && y != x
  }

  lemma ConflictStep(front: seq<Stamped>, x: Stamped)
    ensures Conflicting(front + [x]) <==> Conflicting(front) || Clashes(front, x)
  {
    if Clashes(front, x) {
      var y :| y in front && y.at == x.at && y != x;
      assert x in front + [x] && y in front + [x];
    }
    if Conflicting(front) {
      var a, b :| a in front && b in front && a.at == b.at && a != b;
      assert a in front + [x] && b in front + [x];
    }
  }

  lemma KeptStep(kept: seq<Stamped>, front: seq<Stamped>, x: Stamped)
    requires Sorted(front + [x], Earlier) && Kept(kept, front)
    ensures kept != [] && kept[|kept| - 1].at == x.at ==> (Clashes(front, x) <==> kept[|kept| - 1] != x)
    ensures kept != [] && kept[|kept| - 1] == x ==> Kept(kept, front + [x])
    ensures !(kept != [] && kept[|kept| - 1].at == x.at) ==> Kept(kept + [x], front + [x]) && !Clashes(front, x)
  {
    var s := front + [x];
    forall y {:trigger y in front} | y in front ensures y.at <= x.at {
      var i :| 0 <= i < |front| && front[i] == y;
      assert Earlier(s[i], s[|front|]);
    }
    forall y {:trigger y in front} | y in front
      ensures kept != [] && (y.at < kept[|kept| - 1].at || y == kept[|kept| - 1])
    {
      assert y in kept;
      var k :| 0 <= k < |kept| && kept[k] == y;
      assert k == |kept| - 1 || kept[k].at < kept[|kept| - 1].at;
    }
    forall k | 0 <= k < |kept| ensures kept[k].at <= x.at {
      assert kept[k] in kept;
    }
    if kept != [] {
      assert kept[|kept| - 1] in front;
    }
  }

  /** Strictly increasing lists with the same members are equal. */
  lemma {:induction false} IncreasingUnique(a: seq<Stamped>, b: seq<Stamped>)
    requires Increasing(a) && Increasing(b)
    requires forall x {:trigger x in a} {:trigger x in b} :: x in a <==> x in b
    ensures a == b
  {
    assert a != [] ==> a[0] in a;
    assert b != [] ==> b[0] in b;
    if a != [] && b != [] {
      var x, y := a[|a| - 1], b[|b| - 1];
      assert x in b && y in a;
      assert x == y;
      var p, q := a[..|a| - 1], b[..|b| - 1];
      forall z {:trigger z in p} {:trigger z in q} ensures z in p <==> z in q {
        InFront(a, z);
        InFront(b, z);
      }
      IncreasingUnique(p, q);
      assert a == p + [x] && b == q + [x];
    }
  }

  lemma InFront(a: seq<Stamped>, z: Stamped)
    requires a != [] && Increasing(a)
    ensures z in a[..|a| - 1] <==> z in a && z != a[|a| - 1]
  {
    assert a == a[..|a| - 1] + [a[|a| - 1]];
  }

  /** `candles_from_state` on timed rows: sort by time, then collapse duplicates. */
  function Timeline(s: seq<Stamped>): Result<seq<Stamped>> {
    Dedup(Sort(s, Earlier))
  }

  /**
   A timed stream is refused exactly when two of its rows disagree about one time; otherwise it holds
   each of its rows once, in strict time order.
   */
  lemma TimelineKeepsRows(s: seq<Stamped>)
    ensures Timeline(s).Conflict? <==> Conflicting(s)
    ensures Timeline(s).Ok? ==>
              Increasing(Timeline(s).value)
              && (forall x {:trigger x in Timeline(s).value} {:trigger x in s} :: x in Timeline(s).value <==> x in s)
  {
    var sorted := Sort(s, Earlier);
    EarlierIsPreorder();
    SortSorted(s, Earlier);
    SortMembers(s, Earlier);
    DedupSorted(sorted);
    assert Conflicting(sorted) <==> Conflicting(s) by {
      hide Sort, Sorted;
    }
  }

  /** Neither the order rows arrive in nor repeating them changes the stream. */
  lemma TimelineIgnoresOrder(s: seq<Stamped>, t: seq<Stamped>)
    requires forall x {:trigger x in s} {:trigger x in t} :: x in s <==> x in t
    ensures Timeline(s) == Timeline(t)
  {
    TimelineKeepsRows(s);
    TimelineKeepsRows(t);
    hide Timeline, Increasing;
    assert Conflicting(s) <==> Conflicting(t);
    if Timeline(s).Ok? {
      IncreasingUnique(Timeline(s).value, Timeline(t).value);
    }
  }

  predicate AllTimed(rows: seq<Row>) {
    rows != [] && forall r {:trigger r in rows} :: r in rows ==> r.at.Some?
  }

  function Stamps(rows: seq<Row>): seq<Stamped>
    requires forall k :: 0 <= k < |rows| ==> rows[k].at.Some? && rows[k].candle.Some?
  {
    seq(|rows|, k requires 0 <= k < |rows| => Stamped(rows[k].at.value, rows[k].candle.value))
  }

  function CandlesOf(s: seq<Stamped>): seq<Candle> {
    seq(|s|, k requires 0 <= k < |s| => s[k].candle)
  }

  /** `candles_from_state`: unusable rows go; rows that all carry a time are sorted and deduplicated. */
  function StreamOf(rows: seq<Row>): Result<seq<Candle>> {
    var usable := Filter(IsUsable(), rows);
    assert forall k :: 0 <= k < |usable| ==> usable[k] in usable;
    if AllTimed(usable) then
      match Timeline(Stamps(usable))
      case Conflict => Conflict
      case Ok(kept) => Ok(CandlesOf(kept))
    else
      Ok(seq(|usable|, k requires 0 <= k < |usable| => usable[k].candle.value))
  }

  lemma StreamSane(rows: seq<Row>)
    requires StreamOf(rows).Ok?
    ensures AllSane(StreamOf(rows).value)
  {
    var usable := Filter(IsUsable(), rows);
    assert forall k :: 0 <= k < |usable| ==> usable[k] in usable;
    hide Sane, Timeline, Filter;
    if AllTimed(usable) {
      var s := Stamps(usable);
      TimelineKeepsRows(s);
      var kept := Timeline(s).value;
      forall c {:trigger Sane(c)} | c in CandlesOf(kept) ensures Sane(c) {
        var k :| 0 <= k < |kept| && kept[k].candle == c;
        assert kept[k] in s;
        var i :| 0 <= i < |s| && s[i] == kept[k];
        assert usable[i] in usable;
      }
    } else {
      forall c {:trigger Sane(c)} | c in StreamOf(rows).value ensures Sane(c) {
        var k :| 0 <= k < |usable| && usable[k].candle.value == c;
        assert usable[k] in usable;
      }
    }
  }

  /** A candle is sane when its prices are positive, its open and close lie between its low and its high, and its volume is not negative. */
  lemma SaneExactlyWhen(c: Candle)
    ensures Sane(c) <==> 0.0 < c.low <= c.open <= c.high && c.low <= c.close <= c.high && c.volume >= 0.0
  {
  }

  /** A row counts when it is not marked open, was not received before it closed, and carries a sane candle. */
  ghost predicate Counts(r: Row) {
    && !r.open && r.candle.Some? && Sane(r.candle.value)
    && !(r.closes != Absent && r.received != Absent
         && (r.closes == Unreadable || r.received == Unreadable || r.received.seconds < r.closes.seconds))
  }

  lemma CountsIsUsable(r: Row)
    ensures Counts(r) <==> Usable(r)
  {
    hide Sane;
  }

  lemma {:induction false} StampsHold(usable: seq<Row>, x: Stamped)
    requires forall k :: 0 <= k < |usable| ==> usable[k].at.Some? && usable[k].candle.Some?
    ensures x in Stamps(usable) <==> exists r {:trigger r in usable} :: r in usable && r.at == Some(x.at) && r.candle == Some(x.candle)
  {
    if x in Stamps(usable) {
      var k :| 0 <= k < |usable| && Stamps(usable)[k] == x;
      assert usable[k] in usable;
    }
    if r :| r in usable && r.at == Some(x.at) && r.candle == Some(x.candle) {
      var k :| 0 <= k < |usable| && usable[k] == r;
      assert Stamps(usable)[k] == x;
    }
  }

  /** Some counting row gives this time this candle. */
  ghost predicate Stands(rows: seq<Row>, x: Stamped) {
    exists r {:trigger r in rows} :: r in rows && Counts(r) && r.at == Some(x.at) && r.candle == Some(x.candle)
  }

  ghost predicate SomeTimed(rows: seq<Row>) {
    (exists r {:trigger r in rows} :: r in rows && Counts(r)) && forall r {:trigger r in rows} :: r in rows && Counts(r) ==> r.at.Some?
  }

  /** Two counting rows give one time different candles. */
  ghost predicate Disagree(rows: seq<Row>) {
    exists x, y :: Stands(rows, x) && Stands(rows, y) && x.at == y.at && x != y
  }

  lemma UsableAre(rows: seq<Row>)
    ensures forall r :: r in Filter(IsUsable(), rows) <==> r in rows && Counts(r)
  {
    forall r ensures r in Filter(IsUsable(), rows) <==> r in rows && Counts(r) {
      CountsIsUsable(r);
    }
  }

  lemma TimedUsable(rows: seq<Row>)
    requires SomeTimed(rows)
    ensures var usable := Filter(IsUsable(), rows);
            AllTimed(usable) && forall k :: 0 <= k < |usable| ==> usable[k].at.Some? && usable[k].candle.Some?
  {
    var usable := Filter(IsUsable(), rows);
    UsableAre(rows);
    hide Sane;
    assert forall k :: 0 <= k < |usable| ==> usable[k] in usable;
    var r :| r in rows && Counts(r);
    assert r in usable;
  }

  lemma StampsStand(rows: seq<Row>, x: Stamped)
    requires SomeTimed(rows) && forall k :: 0 <= k < |Filter(IsUsable(), rows)| ==>
               Filter(IsUsable(), rows)[k].at.Some? && Filter(IsUsable(), rows)[k].candle.Some?
    ensures x in Stamps(Filter(IsUsable(), rows)) <==> Stands(rows, x)
  {
    UsableAre(rows);
    hide Counts, Filter;
    StampsHold(Filter(IsUsable(), rows), x);
  }

  /**
   Where every counting row carries a time, the stream is refused exactly when two of them give one time different candles;
   otherwise it lists their candles by strictly rising time, each once.
   */
  lemma TimedStream(rows: seq<Row>) returns (kept: seq<Stamped>)
    requires SomeTimed(rows)
    ensures StreamOf(rows).Conflict? <==> Disagree(rows)
    ensures StreamOf(rows).Ok? ==>
              StreamOf(rows).value == CandlesOf(kept) && Increasing(kept) && forall x {:trigger Stands(rows, x)} :: x in kept <==> Stands(rows, x)
  {
    TimedUsable(rows);
    hide Sane, Counts, Timeline, SomeTimed, Increasing, Stands, AllTimed;
    var s := Stamps(Filter(IsUsable(), rows));
    kept := if Timeline(s).Ok? then Timeline(s).value else [];
    hide Filter, Stamps;
    forall x {:trigger Stands(rows, x)} ensures x in s <==> Stands(rows, x) {
      StampsStand(rows, x);
    }
    TimelineKeepsRows(s);
  }

  /** Where some counting row carries no time, the stream lists the counting rows' candles as they come. */
  lemma UntimedStream(rows: seq<Row>)
    requires exists r {:trigger r in rows} :: r in rows && Counts(r) && r.at.None?
    ensures StreamOf(rows).Ok? && |StreamOf(rows).value| == |Filter(IsUsable(), rows)|
    ensures forall k :: 0 <= k < |StreamOf(rows).value| ==>
              Counts(Filter(IsUsable(), rows)[k]) && Filter(IsUsable(), rows)[k].candle == Some(StreamOf(rows).value[k])
  {
    var usable := Filter(IsUsable(), rows);
    UsableAre(rows);
    assert forall k :: 0 <= k < |usable| ==> usable[k] in usable;
    hide Sane, Filter, Timeline;
  }

  /** A closed bar opens with its group's first candle, closes with its last, spans their extremes and holds their volume. */
  lemma {:induction false} BarOfGroup(candles: seq<Candle>, factor: nat, k: nat)
    requires factor >= 1 && (k + 1) * factor <= |candles|
    ensures k < |Rolled(candles, factor)|
    ensures var g, b := candles[k * factor..(k + 1) * factor], Rolled(candles, factor)[k];
            && b.open == g[0].open && b.close == g[factor - 1].close && b.volume == RealSum(Volume(), g)
            && (forall c {:trigger c in g} :: c in g ==> b.low <= c.low && c.high <= b.high)
            && (exists c {:trigger c in g} :: c in g && c.high == b.high) && (exists c {:trigger c in g} :: c in g && c.low == b.low)
  {
    if k == 0 {
      GroupBar(candles[..factor]);
    } else {
      NextGroup(k, factor);
      BarOfGroup(candles[factor..], factor, k - 1);
      assert candles[factor..][(k - 1) * factor..k * factor] == candles[k * factor..(k + 1) * factor];
    }
  }

  lemma NextGroup(k: nat, factor: nat)
    requires k >= 1
    ensures (k + 1) * factor == k * factor + factor && (k - 1) * factor + factor == k * factor
  {
  }

  lemma GroupBar(g: seq<Candle>)
    requires g != []
    ensures var b := Bar(g);
            && b.open == g[0].open && b.close == g[|g| - 1].close && b.volume == RealSum(Volume(), g)
            && (forall c {:trigger c in g} :: c in g ==> b.low <= c.low && c.high <= b.high)
            && (exists c {:trigger c in g} :: c in g && c.high == b.high) && (exists c {:trigger c in g} :: c in g && c.low == b.low)
  {
    var h, l := Highest(g), Lowest(g);
    var i :| 0 <= i < |g| && g[i].high == h;
    var j :| 0 <= j < |g| && g[j].low == l;
    assert g[i] in g && g[j] in g;
  }

  // ----- the views -----

  /** The five-minute stream: the native one, or else rolled up from minutes. */
  function FiveMinute(native: seq<Candle>, minute: seq<Candle>): seq<Candle> {
    if native != [] then native else Aggregate(minute, 5)
  }

  function FifteenMinuteView(native: seq<Candle>, minute: seq<Candle>): seq<Candle> {
    Aggregate(FiveMinute(native, minute), 3)
  }

  /** Without a native five-minute stream the detour through five minutes costs nothing; with one, the minutes are not read. */
  lemma FallbackIsDirect(native: seq<Candle>, minute: seq<Candle>)
    ensures FifteenMinuteView(native, minute) == if native == [] then Aggregate(minute, 15) else Aggregate(native, 3)
  {
    AggregateComposes(minute, 5, 3);
  }

  /** Whatever the raw rows, every bar of the fifteen-minute view is a sane candle. */
  lemma ViewSane(native: seq<Row>, minute: seq<Row>)
    requires StreamOf(native).Ok? && StreamOf(minute).Ok?
    ensures AllSane(FifteenMinuteView(StreamOf(native).value, StreamOf(minute).value))
  {
    StreamSane(native);
    StreamSane(minute);
    hide StreamOf, Rolled, Sane;
    RolledSane(StreamOf(minute).value, 5);
    RolledSane(FiveMinute(StreamOf(native).value, StreamOf(minute).value), 3);
  }
}
