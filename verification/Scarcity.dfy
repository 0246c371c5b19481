/** The scarcity rule for A rows of the public board (`autonomy/bet_board.py`). */
module Scarcity {
  import opened TextOrder
  import opened StableSorting

  const A_MAX_PER_EVENT: nat := 1
  const A_MAX_PER_SCOPE: nat := 5

  datatype Bucket = A | B | C | Watch | Unattributed

  datatype Row = Row(ticker: string, event: string, scope: string, edge: real, uncertainty: real, bucket: Bucket, demoted: bool)

  /** A row together with its place on the board. */
  datatype Seat = Seat(at: nat, row: Row)

  predicate Better(a: Seat, b: Seat) {
    a.row.edge > b.row.edge
    || (a.row.edge == b.row.edge
        && (a.row.uncertainty < b.row.uncertainty
            || (a.row.uncertainty == b.row.uncertainty && TextLeq(a.row.ticker, b.row.ticker))))
  }

  function IsA(): Seat -> bool { (s: Seat) => s.row.bucket.A? }

  function Seats(rows: seq<Row>): seq<Seat> {
    if rows == [] then [] else Seats(rows[..|rows| - 1]) + [Seat(|rows| - 1, rows[|rows| - 1])]
  }

  /** The A rows, best first. */
  function Ranking(rows: seq<Row>): seq<Seat> {
    Sort(Filter(IsA(), Seats(rows)), Better)
  }

  function EventIs(event: string): Seat -> bool { (s: Seat) => s.row.event == event }

  function ScopeIs(scope: string): Seat -> bool { (s: Seat) => s.row.scope == scope }

  function Count(which: Seat -> bool, s: seq<Seat>): nat { |Filter(which, s)| }

  predicate Fits(kept: seq<Seat>, x: Seat) {
    Count(EventIs(x.row.event), kept) < A_MAX_PER_EVENT && Count(ScopeIs(x.row.scope), kept) < A_MAX_PER_SCOPE
  }

  /** The seats that stay A when a ranking is walked from its best seat on. */
  function Kept(ranking: seq<Seat>): seq<Seat> {
    if ranking == [] then []
    else
      var before, x := Kept(ranking[..|ranking| - 1]), ranking[|ranking| - 1];
      if Fits(before, x) then before + [x] else before
  }

  function Rejected(ranking: seq<Seat>): set<nat> {
    if ranking == [] then {}
    else
      var front, x := ranking[..|ranking| - 1], ranking[|ranking| - 1];
      if Fits(Kept(front), x) then Rejected(front) else Rejected(front) + {x.at}
  }

  function DemotedRow(r: Row): Row {
    r.(bucket := B, demoted := true)
  }

  function Demote(rows: seq<Row>, places: set<nat>): seq<Row> {
    seq(|rows|, i requires 0 <= i < |rows| => Demoted(rows[i], i, places))
  }

  function Enforced(rows: seq<Row>): seq<Row> {
    Demote(rows, Rejected(Ranking(rows)))
  }

  function Got(counts: map<string, nat>, key: string): nat {
    if key in counts then counts[key] else 0
  }

  function Bump(counts: map<string, nat>, key: string): map<string, nat> {
    counts[key := Got(counts, key) + 1]
  }

  predicate Full(events: map<string, nat>, scopes: map<string, nat>, x: Seat) {
    Got(events, x.row.event) >= A_MAX_PER_EVENT || Got(scopes, x.row.scope) >= A_MAX_PER_SCOPE
  }

  ghost predicate Counted(events: map<string, nat>, scopes: map<string, nat>, kept: seq<Seat>) {
    && (forall e {:trigger Got(events, e)} :: Got(events, e) == Count(EventIs(e), kept))
    && (forall s {:trigger Got(scopes, s)} :: Got(scopes, s) == Count(ScopeIs(s), kept))
  }

  /** `_enforce_public_a_scarcity`: the walk over the ranked A rows, rewriting the rejected ones. */
  method EnforceScarcity(rows: array<Row>)
    modifies rows
    ensures rows[..] == Enforced(old(rows[..]))
  {
    hide *;
    ghost var was := rows[..];
    var ranking := Ranking(rows[..]);
    var events: map<string, nat>, scopes: map<string, nat> := map[], map[];
    RankingInRange(was);
    NoneCounted();
    NoneDemoted(was);
    for k := 0 to |ranking|
      invariant Counted(events, scopes, Kept(ranking[..k]))
      invariant rows[..] == Demote(was, Rejected(ranking[..k]))
    {
      var x := ranking[k];
      WalkStep(ranking, k, events, scopes);
      if Full(events, scopes, x) {
        DemoteOne(was, Rejected(ranking[..k]), x);
        rows[x.at] := DemotedRow(rows[x.at]);
      } else {
        events := Bump(events, x.row.event);
        scopes := Bump(scopes, x.row.scope);
      }
    }
    assert ranking[..|ranking|] == ranking;
    EnforcedIs(was);
  }

  lemma EnforcedIs(rows: seq<Row>)
    ensures Enforced(rows) == Demote(rows, Rejected(Ranking(rows)))
  {
    hide Rejected, Ranking, Demote;
  }

  lemma NoneCounted()
    ensures Counted(map[], map[], Kept([]))
  {
  }

  lemma NoneDemoted(rows: seq<Row>)
    ensures Demote(rows, Rejected([])) == rows
  {
  }

  lemma CountSnoc(which: Seat -> bool, s: seq<Seat>, x: Seat)
    ensures Count(which, s + [x]) == Count(which, s) + if which(x) then 1 else 0
  {
    assert (s + [x])[..|s|] == s;
  }

  lemma CountedStep(events: map<string, nat>, scopes: map<string, nat>, kept: seq<Seat>, x: Seat)
    requires Counted(events, scopes, kept)
    ensures Counted(Bump(events, x.row.event), Bump(scopes, x.row.scope), kept + [x])
  {
    hide Count;
    var events', scopes' := Bump(events, x.row.event), Bump(scopes, x.row.scope);
    forall e {:trigger Got(events', e)} ensures Got(events', e) == Count(EventIs(e), kept + [x]) {
      CountSnoc(EventIs(e), kept, x);
      assert Got(events, e) == Count(EventIs(e), kept);
    }
    forall s {:trigger Got(scopes', s)} ensures Got(scopes', s) == Count(ScopeIs(s), kept + [x]) {
      CountSnoc(ScopeIs(s), kept, x);
      assert Got(scopes, s) == Count(ScopeIs(s), kept);
    }
  }

  /** One seat of the walk, seen from the counts. */
  lemma WalkStep(ranking: seq<Seat>, k: nat, events: map<string, nat>, scopes: map<string, nat>)
    requires k < |ranking| && Counted(events, scopes, Kept(ranking[..k]))
    ensures var x := ranking[k];
            if Full(events, scopes, x) then
              Counted(events, scopes, Kept(ranking[..k + 1])) && Rejected(ranking[..k + 1]) == Rejected(ranking[..k]) + {x.at}
            else
              Counted(Bump(events, x.row.event), Bump(scopes, x.row.scope), Kept(ranking[..k + 1]))
              && Rejected(ranking[..k + 1]) == Rejected(ranking[..k])
  {
    var x := ranking[k];
    hide *;
    var kept := Kept(ranking[..k]);
    FullIsUnfit(events, scopes, kept, x);
    KeptSnoc(ranking, k);
    if !Full(events, scopes, x) {
      CountedStep(events, scopes, kept, x);
    }
  }

  lemma FullIsUnfit(events: map<string, nat>, scopes: map<string, nat>, kept: seq<Seat>, x: Seat)
    requires Counted(events, scopes, kept)
    ensures Full(events, scopes, x) <==> !Fits(kept, x)
  {
    assert Got(events, x.row.event) == Count(EventIs(x.row.event), kept);
    assert Got(scopes, x.row.scope) == Count(ScopeIs(x.row.scope), kept);
  }

  lemma KeptSnoc(ranking: seq<Seat>, k: nat)
    requires k < |ranking|
    ensures Kept(ranking[..k + 1]) == if Fits(Kept(ranking[..k]), ranking[k]) then Kept(ranking[..k]) + [ranking[k]] else Kept(ranking[..k])
    ensures Rejected(ranking[..k + 1])
         == if Fits(Kept(ranking[..k]), ranking[k]) then Rejected(ranking[..k]) else Rejected(ranking[..k]) + {ranking[k].at}
  {
    assert ranking[..k + 1][..k] == ranking[..k];
    hide Fits;
  }

  lemma DemoteOne(rows: seq<Row>, places: set<nat>, x: Seat)
    requires x.at < |rows|
    ensures |Demote(rows, places)| == |rows|
    ensures Demote(rows, places + {x.at}) == Demote(rows, places)[x.at := DemotedRow(Demote(rows, places)[x.at])]
  {
  }

  // ----- seats and rankings -----

  lemma {:induction false} SeatsInRange(rows: seq<Row>)
    ensures forall x {:trigger x in Seats(rows)} :: x in Seats(rows) <==> x.at < |rows| && x.row == rows[x.at]
  {
    if rows != [] {
      SeatsInRange(rows[..|rows| - 1]);
    }
  }

  /** The ranking holds every A row once. */
  lemma RankingInRange(rows: seq<Row>)
    ensures forall x {:trigger x in Ranking(rows)} :: x in Ranking(rows) <==> x.at < |rows| && x.row == rows[x.at] && x.row.bucket.A?
    ensures forall k {:trigger Ranking(rows)[k]} :: 0 <= k < |Ranking(rows)| ==> Ranking(rows)[k].at < |rows|
  {
    SeatsInRange(rows);
    SortMembers(Filter(IsA(), Seats(rows)), Better);
    forall k {:trigger Ranking(rows)[k]} | 0 <= k < |Ranking(rows)| ensures Ranking(rows)[k].at < |rows| {
      assert Ranking(rows)[k] in Ranking(rows);
    }
  }

  lemma BetterIsPreorder()
    ensures TotalPreorder(Better)
  {
    forall a: Seat, b: Seat ensures Better(a, b) || Better(b, a) {
      LeqTotal(a.row.ticker, b.row.ticker);
    }
    forall a: Seat, b: Seat, c: Seat | Better(a, b) && Better(b, c) ensures Better(a, c) {
      if TextLeq(a.row.ticker, b.row.ticker) && TextLeq(b.row.ticker, c.row.ticker) {
        LeqTransitive(a.row.ticker, b.row.ticker, c.row.ticker);
      }
    }
  }

  ghost predicate Distinct(s: seq<Seat>) {
    forall i, j :: 0 <= i < j < |s| ==> s[i].at != s[j].at
  }

  ghost predicate Fresh(x: Seat, s: seq<Seat>) {
    forall y {:trigger y in s} :: y in s ==> y.at != x.at
  }

  function AtOf(x: Seat): nat { x.at }

  lemma SortDistinct(s: seq<Seat>)
    requires Distinct(s)
    ensures Distinct(Sort(s, Better))
  {
    SortDistinctBy(s, Better, AtOf);
  }

  lemma FilterDistinct(keep: Seat -> bool, s: seq<Seat>)
    requires Distinct(s)
    ensures Distinct(Filter(keep, s))
  {
    FilterDistinctBy(keep, s, AtOf);
  }

  lemma {:induction false} SeatsDistinct(rows: seq<Row>)
    ensures Distinct(Seats(rows))
  {
    if rows != [] {
      SeatsDistinct(rows[..|rows| - 1]);
      var front := Seats(rows[..|rows| - 1]);
      SeatsInRange(rows[..|rows| - 1]);
      forall k | 0 <= k < |front| ensures front[k].at < |rows| - 1 {
        assert front[k] in front;
      }
    }
  }

  lemma RankingDistinct(rows: seq<Row>)
    ensures Distinct(Ranking(rows))
  {
    SeatsDistinct(rows);
    FilterDistinct(IsA(), Seats(rows));
    SortDistinct(Filter(IsA(), Seats(rows)));
  }

  // ----- the caps -----

  ghost predicate WithinCaps(s: seq<Seat>) {
    && (forall e {:trigger EventIs(e)} :: Count(EventIs(e), s) <= A_MAX_PER_EVENT)
    && (forall c {:trigger ScopeIs(c)} :: Count(ScopeIs(c), s) <= A_MAX_PER_SCOPE)
  }

  lemma {:induction false} KeptWithinCaps(ranking: seq<Seat>)
    ensures WithinCaps(Kept(ranking))
  {
    if ranking != [] {
      var front, x := ranking[..|ranking| - 1], ranking[|ranking| - 1];
      KeptWithinCaps(front);
      if Fits(Kept(front), x) {
        hide Count, Kept;
        forall e {:trigger EventIs(e)} ensures Count(EventIs(e), Kept(front) + [x]) <= A_MAX_PER_EVENT {
          CountSnoc(EventIs(e), Kept(front), x);
        }
        forall c {:trigger ScopeIs(c)} ensures Count(ScopeIs(c), Kept(front) + [x]) <= A_MAX_PER_SCOPE {
          CountSnoc(ScopeIs(c), Kept(front), x);
        }
      }
    }
  }

  lemma {:induction false} KeptMembers(ranking: seq<Seat>)
    ensures forall x {:trigger x in Kept(ranking)} :: x in Kept(ranking) ==> x in ranking
  {
    if ranking != [] {
      KeptMembers(ranking[..|ranking| - 1]);
    }
  }

  ghost predicate PlacedIn(places: set<nat>, s: seq<Seat>) {
    forall p {:trigger p in places} :: p in places ==> exists x {:trigger x in s} :: x in s && x.at == p
  }

  lemma LastSeat(front: seq<Seat>, x: Seat)
    requires Distinct(front + [x])
    ensures Distinct(front) && Fresh(x, front)
    ensures Kept(front + [x]) == if Fits(Kept(front), x) then Kept(front) + [x] else Kept(front)
    ensures Rejected(front + [x]) == if Fits(Kept(front), x) then Rejected(front) else Rejected(front) + {x.at}
  {
    hide Fits;
    var ranking := front + [x];
    assert ranking[..|front|] == front;
    forall y {:trigger y in front} | y in front ensures y.at != x.at {
      var i :| 0 <= i < |front| && front[i] == y;
      assert ranking[i].at != ranking[|front|].at;
    }
    forall i, j | 0 <= i < j < |front| ensures front[i].at != front[j].at {
      assert ranking[i].at != ranking[j].at;
    }
  }

  lemma PlacedSnoc(places: set<nat>, front: seq<Seat>, x: Seat)
    requires PlacedIn(places, front) && Fresh(x, front)
    ensures PlacedIn(places, front + [x]) && PlacedIn(places + {x.at}, front + [x]) && x.at !in places
  {
    assert x in front + [x];
    forall p {:trigger p in places} | p in places ensures p != x.at && exists y {:trigger y in front + [x]} :: y in front + [x] && y.at == p {
      var y :| y in front && y.at == p;
      assert y in front + [x];
    }
  }

  lemma SameWithout(places: set<nat>, front: seq<Seat>, x: Seat)
    requires Fresh(x, front)
    ensures Filter(NotIn(places + {x.at}), front) == Filter(NotIn(places), front)
  {
    FilterSame(NotIn(places + {x.at}), NotIn(places), front);
    hide Filter;
  }

  /** On distinct seats: a seat of the ranking is either kept or rejected, and the kept ones stay in order. */
  lemma {:induction false} KeptOrRejected(ranking: seq<Seat>)
    requires Distinct(ranking)
    ensures Kept(ranking) == Filter(NotIn(Rejected(ranking)), ranking)
    ensures PlacedIn(Rejected(ranking), ranking)
  {
    if ranking != [] {
      hide Filter, Kept, Rejected, Distinct, Fresh, PlacedIn, Fits;
      var front, x := ranking[..|ranking| - 1], ranking[|ranking| - 1];
      assert ranking == front + [x];
      LastSeat(front, x);
      KeptOrRejected(front);
      PlacedSnoc(Rejected(front), front, x);
      FilterSnoc(NotIn(Rejected(ranking)), front, x);
      SameWithout(Rejected(front), front, x);
    }
  }

  function NotIn(places: set<nat>): Seat -> bool { (s: Seat) => s.at !in places }

  /** After a demotion the A seats are the earlier ones outside the demoted places. */
  lemma {:induction false} SeatsAfterDemotion(rows: seq<Row>, places: set<nat>)
    ensures Filter(IsA(), Seats(Demote(rows, places))) == Filter(NotIn(places), Filter(IsA(), Seats(rows)))
  {
    if rows != [] {
      hide *;
      var front := rows[..|rows| - 1];
      SeatsAfterDemotion(front, places);
      SeatsLast(rows, places);
      var x, y := Seat(|front|, rows[|front|]), Seat(|front|, Demoted(rows[|front|], |front|, places));
      FilterSnoc(IsA(), Seats(front), x);
      FilterSnoc(IsA(), Seats(Demote(front, places)), y);
      FilterSnoc(NotIn(places), Filter(IsA(), Seats(front)), x);
      OnlyANow(x, y, places);
    }
  }

  function Demoted(r: Row, at: nat, places: set<nat>): Row {
    if at in places then DemotedRow(r) else r
  }

  lemma OnlyANow(x: Seat, y: Seat, places: set<nat>)
    requires y == Seat(x.at, Demoted(x.row, x.at, places))
    ensures IsA()(y) <==> IsA()(x) && NotIn(places)(x)
    ensures IsA()(y) ==> y == x
  {
  }

  lemma SeatsLast(rows: seq<Row>, places: set<nat>)
    requires rows != []
    ensures var front := rows[..|rows| - 1];
            Seats(rows) == Seats(front) + [Seat(|front|, rows[|front|])]
            && Seats(Demote(rows, places)) == Seats(Demote(front, places)) + [Seat(|front|, Demoted(rows[|front|], |front|, places))]
  {
    assert Demote(rows, places)[..|rows| - 1] == Demote(rows[..|rows| - 1], places);
  }

  lemma RankingAfter(rows: seq<Row>)
    ensures Ranking(Enforced(rows)) == Kept(Ranking(rows))
  {
    var ranking := Ranking(rows);
    var places := Rejected(ranking);
    SeatsAfterDemotion(rows, places);
    BetterIsPreorder();
    FilterSort(NotIn(places), Filter(IsA(), Seats(rows)), Better);
    RankingDistinct(rows);
    hide Sort, Filter, Kept, Rejected;
    KeptOrRejected(ranking);
  }

  /** At most one A row per event and five per scope, counted over the whole board. */
  lemma CapsHold(rows: seq<Row>)
    ensures WithinCaps(Ranking(Enforced(rows)))
  {
    RankingAfter(rows);
    KeptWithinCaps(Ranking(rows));
  }

  // ----- why a row was demoted -----

  ghost predicate BlockedByEvent(kept: seq<Seat>, x: Seat) {
    exists y {:trigger y in kept} :: y in kept && y.row.event == x.row.event && Better(y, x)
  }

  ghost predicate BlockedByScope(kept: seq<Seat>, x: Seat) {
    && Count(ScopeIs(x.row.scope), kept) == A_MAX_PER_SCOPE
    && forall y {:trigger y in kept} :: y in kept && y.row.scope == x.row.scope ==> Better(y, x)
  }

  ghost predicate AllBetter(s: seq<Seat>, x: Seat) {
    forall y {:trigger y in s} :: y in s ==> Better(y, x)
  }

  lemma NotFitting(kept: seq<Seat>, x: Seat)
    requires AllBetter(kept, x) && WithinCaps(kept) && !Fits(kept, x)
    ensures BlockedByEvent(kept, x) || BlockedByScope(kept, x)
  {
    var inEvent := Filter(EventIs(x.row.event), kept);
    assert EventIs(x.row.event)(x) && Count(ScopeIs(x.row.scope), kept) <= A_MAX_PER_SCOPE;
    if |inEvent| >= A_MAX_PER_EVENT {
      assert inEvent[0] in inEvent;
      assert inEvent[0] in kept && EventIs(x.row.event)(inEvent[0]);
    }
  }

  /** What blocked a seat when it was reached still blocks it at the end of the walk. */
  lemma StillBlocked(kept: seq<Seat>, more: Seat, x: Seat)
    requires Blocked(kept, x) && Fits(kept, more)
    ensures Blocked(kept + [more], x)
  {
    if BlockedByEvent(kept, x) {
      var y :| y in kept && y.row.event == x.row.event && Better(y, x);
      assert y in kept + [more];
    } else {
      CountSnoc(ScopeIs(x.row.scope), kept, more);
    }
  }

  ghost predicate Blocked(kept: seq<Seat>, x: Seat) {
    BlockedByEvent(kept, x) || BlockedByScope(kept, x)
  }

  /** A rejected seat was rejected before the last one was reached, or is the last one and did not fit. */
  lemma RejectedLast(front: seq<Seat>, last: Seat, x: Seat)
    requires Distinct(front + [last]) && x in front + [last] && x.at in Rejected(front + [last])
    ensures Distinct(front) && Fresh(last, front)
    ensures Kept(front + [last]) == if Fits(Kept(front), last) then Kept(front) + [last] else Kept(front)
    ensures if x in front then x.at in Rejected(front) else x == last && !Fits(Kept(front), last)
  {
    LastSeat(front, last);
    KeptOrRejected(front);
    hide Kept, Rejected, Distinct, Fits, PlacedIn;
    PlacedSnoc(Rejected(front), front, last);
  }

  lemma BlockedAtLast(ranking: seq<Seat>)
    requires ranking != [] && Sorted(ranking, Better)
    requires !Fits(Kept(ranking[..|ranking| - 1]), ranking[|ranking| - 1])
    ensures Blocked(Kept(ranking[..|ranking| - 1]), ranking[|ranking| - 1])
  {
    var front, x := ranking[..|ranking| - 1], ranking[|ranking| - 1];
    KeptWithinCaps(front);
    AllBetterBefore(ranking);
    hide Kept, Fits, AllBetter, WithinCaps, BlockedByEvent, BlockedByScope;
    NotFitting(Kept(front), x);
  }

  lemma {:induction false} RejectedAreBlocked(ranking: seq<Seat>, x: Seat)
    requires Sorted(ranking, Better) && Distinct(ranking) && x in ranking && x.at in Rejected(ranking)
    ensures Blocked(Kept(ranking), x)
  {
    var front, last := ranking[..|ranking| - 1], ranking[|ranking| - 1];
    assert ranking == front + [last];
    FrontSorted(ranking, Better);
    hide Rejected, Kept, Blocked, Sorted, Distinct, Fits, Fresh;
    RejectedLast(front, last, x);
    if x in front {
      RejectedAreBlocked(front, x);
      if Fits(Kept(front), last) {
        StillBlocked(Kept(front), last, x);
      }
    } else {
      BlockedAtLast(ranking);
    }
  }

  lemma AllBetterBefore(ranking: seq<Seat>)
    requires ranking != [] && Sorted(ranking, Better)
    ensures AllBetter(Kept(ranking[..|ranking| - 1]), ranking[|ranking| - 1])
  {
    var front, x := ranking[..|ranking| - 1], ranking[|ranking| - 1];
    KeptMembers(front);
    forall y {:trigger y in Kept(front)} | y in Kept(front) ensures Better(y, x) {
      assert y in front;
      var i :| 0 <= i < |front| && front[i] == y;
      assert ranking[i] == y;
    }
  }

  /**
   Every demoted row was blocked by a cap that is full, at the end, of A rows ranked at least as high:
   the one row of its event, or the five rows of its scope.
   */
  lemma DemotedWereBlocked(rows: seq<Row>, at: nat)
    requires at < |rows| && rows[at].bucket.A? && Enforced(rows)[at] != rows[at]
    ensures Blocked(Ranking(Enforced(rows)), Seat(at, rows[at]))
  {
    RankingAfter(rows);
    RankingInRange(rows);
    RankingDistinct(rows);
    BetterIsPreorder();
    SortSorted(Filter(IsA(), Seats(rows)), Better);
    assert Seat(at, rows[at]) in Ranking(rows);
    RejectedAreBlocked(Ranking(rows), Seat(at, rows[at]));
  }

  /** So no demoted row could be restored without breaking a cap. */
  lemma NoneCanBeRestored(rows: seq<Row>, at: nat)
    requires at < |rows| && rows[at].bucket.A? && Enforced(rows)[at] != rows[at]
    ensures !WithinCaps(Ranking(Enforced(rows)) + [Seat(at, rows[at])])
  {
    var kept, x := Ranking(Enforced(rows)), Seat(at, rows[at]);
    DemotedWereBlocked(rows, at);
    hide Ranking, Enforced;
    var event, scope := EventIs(x.row.event), ScopeIs(x.row.scope);
    CountSnoc(event, kept, x);
    CountSnoc(scope, kept, x);
    assert event(x) && scope(x);
    if BlockedByEvent(kept, x) {
      var y :| y in kept && y.row.event == x.row.event && Better(y, x);
      assert event(y) && y in Filter(event, kept);
      assert Count(event, kept + [x]) >= 2;
    }
  }

  /** The demoted rows are exactly the A rows without a seat in the final ranking; every other row is left as it was. */
  lemma OnlySeatlessDemoted(rows: seq<Row>, at: nat)
    requires at < |rows|
    ensures |Enforced(rows)| == |rows|
    ensures Enforced(rows)[at]
         == if rows[at].bucket.A? && Seat(at, rows[at]) !in Ranking(Enforced(rows)) then DemotedRow(rows[at]) else rows[at]
  {
    var ranking, seat := Ranking(rows), Seat(at, rows[at]);
    RankingInRange(rows);
    RankingDistinct(rows);
    RankingAfter(rows);
    KeptOrRejected(ranking);
    hide Ranking, Kept, Rejected;
    assert NotIn(Rejected(ranking))(seat) <==> at !in Rejected(ranking);
    if at in Rejected(ranking) {
      var x :| x in ranking && x.at == at;
      assert x == seat;
    }
  }

  // ----- once is enough -----

  lemma {:induction false} KeptAgain(ranking: seq<Seat>)
    ensures Kept(Kept(ranking)) == Kept(ranking) && Rejected(Kept(ranking)) == {}
  {
    if ranking != [] {
      var front, x := ranking[..|ranking| - 1], ranking[|ranking| - 1];
      KeptAgain(front);
      if Fits(Kept(front), x) {
        assert (Kept(front) + [x])[..|Kept(front)|] == Kept(front);
      }
    }
  }

  /** An enforced board keeps all its A rows when enforced again. */
  lemma EnforcingTwice(rows: seq<Row>)
    ensures Enforced(Enforced(rows)) == Enforced(rows)
  {
    RankingAfter(rows);
    KeptAgain(Ranking(rows));
    NoneDemoted(Enforced(rows));
    assert Rejected(Ranking(Enforced(rows))) == Rejected([]);
  }

  lemma CapsShrink(front: seq<Seat>, x: Seat)
    requires WithinCaps(front + [x])
    ensures WithinCaps(front) && Fits(front, x)
  {
    hide Count;
    forall e {:trigger EventIs(e)} ensures Count(EventIs(e), front) <= A_MAX_PER_EVENT {
      CountSnoc(EventIs(e), front, x);
      assert Count(EventIs(e), front + [x]) <= A_MAX_PER_EVENT;
    }
    forall c {:trigger ScopeIs(c)} ensures Count(ScopeIs(c), front) <= A_MAX_PER_SCOPE {
      CountSnoc(ScopeIs(c), front, x);
      assert Count(ScopeIs(c), front + [x]) <= A_MAX_PER_SCOPE;
    }
    CountSnoc(EventIs(x.row.event), front, x);
    CountSnoc(ScopeIs(x.row.scope), front, x);
    assert EventIs(x.row.event)(x) && ScopeIs(x.row.scope)(x);
  }

  lemma {:induction false} NoneRejected(ranking: seq<Seat>)
    requires WithinCaps(ranking)
    ensures Kept(ranking) == ranking && Rejected(ranking) == {}
  {
    if ranking != [] {
      var front, x := ranking[..|ranking| - 1], ranking[|ranking| - 1];
      assert ranking == front + [x];
      CapsShrink(front, x);
      hide WithinCaps, Fits;
      NoneRejected(front);
    }
  }

  /** Enforcement leaves a board alone exactly when its A rows are within the caps. */
  lemma UnchangedExactlyWithinCaps(rows: seq<Row>)
    ensures Enforced(rows) == rows <==> WithinCaps(Ranking(rows))
  {
    CapsHold(rows);
    if WithinCaps(Ranking(rows)) {
      NoneRejected(Ranking(rows));
      NoneDemoted(rows);
      assert Rejected([]) == {};
    }
  }

  // ----- boards made of parts of other boards -----

  function AEvent(event: string): Row -> bool { (r: Row) => r.bucket.A? && r.event == event }

  function AScope(scope: string): Row -> bool { (r: Row) => r.bucket.A? && r.scope == scope }

  /** What a cap counts: the A rows of an event, or of a scope. */
  datatype Cap = OfEvent(name: string) | OfScope(name: string)

  function SeatIn(c: Cap): Seat -> bool {
    match c case OfEvent(e) => EventIs(e) case OfScope(s) => ScopeIs(s)
  }

  function RowIn(c: Cap): Row -> bool {
    match c case OfEvent(e) => AEvent(e) case OfScope(s) => AScope(s)
  }

  lemma InAlike(c: Cap, at: nat, r: Row)
    ensures IsA()(Seat(at, r)) && SeatIn(c)(Seat(at, r)) <==> RowIn(c)(r)
  {
  }

  lemma {:induction false} SeatsTally(rows: seq<Row>, c: Cap)
    ensures |Filter(SeatIn(c), Filter(IsA(), Seats(rows)))| == |Filter(RowIn(c), rows)|
  {
    hide Filter, SeatIn, RowIn, IsA;
    if rows == [] {
      NoSeats(c);
    } else {
      var front, r := rows[..|rows| - 1], rows[|rows| - 1];
      var x := Seat(|front|, r);
      assert rows == front + [r];
      SeatsTally(front, c);
      InAlike(c, |front|, r);
      FilterSnoc(IsA(), Seats(front), x);
      FilterSnoc(RowIn(c), front, r);
      FilterSnoc(SeatIn(c), Filter(IsA(), Seats(front)), x);
    }
  }

  lemma NoSeats(c: Cap)
    ensures Filter(SeatIn(c), Filter(IsA(), Seats([]))) == [] && Filter(RowIn(c), []) == []
  {
  }

  lemma RankingTally(rows: seq<Row>, c: Cap)
    ensures Count(SeatIn(c), Ranking(rows)) == |Filter(RowIn(c), rows)|
  {
    hide Filter, Sort, SeatIn, RowIn, IsA;
    BetterIsPreorder();
    FilterSort(SeatIn(c), Filter(IsA(), Seats(rows)), Better);
    SeatsTally(rows, c);
  }

  /** The caps, told from the rows: at most one A row of each event and five of each scope. */
  lemma CapsFromRows(rows: seq<Row>)
    ensures WithinCaps(Ranking(rows)) <==>
              (forall e {:trigger AEvent(e)} :: |Filter(AEvent(e), rows)| <= A_MAX_PER_EVENT)
              && (forall c {:trigger AScope(c)} :: |Filter(AScope(c), rows)| <= A_MAX_PER_SCOPE)
  {
    hide Ranking, Count, Filter;
    forall e: string ensures Count(EventIs(e), Ranking(rows)) == |Filter(AEvent(e), rows)| {
      RankingTally(rows, OfEvent(e));
    }
    forall c: string ensures Count(ScopeIs(c), Ranking(rows)) == |Filter(AScope(c), rows)| {
      RankingTally(rows, OfScope(c));
    }
    if WithinCaps(Ranking(rows)) {
      forall e {:trigger AEvent(e)} ensures |Filter(AEvent(e), rows)| <= A_MAX_PER_EVENT {
        assert Count(EventIs(e), Ranking(rows)) <= A_MAX_PER_EVENT;
      }
      forall c {:trigger AScope(c)} ensures |Filter(AScope(c), rows)| <= A_MAX_PER_SCOPE {
        assert Count(ScopeIs(c), Ranking(rows)) <= A_MAX_PER_SCOPE;
      }
    }
    if (forall e {:trigger AEvent(e)} :: |Filter(AEvent(e), rows)| <= A_MAX_PER_EVENT)
       && (forall c {:trigger AScope(c)} :: |Filter(AScope(c), rows)| <= A_MAX_PER_SCOPE) {
      forall e {:trigger EventIs(e)} ensures Count(EventIs(e), Ranking(rows)) <= A_MAX_PER_EVENT {
        assert |Filter(AEvent(e), rows)| <= A_MAX_PER_EVENT;
      }
      forall c {:trigger ScopeIs(c)} ensures Count(ScopeIs(c), Ranking(rows)) <= A_MAX_PER_SCOPE {
        assert |Filter(AScope(c), rows)| <= A_MAX_PER_SCOPE;
      }
    }
  }

  lemma {:induction false} FilterBag(keep: Row -> bool, s: seq<Row>, x: Row)
    ensures multiset(Filter(keep, s))[x] == if keep(x) then multiset(s)[x] else 0
  {
    if s != [] {
      var front, y := s[..|s| - 1], s[|s| - 1];
      assert s == front + [y];
      FilterBag(keep, front, x);
      hide Filter;
      FilterSnoc(keep, front, y);
    }
  }

  lemma FewerKept(keep: Row -> bool, sub: seq<Row>, rows: seq<Row>)
    requires multiset(sub) <= multiset(rows)
    ensures |Filter(keep, sub)| <= |Filter(keep, rows)|
  {
    hide Filter;
    var few, many := Filter(keep, sub), Filter(keep, rows);
    forall x ensures multiset(few)[x] <= multiset(many)[x] {
      FilterBag(keep, sub, x);
      FilterBag(keep, rows, x);
    }
    assert multiset(many) == multiset(few) + (multiset(many) - multiset(few));
    assert |multiset(few)| == |few| && |multiset(many)| == |many|;
  }

  /** Any board made of rows of an enforced board, in any order, keeps all its A rows. */
  lemma SubBoardUnchanged(board: seq<Row>, sub: seq<Row>)
    requires multiset(sub) <= multiset(Enforced(board))
    ensures WithinCaps(Ranking(sub)) && Enforced(sub) == sub
  {
    hide Enforced, Ranking, Filter;
    var rows := Enforced(board);
    CapsHold(board);
    CapsFromRows(rows);
    forall e {:trigger AEvent(e)} ensures |Filter(AEvent(e), sub)| <= A_MAX_PER_EVENT {
      FewerKept(AEvent(e), sub, rows);
    }
    forall c {:trigger AScope(c)} ensures |Filter(AScope(c), sub)| <= A_MAX_PER_SCOPE {
      FewerKept(AScope(c), sub, rows);
    }
    CapsFromRows(sub);
    UnchangedExactlyWithinCaps(sub);
  }

  // ----- merging two boards within the caps -----

  ghost predicate KeptPlaces(rows: seq<Row>, low: nat, high: nat, keep: Row -> bool, places: set<nat>)
    requires low <= high <= |rows|
  {
    forall p {:trigger p in places} :: p in places ==> low <= p < high && keep(rows[p])
  }

  lemma PlacesBefore(rows: seq<Row>, low: nat, high: nat, keep: Row -> bool, places: set<nat>)
    requires low < high <= |rows| && KeptPlaces(rows, low, high, keep, places)
    ensures KeptPlaces(rows, low, high - 1, keep, places - {high - 1})
    ensures high - 1 in places ==> keep(rows[high - 1])
  {
    forall p {:trigger p in places - {high - 1}} | p in places - {high - 1} ensures p in places && p != high - 1 { }
  }

  /** Places of a board between `low` and `high` whose rows are kept are no more than those rows. */
  lemma {:induction false} PlacesBound(rows: seq<Row>, low: nat, high: nat, keep: Row -> bool, places: set<nat>)
    requires low <= high <= |rows| && KeptPlaces(rows, low, high, keep, places)
    ensures |places| <= |Filter(keep, rows[low..high])|
  {
    hide Filter;
    if low == high {
      assert places == {};
    } else {
      PlacesBefore(rows, low, high, keep, places);
      hide KeptPlaces;
      var last := high - 1;
      PlacesBound(rows, low, last, keep, places - {last});
      assert rows[low..high] == rows[low..last] + [rows[last]];
      FilterSnoc(keep, rows[low..last], rows[last]);
      WithoutOne(places, last);
    }
  }

  lemma WithoutOne(places: set<nat>, p: nat)
    ensures |places| == |places - {p}| + if p in places then 1 else 0
  {
    assert p in places ==> places == places - {p} + {p};
    assert p !in places ==> places == places - {p};
  }

  /** Whether two places lie on the same of the two merged boards. */
  predicate SameSide(a: seq<Row>, p: nat, q: nat) {
    p < |a| <==> q < |a|
  }

  lemma SideBound(a: seq<Row>, b: seq<Row>, at: nat, keep: Row -> bool, places: set<nat>)
    requires at < |a + b| && forall p :: p in places ==> p < |a + b| && SameSide(a, p, at) && keep((a + b)[p])
    ensures |places| <= |Filter(keep, if at < |a| then a else b)|
  {
    hide Filter;
    if at < |a| {
      assert (a + b)[0..|a|] == a;
      PlacesBound(a + b, 0, |a|, keep, places);
    } else {
      assert (a + b)[|a|..|a + b|] == b;
      PlacesBound(a + b, |a|, |a + b|, keep, places);
    }
  }

  function Places(s: seq<Seat>): set<nat> { set x | x in s :: x.at }

  lemma {:induction false} DistinctPlaces(s: seq<Seat>)
    requires Distinct(s)
    ensures |Places(s)| == |s|
  {
    if s != [] {
      var front, x := s[..|s| - 1], s[|s| - 1];
      assert s == front + [x];
      DistinctPlaces(front);
      assert Places(s) == Places(front) + {x.at};
      assert Fresh(x, front);
      assert x.at !in Places(front);
    }
  }

  lemma SeatsAreRows(rows: seq<Row>, at: nat)
    requires at < |rows| && rows[at].bucket.A? && Enforced(rows)[at] != rows[at]
    ensures forall y {:trigger y in Ranking(Enforced(rows))} :: y in Ranking(Enforced(rows)) ==>
              y.at < |rows| && y.row == rows[y.at] && y.row.bucket.A? && y.at != at
  {
    hide Ranking;
    RankingInRange(Enforced(rows));
    forall y {:trigger y in Ranking(Enforced(rows))} | y in Ranking(Enforced(rows))
      ensures y.at < |rows| && y.row == rows[y.at] && y.row.bucket.A? && y.at != at
    {
      OnlySeatlessDemoted(rows, y.at);
    }
    OnlySeatlessDemoted(rows, at);
  }

  ghost predicate RivalSeat(a: seq<Row>, x: Seat, y: Seat) {
    !SameSide(a, x.at, y.at) && Better(y, x) && (y.row.event == x.row.event || y.row.scope == x.row.scope)
  }

  /** A row's event has one A row on each side, so a rival in its event sits on the other. */
  lemma EventRival(a: seq<Row>, b: seq<Row>, x: Seat, y: Seat)
    requires WithinCaps(Ranking(a)) && WithinCaps(Ranking(b)) && x.at < |a + b| && y.at < |a + b| && x.at != y.at
    requires x.row == (a + b)[x.at] && y.row == (a + b)[y.at] && x.row.bucket.A? && y.row.bucket.A? && x.row.event == y.row.event
    ensures !SameSide(a, x.at, y.at)
  {
    hide Ranking, Filter;
    CapsFromRows(a);
    CapsFromRows(b);
    var side := if x.at < |a| then a else b;
    assert |Filter(AEvent(x.row.event), side)| <= A_MAX_PER_EVENT;
    if SameSide(a, x.at, y.at) {
      SideBound(a, b, x.at, AEvent(x.row.event), {x.at, y.at});
    }
  }

  /** Five other A rows of a row's scope cannot all sit on its side. */
  lemma ScopeRival(a: seq<Row>, b: seq<Row>, x: Seat, five: seq<Seat>)
    requires WithinCaps(Ranking(a)) && WithinCaps(Ranking(b)) && x.at < |a + b| && x.row == (a + b)[x.at] && x.row.bucket.A?
    requires Distinct(five) && |five| == A_MAX_PER_SCOPE
    requires forall y {:trigger y in five} :: y in five ==>
               y.at < |a + b| && y.row == (a + b)[y.at] && y.row.bucket.A? && y.row.scope == x.row.scope && y.at != x.at
    ensures exists y {:trigger y in five} :: y in five && !SameSide(a, x.at, y.at)
  {
    hide Ranking, Filter;
    CapsFromRows(a);
    CapsFromRows(b);
    DistinctPlaces(five);
    var side := if x.at < |a| then a else b;
    assert |Filter(AScope(x.row.scope), side)| <= A_MAX_PER_SCOPE;
    if forall y {:trigger y in five} :: y in five ==> SameSide(a, x.at, y.at) {
      SideBound(a, b, x.at, AScope(x.row.scope), Places(five) + {x.at});
    }
  }

  /**
   Merging two boards that are each within the caps, as the composite reader does: every row the merge demotes is
   blocked by an A row of the other board, of its event or its scope, ranked at least as high.
   */
  lemma MergeDemotesAcross(a: seq<Row>, b: seq<Row>, at: nat)
    requires WithinCaps(Ranking(a)) && WithinCaps(Ranking(b))
    requires at < |a + b| && (a + b)[at].bucket.A? && Enforced(a + b)[at] != (a + b)[at]
    ensures exists y {:trigger y in Ranking(Enforced(a + b))} ::
              y in Ranking(Enforced(a + b)) && RivalSeat(a, Seat(at, (a + b)[at]), y)
  {
    var rows := a + b;
    var kept, x := Ranking(Enforced(rows)), Seat(at, rows[at]);
    DemotedWereBlocked(rows, at);
    SeatsAreRows(rows, at);
    RankingDistinct(Enforced(rows));
    hide Ranking, Enforced, Better, Distinct, WithinCaps, SameSide;
    if BlockedByEvent(kept, x) {
      var y :| y in kept && y.row.event == x.row.event && Better(y, x);
      EventRival(a, b, x, y);
    } else {
      var five := Filter(ScopeIs(x.row.scope), kept);
      FilterDistinct(ScopeIs(x.row.scope), kept);
      forall y {:trigger y in five} | y in five ensures y in kept && y.row.scope == x.row.scope {
        assert ScopeIs(x.row.scope)(y);
      }
      ScopeRival(a, b, x, five);
      var y :| y in five && !SameSide(a, x.at, y.at);
      assert y in kept && Better(y, x);
    }
  }

  // ----- the board itself -----

  /** `r` is the stronger row: more edge after fees, or as much and less uncertainty, or as much of both and no later a ticker. */
  ghost predicate Stronger(r: Row, q: Row) {
    || r.edge > q.edge
    || (r.edge == q.edge && r.uncertainty < q.uncertainty)
    || (r.edge == q.edge && r.uncertainty == q.uncertainty && TextLeq(r.ticker, q.ticker))
  }

  /** On an enforced board no two A rows share an event, and no scope has more than five. */
  lemma BoardWithinCaps(rows: seq<Row>, p: nat, q: nat, scope: string)
    requires p < q < |rows|
    ensures |Enforced(rows)| == |rows|
    ensures var after := Enforced(rows);
            && !(after[p].bucket.A? && after[q].bucket.A? && after[p].event == after[q].event)
            && |Filter(AScope(scope), after)| <= 5
  {
    var after := Enforced(rows);
    OnlySeatlessDemoted(rows, p);
    CapsHold(rows);
    CapsFromRows(after);
    hide Ranking, Enforced, WithinCaps;
    var e := after[p].event;
    assert |Filter(AEvent(e), after)| <= 1;
    if after[p].bucket.A? && after[q].bucket.A? && after[q].event == e {
      TwoKept(AEvent(e), after, p, q);
    }
    assert AScope(scope) == AScope(scope);
  }

  lemma {:induction false} TwoKept(keep: Row -> bool, rows: seq<Row>, p: nat, q: nat)
    requires p < q < |rows| && keep(rows[p]) && keep(rows[q])
    ensures |Filter(keep, rows)| >= 2
  {
    var front := rows[..|rows| - 1];
    if q < |front| {
      TwoKept(keep, front, p, q);
    } else {
      assert front[p] in front;
      assert Filter(keep, front) != [] by {
        assert front[p] in Filter(keep, front);
      }
    }
  }

  ghost predicate EventHasStronger(after: seq<Row>, x: Row) {
    exists q :: 0 <= q < |after| && after[q].bucket.A? && after[q].event == x.event && Stronger(after[q], x)
  }

  ghost predicate ScopeIsStronger(after: seq<Row>, x: Row) {
    |Filter(AScope(x.scope), after)| == 5
    && forall q :: 0 <= q < |after| && after[q].bucket.A? && after[q].scope == x.scope ==> Stronger(after[q], x)
  }

  lemma EventBlock(after: seq<Row>, x: Seat)
    requires BlockedByEvent(Ranking(after), x)
    ensures EventHasStronger(after, x.row)
  {
    RankingInRange(after);
    hide Ranking;
    var y :| y in Ranking(after) && y.row.event == x.row.event && Better(y, x);
    assert y.row == after[y.at];
  }

  lemma ScopeBlock(after: seq<Row>, x: Seat)
    requires BlockedByScope(Ranking(after), x)
    ensures ScopeIsStronger(after, x.row)
  {
    RankingTally(after, OfScope(x.row.scope));
    RankingInRange(after);
    hide Ranking, Filter, Count;
    forall q | 0 <= q < |after| && after[q].bucket.A? && after[q].scope == x.row.scope ensures Stronger(after[q], x.row) {
      assert Seat(q, after[q]) in Ranking(after);
    }
  }

  /** An A row is demoted only where a stronger row of its event stays A, or five rows of its scope do, all stronger. */
  lemma DemotedByStronger(rows: seq<Row>, at: nat)
    requires at < |rows| && rows[at].bucket.A? && Enforced(rows)[at] != rows[at]
    ensures EventHasStronger(Enforced(rows), rows[at]) || ScopeIsStronger(Enforced(rows), rows[at])
  {
    var after, x := Enforced(rows), Seat(at, rows[at]);
    DemotedWereBlocked(rows, at);
    hide Enforced, Ranking, EventHasStronger, ScopeIsStronger, BlockedByEvent, BlockedByScope;
    if BlockedByEvent(Ranking(after), x) {
      EventBlock(after, x);
    } else {
      ScopeBlock(after, x);
    }
  }
}
