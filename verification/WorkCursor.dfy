/**
 The fair, resumable work cursor (`autonomy/crypto_horizon_evidence.py`): the batch taken after
 a key cursor, its two-query form over the attempts table, the reconciliation loop that moves
 the cursor, and what no sequence of runs can make it skip.
 */
module WorkCursor {
  import opened Extrema
  import opened Options
  import opened TextOrder
  import opened StableSorting

  // ----- the batch -----

  datatype Batch<T> = Batch(
    items: seq<T>, keys: seq<string>, total: nat, deferred: int,
    before: Option<string>, after: Option<string>, wrapped: bool)

  /** The distinct keys in order of first appearance: the dictionary `unique`. */
  function UniqueKeys<T>(values: seq<T>, key: T -> string): (keys: seq<string>) {
    if values == [] then []
    else
      var keys, k := UniqueKeys(values[..|values| - 1], key), key(values[|values| - 1]);
      if k in keys then keys else keys + [k]
  }

  ghost predicate Distinct(keys: seq<string>) {
    forall i, j :: 0 <= i < j < |keys| ==> keys[i] != keys[j]
  }

  lemma {:induction false} UniqueKeysAre<T>(values: seq<T>, key: T -> string, k: string)
    ensures Distinct(UniqueKeys(values, key))
    ensures k in UniqueKeys(values, key) <==> exists v {:trigger v in values} :: v in values && key(v) == k
  {
    if values != [] {
      var front, last := values[..|values| - 1], values[|values| - 1];
      assert values == front + [last] && last in values;
      UniqueKeysAre(front, key, k);
      UniqueKeysAre(front, key, key(last));
      if v :| v in values && key(v) == k {
        assert v in front || v == last;
      }
      if v :| v in front && key(v) == k {
        assert v in values;
      }
    }
  }

  function OrderedKeys<T>(values: seq<T>, key: T -> string): seq<string> {
    Sort(UniqueKeys(values, key), TextLeq)
  }

  /** The value kept for a key: `setdefault` keeps the first. */
  function FirstWith<T>(values: seq<T>, key: T -> string, k: string): Option<T> {
    if values == [] then None
    else
      var found := FirstWith(values[..|values| - 1], key, k);
      if found.Some? then found
      else if key(values[|values| - 1]) == k then Some(values[|values| - 1])
      else None
  }

  function Start(ordered: seq<string>, cursor: Option<string>): (n: nat)
    ensures n <= |ordered|
  {
    match cursor
    case None => 0
    case Some(c) => InsertPos(c, ordered, TextLeq)   // bisect_right
  }

  function Rotated(ordered: seq<string>, cursor: Option<string>): (r: seq<string>)
    ensures |r| == |ordered|
  {
    ordered[Start(ordered, cursor)..] + ordered[..Start(ordered, cursor)]
  }

  /** The batch over already ordered distinct keys. */
  function KeyBatch(ordered: seq<string>, cursor: Option<string>, limit: int): Batch<string> {
    var total := |ordered|;
    var bounded := Max(0, limit);
    if total == 0 || bounded == 0 then Batch([], [], total, total, cursor, cursor, false)
    else
      var keys := Rotated(ordered, cursor)[..Min(bounded, total)];
      Batch(keys, keys, total, Max(0, total - |keys|), cursor, Some(keys[|keys| - 1]),
            Start(ordered, cursor) + |keys| > total)
  }

  /** `fair_batch`: the key batch, with the values the keys stand for. */
  method FairBatch<T>(values: seq<T>, cursor: Option<string>, limit: int, key: T -> string) returns (b: Batch<T>)
    ensures var k := KeyBatch(OrderedKeys(values, key), cursor, limit);
            && b.keys == k.keys && b.total == k.total && b.deferred == k.deferred
            && b.before == k.before && b.after == k.after && b.wrapped == k.wrapped
    ensures |b.items| == |b.keys|
    ensures forall i :: 0 <= i < |b.items| ==> FirstWith(values, key, b.keys[i]) == Some(b.items[i])
  {
    var unique: map<string, T>, keys: seq<string> := map[], [];
    for i := 0 to |values|
      invariant keys == UniqueKeys(values[..i], key)
      invariant forall k :: k in unique <==> k in keys
      invariant forall k :: FirstWith(values[..i], key, k) == if k in unique then Some(unique[k]) else None
    {
      assert values[..i + 1][..i] == values[..i];
      var k := key(values[i]);
      if k !in unique {
        keys, unique := keys + [k], unique[k := values[i]];
      }
    }
    assert values[..|values|] == values;
    var ordered := Sort(keys, TextLeq);
    SortMembers(keys, TextLeq);
    var chosen := KeyBatch(ordered, cursor, limit);
    KeyBatchFrom(ordered, cursor, limit);
    b := Batch(seq(|chosen.keys|, i requires 0 <= i < |chosen.keys| => unique[chosen.keys[i]]),
               chosen.keys, chosen.total, chosen.deferred, chosen.before, chosen.after, chosen.wrapped);
  }

  lemma KeyBatchFrom(ordered: seq<string>, cursor: Option<string>, limit: int)
    ensures forall i :: 0 <= i < |KeyBatch(ordered, cursor, limit).keys| ==>
              KeyBatch(ordered, cursor, limit).keys[i] in ordered
  {
    var r := Rotated(ordered, cursor);
    forall i | 0 <= i < |r| ensures r[i] in ordered { }
  }

  // ----- ordered keys -----

  ghost predicate Ascending(s: seq<string>) {
    Sorted(s, TextLeq) && Distinct(s)
  }

  lemma TextPreorder()
    ensures TotalPreorder(TextLeq)
    ensures forall a, b :: TextLeq(a, b) && TextLeq(b, a) ==> a == b
  {
    LinearOrder();
  }

  lemma {:induction false} SortKeepsDistinct(keys: seq<string>)
    requires Distinct(keys)
    ensures Distinct(Sort(keys, TextLeq))
  {
    if keys != [] {
      var front, k := keys[..|keys| - 1], keys[|keys| - 1];
      SortKeepsDistinct(front);
      SortMembers(front, TextLeq);
      var t := Sort(front, TextLeq);
      forall i | 0 <= i < |t| ensures t[i] != k {
        assert t[i] in t;
        assert t[i] in front;
      }
    }
  }

  lemma OrderedAscending<T>(values: seq<T>, key: T -> string)
    ensures Ascending(OrderedKeys(values, key))
    ensures forall k :: k in OrderedKeys(values, key) <==> exists v {:trigger v in values} :: v in values && key(v) == k
  {
    TextPreorder();
    SortSorted(UniqueKeys(values, key), TextLeq);
    SortMembers(UniqueKeys(values, key), TextLeq);
    UniqueKeysAre(values, key, "");
    SortKeepsDistinct(UniqueKeys(values, key));
    forall k ensures k in OrderedKeys(values, key) <==> exists v {:trigger v in values} :: v in values && key(v) == k {
      UniqueKeysAre(values, key, k);
    }
  }

  lemma {:induction false} DistinctCount(s: seq<string>, x: string)
    requires Distinct(s)
    ensures multiset(s)[x] == if x in s then 1 else 0
  {
    if s != [] {
      var front, last := s[..|s| - 1], s[|s| - 1];
      assert s == front + [last];
      DistinctCount(front, x);
    }
  }

  /** Ascending lists with the same elements are equal. */
  lemma AscendingUnique(a: seq<string>, b: seq<string>)
    requires Ascending(a) && Ascending(b) && forall x :: x in a <==> x in b
    ensures a == b
  {
    forall x ensures multiset(a)[x] == multiset(b)[x] {
      DistinctCount(a, x);
      DistinctCount(b, x);
    }
    assert multiset(a) == multiset(b);
    TextPreorder();
    SortedUnique(a, b, TextLeq);
  }

  predicate After(cursor: Option<string>, k: string) {
    cursor.None? || !TextLeq(k, cursor.value)
  }

  lemma StartSplits(ordered: seq<string>, cursor: Option<string>)
    requires Ascending(ordered)
    ensures forall i :: 0 <= i < |ordered| ==> (After(cursor, ordered[i]) <==> Start(ordered, cursor) <= i)
  {
    if cursor.Some? {
      TextPreorder();
      InsertPosSplits(cursor.value, ordered, TextLeq);
    }
  }

  // ----- the two-query form -----

  /** A row of the attempts table: `emitted` is status 'EMITTED', `result` the settled outcome. */
  datatype Attempt = Attempt(ticker: string, emitted: bool, result: Option<bool>, close: int)

  predicate Eligible(a: Attempt, cutoff: int) {
    a.emitted && a.result.None? && a.close <= cutoff
  }

  function TickerOf(a: Attempt): string { a.ticker }

  /** SELECT ticker .. WHERE keep GROUP BY ticker ORDER BY ticker. */
  function Query(table: seq<Attempt>, keep: Attempt -> bool): seq<string> {
    OrderedKeys(Filter(keep, table), TickerOf)
  }

  function Limit(rows: seq<string>, n: int): seq<string> {
    if n < 0 || n >= |rows| then rows else rows[..n]
  }

  function AnyEligible(cutoff: int): Attempt -> bool {
    (a: Attempt) => Eligible(a, cutoff)
  }

  /** ticker>? */
  function EligibleAfter(cutoff: int, cursor: Option<string>): Attempt -> bool {
    (a: Attempt) => Eligible(a, cutoff) && After(cursor, a.ticker)
  }

  /** ticker<=? */
  function EligibleUpTo(cutoff: int, cursor: string): Attempt -> bool {
    (a: Attempt) => Eligible(a, cutoff) && TextLeq(a.ticker, cursor)
  }

  function EligibleTickers(table: seq<Attempt>, cutoff: int): seq<string> {
    Query(table, AnyEligible(cutoff))
  }

  /** `unsettled_ticker_batch`: one query after the cursor, a second one from the start if short. */
  function TwoQueryBatch(table: seq<Attempt>, cutoff: int, cursor: Option<string>, limit: int): Batch<string> {
    var bounded := Max(0, limit);
    var total := |EligibleTickers(table, cutoff)|;
    if total == 0 || bounded == 0 then Batch([], [], total, total, cursor, cursor, false)
    else
      var first := Limit(Query(table, EligibleAfter(cutoff, cursor)), bounded);
      if |first| < Min(bounded, total) && cursor.Some? then
        var rest := Limit(Query(table, EligibleUpTo(cutoff, cursor.value)),
                          Min(bounded, total) - |first|);
        var keys := first + rest;
        Batch(keys, keys, total, Max(0, total - |keys|), cursor,
              if keys != [] then Some(keys[|keys| - 1]) else cursor, rest != [])
      else
        Batch(first, first, total, Max(0, total - |first|), cursor,
              if first != [] then Some(first[|first| - 1]) else cursor, false)
  }

  lemma QueryMembers(table: seq<Attempt>, keep: Attempt -> bool)
    ensures Ascending(Query(table, keep))
    ensures forall t :: t in Query(table, keep) <==> exists a {:trigger a in table} :: a in table && keep(a) && a.ticker == t
  {
    var kept := Filter(keep, table);
    OrderedAscending(kept, TickerOf);
    forall t ensures t in Query(table, keep) <==> exists a {:trigger a in table} :: a in table && keep(a) && a.ticker == t {
      if t in Query(table, keep) {
        var a :| a in kept && TickerOf(a) == t;
        assert a in table && keep(a) && a.ticker == t;
      }
      if a :| a in table && keep(a) && a.ticker == t {
        assert a in kept && TickerOf(a) == t;
      }
    }
  }

  /** A ticker is due exactly when it has an emitted row that is not settled and closed by the cutoff. */
  lemma DueTickers(table: seq<Attempt>, cutoff: int, t: string)
    ensures Ascending(EligibleTickers(table, cutoff))
    ensures t in EligibleTickers(table, cutoff) <==>
              exists a {:trigger a in table} :: a in table && a.ticker == t && a.emitted && a.result == None && a.close <= cutoff
  {
    QueryMembers(table, AnyEligible(cutoff));
    hide Query;
  }

  function Slice(all: seq<string>, cursor: Option<string>, late: bool): seq<string> {
    if late then all[Start(all, cursor)..] else all[..Start(all, cursor)]
  }

  lemma SliceMembers(all: seq<string>, cursor: Option<string>, late: bool, t: string)
    requires Ascending(all)
    ensures Ascending(Slice(all, cursor, late))
    ensures t in Slice(all, cursor, late) <==> t in all && After(cursor, t) == late
  {
    StartSplits(all, cursor);
    hide After, Start;
    if t in all && After(cursor, t) == late {
      var n :| 0 <= n < |all| && all[n] == t;
      assert t == if late then Slice(all, cursor, late)[n - Start(all, cursor)] else Slice(all, cursor, late)[n];
    }
  }

  /** A query restricted to one side of the cursor returns that side of the full list. */
  lemma QueryIsSlice(table: seq<Attempt>, cutoff: int, cursor: Option<string>, late: bool, keep: Attempt -> bool)
    requires forall a :: keep(a) <==> Eligible(a, cutoff) && After(cursor, a.ticker) == late
    ensures Query(table, keep) == Slice(EligibleTickers(table, cutoff), cursor, late)
  {
    var all := EligibleTickers(table, cutoff);
    var eligible := AnyEligible(cutoff);
    QueryMembers(table, eligible);
    QueryMembers(table, keep);
    SliceMembers(all, cursor, late, "");
    forall t ensures t in Query(table, keep) <==> t in Slice(all, cursor, late) {
      SliceMembers(all, cursor, late, t);
      if t in all && After(cursor, t) == late {
        var a :| a in table && eligible(a) && a.ticker == t;
        assert keep(a);
      }
      if t in Query(table, keep) {
        var a :| a in table && keep(a) && a.ticker == t;
        assert eligible(a);
      }
    }
    AscendingUnique(Query(table, keep), Slice(all, cursor, late));
  }

  lemma PrefixOfRotation(tail: seq<string>, head: seq<string>, bounded: nat)
    ensures var n := Min(bounded, |tail| + |head|);
            if |tail| >= n then (tail + head)[..n] == Limit(tail, bounded)
            else Limit(tail, bounded) == tail && (tail + head)[..n] == tail + Limit(head, n - |tail|)
                 && Limit(head, n - |tail|) != []
    ensures var n := Min(bounded, |tail| + |head|); |Limit(tail, bounded)| < n <==> |tail| < n
  {
  }

  lemma BothQueries(table: seq<Attempt>, cutoff: int, cursor: Option<string>)
    ensures var all := EligibleTickers(table, cutoff);
            && Query(table, EligibleAfter(cutoff, cursor)) == all[Start(all, cursor)..]
            && (cursor.Some? ==>
                  Query(table, EligibleUpTo(cutoff, cursor.value))
                  == all[..Start(all, cursor)])
  {
    QueryIsSlice(table, cutoff, cursor, true, EligibleAfter(cutoff, cursor));
    if cursor.Some? {
      QueryIsSlice(table, cutoff, cursor, false, EligibleUpTo(cutoff, cursor.value));
    }
  }

  /** The two-query form answers exactly as the batch over the distinct sorted eligible tickers. */
  lemma TwoQueriesAgree(table: seq<Attempt>, cutoff: int, cursor: Option<string>, limit: int)
    ensures TwoQueryBatch(table, cutoff, cursor, limit) == KeyBatch(EligibleTickers(table, cutoff), cursor, limit)
  {
    BothQueries(table, cutoff, cursor);
    hide Query, EligibleTickers, Limit, EligibleAfter, EligibleUpTo;
    var all := EligibleTickers(table, cutoff);
    assert cursor.None? ==> Start(all, cursor) == 0;
    PrefixOfRotation(all[Start(all, cursor)..], all[..Start(all, cursor)], Max(0, limit));
  }

  // ----- what the sweep covers -----

  /** `a` comes no later than `b` in the sweep that starts just after `cursor` and wraps. */
  predicate NoLater(cursor: Option<string>, a: string, b: string) {
    if After(cursor, a) == After(cursor, b) then TextLeq(a, b) else After(cursor, a)
  }

  lemma RotatedInOrder(ordered: seq<string>, cursor: Option<string>)
    requires Ascending(ordered)
    ensures var r := Rotated(ordered, cursor);
            && (forall i, j :: 0 <= i < j < |r| ==> NoLater(cursor, r[i], r[j]) && r[i] != r[j])
            && (forall k :: k in r <==> k in ordered)
  {
    StartSplits(ordered, cursor);
    var s := Start(ordered, cursor);
    assert ordered == ordered[..s] + ordered[s..];
  }

  lemma NoLaterAntisymmetric(cursor: Option<string>, a: string, b: string)
    requires NoLater(cursor, a, b) && NoLater(cursor, b, a)
    ensures a == b
  {
    LinearOrder();
  }

  lemma NoLaterReflexive(cursor: Option<string>, a: string)
    ensures NoLater(cursor, a, a)
  {
    LinearOrder();
  }

  /** Moving the cursor up to `c` leaves exactly the keys after `c` still ahead of `k`. */
  lemma CursorMoved(cursor: Option<string>, c: string, u: string, k: string)
    requires NoLater(cursor, c, k) && c != k
    ensures NoLater(Some(c), u, k) <==> NoLater(cursor, u, k) && !NoLater(cursor, u, c)
  {
    LinearOrder();
  }

  /** One run: the keys it could take, its batch limit, and how many it got through before the deadline. */
  datatype Run = Run(eligible: seq<string>, limit: int, stop: nat)

  function Attempted(run: Run, cursor: Option<string>): (keys: seq<string>)
  {
    var keys := KeyBatch(run.eligible, cursor, run.limit).keys;
    keys[..Min(run.stop, |keys|)]
  }

  function CursorAfter(run: Run, cursor: Option<string>): Option<string> {
    var keys := Attempted(run, cursor);
    if keys == [] then cursor else Some(keys[|keys| - 1])
  }

  lemma AttemptedPrefix(run: Run, cursor: Option<string>)
    ensures Attempted(run, cursor) <= Rotated(run.eligible, cursor)
  {
  }

  lemma RotatedPosition(run: Run, cursor: Option<string>, k: string) returns (i: nat)
    requires Ascending(run.eligible) && k in run.eligible
    ensures i < |run.eligible| && Rotated(run.eligible, cursor)[i] == k
    ensures forall j :: 0 <= j < i ==>
              Rotated(run.eligible, cursor)[j] != k && NoLater(cursor, Rotated(run.eligible, cursor)[j], k)
    ensures forall j :: i < j < |run.eligible| ==>
              Rotated(run.eligible, cursor)[j] != k && NoLater(cursor, k, Rotated(run.eligible, cursor)[j])
  {
    RotatedInOrder(run.eligible, cursor);
    hide Rotated, NoLater, Ascending;
    i :| 0 <= i < |Rotated(run.eligible, cursor)| && Rotated(run.eligible, cursor)[i] == k;
  }

  lemma CursorIsLast(run: Run, cursor: Option<string>)
    requires Attempted(run, cursor) != []
    ensures CursorAfter(run, cursor) == Some(Attempted(run, cursor)[|Attempted(run, cursor)| - 1])
  {
    hide Attempted;
  }

  /** A key that occurs once, at `i`, is in a prefix exactly when the prefix is longer than `i`. */
  lemma InPrefix(all: seq<string>, prefix: seq<string>, i: nat)
    requires prefix <= all && i < |all| && forall j :: 0 <= j < |all| && j != i ==> all[j] != all[i]
    ensures all[i] in prefix <==> i < |prefix|
    ensures i < |prefix| ==> prefix[i] == all[i]
  {
  }

  lemma OnlyEarlier(cursor: Option<string>, a: string, b: string)
    requires a != b && NoLater(cursor, b, a)
    ensures !NoLater(cursor, a, b)
  {
    NoLaterMeet(cursor, a, b);
  }

  lemma NoLaterMeet(cursor: Option<string>, a: string, b: string)
    ensures NoLater(cursor, a, b) && NoLater(cursor, b, a) ==> a == b
  {
    hide NoLater;
    if NoLater(cursor, a, b) && NoLater(cursor, b, a) {
      NoLaterAntisymmetric(cursor, a, b);
    }
  }

  /**
   Whatever was inserted or deleted before it, and wherever the deadline cut it, a run that
   moves the cursor attempted exactly the eligible keys between the old and the new cursor.
   */
  lemma NothingJumped(run: Run, cursor: Option<string>, k: string)
    requires Ascending(run.eligible) && k in run.eligible && Attempted(run, cursor) != []
    ensures k in Attempted(run, cursor) <==> NoLater(cursor, k, CursorAfter(run, cursor).value)
  {
    hide NoLater, Rotated, Attempted, Ascending, CursorAfter;
    var keys := Attempted(run, cursor);
    var last := |keys| - 1;
    CursorIsLast(run, cursor);
    AttemptedPrefix(run, cursor);
    var i := RotatedPosition(run, cursor, k);
    NoLaterReflexive(cursor, k);
    InPrefix(Rotated(run.eligible, cursor), keys, i);
    if i > last {
      assert keys[last] == Rotated(run.eligible, cursor)[last];
      OnlyEarlier(cursor, k, keys[last]);
    }
  }

  /** `k` lies strictly behind the cursor in the order of the keys. */
  ghost predicate Beyond(cursor: Option<string>, k: string) {
    cursor.None? || (TextLeq(cursor.value, k) && cursor.value != k)
  }

  /** `a` is taken before `b`: keys beyond the cursor come first, and among equals the smaller. */
  ghost predicate TakenFirst(cursor: Option<string>, a: string, b: string) {
    (Beyond(cursor, a) && !Beyond(cursor, b)) || ((Beyond(cursor, a) <==> Beyond(cursor, b)) && TextLeq(a, b) && a != b)
  }

  lemma TakenFirstMeans(cursor: Option<string>, a: string, b: string)
    ensures TakenFirst(cursor, a, b) <==> NoLater(cursor, a, b) && a != b
    ensures Beyond(cursor, a) <==> After(cursor, a)
  {
    LinearOrder();
  }

  /**
   A batch takes as many keys as the limit allows and defers the rest; the new cursor is the last key taken, and the batch
   has wrapped when that key is not beyond the old one.
   */
  lemma BatchIs(ordered: seq<string>, cursor: Option<string>, limit: int)
    requires Ascending(ordered)
    ensures var b := KeyBatch(ordered, cursor, limit);
            var n := |b.keys|;
            && n == (if limit <= 0 then 0 else if limit < |ordered| then limit else |ordered|)
            && b.items == b.keys && b.total == |ordered| && b.deferred == |ordered| - n
            && b.before == cursor && b.after == (if n == 0 then cursor else Some(b.keys[n - 1]))
            && (b.wrapped <==> n > 0 && !Beyond(cursor, b.keys[n - 1]))
  {
    RotatedSides(ordered, cursor);
    hide Rotated, Ascending, Beyond;
  }

  /** It takes the keys beyond the cursor first, each side in order, and passes none over. */
  lemma BatchInOrder(ordered: seq<string>, cursor: Option<string>, limit: int)
    requires Ascending(ordered)
    ensures var keys := KeyBatch(ordered, cursor, limit).keys;
            && (forall i, j :: 0 <= i < j < |keys| ==> TakenFirst(cursor, keys[i], keys[j]))
            && (forall i :: 0 <= i < |keys| ==> keys[i] in ordered)
            && (forall i, k {:trigger TakenFirst(cursor, keys[i], k)} ::
                  0 <= i < |keys| && k in ordered && k !in keys ==> TakenFirst(cursor, keys[i], k))
  {
    RotatedInOrder(ordered, cursor);
    TakenInOrder(ordered, cursor);
    BatchIsPrefix(ordered, cursor, limit);
    hide KeyBatch, Rotated, Ascending, NoLater, TakenFirst, Beyond;
    PrefixInOrder(Rotated(ordered, cursor), KeyBatch(ordered, cursor, limit).keys, cursor);
  }

  lemma BatchIsPrefix(ordered: seq<string>, cursor: Option<string>, limit: int)
    ensures KeyBatch(ordered, cursor, limit).keys <= Rotated(ordered, cursor)
  {
  }

  lemma PrefixInOrder(r: seq<string>, keys: seq<string>, cursor: Option<string>)
    requires keys <= r && forall i, j :: 0 <= i < j < |r| ==> TakenFirst(cursor, r[i], r[j])
    ensures forall i, j :: 0 <= i < j < |keys| ==> TakenFirst(cursor, keys[i], keys[j])
    ensures forall i :: 0 <= i < |keys| ==> keys[i] in r
    ensures forall i, k {:trigger TakenFirst(cursor, keys[i], k)} ::
              0 <= i < |keys| && k in r && k !in keys ==> TakenFirst(cursor, keys[i], k)
  {
    hide TakenFirst;
    assert forall m {:trigger r[m]} :: 0 <= m < |keys| ==> r[m] == keys[m] && keys[m] in keys;
    forall i, k {:trigger TakenFirst(cursor, keys[i], k)} | 0 <= i < |keys| && k in r && k !in keys
      ensures TakenFirst(cursor, keys[i], k)
    {
      var j :| 0 <= j < |r| && r[j] == k;
      assert j >= |keys|;
      assert TakenFirst(cursor, r[i], r[j]);
    }
  }

  lemma TakenInOrder(ordered: seq<string>, cursor: Option<string>)
    requires Ascending(ordered)
    ensures var r := Rotated(ordered, cursor); forall i, j :: 0 <= i < j < |r| ==> TakenFirst(cursor, r[i], r[j])
  {
    RotatedInOrder(ordered, cursor);
    hide Rotated, TakenFirst, NoLater, Ascending;
    var r := Rotated(ordered, cursor);
    forall i, j | 0 <= i < j < |r| ensures TakenFirst(cursor, r[i], r[j]) {
      TakenFirstMeans(cursor, r[i], r[j]);
    }
  }

  lemma RotatedSides(ordered: seq<string>, cursor: Option<string>)
    requires Ascending(ordered)
    ensures var r := Rotated(ordered, cursor);
            forall i :: 0 <= i < |r| ==> (Beyond(cursor, r[i]) <==> Start(ordered, cursor) + i < |ordered|)
  {
    StartSplits(ordered, cursor);
    hide Start, After, Beyond, Ascending;
    var r := Rotated(ordered, cursor);
    forall i | 0 <= i < |r| ensures Beyond(cursor, r[i]) <==> Start(ordered, cursor) + i < |ordered| {
      TakenFirstMeans(cursor, r[i], r[i]);
    }
  }

  /** A run attempts as many keys as its limit and its deadline let it. */
  lemma RunAttempts(run: Run, cursor: Option<string>)
    ensures var n := |Attempted(run, cursor)|;
            && n <= run.stop && n <= |run.eligible| && (run.limit >= 0 ==> n <= run.limit) && (run.limit < 0 ==> n == 0)
            && (n == run.stop || n == |run.eligible| || n == run.limit || run.limit < 0)
            && CursorAfter(run, cursor) == if n == 0 then cursor else Some(Attempted(run, cursor)[n - 1])
  {
  }

  // ----- no starvation -----

  /** The keys of `universe` that the sweep meets up to and including `k`. */
  ghost function Ahead(universe: set<string>, cursor: Option<string>, k: string): set<string> {
    set u | u in universe && NoLater(cursor, u, k)
  }

  lemma AttemptedOnce(run: Run, cursor: Option<string>)
    requires Ascending(run.eligible)
    ensures Distinct(Attempted(run, cursor))
    ensures forall k :: k in Attempted(run, cursor) ==> k in run.eligible
  {
    RotatedInOrder(run.eligible, cursor);
    var r, keys := Rotated(run.eligible, cursor), Attempted(run, cursor);
    assert keys <= r;
  }

  lemma {:induction false} DistinctSize(s: seq<string>)
    requires Distinct(s)
    ensures |set k | k in s| == |s|
  {
    if s != [] {
      var front, last := s[..|s| - 1], s[|s| - 1];
      DistinctSize(front);
      assert (set k | k in s) == (set k | k in front) + {last};
    }
  }

  lemma Shrinks(big: set<string>, small: set<string>, gone: set<string>)
    requires small <= big && gone <= big && small !! gone
    ensures |small| + |gone| <= |big|
  {
    assert |small + gone| == |small| + |gone|;
    SubsetSize(small + gone, big);
  }

  /** A run that does not reach `k` comes closer to it by as many keys as it attempted. */
  lemma RunApproaches(universe: set<string>, run: Run, cursor: Option<string>, k: string)
    requires EligibleIn(run, universe, k) && k !in Attempted(run, cursor)
    ensures |Ahead(universe, CursorAfter(run, cursor), k)| + |Attempted(run, cursor)| <= |Ahead(universe, cursor, k)|
  {
    var keys := Attempted(run, cursor);
    AttemptedOnce(run, cursor);
    if keys != [] {
      var c := keys[|keys| - 1];
      var gone := set x | x in keys;
      DistinctSize(keys);
      assert c in keys;
      NothingJumped(run, cursor, k);
      BeforeOrAfter(cursor, c, k);
      CursorIsLast(run, cursor);
      forall x | x in gone ensures x in Ahead(universe, cursor, k) && x !in Ahead(universe, Some(c), k) {
        NothingJumped(run, cursor, x);
        CursorMoved(cursor, c, x, k);
        NoLaterVia(cursor, x, c, k);
      }
      forall u | u in Ahead(universe, Some(c), k) ensures u in Ahead(universe, cursor, k) {
        CursorMoved(cursor, c, u, k);
      }
      hide Ahead, Attempted, CursorAfter, NoLater, Distinct;
      Shrinks(Ahead(universe, cursor, k), Ahead(universe, Some(c), k), gone);
    }
  }

  lemma BeforeOrAfter(cursor: Option<string>, a: string, b: string)
    ensures NoLater(cursor, a, b) || NoLater(cursor, b, a)
  {
    LinearOrder();
  }

  lemma NoLaterVia(cursor: Option<string>, a: string, b: string, c: string)
    requires NoLater(cursor, a, b) && NoLater(cursor, b, c)
    ensures NoLater(cursor, a, c)
  {
    LinearOrder();
  }

  function CursorAt(runs: seq<Run>, cursor: Option<string>, i: nat): Option<string>
    requires i <= |runs|
  {
    if i == 0 then cursor else CursorAfter(runs[i - 1], CursorAt(runs, cursor, i - 1))
  }

  function AttemptsIn(runs: seq<Run>, cursor: Option<string>, n: nat): nat
    requires n <= |runs|
  {
    if n == 0 then 0 else AttemptsIn(runs, cursor, n - 1) + |Attempted(runs[n - 1], CursorAt(runs, cursor, n - 1))|
  }

  ghost predicate EligibleIn(run: Run, universe: set<string>, k: string) {
    Ascending(run.eligible) && k in run.eligible && forall e :: e in run.eligible ==> e in universe
  }

  ghost predicate EligibleThroughout(runs: seq<Run>, universe: set<string>, k: string) {
    forall i :: 0 <= i < |runs| ==> EligibleIn(runs[i], universe, k)
  }

  /** Whether run `i` of the sequence attempts `k`. */
  predicate Reaches(runs: seq<Run>, cursor: Option<string>, k: string, i: nat)
    requires i < |runs|
  {
    k in Attempted(runs[i], CursorAt(runs, cursor, i))
  }

  ghost predicate MissedUpTo(runs: seq<Run>, cursor: Option<string>, k: string, n: nat)
    requires n <= |runs|
  {
    forall i :: 0 <= i < n ==> !Reaches(runs, cursor, k, i)
  }

  lemma MissedLast(runs: seq<Run>, cursor: Option<string>, universe: set<string>, k: string, n: nat)
    requires 0 < n <= |runs| && EligibleThroughout(runs, universe, k) && MissedUpTo(runs, cursor, k, n)
    ensures MissedUpTo(runs, cursor, k, n - 1) && EligibleIn(runs[n - 1], universe, k)
    ensures k !in Attempted(runs[n - 1], CursorAt(runs, cursor, n - 1))
  {
    hide Attempted, CursorAt, EligibleIn;
    assert !Reaches(runs, cursor, k, n - 1);
  }

  lemma {:induction false} StillAhead(runs: seq<Run>, cursor: Option<string>, universe: set<string>, k: string, n: nat)
    requires n <= |runs| && EligibleThroughout(runs, universe, k) && MissedUpTo(runs, cursor, k, n)
    ensures |Ahead(universe, CursorAt(runs, cursor, n), k)| + AttemptsIn(runs, cursor, n) <= |Ahead(universe, cursor, k)|
  {
    hide Ahead, Attempted, CursorAfter, EligibleIn, EligibleThroughout, MissedUpTo;
    if n > 0 {
      MissedLast(runs, cursor, universe, k, n);
      StillAhead(runs, cursor, universe, k, n - 1);
      RunApproaches(universe, runs[n - 1], CursorAt(runs, cursor, n - 1), k);
    }
  }

  lemma AheadOfItself(universe: set<string>, cursor: Option<string>, k: string)
    requires k in universe
    ensures |Ahead(universe, cursor, k)| >= 1
  {
    NoLaterReflexive(cursor, k);
    assert k in Ahead(universe, cursor, k);
  }

  /**
   No starvation, under any insertions, deletions, limits and deadlines: a key that stays
   eligible is attempted by the time the attempts reach the number of keys that were ever
   eligible between the first cursor and it.
   */
  lemma NoStarvation(runs: seq<Run>, cursor: Option<string>, universe: set<string>, k: string)
    requires EligibleThroughout(runs, universe, k) && runs != []
    requires AttemptsIn(runs, cursor, |runs|) >= |Ahead(universe, cursor, k)|
    ensures exists i :: 0 <= i < |runs| && Reaches(runs, cursor, k, i)
  {
    if MissedUpTo(runs, cursor, k, |runs|) {
      hide Reaches, CursorAt, AttemptsIn, NoLater;
      StillAhead(runs, cursor, universe, k, |runs|);
      var last := CursorAt(runs, cursor, |runs|);
      assert EligibleIn(runs[0], universe, k);
      AheadOfItself(universe, last, k);
    }
  }

  /** On a set that only shrinks, one pass over as many keys as it first held reaches every survivor. */
  lemma ShrinkingSetSwept(runs: seq<Run>, cursor: Option<string>, k: string)
    requires runs != [] && EligibleThroughout(runs, (set e | e in runs[0].eligible), k)
    requires AttemptsIn(runs, cursor, |runs|) >= |runs[0].eligible|
    ensures exists i :: 0 <= i < |runs| && Reaches(runs, cursor, k, i)
  {
    hide Reaches, CursorAt, AttemptsIn;
    assert EligibleIn(runs[0], (set e | e in runs[0].eligible), k);
    var universe := set e | e in runs[0].eligible;
    DistinctSize(runs[0].eligible);
    SubsetSize(Ahead(universe, cursor, k), universe);
    NoStarvation(runs, cursor, universe, k);
  }

  // ----- the store and the reconciliation loop -----

  /** What asking the venue for one ticker's result can give. */
  datatype Fetch = Settled(yes: bool) | Unsettled | Raised

  function SettleTicker(table: seq<Attempt>, ticker: string, yes: bool): (after: seq<Attempt>)
    ensures |after| == |table|
    ensures forall i :: 0 <= i < |table| ==>
              after[i] == if table[i].ticker == ticker && table[i].emitted && table[i].result.None?
                          then table[i].(result := Some(yes)) else table[i]
  {
    seq(|table|, i requires 0 <= i < |table| =>
      if table[i].ticker == ticker && table[i].emitted && table[i].result.None?
      then table[i].(result := Some(yes)) else table[i])
  }

  function SettleAll(table: seq<Attempt>, tickers: seq<string>, fetch: string -> Fetch): seq<Attempt> {
    if tickers == [] then table
    else
      var before := SettleAll(table, tickers[..|tickers| - 1], fetch);
      var t := tickers[|tickers| - 1];
      if fetch(t).Settled? then SettleTicker(before, t, fetch(t).yes) else before
  }

  /** Asking for some tickers settles their emitted unsettled rows that have a result, and touches no other row. */
  lemma {:induction false} SettledRows(table: seq<Attempt>, tickers: seq<string>, fetch: string -> Fetch, i: nat)
    requires i < |table|
    ensures |SettleAll(table, tickers, fetch)| == |table|
    ensures var a, b := table[i], SettleAll(table, tickers, fetch)[i];
            b == if a.ticker in tickers && a.emitted && a.result == None && fetch(a.ticker).Settled?
                 then Attempt(a.ticker, a.emitted, Some(fetch(a.ticker).yes), a.close) else a
  {
    if tickers != [] {
      var front, last := tickers[..|tickers| - 1], tickers[|tickers| - 1];
      assert tickers == front + [last];
      SettledRows(table, front, fetch, i);
      hide SettleTicker;
    }
  }

  class EvidenceStore {
    var table: seq<Attempt>
    var cursor: Option<string>

    constructor ()
      ensures table == [] && cursor == None
    {
      table, cursor := [], None;
    }

    /** The fallback loop of `reconcile_settlements`; `allowed` items pass before the deadline. */
    method ReconcileFallback(cutoff: int, limit: int, allowed: nat, fetch: string -> Fetch)
      returns (attempted: seq<string>)
      modifies this
      ensures attempted == Attempted(Run(EligibleTickers(old(table), cutoff), limit, allowed), old(cursor))
      ensures cursor == CursorAfter(Run(EligibleTickers(old(table), cutoff), limit, allowed), old(cursor))
      ensures table == SettleAll(old(table), attempted, fetch)
    {
      hide *;
      var items := TwoQueryBatch(table, cutoff, cursor, limit).items;
      BatchItems(table, cutoff, cursor, limit);
      ghost var run := Run(EligibleTickers(table, cutoff), limit, allowed);
      NothingSettled(table, items, fetch);
      attempted := [];
      var i: nat := 0;
      while i < |items| && i < allowed
        invariant i <= |items| && i <= allowed
        invariant attempted == items[..i]
        invariant cursor == if i == 0 then old(cursor) else Some(items[i - 1])
        invariant table == SettleAll(old(table), items[..i], fetch)
      {
        var ticker := items[i];
        SettleNext(old(table), items, i, fetch);
        var outcome := fetch(ticker);
        if outcome.Settled? {
          table := SettleTicker(table, ticker, outcome.yes);
        }
        // `finally`: the key counts as attempted whatever the fetch did.
        attempted := attempted + [ticker];
        cursor := Some(ticker);
        i := i + 1;
      }
      AttemptedSoFar(run, old(cursor), items, i);
    }
  }

  lemma BatchItems(table: seq<Attempt>, cutoff: int, cursor: Option<string>, limit: int)
    ensures TwoQueryBatch(table, cutoff, cursor, limit).items == KeyBatch(EligibleTickers(table, cutoff), cursor, limit).keys
  {
    TwoQueriesAgree(table, cutoff, cursor, limit);
    hide TwoQueryBatch, EligibleTickers;
  }

  lemma NothingSettled(table: seq<Attempt>, items: seq<string>, fetch: string -> Fetch)
    ensures items[..0] == [] && SettleAll(table, items[..0], fetch) == table
  {
  }

  lemma AttemptedSoFar(run: Run, cursor: Option<string>, items: seq<string>, i: nat)
    requires items == KeyBatch(run.eligible, cursor, run.limit).keys
    requires i <= |items| && i <= run.stop && (i == |items| || i == run.stop)
    ensures Attempted(run, cursor) == items[..i]
    ensures CursorAfter(run, cursor) == if i == 0 then cursor else Some(items[i - 1])
  {
    hide KeyBatch;
  }

  lemma SettleNext(table: seq<Attempt>, items: seq<string>, i: nat, fetch: string -> Fetch)
    requires i < |items|
    ensures items[..i + 1] == items[..i] + [items[i]]
    ensures SettleAll(table, items[..i + 1], fetch)
            == var before := SettleAll(table, items[..i], fetch);
               if fetch(items[i]).Settled? then SettleTicker(before, items[i], fetch(items[i]).yes) else before
  {
    assert items[..i + 1][..i] == items[..i];
  }
}
