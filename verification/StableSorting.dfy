/** Python's `sorted`: the stable sort of a sequence by a total preorder. */
module StableSorting {

  ghost predicate TotalPreorder<T(!new)>(leq: (T, T) -> bool) {
    && (forall a, b :: leq(a, b) || leq(b, a))
    && (forall a, b, c :: leq(a, b) && leq(b, c) ==> leq(a, c))
  }

  ghost predicate AntisymmetricOn<T>(s: seq<T>, leq: (T, T) -> bool) {
    forall x, y {:trigger leq(x, y), x in s, y in s} :: x in s && y in s && leq(x, y) && leq(y, x) ==> x == y
  }

  ghost predicate Sorted<T>(s: seq<T>, leq: (T, T) -> bool) {
    forall i, j :: 0 <= i < j < |s| ==> leq(s[i], s[j])
  }

  /** Where `x` goes in the sorted `s`: after everything that may precede it. */
  function InsertPos<T>(x: T, s: seq<T>, leq: (T, T) -> bool): (p: nat)
    ensures p <= |s|
  {
    if s == [] || leq(s[|s| - 1], x) then |s| else InsertPos(x, s[..|s| - 1], leq)
  }

  function Insert<T>(x: T, s: seq<T>, leq: (T, T) -> bool): seq<T> {
    var p := InsertPos(x, s, leq);
    s[..p] + [x] + s[p..]
  }

  function Sort<T>(s: seq<T>, leq: (T, T) -> bool): (r: seq<T>)
    ensures |r| == |s|
  {
    if s == [] then [] else Insert(s[|s| - 1], Sort(s[..|s| - 1], leq), leq)
  }

  function Filter<T>(keep: T -> bool, s: seq<T>): (r: seq<T>)
    ensures |r| <= |s|
    ensures forall x :: x in r ==> x in s && keep(x)
    ensures forall x :: x in s && keep(x) ==> x in r
  {
    if s == [] then []
    else
      var rest := Filter(keep, s[..|s| - 1]);
      assert s == s[..|s| - 1] + [s[|s| - 1]];
      if keep(s[|s| - 1]) then rest + [s[|s| - 1]] else rest
  }

  lemma {:induction false} InsertPosSplits<T(!new)>(x: T, s: seq<T>, leq: (T, T) -> bool)
    requires TotalPreorder(leq) && Sorted(s, leq)
    ensures forall i :: 0 <= i < InsertPos(x, s, leq) ==> leq(s[i], x)
    ensures forall i :: InsertPos(x, s, leq) <= i < |s| ==> !leq(s[i], x)
  {
    if s != [] && !leq(s[|s| - 1], x) {
      InsertPosSplits(x, s[..|s| - 1], leq);
    }
  }

  /** The insertion position is the only one that splits `s` this way. */
  lemma {:induction false} InsertPosUnique<T(!new)>(x: T, s: seq<T>, leq: (T, T) -> bool, p: nat)
    requires TotalPreorder(leq) && Sorted(s, leq) && p <= |s|
    requires forall i :: 0 <= i < p ==> leq(s[i], x)
    requires forall i :: p <= i < |s| ==> !leq(s[i], x)
    ensures InsertPos(x, s, leq) == p
  {
    if s != [] && !leq(s[|s| - 1], x) {
      InsertPosUnique(x, s[..|s| - 1], leq, p);
    }
  }

  lemma InsertPosOfHalves<T(!new)>(x: T, low: seq<T>, high: seq<T>, leq: (T, T) -> bool)
    requires TotalPreorder(leq) && Sorted(low + high, leq)
    requires forall y :: y in low ==> leq(y, x)
    requires forall y :: y in high ==> !leq(y, x)
    ensures InsertPos(x, low + high, leq) == |low|
  {
    var s := low + high;
    forall i | 0 <= i < |low| ensures leq(s[i], x) {
      assert s[i] == low[i];
    }
    forall i | |low| <= i < |s| ensures !leq(s[i], x) {
      assert s[i] == high[i - |low|];
    }
    InsertPosUnique(x, s, leq, |low|);
  }

  lemma InsertSorted<T(!new)>(x: T, s: seq<T>, leq: (T, T) -> bool)
    requires TotalPreorder(leq) && Sorted(s, leq)
    ensures Sorted(Insert(x, s, leq), leq)
  {
    InsertPosSplits(x, s, leq);
  }

  lemma {:induction false} SortSorted<T(!new)>(s: seq<T>, leq: (T, T) -> bool)
    requires TotalPreorder(leq)
    ensures Sorted(Sort(s, leq), leq)
  {
    if s != [] {
      SortSorted(s[..|s| - 1], leq);
      InsertSorted(s[|s| - 1], Sort(s[..|s| - 1], leq), leq);
    }
  }

  lemma InsertPermutes<T>(x: T, s: seq<T>, leq: (T, T) -> bool)
    ensures multiset(Insert(x, s, leq)) == multiset(s) + multiset{x}
  {
    var p := InsertPos(x, s, leq);
    assert s == s[..p] + s[p..];
  }

  lemma {:induction false} SortPermutes<T>(s: seq<T>, leq: (T, T) -> bool)
    ensures multiset(Sort(s, leq)) == multiset(s)
  {
    if s != [] {
      var front, x := s[..|s| - 1], s[|s| - 1];
      SortPermutes(front, leq);
      InsertPermutes(x, Sort(front, leq), leq);
      assert s == front + [x];
    }
  }

  lemma SortMembers<T>(s: seq<T>, leq: (T, T) -> bool)
    ensures forall x :: x in Sort(s, leq) <==> x in s
  {
    SortPermutes(s, leq);
    forall x ensures x in Sort(s, leq) <==> x in s {
      assert x in Sort(s, leq) <==> x in multiset(Sort(s, leq));
    }
  }

  lemma FilterSnoc<T>(keep: T -> bool, s: seq<T>, x: T)
    ensures Filter(keep, s + [x]) == if keep(x) then Filter(keep, s) + [x] else Filter(keep, s)
  {
    assert (s + [x])[..|s|] == s;
  }

  lemma FilterNothing<T>(keep: T -> bool)
    ensures Filter(keep, []) == []
  {
  }

  lemma {:induction false} FilterAppend<T>(keep: T -> bool, a: seq<T>, b: seq<T>)
    ensures Filter(keep, a + b) == Filter(keep, a) + Filter(keep, b)
  {
    hide Filter;
    if b == [] {
      FilterNothing(keep);
      assert a + b == a;
    } else {
      var front, x := b[..|b| - 1], b[|b| - 1];
      FilterAppend(keep, a, front);
      FilterSnoc(keep, a + front, x);
      FilterSnoc(keep, front, x);
      assert b == front + [x] && a + b == (a + front) + [x];
    }
  }

  lemma {:induction false} FilterSorted<T(!new)>(keep: T -> bool, s: seq<T>, leq: (T, T) -> bool)
    requires Sorted(s, leq)
    ensures Sorted(Filter(keep, s), leq)
  {
    if s != [] {
      var front := s[..|s| - 1];
      FilterSorted(keep, front, leq);
      var f := Filter(keep, front);
      forall k | 0 <= k < |f| ensures leq(f[k], s[|s| - 1]) {
        assert f[k] in front;
        var i :| 0 <= i < |front| && front[i] == f[k];
        assert s[i] == f[k];
      }
    }
  }

  lemma {:induction false} FilterAll<T>(keep: T -> bool, s: seq<T>)
    requires forall x {:trigger x in s} :: x in s ==> keep(x)
    ensures Filter(keep, s) == s
  {
    if s != [] {
      var front, last := s[..|s| - 1], s[|s| - 1];
      assert s == front + [last] && last in s;
      forall x {:trigger x in front} | x in front ensures keep(x) { assert x in s; }
      FilterAll(keep, front);
    }
  }

  lemma {:induction false} FilterNone<T>(keep: T -> bool, s: seq<T>)
    requires forall x {:trigger x in s} :: x in s ==> !keep(x)
    ensures Filter(keep, s) == []
  {
    if s != [] {
      var front, last := s[..|s| - 1], s[|s| - 1];
      assert s == front + [last] && last in s;
      forall x {:trigger x in front} | x in front ensures !keep(x) { assert x in s; }
      FilterNone(keep, front);
    }
  }

  lemma {:induction false} FilterSame<T>(f: T -> bool, g: T -> bool, s: seq<T>)
    requires forall x {:trigger x in s} :: x in s ==> f(x) == g(x)
    ensures Filter(f, s) == Filter(g, s)
  {
    if s != [] {
      var front, last := s[..|s| - 1], s[|s| - 1];
      assert s == front + [last] && last in s;
      forall x {:trigger x in front} | x in front ensures f(x) == g(x) { assert x in s; }
      FilterSame(f, g, front);
    }
  }

  /** Keeping twice is keeping what passes both tests. */
  lemma {:induction false} FilterTwice<T>(f: T -> bool, g: T -> bool, both: T -> bool, s: seq<T>)
    requires forall x :: both(x) == (f(x) && g(x))
    ensures Filter(g, Filter(f, s)) == Filter(both, s)
  {
    if s != [] {
      var front, x := s[..|s| - 1], s[|s| - 1];
      FilterTwice(f, g, both, front);
      if f(x) {
        FilterSnoc(g, Filter(f, front), x);
      }
    }
  }

  lemma TakeNext<T>(s: seq<T>, n: nat)
    requires 0 < n <= |s|
    ensures s[..n] == s[..n - 1] + [s[n - 1]]
  {
  }

  lemma FilterJoin<T>(keep: T -> bool, low: seq<T>, x: T, high: seq<T>)
    ensures Filter(keep, low + [x] + high) == Filter(keep, low) + (if keep(x) then [x] else []) + Filter(keep, high)
  {
    hide Filter;
    FilterAppend(keep, low + [x], high);
    FilterSnoc(keep, low, x);
  }

  lemma FilterSplit<T>(keep: T -> bool, t: seq<T>, low: seq<T>, high: seq<T>)
    requires t == low + high
    ensures Filter(keep, t) == Filter(keep, low) + Filter(keep, high)
  {
    FilterAppend(keep, low, high);
  }

  lemma FilterAround<T>(keep: T -> bool, t: seq<T>, x: T, p: nat)
    requires p <= |t|
    ensures Filter(keep, t) == Filter(keep, t[..p]) + Filter(keep, t[p..])
    ensures Filter(keep, t[..p] + [x] + t[p..])
            == Filter(keep, t[..p]) + (if keep(x) then [x] else []) + Filter(keep, t[p..])
  {
    hide Filter;
    var low, high := t[..p], t[p..];
    assert t == low + high;
    FilterSplit(keep, t, low, high);
    FilterJoin(keep, low, x, high);
  }

  lemma FilterInsertPos<T(!new)>(keep: T -> bool, x: T, t: seq<T>, leq: (T, T) -> bool)
    requires TotalPreorder(leq) && Sorted(t, leq)
    ensures InsertPos(x, Filter(keep, t), leq) == |Filter(keep, t[..InsertPos(x, t, leq)])|
  {
    var p := InsertPos(x, t, leq);
    var low, high := Filter(keep, t[..p]), Filter(keep, t[p..]);
    InsertPosSplits(x, t, leq);
    FilterSorted(keep, t, leq);
    FilterAround(keep, t, x, p);
    assert forall y :: y in low ==> leq(y, x) by {
      assert forall y :: y in t[..p] ==> leq(y, x);
    }
    assert forall y :: y in high ==> !leq(y, x) by {
      assert forall y :: y in t[p..] ==> !leq(y, x);
    }
    InsertPosOfHalves(x, low, high, leq);
  }

  lemma FilterInsert<T(!new)>(keep: T -> bool, x: T, t: seq<T>, leq: (T, T) -> bool)
    requires TotalPreorder(leq) && Sorted(t, leq)
    ensures Filter(keep, Insert(x, t, leq))
            == if keep(x) then Insert(x, Filter(keep, t), leq) else Filter(keep, t)
  {
    var p := InsertPos(x, t, leq);
    FilterAround(keep, t, x, p);
    FilterInsertPos(keep, x, t, leq);
  }

  /** Stability: dropping elements before or after a sort gives the same list. */
  lemma {:induction false} FilterSort<T(!new)>(keep: T -> bool, s: seq<T>, leq: (T, T) -> bool)
    requires TotalPreorder(leq)
    ensures Filter(keep, Sort(s, leq)) == Sort(Filter(keep, s), leq)
  {
    if s != [] {
      var x, front := s[|s| - 1], s[..|s| - 1];
      FilterSort(keep, front, leq);
      SortSorted(front, leq);
      FilterInsert(keep, x, Sort(front, leq), leq);
      var rest := Filter(keep, front);
      assert (rest + [x])[..|rest|] == rest;
    }
  }

  /** Elements that compare equal keep their order. */
  lemma {:induction false} SortFixed<T(!new)>(s: seq<T>, leq: (T, T) -> bool)
    requires TotalPreorder(leq) && forall x, y :: x in s && y in s ==> leq(x, y)
    ensures Sort(s, leq) == s
  {
    if s != [] {
      var front, last := s[..|s| - 1], s[|s| - 1];
      assert s == front + [last];
      SortFixed(front, leq);
      assert front == [] || (front[|front| - 1] in s && last in s);
    }
  }

  lemma {:induction false} FilterPair<T(!new)>(keep: T -> bool, s: seq<T>, leq: (T, T) -> bool, i: nat, j: nat)
    requires i < j < |s| && keep(s[i]) && keep(s[j]) && Sorted(Filter(keep, s), leq)
    ensures leq(s[i], s[j])
  {
    var front, last := s[..|s| - 1], s[|s| - 1];
    assert s == front + [last];
    FilterSnoc(keep, front, last);
    var kept := Filter(keep, front);
    if j < |front| {
      if keep(last) {
        assert (kept + [last])[..|kept|] == kept;
        hide Sorted;
        FrontSorted(kept + [last], leq);
      }
      FilterPair(keep, front, leq, i, j);
    } else {
      assert front[i] in front;
      var a :| 0 <= a < |kept| && kept[a] == front[i];
      hide Filter, Sorted;
      SortedAt(kept + [last], leq, a, |kept|);
    }
  }

  /** Sorting a list that is sorted another way keeps that other way among equals. */
  lemma StableTies<T(!new)>(s: seq<T>, first: (T, T) -> bool, second: (T, T) -> bool, i: nat, j: nat)
    requires TotalPreorder(second) && Sorted(s, first)
    requires i < j < |Sort(s, second)| && second(Sort(s, second)[j], Sort(s, second)[i])
    ensures first(Sort(s, second)[i], Sort(s, second)[j])
  {
    var sorted := Sort(s, second);
    var x, y := sorted[i], sorted[j];
    SortSorted(s, second);
    var keep := (z: T) => second(x, z) && second(z, x);
    FilterSort(keep, s, second);
    SortFixed(Filter(keep, s), second);
    FilterSorted(keep, s, first);
    hide Sort, Filter, Sorted;
    assert second(x, y) by { SortedAt(sorted, second, i, j); }
    FilterPair(keep, sorted, first, i, j);
  }

  lemma SortedAt<T>(s: seq<T>, leq: (T, T) -> bool, i: nat, j: nat)
    requires Sorted(s, leq) && i < j < |s|
    ensures leq(s[i], s[j])
  {
  }

  lemma FrontMultiset<T>(a: seq<T>)
    requires a != []
    ensures multiset(a[..|a| - 1]) == multiset(a) - multiset{a[|a| - 1]}
  {
    assert a == a[..|a| - 1] + [a[|a| - 1]];
  }

  lemma SameLast<T>(a: seq<T>, b: seq<T>, leq: (T, T) -> bool)
    requires AntisymmetricOn(a, leq) && Sorted(a, leq) && Sorted(b, leq)
    requires multiset(a) == multiset(b) && a != [] && b != []
    ensures a[|a| - 1] == b[|b| - 1]
  {
    var x, y := a[|a| - 1], b[|b| - 1];
    assert y in multiset(b) && x in multiset(a);
    var i :| 0 <= i < |a| && a[i] == y;
    var j :| 0 <= j < |b| && b[j] == x;
    assert i == |a| - 1 || leq(y, x);
    assert j == |b| - 1 || leq(x, y);
    assert x in a && y in a;
  }

  lemma EmptyTogether<T>(a: seq<T>, b: seq<T>)
    requires multiset(a) == multiset(b) && (a == [] || b == [])
    ensures a == b
  {
    assert |multiset(a)| == |a| && |multiset(b)| == |b|;
  }

  lemma SameFrontAndLast<T>(a: seq<T>, b: seq<T>)
    requires a != [] && b != [] && a[..|a| - 1] == b[..|b| - 1] && a[|a| - 1] == b[|b| - 1]
    ensures a == b
  {
    assert a == a[..|a| - 1] + [a[|a| - 1]] && b == b[..|b| - 1] + [b[|b| - 1]];
  }

  lemma FrontSorted<T>(a: seq<T>, leq: (T, T) -> bool)
    requires a != [] && Sorted(a, leq)
    ensures Sorted(a[..|a| - 1], leq)
  {
  }

  lemma FrontAntisymmetric<T>(a: seq<T>, leq: (T, T) -> bool)
    requires a != [] && AntisymmetricOn(a, leq) && Sorted(a, leq)
    ensures AntisymmetricOn(a[..|a| - 1], leq) && Sorted(a[..|a| - 1], leq)
  {
    var front := a[..|a| - 1];
    forall x, y {:trigger leq(x, y), x in front, y in front} | x in front && y in front && leq(x, y) && leq(y, x)
      ensures x == y
    {
      assert x in a && y in a;
    }
  }

  /** Where ties are only between equal elements, a sorted arrangement of given elements is unique. */
  lemma {:induction false} SortedUnique<T>(a: seq<T>, b: seq<T>, leq: (T, T) -> bool)
    requires AntisymmetricOn(a, leq) && Sorted(a, leq) && Sorted(b, leq)
    requires multiset(a) == multiset(b)
    ensures a == b
  {
    hide Sorted, AntisymmetricOn;
    if a == [] || b == [] {
      EmptyTogether(a, b);
    } else {
      SameLast(a, b, leq);
      FrontMultiset(a);
      FrontMultiset(b);
      FrontAntisymmetric(a, leq);
      FrontSorted(b, leq);
      SortedUnique(a[..|a| - 1], b[..|b| - 1], leq);
      SameFrontAndLast(a, b);
    }
  }

  /** The order elements are given in does not matter when ties are only between equal elements. */
  lemma SortIgnoresOrder<T(!new)>(a: seq<T>, b: seq<T>, leq: (T, T) -> bool)
    requires TotalPreorder(leq) && AntisymmetricOn(a, leq) && multiset(a) == multiset(b)
    ensures Sort(a, leq) == Sort(b, leq)
  {
    SortSorted(a, leq);
    SortSorted(b, leq);
    SortPermutes(a, leq);
    SortPermutes(b, leq);
    SortMembers(a, leq);
    SortedUnique(Sort(a, leq), Sort(b, leq), leq);
  }

  // ----- distinct keys -----

  ghost predicate DistinctBy<T, K>(s: seq<T>, key: T -> K) {
    forall i, j :: 0 <= i < j < |s| ==> key(s[i]) != key(s[j])
  }

  lemma InsertDistinctBy<T, K>(x: T, s: seq<T>, leq: (T, T) -> bool, key: T -> K)
    requires DistinctBy(s, key) && forall i :: 0 <= i < |s| ==> key(s[i]) != key(x)
    ensures DistinctBy(Insert(x, s, leq), key)
  {
    var p := InsertPos(x, s, leq);
  }

  lemma {:induction false} SortDistinctBy<T(!new), K>(s: seq<T>, leq: (T, T) -> bool, key: T -> K)
    requires DistinctBy(s, key)
    ensures DistinctBy(Sort(s, leq), key)
  {
    if s != [] {
      var front, x := s[..|s| - 1], s[|s| - 1];
      SortDistinctBy(front, leq, key);
      SortMembers(front, leq);
      var sorted := Sort(front, leq);
      forall i | 0 <= i < |sorted| ensures key(sorted[i]) != key(x) {
        var y := sorted[i];
        assert y in sorted;
        assert y in front;
        var j :| 0 <= j < |front| && front[j] == y;
        assert s[j] == y;
      }
      InsertDistinctBy(x, sorted, leq, key);
    }
  }

  lemma {:induction false} FilterDistinctBy<T(!new), K>(keep: T -> bool, s: seq<T>, key: T -> K)
    requires DistinctBy(s, key)
    ensures DistinctBy(Filter(keep, s), key)
  {
    if s != [] {
      var front, x := s[..|s| - 1], s[|s| - 1];
      FilterDistinctBy(keep, front, key);
      var kept := Filter(keep, front);
      forall i | 0 <= i < |kept| ensures key(kept[i]) != key(x) {
        assert kept[i] in front;
      }
    }
  }

  // ----- sums -----

  function Sum<T>(f: T -> int, s: seq<T>): int {
    if s == [] then 0 else Sum(f, s[..|s| - 1]) + f(s[|s| - 1])
  }

  function RealSum<T>(f: T -> real, s: seq<T>): real {
    if s == [] then 0.0 else RealSum(f, s[..|s| - 1]) + f(s[|s| - 1])
  }

  lemma {:induction false} SumAppend<T>(f: T -> int, a: seq<T>, b: seq<T>)
    ensures Sum(f, a + b) == Sum(f, a) + Sum(f, b)
  {
    if b == [] {
      assert a + b == a;
    } else {
      SumAppend(f, a, b[..|b| - 1]);
      assert (a + b)[..|a + b| - 1] == a + b[..|b| - 1];
    }
  }

  lemma {:induction false} RealSumAppend<T>(f: T -> real, a: seq<T>, b: seq<T>)
    ensures RealSum(f, a + b) == RealSum(f, a) + RealSum(f, b)
  {
    if b == [] {
      assert a + b == a;
    } else {
      RealSumAppend(f, a, b[..|b| - 1]);
      assert (a + b)[..|a + b| - 1] == a + b[..|b| - 1];
    }
  }

  lemma SumSnoc<T>(f: T -> int, s: seq<T>, x: T)
    ensures Sum(f, s + [x]) == Sum(f, s) + f(x)
  {
    assert (s + [x])[..|s|] == s;
  }

  lemma SumInsert<T>(f: T -> int, x: T, s: seq<T>, leq: (T, T) -> bool)
    ensures Sum(f, Insert(x, s, leq)) == Sum(f, s) + f(x)
  {
    var p := InsertPos(x, s, leq);
    SumAppend(f, s[..p], s[p..]);
    SumAppend(f, s[..p] + [x], s[p..]);
    SumAppend(f, s[..p], [x]);
    assert s == s[..p] + s[p..];
    assert [x][..0] == [];
  }

  lemma RealSumInsert<T>(f: T -> real, x: T, s: seq<T>, leq: (T, T) -> bool)
    ensures RealSum(f, Insert(x, s, leq)) == RealSum(f, s) + f(x)
  {
    var p := InsertPos(x, s, leq);
    RealSumAppend(f, s[..p], s[p..]);
    RealSumAppend(f, s[..p] + [x], s[p..]);
    RealSumAppend(f, s[..p], [x]);
    assert s == s[..p] + s[p..];
    assert [x][..0] == [];
  }

  lemma {:induction false} SumSort<T>(f: T -> int, s: seq<T>, leq: (T, T) -> bool)
    ensures Sum(f, Sort(s, leq)) == Sum(f, s)
  {
    if s != [] {
      SumSort(f, s[..|s| - 1], leq);
      SumInsert(f, s[|s| - 1], Sort(s[..|s| - 1], leq), leq);
    }
  }

  lemma {:induction false} RealSumSort<T>(f: T -> real, s: seq<T>, leq: (T, T) -> bool)
    ensures RealSum(f, Sort(s, leq)) == RealSum(f, s)
  {
    if s != [] {
      RealSumSort(f, s[..|s| - 1], leq);
      RealSumInsert(f, s[|s| - 1], Sort(s[..|s| - 1], leq), leq);
    }
  }

  /** A sum does not depend on the order of its terms. */
  lemma RealSumIgnoresOrder<T(!new)>(f: T -> real, a: seq<T>, b: seq<T>, leq: (T, T) -> bool)
    requires TotalPreorder(leq) && AntisymmetricOn(a, leq) && multiset(a) == multiset(b)
    ensures RealSum(f, a) == RealSum(f, b)
  {
    RealSumSort(f, a, leq);
    RealSumSort(f, b, leq);
    SortIgnoresOrder(a, b, leq);
  }

  lemma {:induction false} RealSumLeq<T>(f: T -> real, g: T -> real, s: seq<T>)
    requires forall x {:trigger x in s} :: x in s ==> f(x) <= g(x)
    ensures RealSum(f, s) <= RealSum(g, s)
  {
    if s != [] {
      var front, x := s[..|s| - 1], s[|s| - 1];
      assert s == front + [x] && x in s;
      forall y {:trigger y in front} | y in front ensures f(y) <= g(y) { assert y in s; }
      RealSumLeq(f, g, front);
    }
  }

  lemma {:induction false} FilterParts<T>(f: T -> int, keep: T -> bool, drop: T -> bool, s: seq<T>)
    requires forall x {:trigger x in s} :: x in s ==> (keep(x) <==> !drop(x))
    ensures Sum(f, Filter(keep, s)) + Sum(f, Filter(drop, s)) == Sum(f, s)
  {
    if s != [] {
      var front, x := s[..|s| - 1], s[|s| - 1];
      assert s == front + [x] && x in s;
      forall y {:trigger y in front} | y in front ensures keep(y) <==> !drop(y) { assert y in s; }
      FilterParts(f, keep, drop, front);
      var kept, dropped := Filter(keep, front), Filter(drop, front);
      hide Sum;
      SumSnoc(f, front, x);
      SumSnoc(f, kept, x);
      SumSnoc(f, dropped, x);
    }
  }

  lemma SubsetSize<T>(a: set<T>, b: set<T>)
    requires a <= b
    ensures |a| <= |b|
  {
    assert b == a + (b - a);
  }
}
