/**
 From the venue's pages to the slice of markets one cycle decides on: the scanner's sweep (`autonomy/scanner.py`) and
 the filters, scoring and ranking that follow it (`autonomy/brain.py`). What a gate lets through, which markets get a
 forecast, and how they rank are arbitrary.
 */
module MarketScan {
  import opened Options
  import opened StableSorting

  const MAX_CANDIDATES_EVALUATED := 100

  /** A market as listed; `quarantined` and `traded` are the scanner's verdicts on its target and vertical. */
  datatype View = View(ticker: string, status: string, quarantined: bool, traded: bool)

  /** A series' page, or None where the fetch fails. */
  type Page = Option<seq<View>>

  predicate Listed(v: View) {
    v.status in {"active", "open"} && !v.quarantined && v.traded
  }

  function TickerOf(v: View): string { v.ticker }

  function Tickers(views: seq<View>): set<string> {
    set v | v in views :: v.ticker
  }

  function Kept(views: seq<View>, v: View): seq<View> {
    if v.ticker !in Tickers(views) && Listed(v) then views + [v] else views
  }

  function KeptAll(views: seq<View>, page: seq<View>): seq<View> {
    if page == [] then views else Kept(KeptAll(views, page[..|page| - 1]), page[|page| - 1])
  }

  function Scanned(pages: seq<Page>): seq<View> {
    if pages == [] then [] else KeptAll(Scanned(pages[..|pages| - 1]), pages[|pages| - 1].GetOr([]))
  }

  /** `MarketScanner.scan`: one sweep of the watchlist with a set of tickers already seen. */
  method Scan(pages: seq<Page>) returns (views: seq<View>)
    ensures views == Scanned(pages)
  {
    hide Tickers;
    views := [];
    var seen: set<string> := {};
    NothingSeen();
    for i := 0 to |pages|
      invariant views == Scanned(pages[..i]) && seen == Tickers(views)
    {
      assert pages[..i + 1][..i] == pages[..i];
      if pages[i].Some? {
        views, seen := ScanPage(views, seen, pages[i].value);
      }
    }
    assert pages[..|pages|] == pages;
  }

  method ScanPage(before: seq<View>, known: set<string>, page: seq<View>) returns (views: seq<View>, seen: set<string>)
    requires known == Tickers(before)
    ensures views == KeptAll(before, page) && seen == Tickers(views)
  {
    hide Tickers;
    views, seen := before, known;
    for i := 0 to |page|
      invariant views == KeptAll(before, page[..i]) && seen == Tickers(views)
    {
      assert page[..i + 1][..i] == page[..i];
      var v := page[i];
      if !(v.ticker in seen || v.status !in {"active", "open"}) && !v.quarantined && v.traded {
        OneMoreSeen(views, v);
        seen := seen + {v.ticker};
        views := views + [v];
      }
    }
    assert page[..|page|] == page;
  }

  lemma NothingSeen()
    ensures Tickers([]) == {}
  {
  }

  lemma OneMoreSeen(views: seq<View>, v: View)
    ensures Tickers(views + [v]) == Tickers(views) + {v.ticker}
  {
  }

  // ----- what a sweep finds -----

  lemma {:induction false} KeptAllDistinct(views: seq<View>, page: seq<View>)
    requires DistinctBy(views, TickerOf)
    ensures DistinctBy(KeptAll(views, page), TickerOf)
  {
    if page != [] {
      KeptAllDistinct(views, page[..|page| - 1]);
      var before, v := KeptAll(views, page[..|page| - 1]), page[|page| - 1];
      forall k | 0 <= k < |before| ensures before[k].ticker in Tickers(before) {
        assert before[k] in before;
      }
    }
  }

  /** No ticker is found twice, whatever the pages repeat. */
  lemma {:induction false} ScanDistinct(pages: seq<Page>)
    ensures DistinctBy(Scanned(pages), TickerOf)
  {
    if pages != [] {
      ScanDistinct(pages[..|pages| - 1]);
      KeptAllDistinct(Scanned(pages[..|pages| - 1]), pages[|pages| - 1].GetOr([]));
    }
  }

  ghost predicate Lists(page: seq<View>, ticker: string) {
    exists v {:trigger v in page} :: v in page && v.ticker == ticker && Listed(v)
  }

  lemma ListsSnoc(page: seq<View>, v: View, ticker: string)
    ensures Lists(page + [v], ticker) <==> Lists(page, ticker) || (v.ticker == ticker && Listed(v))
  {
    hide Listed;
    assert v in page + [v];
    if Lists(page, ticker) {
      var w :| w in page && w.ticker == ticker && Listed(w);
      assert w in page + [v];
    }
  }

  lemma {:induction false} KeptAllFinds(views: seq<View>, page: seq<View>, ticker: string)
    ensures ticker in Tickers(KeptAll(views, page)) <==> ticker in Tickers(views) || Lists(page, ticker)
  {
    hide Tickers, Lists, Listed;
    if page == [] {
      NothingListed(ticker);
    } else {
      var front, v := page[..|page| - 1], page[|page| - 1];
      assert page == front + [v];
      KeptAllFinds(views, front, ticker);
      ListsSnoc(front, v, ticker);
      OneMoreSeen(KeptAll(views, front), v);
    }
  }

  lemma NothingListed(ticker: string)
    ensures !Lists([], ticker)
  {
  }

  ghost predicate Offered(pages: seq<Page>, ticker: string) {
    exists i :: 0 <= i < |pages| && Lists(pages[i].GetOr([]), ticker)
  }

  /** A ticker is found exactly when some page that could be fetched lists it. */
  lemma {:induction false} ScanFinds(pages: seq<Page>, ticker: string)
    ensures ticker in Tickers(Scanned(pages)) <==> Offered(pages, ticker)
  {
    hide Tickers, Lists;
    if pages == [] {
      NothingSeen();
    } else {
      var front := pages[..|pages| - 1];
      ScanFinds(front, ticker);
      KeptAllFinds(Scanned(front), pages[|pages| - 1].GetOr([]), ticker);
      if Offered(pages, ticker) {
        var i :| 0 <= i < |pages| && Lists(pages[i].GetOr([]), ticker);
        assert i < |front| ==> front[i] == pages[i];
      }
      if Offered(front, ticker) {
        var i :| 0 <= i < |front| && Lists(front[i].GetOr([]), ticker);
        assert pages[i] == front[i];
      }
    }
  }

  // ----- the decision slice -----

  datatype Candidate = Candidate(ticker: string, scope: string)

  /** The cycle's gates: allowlist, switches and authority; signals and forecasts; ranking; and whether it trades. */
  datatype Gates = Gates(
    allowed: View -> bool, forecast: View -> bool, scope: View -> string,
    velocity: View -> real, recalibrated: Option<View -> real>, trading: bool)

  function Survives(g: Gates): View -> bool { (v: View) => g.allowed(v) && g.forecast(v) }

  function Faster(velocity: View -> real): (View, View) -> bool { (a: View, b: View) => velocity(a) >= velocity(b) }

  function ScoredViews(views: seq<View>, g: Gates): seq<View> {
    var scored := Sort(Filter(Survives(g), views), Faster(g.velocity));
    if g.recalibrated.Some? then Sort(scored, Faster(g.recalibrated.value)) else scored
  }

  function Evaluated(scored: seq<View>, g: Gates): seq<View> {
    if !g.trading then [] else if |scored| > MAX_CANDIDATES_EVALUATED then scored[..MAX_CANDIDATES_EVALUATED] else scored
  }

  function Candidates(views: seq<View>, g: Gates): (c: seq<Candidate>)
    ensures |c| == |views|
    ensures forall i :: 0 <= i < |c| ==> c[i] == Candidate(views[i].ticker, g.scope(views[i]))
  {
    seq(|views|, i requires 0 <= i < |views| => Candidate(views[i].ticker, g.scope(views[i])))
  }

  function DecisionSlice(pages: seq<Page>, g: Gates): seq<Candidate> {
    Candidates(Evaluated(ScoredViews(Scanned(pages), g), g), g)
  }

  /** From the sweep to the slice: the filters, the scoring loop and the ranking of `run_cycle`. */
  method BuildSlice(pages: seq<Page>, g: Gates) returns (slice: seq<Candidate>)
    ensures slice == DecisionSlice(pages, g)
  {
    hide Scanned, Sort;
    var views := Scan(pages);
    var scored: seq<View> := [];
    for i := 0 to |views|
      invariant scored == Filter(Survives(g), views[..i])
    {
      assert views[..i + 1][..i] == views[..i];
      if g.allowed(views[i]) {
        if g.forecast(views[i]) {
          scored := scored + [views[i]];
        }
      }
    }
    assert views[..|views|] == views;
    scored := Sort(scored, Faster(g.velocity));
    if g.recalibrated.Some? {
      scored := Sort(scored, Faster(g.recalibrated.value));
    }
    slice := Candidates(Evaluated(scored, g), g);
  }

  ghost predicate DistinctTickers(slice: seq<Candidate>) {
    forall i, j :: 0 <= i < j < |slice| ==> slice[i].ticker != slice[j].ticker
  }

  /** Whatever the venue lists and however it is filtered and ranked, a cycle decides on each ticker at most once. */
  lemma SliceDistinct(pages: seq<Page>, g: Gates)
    ensures DistinctTickers(DecisionSlice(pages, g)) && |DecisionSlice(pages, g)| <= 100
  {
    var views := Scanned(pages);
    ScanDistinct(pages);
    FilterDistinctBy(Survives(g), views, TickerOf);
    var scored := Sort(Filter(Survives(g), views), Faster(g.velocity));
    SortDistinctBy(Filter(Survives(g), views), Faster(g.velocity), TickerOf);
    if g.recalibrated.Some? {
      SortDistinctBy(scored, Faster(g.recalibrated.value), TickerOf);
    }
    hide Scanned, Sort, Filter;
  }

  /** The velocity that counts: the recalibrated one where there is one. */
  function Speed(g: Gates): View -> real {
    (v: View) => if g.recalibrated.Some? then g.recalibrated.value(v) else g.velocity(v)
  }

  lemma FasterIsPreorder(velocity: View -> real)
    ensures TotalPreorder(Faster(velocity))
  {
  }

  /** The ranking falls in speed and, among equally fast views, in the velocity before recalibration. */
  ghost predicate FallsInSpeed(ranked: seq<View>, g: Gates) {
    forall i, j :: 0 <= i < j < |ranked| ==>
      Speed(g)(ranked[i]) > Speed(g)(ranked[j])
      || (Speed(g)(ranked[i]) == Speed(g)(ranked[j]) && g.velocity(ranked[i]) >= g.velocity(ranked[j]))
  }

  lemma RankingFalls(views: seq<View>, g: Gates)
    ensures FallsInSpeed(ScoredViews(views, g), g)
    ensures forall v :: v in ScoredViews(views, g) <==> v in views && g.allowed(v) && g.forecast(v)
  {
    var kept := Filter(Survives(g), views);
    var scored := Sort(kept, Faster(g.velocity));
    FasterIsPreorder(g.velocity);
    SortSorted(kept, Faster(g.velocity));
    SortMembers(kept, Faster(g.velocity));
    hide Sort, Filter, TotalPreorder;
    if g.recalibrated.Some? {
      var again := Faster(g.recalibrated.value);
      FasterIsPreorder(g.recalibrated.value);
      SortSorted(scored, again);
      SortMembers(scored, again);
      var ranked := Sort(scored, again);
      forall i, j | 0 <= i < j < |ranked| && again(ranked[j], ranked[i]) ensures g.velocity(ranked[i]) >= g.velocity(ranked[j]) {
        StableTies(scored, Faster(g.velocity), again, i, j);
      }
    }
  }

  /**
   A cycle that trades decides on the hundred fastest of the views found that pass its gates, fastest first, or on all of
   them if they are fewer; one that does not trade decides on none.
   */
  lemma SliceIsFastest(pages: seq<Page>, g: Gates) returns (ranked: seq<View>)
    ensures FallsInSpeed(ranked, g)
    ensures forall v :: v in ranked <==> v in Scanned(pages) && g.allowed(v) && g.forecast(v)
    ensures var slice := DecisionSlice(pages, g);
            && |slice| == (if !g.trading then 0 else if |ranked| < 100 then |ranked| else 100)
            && forall i :: 0 <= i < |slice| ==> slice[i] == Candidate(ranked[i].ticker, g.scope(ranked[i]))
  {
    ranked := ScoredViews(Scanned(pages), g);
    RankingFalls(Scanned(pages), g);
    hide Scanned, ScoredViews, FallsInSpeed;
  }
}
