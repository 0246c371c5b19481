/** The deduplicating book tape and its last-row index (`autonomy/clv.py`). */
module BookTape {
  import opened Options
  import opened StableSorting

  /** What two rows of a ticker must agree on to count as unchanged: everything but the time. */
  datatype Quote = Quote(bookProb: Option<real>, kalshiMid: Option<real>, closeTime: Option<string>)

  /** An assessed market; a missing ticker is the empty one. */
  datatype Row = Row(ticker: string, ts: string, quote: Quote)

  datatype Line = Blank | Malformed | Stored(row: Row)

  type Index = map<string, Row>

  predicate Unchanged(index: Index, row: Row) {
    row.ticker in index && index[row.ticker].quote == row.quote
  }

  predicate IsNews(index: Index, row: Row) {
    row.ticker != "" && !Unchanged(index, row)
  }

  function Noted(index: Index, row: Row): Index {
    if IsNews(index, row) then index[row.ticker := row] else index
  }

  /** The index after a stream of observed rows. */
  function Advance(index: Index, rows: seq<Row>): Index {
    if rows == [] then index else Noted(Advance(index, rows[..|rows| - 1]), rows[|rows| - 1])
  }

  /** The observed rows that get written. */
  function Kept(index: Index, rows: seq<Row>): seq<Row> {
    if rows == [] then []
    else
      var front, row := rows[..|rows| - 1], rows[|rows| - 1];
      Kept(index, front) + if IsNews(Advance(index, front), row) then [row] else []
  }

  function Lines(rows: seq<Row>): seq<Line> {
    seq(|rows|, k requires 0 <= k < |rows| => Stored(rows[k]))
  }

  function Read(index: Index, line: Line): Index {
    if line.Stored? && line.row.ticker != "" then index[line.row.ticker := line.row] else index
  }

  /** The last row of every ticker in a tape file. */
  function Rebuilt(lines: seq<Line>): Index {
    if lines == [] then map[] else Read(Rebuilt(lines[..|lines| - 1]), lines[|lines| - 1])
  }

  /** The tape file. */
  class Tape {
    var lines: seq<Line>

    constructor ()
      ensures lines == []
    {
      lines := [];
    }

    /** `load_last_by_ticker` */
    method LoadLastByTicker() returns (last: Index)
      ensures last == Rebuilt(lines)
    {
      last := map[];
      for i := 0 to |lines|
        invariant last == Rebuilt(lines[..i])
      {
        assert lines[..i + 1][..i] == lines[..i];
        match lines[i]
        case Blank =>
        case Malformed =>
        case Stored(row) =>
          if row.ticker != "" {
            last := last[row.ticker := row];
          }
      }
      assert lines[..|lines|] == lines;
    }

    /** `append_tape_rows`: only rows that change their ticker's last quote are written. */
    method AppendRows(rows: seq<Row>, carried: Option<Index>) returns (last: Index)
      modifies this
      ensures var before := carried.GetOr(Rebuilt(old(lines)));
              lines == old(lines) + Lines(Kept(before, rows)) && last == Advance(before, rows)
    {
      if carried.Some? {
        last := carried.value;
      } else {
        last := LoadLastByTicker();
      }
      ghost var before := last;
      var toWrite := [];
      for i := 0 to |rows|
        invariant last == Advance(before, rows[..i]) && toWrite == Kept(before, rows[..i])
        invariant lines == old(lines)
      {
        assert rows[..i + 1][..i] == rows[..i];
        var row := rows[i];
        if row.ticker != "" && !(row.ticker in last && last[row.ticker].quote == row.quote) {
          toWrite := toWrite + [row];
          last := last[row.ticker := row];
        }
      }
      assert rows[..|rows|] == rows;
      hide Kept, Advance, Rebuilt;
      for i := 0 to |toWrite|
        invariant lines == old(lines) + Lines(toWrite[..i])
      {
        assert Lines(toWrite[..i + 1]) == Lines(toWrite[..i]) + [Stored(toWrite[i])];
        lines := lines + [Stored(toWrite[i])];
      }
      assert toWrite[..|toWrite|] == toWrite;
    }
  }

  // ----- the carried index is the rebuilt one -----

  lemma RebuiltSnoc(lines: seq<Line>, line: Line)
    ensures Rebuilt(lines + [line]) == Read(Rebuilt(lines), line)
  {
    assert (lines + [line])[..|lines|] == lines;
  }

  lemma LinesSnoc(rows: seq<Row>, row: Row)
    ensures Lines(rows + [row]) == Lines(rows) + [Stored(row)]
  {
  }

  /** After every append, the index carried on is the one a fresh read of the file would give. */
  lemma {:induction false} CarriedIsRebuilt(lines: seq<Line>, rows: seq<Row>)
    ensures Rebuilt(lines + Lines(Kept(Rebuilt(lines), rows))) == Advance(Rebuilt(lines), rows)
  {
    hide Rebuilt, Lines;
    var index := Rebuilt(lines);
    if rows == [] {
      NoLines();
      assert lines + [] == lines;
    } else {
      var front, row := rows[..|rows| - 1], rows[|rows| - 1];
      CarriedIsRebuilt(lines, front);
      var kept := Kept(index, front);
      assert kept + [] == kept;
      LinesSnoc(kept, row);
      RebuiltSnoc(lines + Lines(kept), Stored(row));
      assert lines + (Lines(kept) + [Stored(row)]) == (lines + Lines(kept)) + [Stored(row)];
    }
  }

  lemma NoLines()
    ensures Lines([]) == []
  {
  }

  lemma {:induction false} KeptAppend(index: Index, a: seq<Row>, b: seq<Row>)
    ensures Kept(index, a + b) == Kept(index, a) + Kept(Advance(index, a), b)
    ensures Advance(index, a + b) == Advance(Advance(index, a), b)
  {
    if b == [] {
      assert a + b == a;
    } else {
      KeptAppend(index, a, b[..|b| - 1]);
      assert (a + b)[..|a + b| - 1] == a + b[..|b| - 1];
    }
  }

  // ----- passes, with restarts between them -----

  datatype Monitor = Monitor(lines: seq<Line>, carried: Option<Index>)

  /** One pass of the monitor; a restart before it loses the carried index. */
  function Pass(m: Monitor, rows: seq<Row>, restart: bool): Monitor {
    var before := (if restart then None else m.carried).GetOr(Rebuilt(m.lines));
    Monitor(m.lines + Lines(Kept(before, rows)), Some(Advance(before, rows)))
  }

  function Passes(m: Monitor, passes: seq<seq<Row>>, restarts: seq<bool>): Monitor
    requires |restarts| == |passes|
  {
    if passes == [] then m
    else
      var last := |passes| - 1;
      Pass(Passes(m, passes[..last], restarts[..last]), passes[last], restarts[last])
  }

  function Flat(passes: seq<seq<Row>>): seq<Row> {
    if passes == [] then [] else Flat(passes[..|passes| - 1]) + passes[|passes| - 1]
  }

  lemma LinesAppend(a: seq<Row>, b: seq<Row>)
    ensures Lines(a + b) == Lines(a) + Lines(b)
  {
  }

  /**
   However the observed rows are cut into passes and wherever the monitor restarts, the file is the one
   that a single uninterrupted pass over all of them would have left.
   */
  lemma {:induction false} RestartsDoNotMatter(lines: seq<Line>, passes: seq<seq<Row>>, restarts: seq<bool>)
    requires |restarts| == |passes|
    ensures var m := Passes(Monitor(lines, None), passes, restarts);
            m.lines == lines + Lines(Kept(Rebuilt(lines), Flat(passes)))
            && m.carried.GetOr(Rebuilt(m.lines)) == Rebuilt(m.lines)
  {
    hide Rebuilt, Lines, Kept, Advance;
    if passes == [] {
      NoLines();
      KeptNothing(Rebuilt(lines));
      assert lines + [] == lines;
    } else {
      var last := |passes| - 1;
      var early, rows := Flat(passes[..last]), passes[last];
      var index := Rebuilt(lines);
      RestartsDoNotMatter(lines, passes[..last], restarts[..last]);
      var m := Passes(Monitor(lines, None), passes[..last], restarts[..last]);
      CarriedIsRebuilt(lines, early);
      CarriedIsRebuilt(m.lines, rows);
      KeptAppend(index, early, rows);
      var kept, more := Kept(index, early), Kept(Advance(index, early), rows);
      LinesAppend(kept, more);
      assert lines + (Lines(kept) + Lines(more)) == (lines + Lines(kept)) + Lines(more);
    }
  }

  lemma KeptNothing(index: Index)
    ensures Kept(index, []) == []
  {
  }

  // ----- what the tape says about each ticker -----

  function OfTicker(ticker: string): Row -> bool { (r: Row) => r.ticker == ticker }

  /** A stream of quotes with repetitions of the previous quote removed. */
  function Collapse(before: Option<Quote>, rows: seq<Row>): seq<Row> {
    if rows == [] then []
    else
      var front, row := rows[..|rows| - 1], rows[|rows| - 1];
      Collapse(before, front) + if LastQuote(before, front) == Some(row.quote) then [] else [row]
  }

  function LastQuote(before: Option<Quote>, rows: seq<Row>): Option<Quote> {
    if rows == [] then before else Some(rows[|rows| - 1].quote)
  }

  function QuoteOf(index: Index, ticker: string): Option<Quote> {
    if ticker in index then Some(index[ticker].quote) else None
  }

  lemma CollapseSnoc(before: Option<Quote>, rows: seq<Row>, row: Row)
    ensures Collapse(before, rows + [row]) == Collapse(before, rows) + if LastQuote(before, rows) == Some(row.quote) then [] else [row]
    ensures LastQuote(before, rows + [row]) == Some(row.quote)
  {
    assert (rows + [row])[..|rows|] == rows;
  }

  /** The index knows the last quote observed of every ticker. */
  lemma {:induction false} IndexIsCurrent(index: Index, rows: seq<Row>, ticker: string)
    requires ticker != ""
    ensures QuoteOf(Advance(index, rows), ticker) == LastQuote(QuoteOf(index, ticker), Filter(OfTicker(ticker), rows))
  {
    if rows != [] {
      var front, row := rows[..|rows| - 1], rows[|rows| - 1];
      assert rows == front + [row];
      IndexIsCurrent(index, front, ticker);
      FilterSnoc(OfTicker(ticker), front, row);
    }
  }

  lemma KeptOne(index: Index, front: seq<Row>, row: Row, ticker: string)
    requires ticker != ""
    ensures Filter(OfTicker(ticker), Kept(index, front + [row]))
         == Filter(OfTicker(ticker), Kept(index, front))
            + if row.ticker == ticker && QuoteOf(Advance(index, front), ticker) != Some(row.quote) then [row] else []
  {
    assert (front + [row])[..|front|] == front;
    var kept, now := Kept(index, front), Advance(index, front);
    assert Kept(index, front + [row]) == kept + if IsNews(now, row) then [row] else [];
    hide Kept, Advance, Filter;
    FilterSnoc(OfTicker(ticker), kept, row);
    assert kept + [] == kept;
  }

  lemma NothingTaped(index: Index, ticker: string)
    ensures Filter(OfTicker(ticker), Kept(index, [])) == Collapse(QuoteOf(index, ticker), Filter(OfTicker(ticker), []))
  {
  }

  /**
   Ticker by ticker, the tape holds exactly the observed quotes with repetitions removed, and at any
   point its last quote is the last one observed.
   */
  lemma {:induction false} TapeIsCollapsed(index: Index, rows: seq<Row>, ticker: string)
    requires ticker != ""
    ensures Filter(OfTicker(ticker), Kept(index, rows)) == Collapse(QuoteOf(index, ticker), Filter(OfTicker(ticker), rows))
  {
    hide Filter, Kept, Collapse, Advance, LastQuote, QuoteOf;
    if rows == [] {
      NothingTaped(index, ticker);
    } else {
      var front, row := rows[..|rows| - 1], rows[|rows| - 1];
      assert rows == front + [row];
      TapeIsCollapsed(index, front, ticker);
      var seen, before := Filter(OfTicker(ticker), front), QuoteOf(index, ticker);
      IndexIsCurrent(index, front, ticker);
      FilterSnoc(OfTicker(ticker), front, row);
      KeptOne(index, front, row, ticker);
      CollapseSnoc(before, seen, row);
      assert seen + [] == seen && Collapse(before, seen) + [] == Collapse(before, seen);
    }
  }

  /** Consecutive rows of a collapsed stream differ, the first one from what was there before. */
  lemma {:induction false} CollapseAlternates(before: Option<Quote>, rows: seq<Row>)
    ensures var c := Collapse(before, rows);
            (forall k :: 1 <= k < |c| ==> c[k].quote != c[k - 1].quote)
            && (c != [] ==> before != Some(c[0].quote))
            && LastQuote(before, c) == LastQuote(before, rows)
  {
    if rows != [] {
      CollapseAlternates(before, rows[..|rows| - 1]);
    }
  }

  /** Nothing is lost: every observed row is represented by a row of its ticker with its quote. */
  lemma {:induction false} EveryQuoteIsStored(before: Option<Quote>, rows: seq<Row>, row: Row)
    requires row in rows
    ensures before == Some(row.quote) || HasQuote(Collapse(before, rows), row.quote)
  {
    var front, last := rows[..|rows| - 1], rows[|rows| - 1];
    assert rows == front + [last];
    CollapseSnoc(before, front, last);
    CollapseKeeps(before, front, last, row.quote);
    hide Collapse, HasQuote;
    if row in front {
      EveryQuoteIsStored(before, front, row);
    } else if front != [] && LastQuote(before, front) == Some(row.quote) {
      EveryQuoteIsStored(before, front, front[|front| - 1]);
    }
  }

  ghost predicate HasQuote(rows: seq<Row>, quote: Quote) {
    exists r {:trigger r in rows} :: r in rows && r.quote == quote
  }

  lemma CollapseKeeps(before: Option<Quote>, front: seq<Row>, last: Row, quote: Quote)
    ensures HasQuote(Collapse(before, front), quote) ==> HasQuote(Collapse(before, front + [last]), quote)
    ensures LastQuote(before, front) != Some(last.quote) ==> HasQuote(Collapse(before, front + [last]), last.quote)
  {
    CollapseSnoc(before, front, last);
    var kept := Collapse(before, front);
    hide Collapse, LastQuote;
    assert last in kept + [last] && kept + [] == kept;
    if HasQuote(kept, quote) {
      var r :| r in kept && r.quote == quote;
      assert r in kept + [last];
    }
  }
}
