/** Which sessions are short, and the order they are asked for in. */
module Planning {
  import opened Common
  import opened Sequences
  import opened Sorting
  import opened Sessions
  import opened Backfill

  /** What the calendar and the catalog answer; `listed` takes a venue and an inclusive date range. */
  datatype Corpus = Corpus(
    venueOf: Symbol -> Venue,
    listed: (Venue, int, int) -> seq<int>,
    session: (Venue, int) -> Option<TradingSession>,
    held: (Symbol, int) -> nat,
    interval: int
  ) {
    /** The calendar answers with the session it was asked for. */
    ghost predicate Honest() {
      interval > 0 && forall s, d :: SessionOf(s, d).Some? ==> SessionOf(s, d).value.Valid() && SessionOf(s, d).value.date == d
    }

    function Listed(symbol: Symbol, start: int, end: int): seq<int> { listed(venueOf(symbol), start, end) }

    function SessionOf(symbol: Symbol, day: int): Option<TradingSession> { session(venueOf(symbol), day) }

    predicate IsShort(symbol: Symbol, day: int)
      requires interval > 0
    {
      SessionOf(symbol, day).Some? && held(symbol, day) < SessionOf(symbol, day).value.ExpectedBars(interval)
    }
  }

  /** The cell of an instrument-session in the range that holds fewer bars than it should. */
  ghost predicate Missing(universe: seq<Symbol>, c: Corpus, start: int, end: int, cell: Cell)
    requires c.interval > 0
  {
    && cell.symbol in universe && cell.Date() in c.Listed(cell.symbol, start, end)
    && c.IsShort(cell.symbol, cell.Date())
    && cell == Cell(cell.symbol, c.SessionOf(cell.symbol, cell.Date()).value, c.interval, c.held(cell.symbol, cell.Date()))
  }

  /** The calendar lists a session of some instrument's venue and then denies it. */
  ghost predicate Contradicts(universe: seq<Symbol>, c: Corpus, start: int, end: int) {
    exists s, d :: s in universe && d in c.Listed(s, start, end) && c.SessionOf(s, d) == None
  }

  /** The calendar answers for one of the sessions to be filled with a session of another venue. */
  ghost predicate Misfiles(universe: seq<Symbol>, c: Corpus, start: int, end: int)
    requires c.interval > 0
  {
    exists cell :: Missing(universe, c, start, end, cell) && cell.session.venue != c.venueOf(cell.symbol)
  }

  /** Newer dates first; on one date in the universe's order. */
  ghost predicate Ahead(universe: seq<Symbol>, a: Cell, b: Cell) {
    a.Date() > b.Date() || (a.Date() == b.Date() && SeenBefore(universe, a.symbol, b.symbol))
  }

  /** The plan is exactly the missing sessions, recency-major. */
  ghost predicate IsPlan(universe: seq<Symbol>, c: Corpus, start: int, end: int, cells: seq<Cell>)
    requires c.interval > 0
  {
    && (forall cell :: cell in cells <==> Missing(universe, c, start, end, cell))
    && (forall i, j :: 0 <= i < j < |cells| ==> Ahead(universe, cells[i], cells[j]))
  }

  /** Held counts of the sessions each instrument is short on. */
  type Pending = map<(Symbol, int), nat>

  ghost predicate PendingUpto(universe: seq<Symbol>, c: Corpus, start: int, end: int, pending: Pending)
    requires c.interval > 0
  {
    forall s, d :: (s, d) in pending <==> s in universe && d in c.Listed(s, start, end) && c.IsShort(s, d)
  }

  ghost predicate Counted(c: Corpus, pending: Pending, days: seq<int>) {
    && Distinct(days)
    && (forall key :: key in pending ==> pending[key] == c.held(key.0, key.1) && key.1 in days)
    && (forall d :: d in days ==> exists s :: (s, d) in pending)
  }

  /** The sessions one instrument is short on are added to what is pending. */
  method AddShortfalls(c: Corpus, start: int, end: int, symbol: Symbol, pending: Pending, days: seq<int>)
    returns (r: Result<(Pending, seq<int>)>)
    requires c.interval > 0 && Counted(c, pending, days)
    ensures r.Err? <==> exists d :: d in c.Listed(symbol, start, end) && c.SessionOf(symbol, d) == None
    ensures r.Ok? ==> Counted(c, r.value.0, r.value.1) && forall key :: key in r.value.0 <==>
              key in pending || (key.0 == symbol && key.1 in c.Listed(symbol, start, end) && c.IsShort(symbol, key.1))
  {
    var listed := c.Listed(symbol, start, end);
    var more: Pending, seen: seq<int> := pending, days;
    for k := 0 to |listed|
      invariant Counted(c, more, seen)
      invariant forall key :: key in more <==>
                  key in pending || (key.0 == symbol && key.1 in listed[..k] && c.IsShort(symbol, key.1))
      invariant forall d :: d in listed[..k] ==> c.SessionOf(symbol, d).Some?
    {
      var day := listed[k];
      assert listed[..k + 1] == listed[..k] + [day];
      match c.SessionOf(symbol, day) {
        case None =>
          assert day in listed;
          return Err("calendar listed a session then reported it closed");
        case Some(session) =>
          if c.held(symbol, day) < session.ExpectedBars(c.interval) {
            CountOne(c, more, seen, symbol, day);
            var held: nat := c.held(symbol, day);
            more := more[(symbol, day) := held];
            seen := AddNew(seen, day);
          }
      }
    }
    assert listed[..|listed|] == listed;
    r := Ok((more, seen));
  }

  lemma CountOne(c: Corpus, pending: Pending, days: seq<int>, symbol: Symbol, day: int)
    requires Counted(c, pending, days)
    ensures Counted(c, pending[(symbol, day) := c.held(symbol, day)], AddNew(days, day))
  {
    AddNewKeepsDistinct(days, day);
    var after := pending[(symbol, day) := c.held(symbol, day)];
    forall d | d in AddNew(days, day) ensures exists s :: (s, d) in after {
      if d == day {
        assert (symbol, d) in after;
      } else {
        var s :| (s, d) in pending;
        assert (s, d) in after;
      }
    }
  }

  method PlanBackfill(universe: seq<Symbol>, c: Corpus, start: int, end: int) returns (r: Result<seq<Cell>>)
    requires c.Honest() && Distinct(universe)
    ensures r.Err? <==> end < start || Contradicts(universe, c, start, end) || Misfiles(universe, c, start, end)
    ensures r.Ok? ==> IsPlan(universe, c, start, end, r.value)
  {
    if end < start { return Err("backfill range must move forwards"); }
    var pending: Pending, days: seq<int> := map[], [];
    for k := 0 to |universe|
      invariant Counted(c, pending, days) && PendingUpto(universe[..k], c, start, end, pending)
      invariant !Contradicts(universe[..k], c, start, end)
    {
      assert universe[..k + 1] == universe[..k] + [universe[k]];
      var added := AddShortfalls(c, start, end, universe[k], pending, days);
      if added.Err? {
        assert universe[k] in universe;
        return Err(added.error);
      }
      pending, days := added.value.0, added.value.1;
    }
    assert universe[..|universe|] == universe;
    r := EmitCells(universe, c, start, end, pending, days);
  }

  /** The cells written so far: those of every newer date, and on the date in hand those of the
      instruments already passed. */
  ghost predicate Emitted(universe: seq<Symbol>, c: Corpus, start: int, end: int, cells: seq<Cell>,
                          newer: seq<int>, day: int, passed: seq<Symbol>)
    requires c.interval > 0
  {
    && (forall cell :: cell in cells <==> Missing(universe, c, start, end, cell) &&
                                          (cell.Date() in newer || (cell.Date() == day && cell.symbol in passed)))
    && (forall i, j :: 0 <= i < j < |cells| ==> Ahead(universe, cells[i], cells[j]))
  }

  method EmitCells(universe: seq<Symbol>, c: Corpus, start: int, end: int, pending: Pending, days: seq<int>)
    returns (r: Result<seq<Cell>>)
    requires c.Honest() && Distinct(universe) && Counted(c, pending, days) && PendingUpto(universe, c, start, end, pending)
    ensures r.Err? <==> Misfiles(universe, c, start, end)
    ensures r.Ok? ==> IsPlan(universe, c, start, end, r.value)
  {
    var cells := [];
    var order := Sort(days, Newest());
    NewestDescends(days);
    hide Sort, Missing;
    for a := 0 to |order|
      invariant Emitted(universe, c, start, end, cells, order[..a], 0, [])
      invariant WellFiled(c, cells)
    {
      EmitStarts(universe, c, start, end, cells, order[..a], order[a]);
      for b := 0 to |universe|
        invariant Emitted(universe, c, start, end, cells, order[..a], order[a], universe[..b])
        invariant WellFiled(c, cells)
      {
        var symbol, day := universe[b], order[a];
        if (symbol, day) !in pending {
          EmitSkips(universe, c, start, end, cells, order[..a], day, b);
          continue;
        }
        EmitGrows(universe, c, start, end, cells, order[..a], day, b);
        var cell := Cell(symbol, c.SessionOf(symbol, day).value, c.interval, pending[(symbol, day)]);
        if cell.session.venue != c.venueOf(symbol) {
          assert cell in cells + [cell];
          return Err("the symbol is not listed on the session's venue");
        }
        cells := cells + [cell];
      }
      EmitEnds(universe, c, start, end, cells, order[..a], order[a]);
      assert order[..a + 1] == order[..a] + [order[a]];
    }
    EmitIsPlan(universe, c, start, end, pending, days, cells, order);
    assert order[..|order|] == order;
    r := Ok(cells);
  }

  /** What the cell's own check demands: its session is one of its venue. */
  ghost predicate WellFiled(c: Corpus, cells: seq<Cell>) {
    forall k :: 0 <= k < |cells| ==> cells[k].session.venue == c.venueOf(cells[k].symbol)
  }

  lemma EmitStarts(universe: seq<Symbol>, c: Corpus, start: int, end: int, cells: seq<Cell>, newer: seq<int>, day: int)
    requires c.interval > 0 && Emitted(universe, c, start, end, cells, newer, 0, [])
    ensures Emitted(universe, c, start, end, cells, newer, day, [])
  {
    hide Missing, Ahead;
  }

  lemma EmitSkips(universe: seq<Symbol>, c: Corpus, start: int, end: int, cells: seq<Cell>, newer: seq<int>,
                  day: int, b: nat)
    requires c.interval > 0 && b < |universe| && Emitted(universe, c, start, end, cells, newer, day, universe[..b])
    requires !(day in c.Listed(universe[b], start, end) && c.IsShort(universe[b], day))
    ensures Emitted(universe, c, start, end, cells, newer, day, universe[..b + 1])
  {
    assert universe[..b + 1] == universe[..b] + [universe[b]];
    assert forall cell :: Missing(universe, c, start, end, cell) ==> !(cell.symbol == universe[b] && cell.Date() == day);
    hide Missing, Ahead;
  }

  lemma EmitGrows(universe: seq<Symbol>, c: Corpus, start: int, end: int, cells: seq<Cell>, newer: seq<int>,
                  day: int, b: nat)
    requires c.Honest() && b < |universe| && Emitted(universe, c, start, end, cells, newer, day, universe[..b])
    requires day in c.Listed(universe[b], start, end) && c.IsShort(universe[b], day)
    requires forall d :: d in newer ==> d > day
    ensures var cell := Cell(universe[b], c.SessionOf(universe[b], day).value, c.interval, c.held(universe[b], day));
            Emitted(universe, c, start, end, cells + [cell], newer, day, universe[..b + 1])
  {
    var last := Cell(universe[b], c.SessionOf(universe[b], day).value, c.interval, c.held(universe[b], day));
    assert universe[..b + 1] == universe[..b] + [universe[b]];
    assert last.Date() == day;
    assert last.symbol in universe;
    assert Missing(universe, c, start, end, last);
    assert last.Date() == day && Missing(universe, c, start, end, last);
    assert forall cell ::
        Missing(universe, c, start, end, cell) && cell.symbol == universe[b] && cell.Date() == day ==> cell == last;
    hide Missing;
    forall i | 0 <= i < |cells| ensures Ahead(universe, cells[i], last) {
      assert cells[i] in cells;
      if cells[i].Date() !in newer {
        var p :| 0 <= p < b && universe[p] == cells[i].symbol;
      }
    }
    hide Ahead;
  }

  lemma EmitEnds(universe: seq<Symbol>, c: Corpus, start: int, end: int, cells: seq<Cell>, newer: seq<int>, day: int)
    requires c.interval > 0 && Emitted(universe, c, start, end, cells, newer, day, universe[..|universe|])
    ensures Emitted(universe, c, start, end, cells, newer + [day], 0, [])
  {
    assert universe[..|universe|] == universe;
    assert forall cell :: Missing(universe, c, start, end, cell) ==> cell.symbol in universe;
    hide Missing, Ahead;
  }

  lemma EmitIsPlan(universe: seq<Symbol>, c: Corpus, start: int, end: int, pending: Pending, days: seq<int>,
                   cells: seq<Cell>, order: seq<int>)
    requires c.interval > 0 && Counted(c, pending, days) && PendingUpto(universe, c, start, end, pending)
    requires forall d :: d in order <==> d in days
    requires Emitted(universe, c, start, end, cells, order, 0, [])
    ensures IsPlan(universe, c, start, end, cells)
  {
    forall cell | Missing(universe, c, start, end, cell) ensures cell.Date() in order {
      assert (cell.symbol, cell.Date()) in pending;
    }
    hide Missing, Ahead;
  }

  // ---- From the plan to the requests ----

  lemma PlanHasDistinctKeys(universe: seq<Symbol>, c: Corpus, start: int, end: int, cells: seq<Cell>)
    requires c.interval > 0 && Distinct(universe) && IsPlan(universe, c, start, end, cells)
    ensures forall i, j :: 0 <= i < j < |cells| ==> cells[i].Key() != cells[j].Key()
  {
    hide Missing;
    forall i, j | 0 <= i < j < |cells| ensures cells[i].Key() != cells[j].Key() {
      assert Ahead(universe, cells[i], cells[j]);
      if cells[i].Date() == cells[j].Date() { SeenBeforeIsStrict(universe, cells[i].symbol, cells[j].symbol); }
    }
  }

  lemma PlanHasOneInterval(universe: seq<Symbol>, c: Corpus, start: int, end: int, cells: seq<Cell>)
    requires c.interval > 0 && IsPlan(universe, c, start, end, cells)
    ensures OneInterval(cells)
  {
    forall k | 0 <= k < |cells| ensures cells[k].interval == c.interval {
      assert Missing(universe, c, start, end, cells[k]);
    }
  }

  /** The request covers the instrument on the date. */
  ghost predicate Asks(w: Window, key: (Symbol, int)) { exists c :: c in w.cells && c.Key() == key }

  /** Planning and grouping lose nothing: every session the corpus is short on is asked for in
      exactly one request, that holds it as planned. */
  lemma EveryMissingSessionHasOneRequest(universe: seq<Symbol>, c: Corpus, start: int, end: int, cells: seq<Cell>,
                                         windowDays: int, cell: Cell) returns (k: nat)
    requires c.interval > 0 && Distinct(universe) && IsPlan(universe, c, start, end, cells) && windowDays >= 1
    requires Missing(universe, c, start, end, cell)
    ensures Windows(cells, windowDays).Ok? && k < |Windows(cells, windowDays).value|
    ensures cell in Windows(cells, windowDays).value[k].cells
    ensures var windows := Windows(cells, windowDays).value;
            forall l :: 0 <= l < |windows| && Asks(windows[l], cell.Key()) ==> l == k
  {
    PlanHasOneInterval(universe, c, start, end, cells);
    PlanHasDistinctKeys(universe, c, start, end, cells);
    var i :| 0 <= i < |cells| && cells[i] == cell;
    PlanKeepsDistinctCells(cells, i);
    assert Windows(cells, windowDays).Ok?;
    hide Windows, Missing, PlanOf;
    k := EverySessionIsFetched(cells, windowDays, cell.Key());
    forall l | 0 <= l < |Windows(cells, windowDays).value| && Asks(Windows(cells, windowDays).value[l], cell.Key())
      ensures l == k
    {
      var other :| other in Windows(cells, windowDays).value[l].cells && other.Key() == cell.Key();
      SameWindow(cells, windowDays, l, k, other, cell);
    }
  }
}
