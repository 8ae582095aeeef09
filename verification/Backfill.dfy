/** Which sessions are missing, and which requests fetch them. */
module Backfill {
  import opened Common
  import opened Sequences
  import opened Sorting
  import opened Sessions

  /** One missing instrument-session. */
  datatype Cell = Cell(symbol: Symbol, session: TradingSession, interval: int, held: nat) {
    function Date(): int { session.date }
    function Key(): (Symbol, int) { (symbol, session.date) }
    predicate IsUntouched() { held == 0 }
  }

  /** What is asked of the vendor at once: neighbouring missing sessions of a single instrument. */
  datatype Window = Window(symbol: Symbol, interval: int, cells: seq<Cell>) {
    /** What the constructor accepts. */
    predicate Valid() {
      && cells != []
      && (forall k :: 0 <= k < |cells| ==> cells[k].symbol == symbol && cells[k].interval == interval)
      && (forall i, j :: 0 <= i < j < |cells| ==> cells[i].Date() < cells[j].Date())
    }

    /** Length in days, counting the first day and the last. */
    function SpanDays(): int
      requires cells != []
    {
      cells[|cells| - 1].Date() - cells[0].Date() + 1
    }

    predicate HasUntouched() { exists k :: 0 <= k < |cells| && cells[k].IsUntouched() }
  }

  // ---- Dictionaries that remember insertion order ----

  function AddNew<T(==)>(s: seq<T>, x: T): seq<T> { if x in s then s else s + [x] }

  lemma AddNewKeepsDistinct<T>(s: seq<T>, x: T)
    requires Distinct(s)
    ensures Distinct(AddNew(s, x)) && forall y :: y in AddNew(s, x) <==> y in s || y == x
  {
  }

  function SymbolsOf(cells: seq<Cell>): seq<Symbol> {
    if cells == [] then [] else AddNew(SymbolsOf(cells[..|cells| - 1]), cells[|cells| - 1].symbol)
  }

  function DaysOf(cells: seq<Cell>): seq<int> {
    if cells == [] then [] else AddNew(DaysOf(cells[..|cells| - 1]), cells[|cells| - 1].Date())
  }

  /** Cells by instrument and date; of two for one session the later stands. */
  type Plan = map<(Symbol, int), Cell>

  function PlanOf(cells: seq<Cell>): Plan {
    if cells == [] then map[]
    else PlanOf(cells[..|cells| - 1])[cells[|cells| - 1].Key() := cells[|cells| - 1]]
  }

  /** Every key is a cell offered under it, and its instrument and date were listed. */
  lemma {:induction false} PlanIsFaithful(cells: seq<Cell>)
    ensures Distinct(SymbolsOf(cells)) && Distinct(DaysOf(cells))
    ensures forall key :: key in PlanOf(cells) ==>
              PlanOf(cells)[key].Key() == key && PlanOf(cells)[key] in cells && key.0 in SymbolsOf(cells)
                  && key.1 in DaysOf(cells)
    ensures forall c :: c in cells ==> c.Key() in PlanOf(cells)
  {
    if cells != [] {
      var front, last := cells[..|cells| - 1], cells[|cells| - 1];
      PlanIsFaithful(front);
      AddNewKeepsDistinct(SymbolsOf(front), last.symbol);
      AddNewKeepsDistinct(DaysOf(front), last.Date());
      assert cells == front + [last];
    }
  }

  /** With at most one cell a session, the plan holds every cell offered. */
  lemma {:induction false} PlanKeepsDistinctCells(cells: seq<Cell>, k: nat)
    requires k < |cells| && forall i, j :: 0 <= i < j < |cells| ==> cells[i].Key() != cells[j].Key()
    ensures cells[k].Key() in PlanOf(cells) && PlanOf(cells)[cells[k].Key()] == cells[k]
  {
    if k < |cells| - 1 { PlanKeepsDistinctCells(cells[..|cells| - 1], k); }
  }

  // ---- Cutting the dates ----

  ghost predicate Descending(days: seq<int>) { forall i, j :: 0 <= i < j < |days| ==> days[i] > days[j] }

  /** Greedy cut, newest first: each span takes older dates for as long as it still fits. */
  function Spans(days: seq<int>, windowDays: int): (spans: seq<seq<int>>)
    ensures forall k :: 0 <= k < |spans| ==> spans[k] != []
    ensures spans == [] <==> days == []
  {
    if days == [] then []
    else
      Step(Spans(days[..|days| - 1], windowDays), days[|days| - 1], windowDays)
  }

  function Step(spans: seq<seq<int>>, day: int, windowDays: int): (r: seq<seq<int>>)
    requires forall k :: 0 <= k < |spans| ==> spans[k] != []
    ensures r != [] && forall k :: 0 <= k < |r| ==> r[k] != []
  {
    if spans != [] && spans[|spans| - 1][0] - day < windowDays then Grown(spans, day) else Started(spans, day)
  }

  function Grown(spans: seq<seq<int>>, day: int): (r: seq<seq<int>>)
    requires spans != []
    ensures |r| == |spans|
  {
    spans[|spans| - 1 := spans[|spans| - 1] + [day]]
  }

  function Started(spans: seq<seq<int>>, day: int): (r: seq<seq<int>>)
    ensures |r| == |spans| + 1
  {
    spans + [[day]]
  }

  /** What the greedy cut achieves. */
  ghost predicate Cut(spans: seq<seq<int>>, windowDays: int) {
    && (forall k :: 0 <= k < |spans| ==> Fits(spans[k], windowDays))
    && (forall k, l :: 0 <= k < l < |spans| ==> Apart(spans[k], spans[l], windowDays))
  }

  ghost predicate Fits(span: seq<int>, windowDays: int) {
    span != [] && Descending(span) && span[0] - span[|span| - 1] < windowDays
  }

  /** Every date of the newer span is later, and the anchors are too far apart for one window. */
  ghost predicate Apart(newer: seq<int>, older: seq<int>, windowDays: int) {
    && newer != [] && older != [] && newer[0] - older[0] >= windowDays
    && forall i, j :: 0 <= i < |newer| && 0 <= j < |older| ==> newer[i] > older[j]
  }

  lemma {:induction false} SpansCut(days: seq<int>, windowDays: int)
    requires Descending(days) && windowDays >= 1
    ensures Concat(Spans(days, windowDays)) == days
    ensures Cut(Spans(days, windowDays), windowDays)
  {
    hide Cut, Step;
    if days == [] {
      NothingCut(windowDays);
    } else {
      var n := |days| - 1;
      SpansCut(days[..n], windowDays);
      SpanStep(Spans(days[..n], windowDays), days[..n], days[n], windowDays);
      assert days == days[..n] + [days[n]];
    }
  }

  lemma NothingCut(windowDays: int)
    ensures Cut([], windowDays) && Concat<int>([]) == []
  {
  }

  lemma SpanStep(front: seq<seq<int>>, days: seq<int>, day: int, windowDays: int)
    requires (forall k :: 0 <= k < |front| ==> front[k] != []) && Concat(front) == days && Cut(front, windowDays)
    requires windowDays >= 1 && forall i :: 0 <= i < |days| ==> days[i] > day
    ensures Concat(Step(front, day, windowDays)) == days + [day] && Cut(Step(front, day, windowDays), windowDays)
  {
    StaysAhead(front, days, day);
    hide Concat, Cut, AllAbove, Grown, Started;
    if front != [] && front[|front| - 1][0] - day < windowDays {
      SpanGrows(front, day, windowDays);
      GrownConcat(front, day);
    } else {
      SpanStarts(front, day, windowDays);
      ConcatPush(front, [day]);
      StartedIs(front, day);
    }
  }

  lemma StartedIs(front: seq<seq<int>>, day: int)
    ensures Started(front, day) == front + [[day]]
  {
  }

  ghost predicate AllAbove(spans: seq<seq<int>>, day: int) {
    forall k, i :: 0 <= k < |spans| && 0 <= i < |spans[k]| ==> spans[k][i] > day
  }

  lemma StaysAhead(spans: seq<seq<int>>, days: seq<int>, day: int)
    requires Concat(spans) == days && forall i :: 0 <= i < |days| ==> days[i] > day
    ensures AllAbove(spans, day)
  {
    forall k, i | 0 <= k < |spans| && 0 <= i < |spans[k]| ensures spans[k][i] > day {
      assert spans[k][i] in spans[k];
      InConcat(spans, spans[k][i]);
    }
  }

  ghost predicate Above(span: seq<int>, day: int) { forall i :: 0 <= i < |span| ==> span[i] > day }

  lemma FitsGrows(span: seq<int>, day: int, windowDays: int)
    requires Fits(span, windowDays) && Above(span, day) && span[0] - day < windowDays
    ensures Fits(span + [day], windowDays)
  {
  }

  lemma ApartGrows(newer: seq<int>, older: seq<int>, day: int, windowDays: int)
    requires Apart(newer, older, windowDays) && Above(newer, day)
    ensures Apart(newer, older + [day], windowDays)
  {
  }

  lemma ApartFromLast(newer: seq<int>, older: seq<int>, day: int, windowDays: int)
    requires older != [] && older[0] - day >= windowDays && Above(newer, day)
    requires newer == older || Apart(newer, older, windowDays)
    ensures Apart(newer, [day], windowDays)
  {
  }

  lemma GrownConcat(front: seq<seq<int>>, day: int)
    requires front != []
    ensures Concat(Grown(front, day)) == Concat(front) + [day]
  {
    var n := |front| - 1;
    ConcatPush(front[..n], front[n] + [day]);
    ConcatPush(front[..n], front[n]);
    assert front == front[..n] + [front[n]];
    assert Grown(front, day) == front[..n] + [front[n] + [day]];
    hide Concat;
  }

  lemma SpanGrows(front: seq<seq<int>>, day: int, windowDays: int)
    requires Cut(front, windowDays) && front != [] && front[|front| - 1] != []
    requires front[|front| - 1][0] - day < windowDays && AllAbove(front, day)
    ensures Cut(Grown(front, day), windowDays)
  {
    var n := |front| - 1;
    assert forall k :: 0 <= k <= n ==> Above(front[k], day);
    hide Above, AllAbove, Fits, Apart;
    FitsGrows(front[n], day, windowDays);
    forall k | 0 <= k < n ensures Apart(front[k], front[n] + [day], windowDays) {
      ApartGrows(front[k], front[n], day, windowDays);
    }
  }

  lemma SpanStarts(front: seq<seq<int>>, day: int, windowDays: int)
    requires Cut(front, windowDays) && (forall k :: 0 <= k < |front| ==> front[k] != []) && windowDays >= 1
    requires (front != [] ==> front[|front| - 1][0] - day >= windowDays) && AllAbove(front, day)
    ensures Cut(Started(front, day), windowDays)
  {
    hide AllAbove, Fits, Apart;
    forall k | 0 <= k < |front| ensures Apart(front[k], [day], windowDays) {
      StartIsApart(front, k, day, windowDays);
    }
    SingleFits(day, windowDays);
  }

  lemma SingleFits(day: int, windowDays: int)
    requires windowDays >= 1
    ensures Fits([day], windowDays)
  {
  }

  lemma StartIsApart(front: seq<seq<int>>, k: nat, day: int, windowDays: int)
    requires Cut(front, windowDays) && (forall l :: 0 <= l < |front| ==> front[l] != []) && k < |front|
    requires front[|front| - 1][0] - day >= windowDays && AllAbove(front, day)
    ensures Apart(front[k], [day], windowDays)
  {
    var n := |front|;
    assert Above(front[k], day);
    assert k < n - 1 ==> Apart(front[k], front[n - 1], windowDays);
    hide AllAbove, Fits, Apart, Cut;
    ApartFromLast(front[k], front[n - 1], day, windowDays);
  }

  /** Any way to fetch the dates in requests of at most `windowDays` calendar days each. */
  ghost predicate Fetches(parts: seq<set<int>>, days: seq<int>, windowDays: int) {
    (forall d :: d in days ==> Requested(parts, d)) && (forall k :: 0 <= k < |parts| ==> Narrow(parts[k], windowDays))
  }

  ghost predicate Requested(parts: seq<set<int>>, d: int) { exists k :: 0 <= k < |parts| && d in parts[k] }

  ghost predicate Narrow(part: set<int>, windowDays: int) { forall a, b :: a in part && b in part ==> a - b < windowDays }

  ghost function PartOf(parts: seq<set<int>>, d: int): (k: nat)
    requires Requested(parts, d)
    ensures k < |parts| && d in parts[k]
  {
    var k: int :| 0 <= k < |parts| && d in parts[k]; k
  }

  /** Anchors pairwise too far apart for one request need a request each. */
  lemma AnchorsNeedRequests(anchors: seq<int>, parts: seq<set<int>>, windowDays: int)
    requires forall k, l :: 0 <= k < l < |anchors| ==> anchors[k] - anchors[l] >= windowDays
    requires forall k :: 0 <= k < |anchors| ==> Requested(parts, anchors[k])
    requires forall p :: 0 <= p < |parts| ==> Narrow(parts[p], windowDays)
    ensures |anchors| <= |parts|
  {
    var homes := seq(|anchors|, k requires 0 <= k < |anchors| => PartOf(parts, anchors[k]));
    forall k, l | 0 <= k < l < |homes| ensures homes[k] != homes[l] {
      assert anchors[k] in parts[homes[k]] && anchors[l] in parts[homes[l]];
      assert Narrow(parts[homes[k]], windowDays);
    }
    Pigeonhole(homes, |parts|);
  }

  /** The greedy cut is minimal: no way of covering the dates uses fewer requests. */
  lemma SpansAreFewest(days: seq<int>, windowDays: int, parts: seq<set<int>>)
    requires Descending(days) && windowDays >= 1 && Fetches(parts, days, windowDays)
    ensures |Spans(days, windowDays)| <= |parts|
  {
    var anchors := OwnAnchors(days, windowDays);
    hide Spans;
    AnchorsNeedRequests(anchors, parts, windowDays);
  }

  /** The cut itself is one way of fetching the dates. */
  lemma SpansFetch(days: seq<int>, windowDays: int)
    requires Descending(days) && windowDays >= 1
    ensures var spans := Spans(days, windowDays);
            Fetches(seq(|spans|, k requires 0 <= k < |spans| => set d | d in spans[k]), days, windowDays)
  {
    var spans := Spans(days, windowDays);
    SpansCut(days, windowDays);
    hide Spans, Concat;
    var parts := seq(|spans|, k requires 0 <= k < |spans| => set d | d in spans[k]);
    forall d | d in days ensures Requested(parts, d) {
      InConcat(spans, d);
      var k :| 0 <= k < |spans| && d in spans[k];
      assert d in parts[k];
    }
    forall k | 0 <= k < |parts| ensures Narrow(parts[k], windowDays) {
      assert Fits(spans[k], windowDays);
      forall a, b | a in parts[k] && b in parts[k] ensures a - b < windowDays {
        InSpan(spans[k], a);
        InSpan(spans[k], b);
      }
    }
  }

  lemma InSpan(span: seq<int>, d: int)
    requires Descending(span) && d in span
    ensures span[|span| - 1] <= d <= span[0]
  {
    var i :| 0 <= i < |span| && span[i] == d;
    assert i > 0 ==> span[0] > span[i];
    assert i < |span| - 1 ==> span[i] > span[|span| - 1];
  }

  // ---- Windows ----

  function Newest(): (int, int) -> bool { (a: int, b: int) => a >= b }

  /** The symbol's missing sessions in a span, oldest first. */
  function Covered(plan: Plan, symbol: Symbol, span: seq<int>): seq<Cell> {
    if span == [] then []
    else (if (symbol, span[|span| - 1]) in plan then [plan[(symbol, span[|span| - 1])]] else []) +
         Covered(plan, symbol, span[..|span| - 1])
  }

  function Row(plan: Plan, symbols: seq<Symbol>, interval: int, span: seq<int>): seq<Window> {
    if symbols == [] then []
    else
      var symbol := symbols[|symbols| - 1];
      Row(plan, symbols[..|symbols| - 1], interval, span) +
      (var covered := Covered(plan, symbol, span); if covered == [] then [] else [Window(symbol, interval, covered)])
  }

  function Rows(plan: Plan, symbols: seq<Symbol>, interval: int, spans: seq<seq<int>>): (r: seq<seq<Window>>)
    ensures |r| == |spans| && forall k :: 0 <= k < |r| ==> r[k] == Row(plan, symbols, interval, spans[k])
  {
    seq(|spans|, k requires 0 <= k < |spans| => Row(plan, symbols, interval, spans[k]))
  }

  function DateSpans(cells: seq<Cell>, windowDays: int): seq<seq<int>> {
    Spans(Sort(DaysOf(cells), Newest()), windowDays)
  }

  predicate OneInterval(cells: seq<Cell>) { forall k :: 0 <= k < |cells| ==> cells[k].interval == cells[0].interval }

  function Windows(cells: seq<Cell>, windowDays: int): Result<seq<Window>> {
    if windowDays < 1 then Err("window_days must be at least 1")
    else if !OneInterval(cells) then Err("one plan, one bar size")
    else if cells == [] then Ok([])
    else Ok(Concat(Rows(PlanOf(cells), SymbolsOf(cells), cells[0].interval, DateSpans(cells, windowDays))))
  }

  method PlanWindows(cells: seq<Cell>, windowDays: int) returns (r: Result<seq<Window>>)
    ensures r == Windows(cells, windowDays)
  {
    hide Covered, Concat;
    if windowDays < 1 { return Err("window_days must be at least 1"); }
    var plan: Plan, symbols: seq<Symbol>, days: seq<int>, interval: Option<int> := map[], [], [], None;
    for k := 0 to |cells|
      invariant plan == PlanOf(cells[..k]) && symbols == SymbolsOf(cells[..k]) && days == DaysOf(cells[..k])
      invariant interval == if k == 0 then None else Some(cells[0].interval)
      invariant forall i :: 0 <= i < k ==> cells[i].interval == cells[0].interval
    {
      assert cells[..k + 1][..k] == cells[..k];
      if interval == None {
        interval := Some(cells[k].interval);
      } else if cells[k].interval != interval.value {
        return Err("one plan, one bar size");
      }
      plan := plan[cells[k].Key() := cells[k]];
      symbols := AddNew(symbols, cells[k].symbol);
      days := AddNew(days, cells[k].Date());
    }
    assert cells[..|cells|] == cells;
    if interval == None { return Ok([]); }
    var spans := CutDates(Sort(days, Newest()), windowDays);
    var windows: seq<Window> := [];
    var rows := Rows(plan, symbols, interval.value, spans);
    assert rows[..0] == [];
    assert Concat(rows[..0]) == [] by { assert Concat<Window>([]) == [] by { ConcatOfNone<Window>(); } }
    for k := 0 to |spans|
      invariant windows == Concat(rows[..k])
    {
      var row := WindowsOfSpan(plan, symbols, interval.value, spans[k]);
      windows := windows + row;
      assert rows[..k + 1] == rows[..k] + [rows[k]];
      ConcatPush(rows[..k], rows[k]);
    }
    assert rows[..|spans|] == rows;
    r := Ok(windows);
  }

  lemma ConcatOfNone<T>()
    ensures Concat<T>([]) == []
  {
  }

  method CutDates(days: seq<int>, windowDays: int) returns (spans: seq<seq<int>>)
    ensures spans == Spans(days, windowDays)
  {
    hide Grown, Started;
    spans := [];
    for k := 0 to |days|
      invariant spans == Spans(days[..k], windowDays)
    {
      assert days[..k + 1][..k] == days[..k];
      if spans != [] && spans[|spans| - 1][0] - days[k] < windowDays {
        spans := Grown(spans, days[k]);
      } else {
        spans := Started(spans, days[k]);
      }
    }
    assert days[..|days|] == days;
  }

  method WindowsOfSpan(plan: Plan, symbols: seq<Symbol>, interval: int, span: seq<int>) returns (row: seq<Window>)
    ensures row == Row(plan, symbols, interval, span)
  {
    hide Covered;
    row := [];
    for k := 0 to |symbols|
      invariant row == Row(plan, symbols[..k], interval, span)
    {
      assert symbols[..k + 1][..k] == symbols[..k];
      var covered := Covered(plan, symbols[k], span);
      if covered != [] { row := row + [Window(symbols[k], interval, covered)]; }
    }
    assert symbols[..|symbols|] == symbols;
  }

  // ---- What the windows hold ----

  ghost predicate Sound(plan: Plan, interval: int) {
    forall key :: key in plan ==> plan[key].Key() == key && plan[key].interval == interval
  }

  /** c is the missing session of its symbol and date, and the date lies in the span. */
  ghost predicate Belongs(plan: Plan, symbol: Symbol, span: seq<int>, c: Cell) {
    c.symbol == symbol && c.Date() in span && c.Key() in plan && plan[c.Key()] == c
  }

  lemma {:induction false} CoveredBelongs(plan: Plan, interval: int, symbol: Symbol, span: seq<int>)
    requires Sound(plan, interval)
    ensures forall c :: c in Covered(plan, symbol, span) <==> Belongs(plan, symbol, span, c)
  {
    if span != [] {
      var n := |span| - 1;
      CoveredBelongs(plan, interval, symbol, span[..n]);
      assert span == span[..n] + [span[n]];
    }
  }

  lemma {:induction false} CoveredAscends(plan: Plan, interval: int, symbol: Symbol, span: seq<int>)
    requires Sound(plan, interval) && Descending(span)
    ensures forall i, j :: 0 <= i < j < |Covered(plan, symbol, span)| ==>
              Covered(plan, symbol, span)[i].Date() < Covered(plan, symbol, span)[j].Date()
  {
    if span != [] {
      var n := |span| - 1;
      CoveredAscends(plan, interval, symbol, span[..n]);
      CoveredBelongs(plan, interval, symbol, span[..n]);
      var rest := Covered(plan, symbol, span[..n]);
      forall i | 0 <= i < |rest| ensures rest[i].Date() > span[n] { assert Belongs(plan, symbol, span[..n], rest[i]); }
    }
  }

  lemma CoveredIsExact(plan: Plan, interval: int, symbol: Symbol, span: seq<int>)
    requires Sound(plan, interval) && Descending(span)
    ensures forall c :: c in Covered(plan, symbol, span) <==> Belongs(plan, symbol, span, c)
    ensures forall i, j :: 0 <= i < j < |Covered(plan, symbol, span)| ==>
              Covered(plan, symbol, span)[i].Date() < Covered(plan, symbol, span)[j].Date()
  {
    hide Covered, Belongs;
    CoveredBelongs(plan, interval, symbol, span);
    CoveredAscends(plan, interval, symbol, span);
  }

  /** The instrument was first seen earlier in the plan. */
  ghost predicate SeenBefore(symbols: seq<Symbol>, a: Symbol, b: Symbol) {
    exists p, q :: 0 <= p < q < |symbols| && symbols[p] == a && symbols[q] == b
  }

  ghost predicate RowWindow(plan: Plan, symbols: seq<Symbol>, interval: int, span: seq<int>, w: Window) {
    w.interval == interval && w.symbol in symbols && w.cells == Covered(plan, w.symbol, span) && w.cells != []
  }

  lemma {:induction false} RowIsExact(plan: Plan, symbols: seq<Symbol>, interval: int, span: seq<int>)
    ensures forall w :: w in Row(plan, symbols, interval, span) <==> RowWindow(plan, symbols, interval, span, w)
    ensures forall i, j :: 0 <= i < j < |Row(plan, symbols, interval, span)| ==>
              SeenBefore(symbols, Row(plan, symbols, interval, span)[i].symbol, Row(plan, symbols, interval, span)[j].symbol)
  {
    hide Covered;
    if symbols != [] {
      var n := |symbols| - 1;
      var front, row := Row(plan, symbols[..n], interval, span), Row(plan, symbols, interval, span);
      RowIsExact(plan, symbols[..n], interval, span);
      assert symbols == symbols[..n] + [symbols[n]];
      forall i, j | 0 <= i < j < |row| ensures SeenBefore(symbols, row[i].symbol, row[j].symbol) {
        assert row[i] == front[i];
        if j == |front| {
          assert front[i] in front;
          var p :| 0 <= p < n && symbols[p] == row[i].symbol;
        } else {
          assert SeenBefore(symbols[..n], front[i].symbol, front[j].symbol);
        }
      }
    }
  }

  lemma SeenBeforeIsStrict(symbols: seq<Symbol>, a: Symbol, b: Symbol)
    requires Distinct(symbols) && SeenBefore(symbols, a, b)
    ensures a != b
  {
  }

  lemma {:induction false} PlanIsSound(cells: seq<Cell>)
    requires cells != [] && OneInterval(cells)
    ensures Sound(PlanOf(cells), cells[0].interval)
  {
    PlanIsFaithful(cells);
    forall key | key in PlanOf(cells) ensures PlanOf(cells)[key].interval == cells[0].interval {
      var k :| 0 <= k < |cells| && cells[k] == PlanOf(cells)[key];
    }
  }

  lemma NewestDescends(days: seq<int>)
    requires Distinct(days)
    ensures Descending(Sort(days, Newest())) && forall d :: d in Sort(days, Newest()) <==> d in days
  {
    var sorted := Sort(days, Newest());
    SortIsSort(days, Newest());
    DistinctOnce(days);
    DistinctOnce(sorted);
    hide Sort;
    forall i, j | 0 <= i < j < |sorted| ensures sorted[i] > sorted[j] { assert Newest()(sorted[i], sorted[j]); }
    forall d ensures d in sorted <==> d in days { assert d in multiset(sorted) <==> d in multiset(days); }
  }

  lemma DatesDescend(cells: seq<Cell>)
    ensures Descending(Sort(DaysOf(cells), Newest()))
    ensures forall d :: d in Sort(DaysOf(cells), Newest()) <==> d in DaysOf(cells)
  {
    PlanIsFaithful(cells);
    NewestDescends(DaysOf(cells));
  }

  /** The cut behind a plan's windows. */
  lemma DateSpansCut(cells: seq<Cell>, windowDays: int)
    requires windowDays >= 1
    ensures Cut(DateSpans(cells, windowDays), windowDays)
    ensures forall d :: d in Concat(DateSpans(cells, windowDays)) <==> d in DaysOf(cells)
  {
    DatesDescend(cells);
    SpansCut(Sort(DaysOf(cells), Newest()), windowDays);
  }

  /** Window k is the x-th of span a. */
  ghost predicate Placed(cells: seq<Cell>, windowDays: int, k: nat, a: nat, x: nat) {
    var windows, spans := Windows(cells, windowDays), DateSpans(cells, windowDays);
    && windows.Ok? && cells != [] && k < |windows.value| && a < |spans|
    && var rows := Rows(PlanOf(cells), SymbolsOf(cells), cells[0].interval, spans);
    && x < |rows[a]| && windows.value[k] == rows[a][x] && k == |Concat(rows[..a])| + x
  }

  lemma Place(cells: seq<Cell>, windowDays: int, k: nat) returns (a: nat, x: nat)
    requires Windows(cells, windowDays).Ok? && k < |Windows(cells, windowDays).value|
    ensures Placed(cells, windowDays, k, a, x)
  {
    hide DateSpans, Row, PlanOf, SymbolsOf;
    var spans := DateSpans(cells, windowDays);
    a, x := ConcatAt(Rows(PlanOf(cells), SymbolsOf(cells), cells[0].interval, spans), k);
  }

  /** What is known of a placed window: the constructor accepts it, and it is the whole of its
      symbol's missing sessions in that span. */
  lemma PlacedIsValid(cells: seq<Cell>, windowDays: int, k: nat, a: nat, x: nat)
    requires Placed(cells, windowDays, k, a, x)
    ensures var w := Windows(cells, windowDays).value[k];
            && w.Valid() && w.SpanDays() <= windowDays
            && w.cells == Covered(PlanOf(cells), w.symbol, DateSpans(cells, windowDays)[a])
            && forall c :: c in w.cells <==> Belongs(PlanOf(cells), w.symbol, DateSpans(cells, windowDays)[a], c)
  {
    var spans, plan, symbols := DateSpans(cells, windowDays), PlanOf(cells), SymbolsOf(cells);
    var w := Windows(cells, windowDays).value[k];
    DateSpansCut(cells, windowDays);
    PlanIsSound(cells);
    RowIsExact(plan, symbols, cells[0].interval, spans[a]);
    assert w in Row(plan, symbols, cells[0].interval, spans[a]);
    assert Fits(spans[a], windowDays);
    hide DateSpans, Row, PlanOf, SymbolsOf, Windows, Covered, Concat;
    CoveredIsExact(plan, cells[0].interval, w.symbol, spans[a]);
    WindowFits(plan, cells[0].interval, spans[a], windowDays, w);
  }

  lemma WindowFits(plan: Plan, interval: int, span: seq<int>, windowDays: int, w: Window)
    requires Sound(plan, interval) && Fits(span, windowDays) && w.interval == interval && w.cells != []
    requires forall c :: c in w.cells ==> Belongs(plan, w.symbol, span, c)
    requires forall i, j :: 0 <= i < j < |w.cells| ==> w.cells[i].Date() < w.cells[j].Date()
    ensures w.Valid() && w.SpanDays() <= windowDays
  {
    assert forall k :: 0 <= k < |w.cells| ==> w.cells[k] in w.cells;
    InSpan(span, w.cells[0].Date());
    InSpan(span, w.cells[|w.cells| - 1].Date());
  }

  /** Every window is one the feed can answer: accepted by its constructor and short enough. */
  lemma WindowsAreFetchable(cells: seq<Cell>, windowDays: int, k: nat)
    requires Windows(cells, windowDays).Ok? && k < |Windows(cells, windowDays).value|
    ensures Windows(cells, windowDays).value[k].Valid()
    ensures Windows(cells, windowDays).value[k].SpanDays() <= windowDays
    ensures forall c :: c in Windows(cells, windowDays).value[k].cells ==> c in cells
  {
    hide Windows;
    var a, x := Place(cells, windowDays, k);
    PlacedIsValid(cells, windowDays, k, a, x);
    PlanIsFaithful(cells);
    var w := Windows(cells, windowDays).value[k];
    forall c | c in w.cells ensures c in cells {
      assert Belongs(PlanOf(cells), w.symbol, DateSpans(cells, windowDays)[a], c);
      assert PlanOf(cells)[c.Key()] == c;
    }
  }

  // ---- Each session once ----

  lemma SpansAreDisjoint(cells: seq<Cell>, windowDays: int, a: nat, b: nat, d: int)
    requires windowDays >= 1 && a < |DateSpans(cells, windowDays)| && b < |DateSpans(cells, windowDays)|
    requires d in DateSpans(cells, windowDays)[a] && d in DateSpans(cells, windowDays)[b]
    ensures a == b
  {
    DateSpansCut(cells, windowDays);
    hide DateSpans, Concat;
    var spans := DateSpans(cells, windowDays);
    PartIsUnique(spans, windowDays, a, b, d);
  }

  lemma PartIsUnique(spans: seq<seq<int>>, windowDays: int, a: nat, b: nat, d: int)
    requires Cut(spans, windowDays) && a < |spans| && b < |spans| && d in spans[a] && d in spans[b]
    ensures a == b
  {
    hide Fits;
    assert a < b ==> Apart(spans[a], spans[b], windowDays);
    assert b < a ==> Apart(spans[b], spans[a], windowDays);
  }

  /** Two windows that cover the same instrument on the same date are the same window. */
  lemma SameWindow(cells: seq<Cell>, windowDays: int, k: nat, l: nat, c: Cell, d: Cell)
    requires Windows(cells, windowDays).Ok?
    requires k < |Windows(cells, windowDays).value| && l < |Windows(cells, windowDays).value|
    requires c in Windows(cells, windowDays).value[k].cells && d in Windows(cells, windowDays).value[l].cells
    requires c.Key() == d.Key()
    ensures k == l && c == d
  {
    var a, x := Place(cells, windowDays, k);
    var b, y := Place(cells, windowDays, l);
    PlacedIsValid(cells, windowDays, k, a, x);
    PlacedIsValid(cells, windowDays, l, b, y);
    SpansAreDisjoint(cells, windowDays, a, b, c.Date());
    SameRowSlot(cells, windowDays, k, l, a, x, y);
  }

  lemma SlotsDiffer(symbols: seq<Symbol>, row: seq<Window>)
    requires Distinct(symbols)
    requires forall i, j :: 0 <= i < j < |row| ==> SeenBefore(symbols, row[i].symbol, row[j].symbol)
    ensures forall i, j :: 0 <= i < j < |row| ==> row[i].symbol != row[j].symbol
  {
    forall i, j | 0 <= i < j < |row| ensures row[i].symbol != row[j].symbol {
      SeenBeforeIsStrict(symbols, row[i].symbol, row[j].symbol);
    }
  }

  lemma SameRowSlot(cells: seq<Cell>, windowDays: int, k: nat, l: nat, a: nat, x: nat, y: nat)
    requires Placed(cells, windowDays, k, a, x) && Placed(cells, windowDays, l, a, y)
    requires Windows(cells, windowDays).value[k].symbol == Windows(cells, windowDays).value[l].symbol
    ensures k == l
  {
    var plan, symbols, span := PlanOf(cells), SymbolsOf(cells), DateSpans(cells, windowDays)[a];
    PlanIsFaithful(cells);
    RowIsExact(plan, symbols, cells[0].interval, span);
    hide DateSpans, Row, PlanOf, SymbolsOf, Windows, Concat;
    var row := Row(plan, symbols, cells[0].interval, span);
    SlotsDiffer(symbols, row);
  }

  lemma SpanOf(cells: seq<Cell>, windowDays: int, d: int) returns (a: nat)
    requires windowDays >= 1 && d in DaysOf(cells)
    ensures a < |DateSpans(cells, windowDays)| && d in DateSpans(cells, windowDays)[a]
    ensures Descending(DateSpans(cells, windowDays)[a])
  {
    var spans := DateSpans(cells, windowDays);
    DateSpansCut(cells, windowDays);
    hide DateSpans, Concat, DaysOf;
    InConcat(spans, d);
    a :| 0 <= a < |spans| && d in spans[a];
    assert Fits(spans[a], windowDays);
  }

  lemma RowHolds(plan: Plan, symbols: seq<Symbol>, interval: int, span: seq<int>, key: (Symbol, int)) returns (w: Window)
    requires Sound(plan, interval) && Descending(span) && key in plan && key.0 in symbols && key.1 in span
    ensures w in Row(plan, symbols, interval, span) && plan[key] in w.cells
  {
    CoveredIsExact(plan, interval, key.0, span);
    hide Covered;
    assert Belongs(plan, key.0, span, plan[key]);
    RowIsExact(plan, symbols, interval, span);
    w := Window(key.0, interval, Covered(plan, key.0, span));
    assert RowWindow(plan, symbols, interval, span, w);
  }

  /** Every missing session is fetched: its cell lies in some window (and by SameWindow in no other). */
  lemma EverySessionIsFetched(cells: seq<Cell>, windowDays: int, key: (Symbol, int)) returns (k: nat)
    requires Windows(cells, windowDays).Ok? && key in PlanOf(cells)
    ensures k < |Windows(cells, windowDays).value|
    ensures PlanOf(cells)[key] in Windows(cells, windowDays).value[k].cells
  {
    var plan, symbols, spans := PlanOf(cells), SymbolsOf(cells), DateSpans(cells, windowDays);
    PlanIsFaithful(cells);
    PlanIsSound(cells);
    var a := SpanOf(cells, windowDays, key.1);
    var rows := Rows(plan, symbols, cells[0].interval, spans);
    assert Windows(cells, windowDays) == Ok(Concat(rows));
    hide DateSpans, PlanOf, SymbolsOf, Windows, Concat, Row, Sound;
    var w := RowHolds(plan, symbols, cells[0].interval, spans[a], key);
    assert w in rows[a];
    InConcat(rows, w);
    k :| 0 <= k < |Concat(rows)| && Concat(rows)[k] == w;
  }

  /** Every date of the first window is later than every date of the second. */
  ghost predicate AllLater(newer: Window, older: Window) {
    forall c, d :: c in newer.cells && d in older.cells ==> c.Date() > d.Date()
  }

  /** Dates that could share a request. */
  ghost predicate Close(a: Window, b: Window, windowDays: int) {
    forall c, d :: c in a.cells && d in b.cells ==> -windowDays < c.Date() - d.Date() < windowDays
  }

  ghost predicate Inside(w: Window, span: seq<int>) { forall c :: c in w.cells ==> c.Date() in span }

  lemma ApartIsLater(newer: Window, older: Window, a: seq<int>, b: seq<int>, windowDays: int)
    requires Apart(a, b, windowDays) && Inside(newer, a) && Inside(older, b)
    ensures AllLater(newer, older)
  {
  }

  lemma SameSpanIsClose(newer: Window, older: Window, span: seq<int>, windowDays: int)
    requires Fits(span, windowDays) && Inside(newer, span) && Inside(older, span)
    ensures Close(newer, older, windowDays)
  {
    forall c, d | c in newer.cells && d in older.cells ensures -windowDays < c.Date() - d.Date() < windowDays {
      InSpan(span, c.Date());
      InSpan(span, d.Date());
    }
  }

  /** Recency first: of two windows the later one holds only older dates, or it belongs to the same
      span and to an instrument the plan named later. */
  lemma NewestSpanFirst(cells: seq<Cell>, windowDays: int, k: nat, l: nat)
    requires Windows(cells, windowDays).Ok? && k < l < |Windows(cells, windowDays).value|
    ensures var newer, older := Windows(cells, windowDays).value[k], Windows(cells, windowDays).value[l];
            || AllLater(newer, older)
            || (SeenBefore(SymbolsOf(cells), newer.symbol, older.symbol) && Close(newer, older, windowDays))
  {
    var newer, older := Windows(cells, windowDays).value[k], Windows(cells, windowDays).value[l];
    var spans := DateSpans(cells, windowDays);
    var a, x := Place(cells, windowDays, k);
    var b, y := Place(cells, windowDays, l);
    PlacedInside(cells, windowDays, k, a, x);
    PlacedInside(cells, windowDays, l, b, y);
    PlacesAscend(cells, windowDays, k, l, a, x, b, y);
    DateSpansCut(cells, windowDays);
    if a < b {
      hide DateSpans, Windows, Concat, Placed;
      assert Apart(spans[a], spans[b], windowDays);
      ApartIsLater(newer, older, spans[a], spans[b], windowDays);
    } else {
      SameRowOrder(cells, windowDays, k, l, a, x, y);
      hide DateSpans, Windows, Concat, Placed;
      assert Fits(spans[a], windowDays);
      SameSpanIsClose(newer, older, spans[a], windowDays);
    }
  }

  lemma PlacedInside(cells: seq<Cell>, windowDays: int, k: nat, a: nat, x: nat)
    requires Placed(cells, windowDays, k, a, x)
    ensures Inside(Windows(cells, windowDays).value[k], DateSpans(cells, windowDays)[a])
  {
    PlacedIsValid(cells, windowDays, k, a, x);
  }

  lemma SameRowOrder(cells: seq<Cell>, windowDays: int, k: nat, l: nat, a: nat, x: nat, y: nat)
    requires Placed(cells, windowDays, k, a, x) && Placed(cells, windowDays, l, a, y) && x < y
    ensures SeenBefore(SymbolsOf(cells), Windows(cells, windowDays).value[k].symbol, Windows(cells, windowDays).value[l].symbol)
  {
    RowIsExact(PlanOf(cells), SymbolsOf(cells), cells[0].interval, DateSpans(cells, windowDays)[a]);
    hide DateSpans, Row, PlanOf, SymbolsOf, Windows, Concat, SeenBefore;
  }

  lemma PlacesAscend(cells: seq<Cell>, windowDays: int, k: nat, l: nat, a: nat, x: nat, b: nat, y: nat)
    requires Placed(cells, windowDays, k, a, x) && Placed(cells, windowDays, l, b, y) && k < l
    ensures a < b || (a == b && x < y)
  {
    var rows := Rows(PlanOf(cells), SymbolsOf(cells), cells[0].interval, DateSpans(cells, windowDays));
    if b < a { ConcatLater(rows, b, a); }
  }

  // ---- How many requests one instrument costs ----

  function IsFor(symbol: Symbol): Window -> bool { (w: Window) => w.symbol == symbol }

  /** The requests made for one instrument. */
  function RequestsFor(windows: seq<Window>, symbol: Symbol): nat { |Select(windows, IsFor(symbol))| }

  /** The spans in which the instrument misses a session. */
  function Touched(plan: Plan, symbol: Symbol, spans: seq<seq<int>>): seq<nat> {
    if spans == [] then []
    else
      var n := |spans| - 1;
      Touched(plan, symbol, spans[..n]) + (if Covered(plan, symbol, spans[n]) != [] then [n] else [])
  }

  lemma {:induction false} TouchedIsExact(plan: Plan, symbol: Symbol, spans: seq<seq<int>>)
    ensures var t := Touched(plan, symbol, spans);
            && (forall i, j :: 0 <= i < j < |t| ==> t[i] < t[j])
            && (forall k: nat :: k in t <==> k < |spans| && Covered(plan, symbol, spans[k]) != [])
  {
    hide Covered;
    if spans != [] {
      var n := |spans| - 1;
      TouchedIsExact(plan, symbol, spans[..n]);
      var front := Touched(plan, symbol, spans[..n]);
      assert forall i :: 0 <= i < |front| ==> front[i] in front;
    }
  }

  lemma {:induction false} RowHasOne(plan: Plan, symbols: seq<Symbol>, interval: int, span: seq<int>, symbol: Symbol)
    requires Distinct(symbols)
    ensures RequestsFor(Row(plan, symbols, interval, span), symbol) ==
              if symbol in symbols && Covered(plan, symbol, span) != [] then 1 else 0
  {
    hide Covered;
    if symbols != [] {
      var n := |symbols| - 1;
      RowHasOne(plan, symbols[..n], interval, span, symbol);
      assert symbols == symbols[..n] + [symbols[n]];
      var front := Row(plan, symbols[..n], interval, span);
      var covered := Covered(plan, symbols[n], span);
      if covered != [] { SelectPush(front, Window(symbols[n], interval, covered), IsFor(symbol)); }
      assert front + [] == front;
    }
  }

  lemma {:induction false} RequestsAreTouches(plan: Plan, symbols: seq<Symbol>, interval: int, spans: seq<seq<int>>,
                                              symbol: Symbol)
    requires Distinct(symbols) && symbol in symbols
    ensures RequestsFor(Concat(Rows(plan, symbols, interval, spans)), symbol) == |Touched(plan, symbol, spans)|
  {
    hide Covered, Row;
    var rows := Rows(plan, symbols, interval, spans);
    if spans != [] {
      var n := |spans| - 1;
      RequestsAreTouches(plan, symbols, interval, spans[..n], symbol);
      assert rows[..n] == Rows(plan, symbols, interval, spans[..n]);
      SelectConcat(Concat(rows[..n]), rows[n], IsFor(symbol));
      RowHasOne(plan, symbols, interval, spans[n], symbol);
    }
  }

  /** The instrument's own missing dates, newest first. */
  function OwnDays(cells: seq<Cell>, symbol: Symbol): seq<int> {
    Select(Sort(DaysOf(cells), Newest()), (d: int) => (symbol, d) in PlanOf(cells))
  }

  lemma OwnDaysAreItsDates(cells: seq<Cell>, symbol: Symbol)
    ensures Descending(OwnDays(cells, symbol))
    ensures forall d :: d in OwnDays(cells, symbol) <==> (symbol, d) in PlanOf(cells)
  {
    var days, keep := Sort(DaysOf(cells), Newest()), (d: int) => (symbol, d) in PlanOf(cells);
    DatesDescend(cells);
    PlanIsFaithful(cells);
    SelectDescends(days, keep);
    forall d ensures d in Select(days, keep) <==> d in days && keep(d) { InSelect(days, d, keep); }
  }

  lemma {:induction false} SelectDescends(days: seq<int>, keep: int -> bool)
    requires Descending(days)
    ensures Descending(Select(days, keep))
  {
    if days != [] {
      var n := |days| - 1;
      SelectDescends(days[..n], keep);
      var front := Select(days[..n], keep);
      forall i | 0 <= i < |front| ensures front[i] > days[n] {
        assert front[i] in front;
        InSelect(days[..n], front[i], keep);
      }
    }
  }

  lemma TouchedDay(plan: Plan, interval: int, symbol: Symbol, span: seq<int>) returns (d: int)
    requires Sound(plan, interval) && Descending(span) && Covered(plan, symbol, span) != []
    ensures d in span && (symbol, d) in plan
  {
    CoveredIsExact(plan, interval, symbol, span);
    var c := Covered(plan, symbol, span)[0];
    assert c in Covered(plan, symbol, span);
    d := c.Date();
  }

  /** For each span the instrument is missing a session in, one date it misses there. */
  lemma {:induction false} Representatives(plan: Plan, interval: int, symbol: Symbol, spans: seq<seq<int>>, touched: seq<nat>)
    returns (days: seq<int>)
    requires Sound(plan, interval)
    requires forall k :: 0 <= k < |touched| ==>
               touched[k] < |spans| && Descending(spans[touched[k]]) && Covered(plan, symbol, spans[touched[k]]) != []
    ensures |days| == |touched|
    ensures forall k :: 0 <= k < |days| ==> days[k] in spans[touched[k]] && (symbol, days[k]) in plan
  {
    if touched == [] {
      days := [];
    } else {
      var n := |touched| - 1;
      var front := Representatives(plan, interval, symbol, spans, touched[..n]);
      var d := TouchedDay(plan, interval, symbol, spans[touched[n]]);
      days := front + [d];
    }
  }

  /** Dates two spans apart never share a request. */
  lemma TwoSpansApart(spans: seq<seq<int>>, windowDays: int, a: nat, b: nat, part: set<int>, d: int, e: int)
    requires Cut(spans, windowDays) && a + 2 <= b < |spans| && d in spans[a] && e in spans[b] && Narrow(part, windowDays)
    ensures !(d in part && e in part)
  {
    assert Fits(spans[a], windowDays) && Fits(spans[b], windowDays);
    InSpan(spans[a], d);
    InSpan(spans[b], e);
    assert Apart(spans[a], spans[a + 1], windowDays) && Apart(spans[a + 1], spans[b], windowDays);
    assert spans[a][|spans[a]| - 1] > spans[a + 1][0];
  }

  function Home(part: nat, span: nat): nat { 2 * part + span % 2 }

  lemma HomesDiffer(spans: seq<seq<int>>, windowDays: int, parts: seq<set<int>>, a: nat, b: nat, d: int, e: int)
    requires Cut(spans, windowDays) && a < b < |spans| && d in spans[a] && e in spans[b]
    requires Requested(parts, d) && Requested(parts, e) && forall p :: 0 <= p < |parts| ==> Narrow(parts[p], windowDays)
    ensures Home(PartOf(parts, d), a) != Home(PartOf(parts, e), b)
  {
    if a + 2 <= b { TwoSpansApart(spans, windowDays, a, b, parts[PartOf(parts, d)], d, e); }
  }

  /** Cutting the dates for everyone costs an instrument at most twice the requests it would need
      alone: any way of fetching just its own dates uses at least half as many. */
  lemma AtMostTwiceItsOwn(cells: seq<Cell>, windowDays: int, symbol: Symbol, parts: seq<set<int>>)
    requires Windows(cells, windowDays).Ok? && symbol in SymbolsOf(cells)
    requires Fetches(parts, OwnDays(cells, symbol), windowDays)
    ensures RequestsFor(Windows(cells, windowDays).value, symbol) <= 2 * |parts|
  {
    var plan, spans := PlanOf(cells), DateSpans(cells, windowDays);
    PlanIsFaithful(cells);
    PlanIsSound(cells);
    DateSpansCut(cells, windowDays);
    OwnDaysAreItsDates(cells, symbol);
    RequestsAreTouches(plan, SymbolsOf(cells), cells[0].interval, spans, symbol);
    TouchedIsExact(plan, symbol, spans);
    hide DateSpans, PlanOf, SymbolsOf, OwnDays, Sound, Covered, Touched, Concat, Rows;
    TouchesShareParts(plan, cells[0].interval, symbol, spans, windowDays, Touched(plan, symbol, spans), parts);
  }

  lemma TouchesShareParts(plan: Plan, interval: int, symbol: Symbol, spans: seq<seq<int>>, windowDays: int,
                          touched: seq<nat>, parts: seq<set<int>>)
    requires Sound(plan, interval) && Cut(spans, windowDays)
    requires forall i, j :: 0 <= i < j < |touched| ==> touched[i] < touched[j]
    requires forall k :: k in touched ==> k < |spans| && Covered(plan, symbol, spans[k]) != []
    requires forall d :: (symbol, d) in plan ==> Requested(parts, d)
    requires forall p :: 0 <= p < |parts| ==> Narrow(parts[p], windowDays)
    ensures |touched| <= 2 * |parts|
  {
    hide Covered, Sound, Home;
    forall k | 0 <= k < |touched|
      ensures touched[k] < |spans| && Descending(spans[touched[k]]) && Covered(plan, symbol, spans[touched[k]]) != []
    {
      assert touched[k] in touched;
      assert Fits(spans[touched[k]], windowDays);
    }
    var days := Representatives(plan, interval, symbol, spans, touched);
    assert forall k :: 0 <= k < |days| ==> Requested(parts, days[k]);
    var homes := seq(|days|, k requires 0 <= k < |days| => Home(PartOf(parts, days[k]), touched[k]));
    forall i, j | 0 <= i < j < |homes| ensures homes[i] != homes[j] {
      HomesDiffer(spans, windowDays, parts, touched[i], touched[j], days[i], days[j]);
    }
    forall k | 0 <= k < |homes| ensures homes[k] < 2 * |parts| { HomeIsSmall(PartOf(parts, days[k]), touched[k], |parts|); }
    Pigeonhole(homes, 2 * |parts|);
  }

  lemma HomeIsSmall(part: nat, span: nat, n: nat)
    requires part < n
    ensures Home(part, span) < 2 * n
  {
  }

  // ---- When the plan is the fewest requests for an instrument ----

  /** No way of fetching the instrument's missing dates takes fewer requests than the plan does. */
  ghost predicate Fewest(cells: seq<Cell>, windowDays: int, symbol: Symbol)
    requires Windows(cells, windowDays).Ok?
  {
    forall parts :: Fetches(parts, OwnDays(cells, symbol), windowDays) ==>
      RequestsFor(Windows(cells, windowDays).value, symbol) <= |parts|
  }

  function DaysIn(span: seq<int>): set<int> { set d | d in span }

  function TouchedParts(spans: seq<seq<int>>, touched: seq<nat>): (r: seq<set<int>>)
    requires forall k :: 0 <= k < |touched| ==> touched[k] < |spans|
    ensures |r| == |touched| && forall k :: 0 <= k < |r| ==> r[k] == DaysIn(spans[touched[k]])
  {
    seq(|touched|, k requires 0 <= k < |touched| => DaysIn(spans[touched[k]]))
  }

  lemma SpanIsNarrow(span: seq<int>, windowDays: int)
    requires Fits(span, windowDays)
    ensures Narrow(DaysIn(span), windowDays)
  {
    forall a, b | a in DaysIn(span) && b in DaysIn(span) ensures a - b < windowDays {
      InSpan(span, a);
      InSpan(span, b);
    }
  }

  /** The instrument's own cut is the fewest requests, and it never exceeds what the plan spends. */
  lemma OwnCutIsCheaper(cells: seq<Cell>, windowDays: int, symbol: Symbol)
    requires Windows(cells, windowDays).Ok? && symbol in SymbolsOf(cells)
    ensures |Spans(OwnDays(cells, symbol), windowDays)| <= RequestsFor(Windows(cells, windowDays).value, symbol)
  {
    var plan, spans := PlanOf(cells), DateSpans(cells, windowDays);
    PlanIsFaithful(cells);
    PlanIsSound(cells);
    DateSpansCut(cells, windowDays);
    OwnDaysAreItsDates(cells, symbol);
    RequestsAreTouches(plan, SymbolsOf(cells), cells[0].interval, spans, symbol);
    TouchedIsExact(plan, symbol, spans);
    var touched, own := Touched(plan, symbol, spans), OwnDays(cells, symbol);
    hide DateSpans, PlanOf, SymbolsOf, OwnDays, Covered, Touched, Rows, Spans;
    assert forall k :: 0 <= k < |touched| ==> touched[k] in touched;
    var parts := TouchedParts(spans, touched);
    forall k | 0 <= k < |parts| ensures Narrow(parts[k], windowDays) { SpanIsNarrow(spans[touched[k]], windowDays); }
    forall d | d in own ensures Requested(parts, d) {
      TouchedRequests(plan, cells[0].interval, symbol, spans, windowDays, touched, d);
    }
    hide Concat;
    SpansAreFewest(own, windowDays, parts);
  }

  lemma TouchedRequests(plan: Plan, interval: int, symbol: Symbol, spans: seq<seq<int>>, windowDays: int,
                        touched: seq<nat>, d: int)
    requires Sound(plan, interval) && Cut(spans, windowDays) && (symbol, d) in plan && d in Concat(spans)
    requires forall k: nat :: k in touched <==> k < |spans| && Covered(plan, symbol, spans[k]) != []
    requires forall k :: 0 <= k < |touched| ==> touched[k] < |spans|
    ensures Requested(TouchedParts(spans, touched), d)
  {
    InConcat(spans, d);
    var a :| 0 <= a < |spans| && d in spans[a];
    assert Fits(spans[a], windowDays);
    CoveredIsExact(plan, interval, symbol, spans[a]);
    assert Belongs(plan, symbol, spans[a], plan[(symbol, d)]);
    hide Covered, Concat, Sound;
    assert a in touched;
    var k :| 0 <= k < |touched| && touched[k] == a;
    assert d in TouchedParts(spans, touched)[k];
  }

  /** The plan serves an instrument in the fewest requests exactly when it spends what the instrument's
      own cut would. */
  lemma FewestIsTheOwnCut(cells: seq<Cell>, windowDays: int, symbol: Symbol)
    requires Windows(cells, windowDays).Ok? && symbol in SymbolsOf(cells)
    ensures Fewest(cells, windowDays, symbol) <==>
              |Spans(OwnDays(cells, symbol), windowDays)| == RequestsFor(Windows(cells, windowDays).value, symbol)
  {
    var own := OwnDays(cells, symbol);
    var spans := Spans(own, windowDays);
    OwnCutIsCheaper(cells, windowDays, symbol);
    OwnDaysAreItsDates(cells, symbol);
    SpansFetch(own, windowDays);
    assert windowDays >= 1;
    hide Windows, OwnDays, Spans, Fetches, SymbolsOf;
    var alone := seq(|spans|, k requires 0 <= k < |spans| => set d | d in spans[k]);
    assert |alone| == |spans|;
    forall parts | Fetches(parts, own, windowDays) ensures |spans| <= |parts| { SpansAreFewest(own, windowDays, parts); }
  }

  /** Some of the instrument's missing dates, newest first, no two of which fit in one window. */
  ghost predicate Spaced(plan: Plan, symbol: Symbol, windowDays: int, dates: seq<int>) {
    && (forall k :: 0 <= k < |dates| ==> (symbol, dates[k]) in plan)
    && (forall k, l :: 0 <= k < l < |dates| ==> dates[k] - dates[l] >= windowDays)
  }

  /** As many spaced dates as there are spans in which the instrument misses a session. */
  ghost predicate SpacedAcrossSpans(cells: seq<Cell>, windowDays: int, symbol: Symbol) {
    exists dates :: Spaced(PlanOf(cells), symbol, windowDays, dates) &&
                    |dates| == |Touched(PlanOf(cells), symbol, DateSpans(cells, windowDays))|
  }

  /** The plan asks for an instrument in the fewest possible requests if and only if the instrument is
      missing, for every span it misses anything in, a date a whole window away from all the others: a
      span it only enters because of its neighbour's dates is what costs the extra request. */
  lemma FewestExactlyWhen(cells: seq<Cell>, windowDays: int, symbol: Symbol)
    requires Windows(cells, windowDays).Ok? && symbol in SymbolsOf(cells)
    ensures Fewest(cells, windowDays, symbol) <==> SpacedAcrossSpans(cells, windowDays, symbol)
  {
    RequestsCountSpans(cells, windowDays, symbol);
    OwnDaysAreItsDates(cells, symbol);
    FewestIsTheOwnCut(cells, windowDays, symbol);
    assert windowDays >= 1;
    var plan, own := PlanOf(cells), OwnDays(cells, symbol);
    hide Windows, OwnDays, Spans, SymbolsOf, PlanOf, Touched, DateSpans;
    if Fewest(cells, windowDays, symbol) {
      var dates := OwnAnchors(own, windowDays);
      assert Spaced(plan, symbol, windowDays, dates);
    }
    if SpacedAcrossSpans(cells, windowDays, symbol) {
      var dates :| Spaced(plan, symbol, windowDays, dates) && |dates| == |Touched(plan, symbol, DateSpans(cells, windowDays))|;
      forall parts | Fetches(parts, own, windowDays) ensures |dates| <= |parts| {
        AnchorsNeedRequests(dates, parts, windowDays);
      }
    }
  }

  lemma RequestsCountSpans(cells: seq<Cell>, windowDays: int, symbol: Symbol)
    requires Windows(cells, windowDays).Ok? && symbol in SymbolsOf(cells)
    ensures RequestsFor(Windows(cells, windowDays).value, symbol) ==
              |Touched(PlanOf(cells), symbol, DateSpans(cells, windowDays))|
  {
    PlanIsFaithful(cells);
    hide Concat, Touched, DateSpans, PlanOf;
    RequestsAreTouches(PlanOf(cells), SymbolsOf(cells), cells[0].interval, DateSpans(cells, windowDays), symbol);
  }

  /** The newest dates of the spans of a cut. */
  lemma OwnAnchors(days: seq<int>, windowDays: int) returns (dates: seq<int>)
    requires Descending(days) && windowDays >= 1
    ensures |dates| == |Spans(days, windowDays)| && forall k :: 0 <= k < |dates| ==> dates[k] in days
    ensures forall k, l :: 0 <= k < l < |dates| ==> dates[k] - dates[l] >= windowDays
  {
    var spans := Spans(days, windowDays);
    SpansCut(days, windowDays);
    hide Spans, Concat;
    dates := seq(|spans|, k requires 0 <= k < |spans| => spans[k][0]);
    forall k | 0 <= k < |dates| ensures dates[k] in days {
      assert spans[k][0] in spans[k];
      InConcat(spans, spans[k][0]);
    }
    forall k, l | 0 <= k < l < |dates| ensures dates[k] - dates[l] >= windowDays {
      assert Apart(spans[k], spans[l], windowDays);
    }
  }

  function On(symbol: Symbol, date: int): Cell { Cell(symbol, TradingSession(0, date, 0, 1), 1, 0) }

  /** Grouping is not always the fewest requests: one instrument missing a newer session shifts the
      cut for another, which then pays two requests for two dates one request would span. */
  lemma SharedCutCanDouble()
    ensures var cells := [On(0, 10), On(1, 9), On(1, 8)];
            && Windows(cells, 2).Ok? && 1 in SymbolsOf(cells)
            && RequestsFor(Windows(cells, 2).value, 1) == 2 && |Spans(OwnDays(cells, 1), 2)| == 1
            && !Fewest(cells, 2, 1)
  {
    var cells := [On(0, 10), On(1, 9), On(1, 8)];
    var plan := map[(0, 10) := On(0, 10), (1, 9) := On(1, 9), (1, 8) := On(1, 8)];
    ThreeCells();
    PlanIsFaithful(cells);
    hide PlanOf, SymbolsOf, DaysOf;
    assert OneInterval(cells);
    SortOfSorted([10, 9, 8], Newest());
    hide Sort;
    ThreeDays();
    assert DateSpans(cells, 2) == [[10, 9], [8]];
    TwoTouched(plan);
    RequestsAreTouches(plan, [0, 1], 1, [[10, 9], [8]], 1);
    assert Windows(cells, 2) == Ok(Concat(Rows(plan, [0, 1], 1, [[10, 9], [8]])));
    OwnOfTwo(plan);
    hide Windows, Spans, OwnDays, Select, Rows, Touched, DateSpans;
    FewestIsTheOwnCut(cells, 2, 1);
  }

  lemma ThreeCells()
    ensures var cells := [On(0, 10), On(1, 9), On(1, 8)];
            && PlanOf(cells) == map[(0, 10) := On(0, 10), (1, 9) := On(1, 9), (1, 8) := On(1, 8)]
            && SymbolsOf(cells) == [0, 1] && DaysOf(cells) == [10, 9, 8]
  {
    var a, b, c := On(0, 10), On(1, 9), On(1, 8);
    assert [a, b, c][..2] == [a, b] && [a, b][..1] == [a] && [a][..0] == [];
    assert SymbolsOf([a]) == [0] && DaysOf([a]) == [10] && PlanOf([a]) == map[(0, 10) := a];
    assert SymbolsOf([a, b]) == [0, 1] && DaysOf([a, b]) == [10, 9];
    assert PlanOf([a, b]) == map[(0, 10) := a, (1, 9) := b];
  }

  lemma SpansPush(days: seq<int>, day: int, windowDays: int)
    ensures Spans(days + [day], windowDays) == Step(Spans(days, windowDays), day, windowDays)
  {
    assert (days + [day])[..|days|] == days;
  }

  lemma ThreeDays()
    ensures Spans([10, 9, 8], 2) == [[10, 9], [8]] && Spans([9, 8], 2) == [[9, 8]]
  {
    SpansPush([], 10, 2);
    SpansPush([10], 9, 2);
    SpansPush([10, 9], 8, 2);
    SpansPush([], 9, 2);
    SpansPush([9], 8, 2);
    assert Spans([], 2) == [];
    hide Spans;
    assert [] + [10] == [10] && [10] + [9] == [10, 9] && [10, 9] + [8] == [10, 9, 8];
    assert [] + [9] == [9] && [9] + [8] == [9, 8];
    assert Step([], 10, 2) == [[10]] && Step([[10]], 9, 2) == [[10, 9]] && Step([[10, 9]], 8, 2) == [[10, 9], [8]];
    assert Step([], 9, 2) == [[9]] && Step([[9]], 8, 2) == [[9, 8]];
  }

  lemma TwoTouched(plan: Plan)
    requires plan == map[(0, 10) := On(0, 10), (1, 9) := On(1, 9), (1, 8) := On(1, 8)]
    ensures |Touched(plan, 1, [[10, 9], [8]])| == 2
  {
    assert [[10, 9], [8]][..1] == [[10, 9]] && [[10, 9]][..0] == [];
    assert Covered(plan, 1, [10, 9]) != [] && Covered(plan, 1, [8]) != [];
    hide Covered;
    assert Touched(plan, 1, []) == [];
    assert Touched(plan, 1, [[10, 9]]) == [0];
  }

  lemma OwnOfTwo(plan: Plan)
    requires plan == map[(0, 10) := On(0, 10), (1, 9) := On(1, 9), (1, 8) := On(1, 8)]
    ensures Select([10, 9, 8], (d: int) => (1, d) in plan) == [9, 8]
  {
    var keep := (d: int) => (1, d) in plan;
    assert [10, 9, 8][..2] == [10, 9] && [10, 9][..1] == [10] && [10][..0] == [];
    assert Select([10], keep) == [];
    assert Select([10, 9], keep) == [9];
  }
}
