/** Pooled evaluation: one timeline of observations from many instruments. */
module Pooling {
  import opened Common
  import opened Sequences
  import opened Sorting
  import opened Market
  import opened Labelling
  import opened Signals
  import opened Evaluation
  import opened CrossValidation
  import opened Splits
  import opened PathScores
  import opened LeakFreedom

  /** One instrument's contribution: its name's rank, its bar timestamps, its matrix. */
  datatype Part = Part(key: int, timestamps: seq<int>, observations: Observations)

  /** Where a pooled observation came from, and when it was open. */
  datatype Row = Row(openNs: int, key: int, part: nat, position: nat, closeNs: int)

  /** The spans index the instrument's own series. */
  ghost predicate PartFits(part: Part) {
    var o := part.observations;
    && (forall p :: 0 <= p < |o.spans| ==> 0 <= o.spans[p].0 < |part.timestamps| && 0 <= o.spans[p].1)
    && |o.earnings| == |o.trades|
    && (forall v :: 0 <= v < |o.earnings| ==> |o.earnings[v]| == |o.trades[v]| == |o.spans|)
  }

  ghost predicate PartsFit(parts: seq<Part>) {
    forall k :: 0 <= k < |parts| ==> PartFits(parts[k])
  }

  function RowOf(parts: seq<Part>, k: nat, p: nat): Row
    requires PartsFit(parts) && k < |parts| && p < |parts[k].observations.spans|
  {
    var span, ts := parts[k].observations.spans[p], parts[k].timestamps;
    assert PartFits(parts[k]);
    Row(ts[span.0], parts[k].key, k, p, ts[Min(span.1, |ts| - 1)])
  }

  function RowsOfPart(parts: seq<Part>, k: nat, n: nat): seq<Row>
    requires PartsFit(parts) && k < |parts| && n <= |parts[k].observations.spans|
  {
    if n == 0 then [] else RowsOfPart(parts, k, n - 1) + [RowOf(parts, k, n - 1)]
  }

  function RowsOf(parts: seq<Part>, n: nat): seq<Row>
    requires PartsFit(parts) && n <= |parts|
  {
    if n == 0 then [] else RowsOf(parts, n - 1) + RowsOfPart(parts, n - 1, |parts[n - 1].observations.spans|)
  }

  /** By time, with the instrument breaking ties. */
  function Before(): (Row, Row) -> bool {
    (a: Row, b: Row) => a.openNs < b.openNs || (a.openNs == b.openNs && a.key <= b.key)
  }

  function Ordered(parts: seq<Part>): seq<Row>
    requires PartsFit(parts)
  {
    Sort(RowsOf(parts, |parts|), Before())
  }

  ghost predicate RowsFit(rows: seq<Row>, parts: seq<Part>) {
    forall r :: 0 <= r < |rows| ==> rows[r].part < |parts| && rows[r].position < |parts[rows[r].part].observations.spans|
  }

  ghost predicate SameWidth(parts: seq<Part>, width: nat) {
    forall k :: 0 <= k < |parts| ==> |parts[k].observations.earnings| == width
  }

  function PooledEarnings(parts: seq<Part>, rows: seq<Row>, v: nat): (r: seq<real>)
    requires PartsFit(parts) && RowsFit(rows, parts) && forall k :: 0 <= k < |parts| ==> v < |parts[k].observations.earnings|
    ensures |r| == |rows|
  {
    seq(|rows|, i requires 0 <= i < |rows| =>
      (assert PartFits(parts[rows[i].part]); parts[rows[i].part].observations.earnings[v][rows[i].position]))
  }

  function PooledTrades(parts: seq<Part>, rows: seq<Row>, v: nat): (r: seq<Option<BarrierTouch>>)
    requires PartsFit(parts) && RowsFit(rows, parts) && forall k :: 0 <= k < |parts| ==> v < |parts[k].observations.earnings|
    ensures |r| == |rows|
  {
    seq(|rows|, i requires 0 <= i < |rows| =>
      (assert PartFits(parts[rows[i].part]); parts[rows[i].part].observations.trades[v][rows[i].position]))
  }

  function RowSpans(rows: seq<Row>): (r: seq<Span>)
    ensures |r| == |rows|
  {
    seq(|rows|, i requires 0 <= i < |rows| => (rows[i].openNs, rows[i].closeNs))
  }

  /** The pooled matrix, read off an ordered list of rows. */
  function Gathered(parts: seq<Part>, rows: seq<Row>, width: nat): Observations
    requires PartsFit(parts) && RowsFit(rows, parts) && SameWidth(parts, width)
  {
    Observations(
      Range(0, |rows|),
      RowSpans(rows),
      seq(width, v requires 0 <= v < width => PooledEarnings(parts, rows, v)),
      seq(width, v requires 0 <= v < width => PooledTrades(parts, rows, v)),
      [])
  }

  /** Rows are appended part by part, then sorted once. */
  method Pool(parts: seq<Part>) returns (r: Result<Observations>)
    requires PartsFit(parts)
    ensures parts == [] ==> r == Ok(Observations([], [], [], [], []))
    ensures parts != [] ==> (r.Ok? <==> SameWidth(parts, |parts[0].observations.earnings|))
    ensures parts != [] && r.Ok? ==>
              RowsFit(Ordered(parts), parts) && r.value == Gathered(parts, Ordered(parts), |parts[0].observations.earnings|)
  {
    hide RowsFit;
    if parts == [] { return Ok(Observations([], [], [], [], [])); }
    var width := |parts[0].observations.earnings|;
    for k := 0 to |parts|
      invariant forall j :: 0 <= j < k ==> |parts[j].observations.earnings| == width
    {
      if |parts[k].observations.earnings| != width { return Err("parts disagree on the number of variants"); }
    }
    var rows: seq<Row> := [];
    for k := 0 to |parts|
      invariant rows == RowsOf(parts, k)
    {
      var timestamps, spans := parts[k].timestamps, parts[k].observations.spans;
      assert PartFits(parts[k]);
      for position := 0 to |spans|
        invariant rows == RowsOf(parts, k) + RowsOfPart(parts, k, position)
      {
        var (openNs, reach) := spans[position];
        var closeNs := timestamps[Min(reach, |timestamps| - 1)];
        rows := rows + [Row(timestamps[openNs], parts[k].key, k, position, closeNs)];
      }
    }
    OrderedFits(parts);
    rows := Sort(rows, Before());
    return Ok(Gathered(parts, rows, width));
  }

  // ---- A sorted permutation ----

  /** Row `row` is the row of the part and position it names. */
  ghost predicate IsRow(parts: seq<Part>, row: Row)
    requires PartsFit(parts)
  {
    row.part < |parts| && row.position < |parts[row.part].observations.spans| && row == RowOf(parts, row.part, row.position)
  }

  lemma {:induction false} RowsOfPartAre(parts: seq<Part>, k: nat, n: nat, row: Row)
    requires PartsFit(parts) && k < |parts| && n <= |parts[k].observations.spans|
    ensures multiset(RowsOfPart(parts, k, n))[row] == if IsRow(parts, row) && row.part == k && row.position < n then 1 else 0
  {
    if n > 0 {
      RowsOfPartAre(parts, k, n - 1, row);
      hide RowOf;
    }
  }

  lemma {:induction false} RowsOfAre(parts: seq<Part>, n: nat, row: Row)
    requires PartsFit(parts) && n <= |parts|
    ensures multiset(RowsOf(parts, n))[row] == if IsRow(parts, row) && row.part < n then 1 else 0
  {
    if n > 0 {
      var last := RowsOfPart(parts, n - 1, |parts[n - 1].observations.spans|);
      RowsOfAre(parts, n - 1, row);
      RowsOfPartAre(parts, n - 1, |parts[n - 1].observations.spans|, row);
      assert multiset(RowsOf(parts, n))[row] == multiset(RowsOf(parts, n - 1))[row] + multiset(last)[row];
      hide RowsOfPart, RowsOf, PartsFit;
    }
  }

  lemma OrderedFits(parts: seq<Part>)
    requires PartsFit(parts)
    ensures RowsFit(Ordered(parts), parts)
  {
    var rows := RowsOf(parts, |parts|);
    SortIsSort(rows, Before());
    var sorted := Ordered(parts);
    hide RowsOf, Sort;
    forall r | 0 <= r < |sorted|
      ensures sorted[r].part < |parts| && sorted[r].position < |parts[sorted[r].part].observations.spans|
    {
      RowsOfAre(parts, |parts|, sorted[r]);
      assert sorted[r] in multiset(sorted);
    }
  }

  /** Pooling neither loses, repeats nor misplaces an observation: every row of every part appears
      exactly once, in order of time and then instrument, and an instrument's own rows that open
      together keep their order. */
  lemma PoolIsSortedPermutation(parts: seq<Part>, row: Row, openNs: int, key: int)
    requires PartsFit(parts)
    ensures multiset(Ordered(parts))[row] == if IsRow(parts, row) then 1 else 0
    ensures SortedBy(Ordered(parts), Before())
    ensures var tie := (r: Row) => r.openNs == openNs && r.key == key;
            Select(Ordered(parts), tie) == Select(RowsOf(parts, |parts|), tie)
  {
    RowsOfAre(parts, |parts|, row);
    SortIsSort(RowsOf(parts, |parts|), Before());
    SortIsStable(RowsOf(parts, |parts|), Before(), (r: Row) => r.openNs == openNs && r.key == key);
  }

  // ---- A part that was labelled ----

  /** The part holds the matrix the labeller produced over these bars. */
  ghost predicate Labels(part: Part, bars: seq<Bar>, variants: seq<Variant>, candidates: seq<nat>, horizon: int,
                         terms: Terms)
  {
    && ValidBars(bars) && Chronological(bars) && horizon >= 0
    && part.timestamps == Timestamps(bars)
    && Scored(bars, variants, candidates, horizon, terms) == Ok(part.observations)
    && (forall c :: c in candidates ==> c < |bars|)
  }

  lemma LabelledPartFits(part: Part, bars: seq<Bar>, variants: seq<Variant>, candidates: seq<nat>, horizon: int, terms: Terms)
    requires Labels(part, bars, variants, candidates, horizon, terms)
    ensures PartFits(part) && |part.observations.earnings| == |variants|
    ensures forall p :: 0 <= p < |part.observations.spans| ==> part.observations.spans[p].0 <= part.observations.spans[p].1
  {
    var o := part.observations;
    CandidatesPartition(bars, variants, candidates, horizon, terms);
    MatrixWidth(bars, variants, candidates, horizon, terms);
    forall p | 0 <= p < |o.spans| ensures 0 <= o.spans[p].0 < |part.timestamps| && o.spans[p].0 <= o.spans[p].1 {
      assert o.candidates[p] in o.candidates;
      ReachIsFloored(Books(variants), o.candidates[p], horizon);
    }
  }

  /** A pooled span is in the clock's unit and holds the whole life of every trade at its row: it
      opens at the entry bar and closes no earlier than the exit. */
  lemma PooledSpanHoldsTrades(parts: seq<Part>, k: nat, p: nat, v: nat, bars: seq<Bar>, variants: seq<Variant>,
                              candidates: seq<nat>, horizon: int, terms: Terms)
    requires PartsFit(parts) && k < |parts| && p < |parts[k].observations.spans| && v < |variants|
    requires Labels(parts[k], bars, variants, candidates, horizon, terms)
    ensures v < |parts[k].observations.trades| && p < |parts[k].observations.trades[v]|
    ensures parts[k].observations.trades[v][p].Some? ==>
              var touch := parts[k].observations.trades[v][p].value;
              var row := RowOf(parts, k, p);
              row.openNs < touch.touchedAt <= row.closeNs
  {
    var o := parts[k].observations;
    hide Scored, PartsFit;
    ScoredSpansMatch(parts[k], bars, variants, candidates, horizon, terms);
    ColumnsAreAligned(bars, variants, candidates, horizon, terms, v, p);
    if o.trades[v][p].Some? {
      var s := ByIndex(variants[v].signals)[o.candidates[p]];
      TradeEndsInSpan(bars, s, terms, o.trades[v][p].value, o.spans[p].1);
    }
  }

  lemma TradeEndsInSpan(bars: seq<Bar>, s: Signal, terms: Terms, touch: BarrierTouch, reach: int)
    requires ValidBars(bars) && Chronological(bars) && LabelOfSignal(bars, s, terms) == Ok(Some(touch))
    requires s.index < |bars| && s.index + touch.barsHeld <= reach
    ensures 0 <= Min(reach, |bars| - 1) < |bars|
    ensures bars[s.index].ts < touch.touchedAt <= bars[Min(reach, |bars| - 1)].ts
  {
    FirstTouchDecides(bars, s.index, s.barriers, terms, touch);
    var exit, last := s.index + touch.barsHeld, Min(reach, |bars| - 1);
    assert exit < last ==> bars[exit].ts < bars[last].ts;
  }

  lemma ScoredSpansMatch(part: Part, bars: seq<Bar>, variants: seq<Variant>, candidates: seq<nat>, horizon: int, terms: Terms)
    requires Labels(part, bars, variants, candidates, horizon, terms)
    ensures |part.observations.spans| == |part.observations.candidates|
  {
    MatrixWidth(bars, variants, candidates, horizon, terms);
  }

  // ---- Leak freedom of the pooled sample ----

  /** One instrument's bars and the decisions taken on it. */
  datatype Instrument = Instrument(key: int, bars: seq<Bar>, variants: seq<Variant>, candidates: seq<nat>)

  ghost predicate Scorable(m: Instrument, horizon: int, terms: Terms) {
    && ValidBars(m.bars) && Chronological(m.bars) && horizon >= 0
    && Scored(m.bars, m.variants, m.candidates, horizon, terms).Ok?
    && (forall c :: c in m.candidates ==> c < |m.bars|)
  }

  ghost predicate UniverseFits(universe: seq<Instrument>, width: nat, horizon: int, terms: Terms) {
    forall k :: 0 <= k < |universe| ==> Scorable(universe[k], horizon, terms) && |universe[k].variants| == width
  }

  ghost function PartOf(m: Instrument, horizon: int, terms: Terms): Part
    requires Scorable(m, horizon, terms)
  {
    Part(m.key, Timestamps(m.bars), Scored(m.bars, m.variants, m.candidates, horizon, terms).value)
  }

  ghost function PartsOf(universe: seq<Instrument>, width: nat, horizon: int, terms: Terms): (parts: seq<Part>)
    requires UniverseFits(universe, width, horizon, terms)
    ensures |parts| == |universe|
  {
    seq(|universe|, k requires 0 <= k < |universe| => PartOf(universe[k], horizon, terms))
  }

  lemma UniverseParts(universe: seq<Instrument>, width: nat, horizon: int, terms: Terms)
    requires UniverseFits(universe, width, horizon, terms)
    ensures var parts := PartsOf(universe, width, horizon, terms);
            PartsFit(parts) && SameWidth(parts, width) && RowsFit(Ordered(parts), parts)
  {
    var parts := PartsOf(universe, width, horizon, terms);
    hide Scored;
    forall k | 0 <= k < |parts| ensures PartFits(parts[k]) && |parts[k].observations.earnings| == width {
      var m := universe[k];
      assert Scorable(m, horizon, terms);
      LabelledPartFits(parts[k], m.bars, m.variants, m.candidates, horizon, terms);
    }
    OrderedFits(parts);
  }

  ghost function PooledSample(universe: seq<Instrument>, width: nat, horizon: int, terms: Terms): Observations
    requires UniverseFits(universe, width, horizon, terms)
  {
    UniverseParts(universe, width, horizon, terms);
    var parts := PartsOf(universe, width, horizon, terms);
    Gathered(parts, Ordered(parts), width)
  }

  /** The same instruments with other prices, and those only where the clock is inside a hull. */
  ghost predicate RepricedInside(universe: seq<Instrument>, other: seq<Instrument>, hulls: seq<Span>) {
    && |universe| == |other|
    && forall k :: 0 <= k < |universe| ==> RepricedOne(universe[k], other[k], hulls)
  }

  lemma RepricedFits(universe: seq<Instrument>, other: seq<Instrument>, width: nat, horizon: int, terms: Terms,
                     hulls: seq<Span>)
    requires UniverseFits(universe, width, horizon, terms) && RepricedInside(universe, other, hulls)
    ensures UniverseFits(other, width, horizon, terms)
    ensures var parts, parts' := PartsOf(universe, width, horizon, terms), PartsOf(other, width, horizon, terms);
            forall k :: 0 <= k < |universe| ==>
              && parts'[k].key == parts[k].key && parts'[k].timestamps == parts[k].timestamps
              && parts'[k].observations.spans == parts[k].observations.spans
  {
    hide Scored;
    forall k | 0 <= k < |universe|
      ensures Scorable(other[k], horizon, terms)
      ensures Scored(other[k].bars, other[k].variants, other[k].candidates, horizon, terms).value.spans ==
              Scored(universe[k].bars, universe[k].variants, universe[k].candidates, horizon, terms).value.spans
    {
      assert Scorable(universe[k], horizon, terms);
      SampleIgnoresPrices(universe[k].bars, other[k].bars, universe[k].variants, universe[k].candidates, horizon, terms);
      SameClock(universe[k].bars, other[k].bars);
    }
  }

  lemma SameClock(bars: seq<Bar>, other: seq<Bar>)
    requires Timestamps(bars) == Timestamps(other) && Chronological(bars)
    ensures |bars| == |other| && Chronological(other)
    ensures forall j :: 0 <= j < |bars| ==> bars[j].ts == other[j].ts
  {
    forall j | 0 <= j < |bars| ensures bars[j].ts == other[j].ts {
      assert Timestamps(bars)[j] == Timestamps(other)[j];
    }
  }

  lemma {:induction false} SameRowsOfPart(parts: seq<Part>, other: seq<Part>, k: nat, n: nat)
    requires PartsFit(parts) && PartsFit(other) && k < |parts| == |other|
    requires other[k].key == parts[k].key && other[k].timestamps == parts[k].timestamps
    requires other[k].observations.spans == parts[k].observations.spans && n <= |parts[k].observations.spans|
    ensures RowsOfPart(parts, k, n) == RowsOfPart(other, k, n)
  {
    if n > 0 { SameRowsOfPart(parts, other, k, n - 1); }
  }

  lemma {:induction false} SameRows(parts: seq<Part>, other: seq<Part>, n: nat)
    requires PartsFit(parts) && PartsFit(other) && n <= |parts| == |other|
    requires forall k :: 0 <= k < |parts| ==>
               && other[k].key == parts[k].key && other[k].timestamps == parts[k].timestamps
               && other[k].observations.spans == parts[k].observations.spans
    ensures RowsOf(parts, n) == RowsOf(other, n)
  {
    hide PartsFit;
    if n > 0 {
      SameRows(parts, other, n - 1);
      SameRowsOfPart(parts, other, n - 1, |parts[n - 1].observations.spans|);
    }
  }

  /** A span of bar indices on the clock, cut off where the series ends. */
  function OnClock(bars: seq<Bar>, span: Span): Span
    requires 0 <= span.0 < |bars| && 0 <= span.1
  {
    (bars[span.0].ts, bars[Min(span.1, |bars| - 1)].ts)
  }

  ghost predicate RepricedOne(m: Instrument, m': Instrument, hulls: seq<Span>) {
    && m' == m.(bars := m'.bars) && Timestamps(m'.bars) == Timestamps(m.bars) && ValidBars(m'.bars)
    && forall j :: 0 <= j < |m.bars| && j < |m'.bars| && !InSome(hulls, m.bars[j].ts) ==> m'.bars[j] == m.bars[j]
  }

  /** A pooled observation that survives reads no bar inside a hull, on its own instrument. */
  lemma SurvivingCellIsBlind(m: Instrument, m': Instrument, horizon: int, terms: Terms, hulls: seq<Span>,
                             embargo: int, p: nat, v: nat)
    requires Scorable(m, horizon, terms) && Scorable(m', horizon, terms) && RepricedOne(m, m', hulls)
    requires v < |m.variants| && p < |PartOf(m, horizon, terms).observations.spans|
    requires PartFits(PartOf(m, horizon, terms))
    requires Survives(OnClock(m.bars, PartOf(m, horizon, terms).observations.spans[p]), hulls, embargo)
    ensures var o, o' := PartOf(m, horizon, terms).observations, PartOf(m', horizon, terms).observations;
            && v < |o.earnings| && v < |o'.earnings| && p < |o.earnings[v]| && p < |o'.earnings[v]|
            && o.earnings[v][p] == o'.earnings[v][p]
  {
    hide Scored, Survives;
    var part := PartOf(m, horizon, terms);
    var span := part.observations.spans[p];
    SameClock(m.bars, m'.bars);
    ScoredSpansMatch(part, m.bars, m.variants, m.candidates, horizon, terms);
    forall j | span.0 <= j <= span.1 && 0 <= j < |m.bars| ensures m.bars[j] == m'.bars[j] {
      OpenWhile(m.bars, span, j, hulls, embargo);
    }
    AgreeingCell(m.bars, m'.bars, m.variants, m.candidates, horizon, terms, v, p);
  }

  lemma OpenWhile(bars: seq<Bar>, span: Span, j: int, hulls: seq<Span>, embargo: int)
    requires Chronological(bars) && 0 <= span.0 <= j <= span.1 && j < |bars|
    requires Survives(OnClock(bars, span), hulls, embargo)
    ensures !InSome(hulls, bars[j].ts)
  {
    var last := Min(span.1, |bars| - 1);
    assert span.0 < j ==> bars[span.0].ts < bars[j].ts;
    assert j < last ==> bars[j].ts < bars[last].ts;
    forall h | 0 <= h < |hulls| ensures !(hulls[h].0 <= bars[j].ts <= hulls[h].1) {
      assert !Overlap(OnClock(bars, span), hulls[h]);
    }
  }

  /** Leak freedom across instruments: reprice every instrument at will while the clock is inside the
      hulls of a split's test blocks, and the pooled sample keeps its spans, its split, every
      training score and the winner. */
  lemma PooledSelectionIsLeakFree(design: Design, groups: seq<nat>, sharpe: Sharpe, universe: seq<Instrument>,
                                  other: seq<Instrument>, width: nat, horizon: int, terms: Terms)
    requires design.Valid() && IsTestSet(design, groups) && width > 0
    requires UniverseFits(universe, width, horizon, terms)
    requires RepricedInside(universe, other,
                            SplitHulls(design, PooledSample(universe, width, horizon, terms).spans, groups))
    ensures UniverseFits(other, width, horizon, terms)
    ensures var o, o' := PooledSample(universe, width, horizon, terms), PooledSample(other, width, horizon, terms);
            var train := SplitOf(design, o.spans, groups).train;
            && o'.spans == o.spans && |o.earnings| == |o'.earnings| == width
            && (forall v :: 0 <= v < width ==> Below(train, |o.earnings[v]|) && Below(train, |o'.earnings[v]|))
            && TrainScores(sharpe, o.earnings, train) == TrainScores(sharpe, o'.earnings, train)
            && Winner(sharpe, o.earnings, train) == Winner(sharpe, o'.earnings, train)
  {
    hide PooledSample, SplitOf, SplitHulls, UniverseFits, RepricedInside, IsTestSet, Survives;
    var hulls := SplitHulls(design, PooledSample(universe, width, horizon, terms).spans, groups);
    RepricedFits(universe, other, width, horizon, terms, hulls);
    var o, o' := PooledSample(universe, width, horizon, terms), PooledSample(other, width, horizon, terms);
    PooledSpansAgree(universe, other, width, horizon, terms, hulls);
    var train := SplitOf(design, o.spans, groups).train;
    forall v, k | 0 <= v < width && 0 <= k < |train|
      ensures train[k] < |o.earnings[v]| && train[k] < |o'.earnings[v]| && o.earnings[v][train[k]] == o'.earnings[v][train[k]]
    {
      TrainIsExact(design, o.spans, groups, train[k]);
      PooledCellIsBlind(universe, other, width, horizon, terms, hulls, design.embargo, train[k], v);
    }
    SameScores(sharpe, o.earnings, o'.earnings, train);
  }

  lemma PooledSpansAgree(universe: seq<Instrument>, other: seq<Instrument>, width: nat, horizon: int, terms: Terms,
                         hulls: seq<Span>)
    requires UniverseFits(universe, width, horizon, terms) && RepricedInside(universe, other, hulls)
    requires UniverseFits(other, width, horizon, terms)
    ensures var parts, parts' := PartsOf(universe, width, horizon, terms), PartsOf(other, width, horizon, terms);
            && PartsFit(parts) && PartsFit(parts') && Ordered(parts) == Ordered(parts')
            && SameWidth(parts, width) && SameWidth(parts', width)
            && PooledSample(universe, width, horizon, terms).spans == PooledSample(other, width, horizon, terms).spans
            && |PooledSample(universe, width, horizon, terms).earnings| == width
            && |PooledSample(other, width, horizon, terms).earnings| == width
  {
    UniverseParts(universe, width, horizon, terms);
    UniverseParts(other, width, horizon, terms);
    RepricedFits(universe, other, width, horizon, terms, hulls);
    var parts, parts' := PartsOf(universe, width, horizon, terms), PartsOf(other, width, horizon, terms);
    hide PartsOf, PartsFit, RowsOf;
    SameRows(parts, parts', |parts|);
  }

  lemma PooledCellIsBlind(universe: seq<Instrument>, other: seq<Instrument>, width: nat, horizon: int, terms: Terms,
                          hulls: seq<Span>, embargo: int, i: nat, v: nat)
    requires UniverseFits(universe, width, horizon, terms) && RepricedInside(universe, other, hulls)
    requires UniverseFits(other, width, horizon, terms)
    requires v < width && i < |PooledSample(universe, width, horizon, terms).spans|
    requires Survives(PooledSample(universe, width, horizon, terms).spans[i], hulls, embargo)
    ensures var o, o' := PooledSample(universe, width, horizon, terms), PooledSample(other, width, horizon, terms);
            && |o.earnings| == |o'.earnings| == width && i < |o.earnings[v]| && i < |o'.earnings[v]|
            && o.earnings[v][i] == o'.earnings[v][i]
  {
    PooledSpansAgree(universe, other, width, horizon, terms, hulls);
    var parts, parts' := PartsOf(universe, width, horizon, terms), PartsOf(other, width, horizon, terms);
    var row := Ordered(parts)[i];
    RowIsOwn(parts, i);
    GatheredCell(parts, width, i, v);
    GatheredCell(parts', width, i, v);
    CellOfPart(universe, other, width, horizon, terms, hulls, embargo, row, v);
  }

  lemma GatheredCell(parts: seq<Part>, width: nat, i: nat, v: nat)
    requires PartsFit(parts) && SameWidth(parts, width) && i < |Ordered(parts)| && v < width
    ensures RowsFit(Ordered(parts), parts)
    ensures var o, row := Gathered(parts, Ordered(parts), width), Ordered(parts)[i];
            && |o.earnings| == width && i < |o.earnings[v]| && i < |o.spans|
            && o.spans[i] == (row.openNs, row.closeNs)
            && row.part < |parts| && v < |parts[row.part].observations.earnings|
            && row.position < |parts[row.part].observations.earnings[v]|
            && o.earnings[v][i] == parts[row.part].observations.earnings[v][row.position]
  {
    OrderedFits(parts);
    hide Ordered;
    assert PartFits(parts[Ordered(parts)[i].part]);
  }

  lemma CellOfPart(universe: seq<Instrument>, other: seq<Instrument>, width: nat, horizon: int, terms: Terms,
                   hulls: seq<Span>, embargo: int, row: Row, v: nat)
    requires UniverseFits(universe, width, horizon, terms) && RepricedInside(universe, other, hulls)
    requires UniverseFits(other, width, horizon, terms) && v < width
    requires PartsFit(PartsOf(universe, width, horizon, terms))
    requires IsRow(PartsOf(universe, width, horizon, terms), row)
    requires Survives((row.openNs, row.closeNs), hulls, embargo)
    ensures var o, o' := PartsOf(universe, width, horizon, terms)[row.part].observations,
                         PartsOf(other, width, horizon, terms)[row.part].observations;
            && v < |o.earnings| && v < |o'.earnings| && row.position < |o.earnings[v]| && row.position < |o'.earnings[v]|
            && o.earnings[v][row.position] == o'.earnings[v][row.position]
  {
    hide Scored, Survives;
    var m, m' := universe[row.part], other[row.part];
    ScorableAt(universe, other, width, horizon, terms, row.part);
    assert RepricedOne(m, m', hulls);
    assert PartFits(PartsOf(universe, width, horizon, terms)[row.part]);
    hide UniverseFits, PartsFit, RepricedInside, Scorable, RepricedOne;
    SurvivingCellIsBlind(m, m', horizon, terms, hulls, embargo, row.position, v);
  }

  lemma ScorableAt(universe: seq<Instrument>, other: seq<Instrument>, width: nat, horizon: int, terms: Terms, k: nat)
    requires UniverseFits(universe, width, horizon, terms) && UniverseFits(other, width, horizon, terms)
    requires k < |universe| == |other|
    ensures Scorable(universe[k], horizon, terms) && Scorable(other[k], horizon, terms)
    ensures |universe[k].variants| == width
  {
    hide Scorable;
  }

  lemma RowIsOwn(parts: seq<Part>, i: nat)
    requires PartsFit(parts) && i < |Ordered(parts)|
    ensures IsRow(parts, Ordered(parts)[i])
  {
    RowsOfAre(parts, |parts|, Ordered(parts)[i]);
    SortIsSort(RowsOf(parts, |parts|), Before());
    assert Ordered(parts)[i] in multiset(Ordered(parts));
  }
}
