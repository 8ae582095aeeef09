/** The cost curve of a measured strategy and the journal of its trades. */
module Measure {
  import opened Common
  import opened Reals
  import opened Sorting
  import opened Market
  import opened Costs
  import opened Labelling
  import opened Signals
  import opened Evaluation

  // ---- Costs never move a decision ----

  /** Two labels that differ in nothing but the net return, which the dearer model never improves. */
  predicate SameButDearer(cheap: Option<BarrierTouch>, dear: Option<BarrierTouch>) {
    if cheap.None? then dear.None?
    else dear.Some? && dear.value == cheap.value.(realised := dear.value.realised) &&
         dear.value.realised <= cheap.value.realised <= cheap.value.gross
  }

  /** The same terms under a dearer cost model. */
  predicate DearerTerms(cheap: Terms, dear: Terms) {
    cheap.Valid() && dear == cheap.(costs := dear.costs) && Dearer(cheap.costs, dear.costs)
  }

  lemma SignalLabelMoves(bars: seq<Bar>, s: Signal, cheap: Terms, dear: Terms)
    requires ValidBars(bars) && DearerTerms(cheap, dear)
    ensures match LabelOfSignal(bars, s, cheap)
            case Err(e) => LabelOfSignal(bars, s, dear) == Err(e)
            case Ok(touch) => LabelOfSignal(bars, s, dear).Ok? && SameButDearer(touch, LabelOfSignal(bars, s, dear).value)
  {
    hide Labelled;
    CostsMoveOnlyTheNet(bars, s.index, s.barriers, cheap, dear);
  }

  lemma {:induction false} FormsIgnoresCosts(bars: seq<Bar>, needed: seq<Signal>, cheap: Terms, dear: Terms)
    requires ValidBars(bars) && DearerTerms(cheap, dear)
    ensures Forms(bars, needed, cheap) == Forms(bars, needed, dear)
  {
    hide LabelOfSignal, DearerTerms;
    if needed != [] {
      SignalLabelMoves(bars, needed[0], cheap, dear);
      FormsIgnoresCosts(bars, needed[1..], cheap, dear);
    }
  }

  lemma {:induction false} SiftIgnoresCosts(bars: seq<Bar>, books: seq<Book>, grid: seq<nat>, cheap: Terms, dear: Terms)
    requires ValidBars(bars) && DearerTerms(cheap, dear)
    ensures Sift(bars, books, grid, cheap) == Sift(bars, books, grid, dear)
  {
    hide Forms, Needed, DearerTerms;
    if grid != [] {
      SiftIgnoresCosts(bars, books, grid[..|grid| - 1], cheap, dear);
      FormsIgnoresCosts(bars, Needed(books, grid[|grid| - 1]), cheap, dear);
    }
  }

  ghost predicate ColumnDearer(cheap: seq<Option<BarrierTouch>>, dear: seq<Option<BarrierTouch>>) {
    |cheap| == |dear| && forall p :: 0 <= p < |cheap| ==> SameButDearer(cheap[p], dear[p])
  }

  lemma TradesMove(bars: seq<Bar>, book: Book, kept: seq<nat>, cheap: Terms, dear: Terms)
    requires ValidBars(bars) && DearerTerms(cheap, dear)
    ensures ColumnDearer(Trades(bars, book, kept, cheap), Trades(bars, book, kept, dear))
  {
    hide LabelOfSignal, DearerTerms;
    forall p | 0 <= p < |kept|
      ensures SameButDearer(TradeAt(bars, book, kept[p], cheap), TradeAt(bars, book, kept[p], dear))
    {
      if kept[p] in book { SignalLabelMoves(bars, book[kept[p]], cheap, dear); }
    }
  }

  /** Relabelling under a dearer model gives the same candidates, spans, drops, labels, exits and
      excursions, and net returns that are nowhere better. */
  lemma CostsNeverMoveADecision(bars: seq<Bar>, variants: seq<Variant>, candidates: seq<nat>, horizon: int,
                                cheap: Terms, dear: Terms)
    requires ValidBars(bars) && DearerTerms(cheap, dear)
    ensures match Scored(bars, variants, candidates, horizon, cheap)
            case Err(e) => Scored(bars, variants, candidates, horizon, dear) == Err(e)
            case Ok(c) =>
              Scored(bars, variants, candidates, horizon, dear).Ok? &&
              var d := Scored(bars, variants, candidates, horizon, dear).value;
              && d.candidates == c.candidates && d.spans == c.spans && d.dropped == c.dropped
              && |d.trades| == |c.trades| == |variants|
              && forall v :: 0 <= v < |variants| ==> ColumnDearer(c.trades[v], d.trades[v])
  {
    var books, grid := Books(variants), Grid(candidates);
    SiftIgnoresCosts(bars, books, grid, cheap, dear);
    hide Sift, SpansOf, Trades, Grid, ColumnDearer;
    match Sift(bars, books, grid, cheap) {
      case Ok(sifted) =>
        forall v | 0 <= v < |books|
          ensures ColumnDearer(Trades(bars, books[v], sifted.kept, cheap), Trades(bars, books[v], sifted.kept, dear))
        {
          TradesMove(bars, books[v], sifted.kept, cheap, dear);
        }
      case Err(_) =>
    }
  }

  // ---- Running totals of one cost level ----

  function TradeCount(touches: seq<Option<BarrierTouch>>): nat {
    if touches == [] then 0
    else TradeCount(touches[..|touches| - 1]) + (if touches[|touches| - 1].Some? then 1 else 0)
  }

  function TradeTotal(touches: seq<Option<BarrierTouch>>): real {
    if touches == [] then 0.0
    else TradeTotal(touches[..|touches| - 1]) + Earned(touches[|touches| - 1])
  }

  lemma TotalsPush(s: seq<Option<BarrierTouch>>, t: Option<BarrierTouch>)
    ensures TradeCount(s + [t]) == TradeCount(s) + (if t.Some? then 1 else 0)
    ensures TradeTotal(s + [t]) == TradeTotal(s) + Earned(t)
  {
    assert (s + [t])[..|s|] == s;
  }

  /** The accumulator behind a point of the cost curve. */
  class Level {
    var earnings: seq<real>
    var trades: nat
    var total: real
    /** Every label folded in so far. */
    ghost var absorbed: seq<Option<BarrierTouch>>

    ghost predicate Valid()
      reads this
    {
      trades == TradeCount(absorbed) && total == TradeTotal(absorbed)
    }

    constructor ()
      ensures Valid() && absorbed == [] && earnings == []
    {
      earnings, trades, total, absorbed := [], 0, 0.0, [];
    }

    method Absorb(column: seq<real>, touches: seq<Option<BarrierTouch>>)
      requires Valid()
      modifies this
      ensures Valid() && absorbed == old(absorbed) + touches && earnings == old(earnings) + column
    {
      hide TradeCount, TradeTotal;
      earnings := earnings + column;
      for k := 0 to |touches|
        invariant Valid() && absorbed == old(absorbed) + touches[..k] && earnings == old(earnings) + column
      {
        TotalsPush(absorbed, touches[k]);
        if touches[k].Some? {
          trades := trades + 1;
          total := total + touches[k].value.realised;
        }
        absorbed := absorbed + [touches[k]];
      }
    }

    /** Average of the labels folded so far, with 0 standing for an empty sample. */
    function Expectancy(): (r: real)
      requires Valid()
      reads this
      ensures r == ExpectancyOf(absorbed)
    {
      if trades == 0 then 0.0 else total / trades as real
    }
  }

  function ExpectancyOf(touches: seq<Option<BarrierTouch>>): real {
    if TradeCount(touches) == 0 then 0.0 else TradeTotal(touches) / TradeCount(touches) as real
  }

  lemma {:induction false} DearerTotals(cheap: seq<Option<BarrierTouch>>, dear: seq<Option<BarrierTouch>>)
    requires ColumnDearer(cheap, dear)
    ensures TradeCount(dear) == TradeCount(cheap)
    ensures TradeTotal(dear) <= TradeTotal(cheap)
  {
    if cheap != [] { DearerTotals(cheap[..|cheap| - 1], dear[..|dear| - 1]); }
  }

  lemma DearerExpectancy(cheap: seq<Option<BarrierTouch>>, dear: seq<Option<BarrierTouch>>)
    requires ColumnDearer(cheap, dear)
    ensures ExpectancyOf(dear) <= ExpectancyOf(cheap)
  {
    hide ColumnDearer;
    DearerTotals(cheap, dear);
    if TradeCount(cheap) > 0 { DivideLess(TradeTotal(dear), TradeTotal(cheap), TradeCount(cheap) as real); }
  }

  // ---- The curve ----

  datatype CostPoint = CostPoint(scale: real, trades: nat, expectancy: real)

  /** One instrument's bars and every variant's decisions on it. */
  datatype Holding = Holding(bars: seq<Bar>, variants: seq<Variant>)

  /** Every bar some variant took a decision on. */
  function Candidates(variants: seq<Variant>): seq<nat> {
    if variants == [] then []
    else Candidates(variants[..|variants| - 1]) + Indices(variants[|variants| - 1].signals)
  }

  function Indices(signals: seq<Signal>): (r: seq<nat>)
    ensures |r| == |signals|
  {
    seq(|signals|, k requires 0 <= k < |signals| => signals[k].index)
  }

  ghost predicate ValidMarket(market: seq<Holding>, v: nat) {
    forall k :: 0 <= k < |market| ==> ValidBars(market[k].bars) && v < |market[k].variants|
  }

  /** One instrument's decisions scored with no floor under their reach. */
  function ScoredHolding(h: Holding, terms: Terms): Result<Observations>
    requires ValidBars(h.bars)
  {
    Scored(h.bars, h.variants, Candidates(h.variants), 0, terms)
  }

  /** All of variant v's labels over the instruments, at one set of terms; an instrument nothing
      fired on is passed over. */
  function MarketColumn(market: seq<Holding>, v: nat, terms: Terms): Result<seq<Option<BarrierTouch>>>
    requires ValidMarket(market, v)
  {
    if market == [] then Ok([])
    else
      var last := market[|market| - 1];
      match MarketColumn(market[..|market| - 1], v, terms)
      case Err(e) => Err(e)
      case Ok(front) =>
        if last.bars == [] || Candidates(last.variants) == [] then Ok(front)
        else match ScoredHolding(last, terms)
          case Err(e) => Err(e)
          case Ok(o) =>
            OneColumnEach(last, terms);
            Ok(front + o.trades[v])
  }

  lemma OneColumnEach(h: Holding, terms: Terms)
    requires ValidBars(h.bars) && ScoredHolding(h, terms).Ok?
    ensures |ScoredHolding(h, terms).value.trades| == |ScoredHolding(h, terms).value.earnings| == |h.variants|
  {
    hide Sift, SpansOf, Trades, Grid;
  }

  lemma {:induction false} MarketFailurePersists(market: seq<Holding>, v: nat, terms: Terms, k: nat)
    requires ValidMarket(market, v) && k <= |market|
    ensures MarketColumn(market[..k], v, terms).Err? ==>
              MarketColumn(market, v, terms) == MarketColumn(market[..k], v, terms)
    decreases |market| - k
  {
    hide ScoredHolding, Candidates;
    if k == |market| {
      assert market[..k] == market;
    } else {
      MarketFailurePersists(market, v, terms, k + 1);
      assert market[..k + 1][..k] == market[..k];
    }
  }

  /** Folds every instrument's column into one level, a market at a time. */
  method MeasureLevel(market: seq<Holding>, v: nat, terms: Terms) returns (r: Result<Level>)
    requires ValidMarket(market, v)
    ensures r.Ok? <==> MarketColumn(market, v, terms).Ok?
    ensures r.Err? ==> r.error == MarketColumn(market, v, terms).error
    ensures r.Ok? ==> fresh(r.value) && r.value.Valid() && r.value.absorbed == MarketColumn(market, v, terms).value
  {
    hide Scored, Candidates;
    var level := new Level();
    for k := 0 to |market|
      invariant fresh(level) && level.Valid()
      invariant MarketColumn(market[..k], v, terms) == Ok(level.absorbed)
    {
      assert market[..k + 1][..k] == market[..k];
      MarketFailurePersists(market, v, terms, k + 1);
      if market[k].bars == [] { continue; }
      var candidates := Candidates(market[k].variants);
      if candidates == [] { continue; }
      var scored := LabelSignals(market[k].bars, market[k].variants, candidates, 0, terms);
      if scored.Err? { return Err(scored.error); }
      OneColumnEach(market[k], terms);
      level.Absorb(scored.value.earnings[v], scored.value.trades[v]);
    }
    assert market[..|market|] == market;
    r := Ok(level);
  }

  lemma {:induction false} MarketMoves(market: seq<Holding>, v: nat, cheap: Terms, dear: Terms)
    requires ValidMarket(market, v)
    requires DearerTerms(cheap, dear)
    ensures match MarketColumn(market, v, cheap)
            case Err(e) => MarketColumn(market, v, dear) == Err(e)
            case Ok(c) => MarketColumn(market, v, dear).Ok? && ColumnDearer(c, MarketColumn(market, v, dear).value)
  {
    hide Scored, DearerTerms, SameButDearer, Candidates;
    if market != [] {
      var last := market[|market| - 1];
      MarketMoves(market[..|market| - 1], v, cheap, dear);
      CostsNeverMoveADecision(last.bars, last.variants, Candidates(last.variants), 0, cheap, dear);
    }
  }

  function Levels(quantity: real, reference: CostModel, scale: real): Terms {
    Terms(Scaled(reference, scale), quantity, None)
  }

  /** A point of the cost curve: the chosen variant re-labelled under scaled costs. */
  function PointAt(market: seq<Holding>, v: nat, quantity: real, reference: CostModel, scale: real): Result<CostPoint>
    requires ValidMarket(market, v)
  {
    match MarketColumn(market, v, Levels(quantity, reference, scale))
    case Err(e) => Err(e)
    case Ok(touches) => Ok(CostPoint(scale, TradeCount(touches), ExpectancyOf(touches)))
  }

  /** A higher multiple of the reference costs never changes what was traded and never earns more. */
  lemma ExpectancyFallsWithCost(market: seq<Holding>, v: nat, quantity: real, reference: CostModel, low: real, high: real)
    requires ValidMarket(market, v)
    requires reference.Valid() && quantity >= 0.0 && 0.0 <= low <= high
    ensures PointAt(market, v, quantity, reference, low).Ok? <==> PointAt(market, v, quantity, reference, high).Ok?
    ensures PointAt(market, v, quantity, reference, low).Ok? ==>
              var a, b := PointAt(market, v, quantity, reference, low).value, PointAt(market, v, quantity, reference, high).value;
              b.trades == a.trades && b.expectancy <= a.expectancy
  {
    hide MarketColumn, Scaled, ExpectancyOf, ColumnDearer;
    ScalingOrders(reference, low, high);
    MarketMoves(market, v, Levels(quantity, reference, low), Levels(quantity, reference, high));
    match MarketColumn(market, v, Levels(quantity, reference, low)) {
      case Ok(c) =>
        var d := MarketColumn(market, v, Levels(quantity, reference, high)).value;
        DearerTotals(c, d);
        DearerExpectancy(c, d);
      case Err(_) =>
    }
  }

  function ByScale(): (CostPoint, CostPoint) -> bool { (a: CostPoint, b: CostPoint) => a.scale <= b.scale }

  /** The levels in order of scale, whatever order they were asked for in. */
  function CurveOf(points: seq<CostPoint>): seq<CostPoint> { Sort(points, ByScale()) }

  ghost predicate FromLevels(points: seq<CostPoint>, market: seq<Holding>, v: nat, quantity: real, reference: CostModel)
    requires ValidMarket(market, v)
  {
    forall k :: 0 <= k < |points| ==>
      points[k].scale >= 0.0 && PointAt(market, v, quantity, reference, points[k].scale) == Ok(points[k])
  }

  ghost predicate Descending(points: seq<CostPoint>) {
    && (forall i, j :: 0 <= i < j < |points| ==> points[i].scale <= points[j].scale)
    && (forall i, j :: 0 <= i < j < |points| ==> points[j].expectancy <= points[i].expectancy)
  }

  /** A measured curve is non-increasing: dearer levels come later and earn no more. */
  lemma CurveDescends(points: seq<CostPoint>, market: seq<Holding>, v: nat, quantity: real, reference: CostModel)
    requires ValidMarket(market, v)
    requires reference.Valid() && quantity >= 0.0
    requires FromLevels(points, market, v, quantity, reference)
    ensures Descending(CurveOf(points))
    ensures FromLevels(CurveOf(points), market, v, quantity, reference)
  {
    hide PointAt, Sort;
    var curve := CurveOf(points);
    SortIsSort(points, ByScale());
    forall k | 0 <= k < |curve|
      ensures curve[k].scale >= 0.0 && PointAt(market, v, quantity, reference, curve[k].scale) == Ok(curve[k])
    {
      assert curve[k] in multiset(curve);
      assert curve[k] in multiset(points);
    }
    forall i, j | 0 <= i < j < |curve|
      ensures curve[i].scale <= curve[j].scale && curve[j].expectancy <= curve[i].expectancy
    {
      assert ByScale()(curve[i], curve[j]);
      ExpectancyFallsWithCost(market, v, quantity, reference, curve[i].scale, curve[j].scale);
    }
  }

  /** Points k and k + 1 straddle the crossing. */
  predicate Straddles(points: seq<CostPoint>, k: nat)
    requires k + 1 < |points|
  {
    points[k].expectancy > 0.0 >= points[k + 1].expectancy
  }

  function Crossing(a: CostPoint, b: CostPoint): real
    requires a.expectancy > 0.0 >= b.expectancy
  {
    a.scale + (b.scale - a.scale) * a.expectancy / (a.expectancy - b.expectancy)
  }

  /** Walks the curve for the first pair that straddles zero and interpolates between them. */
  method BreakEven(points: seq<CostPoint>) returns (r: Option<real>, ghost at: nat)
    ensures r.None? <==> forall k: nat :: k + 1 < |points| ==> !Straddles(points, k)
    ensures r.Some? ==> at + 1 < |points| && Straddles(points, at) && r.value == Crossing(points[at], points[at + 1])
    ensures r.Some? ==> forall k: nat :: k < at ==> !Straddles(points, k)
  {
    hide Crossing;
    if |points| == 0 { return None, 0; }
    for k := 0 to |points| - 1
      invariant forall j: nat :: j < k ==> !Straddles(points, j)
    {
      var earlier, later := points[k], points[k + 1];
      if earlier.expectancy > 0.0 && 0.0 >= later.expectancy {
        assert Straddles(points, k);
        return Some(Crossing(earlier, later)), k;
      }
    }
    return None, 0;
  }

  /** On a descending curve there is a break-even exactly when the cheapest level earns and the
      dearest does not, no second pair straddles zero, and the crossing lies inside its bracket. */
  lemma BreakEvenIsTheSignChange(points: seq<CostPoint>)
    requires Descending(points)
    ensures (exists k: nat :: k + 1 < |points| && Straddles(points, k)) <==>
              |points| > 0 && points[0].expectancy > 0.0 && points[|points| - 1].expectancy <= 0.0
    ensures forall j: nat, k: nat ::
              j + 1 < |points| && k + 1 < |points| && Straddles(points, j) && Straddles(points, k) ==> j == k
    ensures forall k: nat :: k + 1 < |points| && Straddles(points, k) ==>
              && points[k].scale <= Crossing(points[k], points[k + 1]) <= points[k + 1].scale
              && (forall i :: 0 <= i <= k ==> points[i].expectancy > 0.0)
              && (forall i :: k < i < |points| ==> points[i].expectancy <= 0.0)
  {
    hide Crossing;
    if |points| > 0 && points[0].expectancy > 0.0 && points[|points| - 1].expectancy <= 0.0 {
      var k := LastPositive(points, |points| - 1);
      assert Straddles(points, k);
    }
    forall k: nat | k + 1 < |points| && Straddles(points, k)
      ensures points[k].scale <= Crossing(points[k], points[k + 1]) <= points[k + 1].scale
      ensures points[0].expectancy > 0.0 && points[|points| - 1].expectancy <= 0.0
      ensures forall i :: 0 <= i <= k ==> points[i].expectancy > 0.0
      ensures forall i :: k < i < |points| ==> points[i].expectancy <= 0.0
    {
      CrossingInBracket(points[k], points[k + 1]);
    }
  }

  lemma {:induction false} LastPositive(points: seq<CostPoint>, hi: nat) returns (k: nat)
    requires hi < |points| && points[0].expectancy > 0.0 >= points[hi].expectancy
    ensures k + 1 <= hi && Straddles(points, k)
  {
    if points[hi - 1].expectancy > 0.0 { k := hi - 1; } else { k := LastPositive(points, hi - 1); }
  }

  lemma CrossingInBracket(a: CostPoint, b: CostPoint)
    requires a.expectancy > 0.0 >= b.expectancy && a.scale <= b.scale
    ensures a.scale <= Crossing(a, b) <= b.scale
  {
    var w, e, span := b.scale - a.scale, a.expectancy, a.expectancy - b.expectancy;
    MulLe(0.0, w, e);
    MulLe(e, span, w);
    DivideLess(0.0, w * e, span);
    DivideLess(w * e, w * span, span);
    assert w * span / span == w;
  }

  // ---- The journal ----

  /** What every record of a run carries. */
  datatype RunFacts = RunFacts(runId: string, configHash: string, recordedNs: int, symbol: Symbol, strategy: string,
                               version: string, costs: CostModel)

  datatype TradeRecord = TradeRecord(run: RunFacts, variant: string, entryNs: int, barriers: Barriers, touch: BarrierTouch,
                                     spreadFraction: real, commissionPerShare: real, features: Snapshot)

  /** The cell (position, column) of the matrix holds a trade whose decision is on record. */
  ghost predicate Traded(variants: seq<Variant>, o: Observations, cell: (nat, nat)) {
    && cell.0 < |o.candidates| == |o.spans| && cell.1 < |variants| == |o.trades|
    && |o.trades[cell.1]| == |o.candidates| && o.spans[cell.0].0 >= 0
    && o.trades[cell.1][cell.0].Some? && o.spans[cell.0].0 in ByIndex(variants[cell.1].signals)
  }

  function RecordOf(f: RunFacts, bars: seq<Bar>, variants: seq<Variant>, o: Observations, cell: (nat, nat))
    : TradeRecord
    requires Traded(variants, o, cell) && o.spans[cell.0].0 < |bars|
  {
    var index := o.spans[cell.0].0;
    var signal := ByIndex(variants[cell.1].signals)[index];
    TradeRecord(f, variants[cell.1].name, bars[index].ts, signal.barriers, o.trades[cell.1][cell.0].value,
                f.costs.spreads.fraction, f.costs.fees.perShare, signal.features)
  }

  ghost predicate Precedes(a: (nat, nat), b: (nat, nat)) { a.0 < b.0 || (a.0 == b.0 && a.1 < b.1) }

  /** Matrix shape: one column of trades per variant, as long as the candidates. */
  ghost predicate Shaped(bars: seq<Bar>, variants: seq<Variant>, o: Observations) {
    && |o.spans| == |o.candidates| && |o.trades| == |variants|
    && (forall v :: 0 <= v < |variants| ==> |o.trades[v]| == |o.candidates|)
    && (forall p :: 0 <= p < |o.spans| ==> 0 <= o.spans[p].0 < |bars|)
  }

  /** The records written so far are those of the traded cells before (p, v), one each, in order. */
  ghost predicate Journalled(f: RunFacts, bars: seq<Bar>, variants: seq<Variant>, o: Observations, rows: seq<TradeRecord>,
                             cells: seq<(nat, nat)>, upto: (nat, nat))
    requires Shaped(bars, variants, o)
  {
    && |rows| == |cells|
    && (forall i, j :: 0 <= i < j < |cells| ==> Precedes(cells[i], cells[j]))
    && (forall i :: 0 <= i < |cells| ==> Precedes(cells[i], upto) && Traded(variants, o, cells[i]))
    && (forall i :: 0 <= i < |cells| ==> rows[i] == RecordOf(f, bars, variants, o, cells[i]))
    && (forall c :: Precedes(c, upto) && Traded(variants, o, c) ==> c in cells)
  }

  /** The winner's trades as records; the index says which variant, since two may compare equal. */
  method JournalTrades(f: RunFacts, bars: seq<Bar>, variants: seq<Variant>, o: Observations)
    returns (rows: seq<TradeRecord>, ghost cells: seq<(nat, nat)>)
    requires Shaped(bars, variants, o)
    ensures Journalled(f, bars, variants, o, rows, cells, (|o.candidates|, 0))
    ensures forall row :: row in rows ==> FromCell(f, bars, variants, o, row)
    ensures forall c :: Traded(variants, o, c) ==> RecordOf(f, bars, variants, o, c) in rows
  {
    hide ByIndex;
    var spreadFraction, commission := f.costs.spreads.fraction, f.costs.fees.perShare;
    rows, cells := [], [];
    for p := 0 to |o.spans|
      invariant Journalled(f, bars, variants, o, rows, cells, (p, 0))
    {
      var index := o.spans[p].0;
      for v := 0 to |variants|
        invariant Journalled(f, bars, variants, o, rows, cells, (p, v))
      {
        var touch := o.trades[v][p];
        var decisions := ByIndex(variants[v].signals);
        if touch.None? || index !in decisions {
          assert !Traded(variants, o, (p, v));
          JournalSkips(f, bars, variants, o, rows, cells, (p, v));
          continue;
        }
        var signal := decisions[index];
        JournalGrows(f, bars, variants, o, rows, cells, (p, v));
        rows := rows + [TradeRecord(f, variants[v].name, bars[index].ts, signal.barriers, touch.value, spreadFraction,
                                    commission, signal.features)];
        cells := cells + [(p, v)];
      }
      JournalNextRow(f, bars, variants, o, rows, cells, p);
    }
    JournalIsExact(f, bars, variants, o, rows, cells);
  }

  /** The row is the record of some traded cell. */
  ghost predicate FromCell(f: RunFacts, bars: seq<Bar>, variants: seq<Variant>, o: Observations, row: TradeRecord)
    requires Shaped(bars, variants, o)
  {
    exists c :: Traded(variants, o, c) && RecordOf(f, bars, variants, o, c) == row
  }

  lemma JournalIsExact(f: RunFacts, bars: seq<Bar>, variants: seq<Variant>, o: Observations, rows: seq<TradeRecord>,
                       cells: seq<(nat, nat)>)
    requires Shaped(bars, variants, o) && Journalled(f, bars, variants, o, rows, cells, (|o.candidates|, 0))
    ensures forall row :: row in rows ==> FromCell(f, bars, variants, o, row)
    ensures forall c :: Traded(variants, o, c) ==> RecordOf(f, bars, variants, o, c) in rows
  {
    hide RecordOf, ByIndex;
    forall row | row in rows ensures FromCell(f, bars, variants, o, row) {
      var i :| 0 <= i < |rows| && rows[i] == row;
      assert Traded(variants, o, cells[i]);
    }
    forall c | Traded(variants, o, c) ensures RecordOf(f, bars, variants, o, c) in rows {
      assert Precedes(c, (|o.candidates|, 0));
      var i :| 0 <= i < |cells| && cells[i] == c;
      assert rows[i] == RecordOf(f, bars, variants, o, c);
    }
  }

  lemma JournalSkips(f: RunFacts, bars: seq<Bar>, variants: seq<Variant>, o: Observations, rows: seq<TradeRecord>,
                     cells: seq<(nat, nat)>, at: (nat, nat))
    requires Shaped(bars, variants, o) && Journalled(f, bars, variants, o, rows, cells, at) && !Traded(variants, o, at)
    ensures Journalled(f, bars, variants, o, rows, cells, (at.0, at.1 + 1))
  {
    hide RecordOf, Traded, Shaped;
  }

  lemma JournalGrows(f: RunFacts, bars: seq<Bar>, variants: seq<Variant>, o: Observations, rows: seq<TradeRecord>,
                     cells: seq<(nat, nat)>, at: (nat, nat))
    requires Shaped(bars, variants, o) && Journalled(f, bars, variants, o, rows, cells, at) && Traded(variants, o, at)
    ensures Journalled(f, bars, variants, o, rows + [RecordOf(f, bars, variants, o, at)], cells + [at], (at.0, at.1 + 1))
  {
    hide RecordOf, Traded, Shaped;
    var after := cells + [at];
    forall c | Precedes(c, (at.0, at.1 + 1)) && Traded(variants, o, c) ensures c in after {
      if c != at { assert c in cells; }
    }
  }

  lemma JournalNextRow(f: RunFacts, bars: seq<Bar>, variants: seq<Variant>, o: Observations, rows: seq<TradeRecord>,
                       cells: seq<(nat, nat)>, p: nat)
    requires Shaped(bars, variants, o) && Journalled(f, bars, variants, o, rows, cells, (p, |variants|))
    ensures Journalled(f, bars, variants, o, rows, cells, (p + 1, 0))
  {
    hide RecordOf;
  }

  lemma {:induction false} CandidateHasDecision(variants: seq<Variant>, c: nat) returns (v: nat)
    requires c in Candidates(variants)
    ensures v < |variants| && c in ByIndex(variants[v].signals)
  {
    var last := |variants| - 1;
    if c in Indices(variants[last].signals) {
      IndicesAreKeys(variants[last].signals, c);
      v := last;
    } else {
      v := CandidateHasDecision(variants[..last], c);
    }
  }

  lemma {:induction false} IndicesAreKeys(signals: seq<Signal>, c: nat)
    requires c in Indices(signals)
    ensures c in ByIndex(signals)
  {
    var n := |signals| - 1;
    var k :| 0 <= k <= n && Indices(signals)[k] == c;
    if k < n {
      assert Indices(signals[..n])[k] == c;
      IndicesAreKeys(signals[..n], c);
    }
  }

  /** What the journal is given has the shape it relies on. */
  lemma ScoredIsShaped(h: Holding, terms: Terms)
    requires ValidBars(h.bars) && ScoredHolding(h, terms).Ok?
    ensures Shaped(h.bars, h.variants, ScoredHolding(h, terms).value)
  {
    hide Candidates, Sift, ByIndex;
    var candidates := Candidates(h.variants);
    var o := ScoredHolding(h, terms).value;
    OneColumnEach(h, terms);
    CandidatesPartition(h.bars, h.variants, candidates, 0, terms);
    hide Scored;
    forall p | 0 <= p < |o.candidates|
      ensures p < |o.spans| == |o.candidates| && 0 <= o.spans[p].0 < |h.bars|
    {
      assert o.candidates[p] in o.candidates;
      var v := CandidateHasDecision(h.variants, o.candidates[p]);
      ColumnsAreAligned(h.bars, h.variants, candidates, 0, terms, v, p);
      LabelledIndexExists(h.bars, o.candidates[p], ByIndex(h.variants[v].signals)[o.candidates[p]].barriers, terms);
    }
    forall v | 0 <= v < |h.variants| ensures |o.trades[v]| == |o.candidates| {
      ScoredLengths(h.bars, h.variants, candidates, 0, terms, v);
    }
    ScoredSpans(h.bars, h.variants, candidates, 0, terms);
  }

  lemma ScoredLengths(bars: seq<Bar>, variants: seq<Variant>, candidates: seq<nat>, horizon: int, terms: Terms, v: nat)
    requires ValidBars(bars) && Scored(bars, variants, candidates, horizon, terms).Ok? && v < |variants|
    ensures var o := Scored(bars, variants, candidates, horizon, terms).value;
            v < |o.trades| && |o.trades[v]| == |o.candidates|
  {
    hide Sift, SpansOf, Grid;
  }

  lemma ScoredSpans(bars: seq<Bar>, variants: seq<Variant>, candidates: seq<nat>, horizon: int, terms: Terms)
    requires ValidBars(bars) && Scored(bars, variants, candidates, horizon, terms).Ok?
    ensures var o := Scored(bars, variants, candidates, horizon, terms).value; |o.spans| == |o.candidates|
  {
    hide Sift, Grid;
  }

  /** The join recovers exactly the decision behind each touch: a cell is journalled if and only if it
      holds a trade, and its record carries the barriers whose label is that touch, from that bar. */
  lemma JournalNamesItsOwnSignal(f: RunFacts, bars: seq<Bar>, variants: seq<Variant>, candidates: seq<nat>, horizon: int,
                                 terms: Terms, cell: (nat, nat))
    requires ValidBars(bars) && Scored(bars, variants, candidates, horizon, terms).Ok?
    requires cell.0 < |Scored(bars, variants, candidates, horizon, terms).value.candidates| && cell.1 < |variants|
    ensures var o := Scored(bars, variants, candidates, horizon, terms).value;
            var index := o.candidates[cell.0];
            && |o.trades| == |variants| && |o.trades[cell.1]| == |o.candidates|
            && (Traded(variants, o, cell) <==> o.trades[cell.1][cell.0].Some?)
            && (Traded(variants, o, cell) ==>
                  && index < |bars|
                  && var row := RecordOf(f, bars, variants, o, cell);
                  && (exists s :: s in variants[cell.1].signals && s.index == index &&
                                  s.barriers == row.barriers && s.features == row.features)
                  && Labelled(bars, index, row.barriers, terms) == Ok(Some(row.touch))
                  && row.entryNs == bars[index].ts && row.run == f
                  && row.spreadFraction == f.costs.spreads.fraction && row.commissionPerShare == f.costs.fees.perShare)
  {
    ColumnsAreAligned(bars, variants, candidates, horizon, terms, cell.1, cell.0);
    hide Scored, Labelled;
    var o := Scored(bars, variants, candidates, horizon, terms).value;
    var index, book := o.candidates[cell.0], ByIndex(variants[cell.1].signals);
    if index in book {
      LabelledIndexExists(bars, index, book[index].barriers, terms);
      assert book[index] in variants[cell.1].signals;
    }
  }

  lemma LabelledIndexExists(bars: seq<Bar>, i: nat, b: Barriers, terms: Terms)
    requires ValidBars(bars) && Labelled(bars, i, b, terms).Ok?
    ensures i < |bars|
  {
  }
}
