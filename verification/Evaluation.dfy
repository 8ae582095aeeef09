/** The observation matrix: every variant's decisions labelled and aligned on one candidate set. */
module Evaluation {
  import opened Common
  import opened Sequences
  import opened Sorting
  import opened Market
  import opened Labelling
  import opened Signals
  import opened CrossValidation
  import Combinations
  import Splits

  /** A strategy under one setting of its parameters, as the list of what it decided. */
  datatype Variant = Variant(name: string, signals: seq<Signal>) {
    /** What the constructor accepts: at most one decision per bar. */
    ghost predicate Valid() {
      name != "" && forall i, j :: 0 <= i < j < |signals| ==> signals[i].index != signals[j].index
    }
  }

  /** Decisions looked up by bar index. */
  type Book = map<nat, Signal>

  function ByIndex(signals: seq<Signal>): (book: Book)
    ensures forall i :: i in book ==> book[i].index == i && book[i] in signals
  {
    if signals == [] then map[]
    else
      var front, last := signals[..|signals| - 1], signals[|signals| - 1];
      assert forall s :: s in front ==> s in signals;
      ByIndex(front)[last.index := last]
  }

  /** Nothing is lost by the keying: a valid variant's book is its decisions. */
  lemma {:induction false} BookIsFaithful(signals: seq<Signal>, k: nat)
    requires forall i, j :: 0 <= i < j < |signals| ==> signals[i].index != signals[j].index
    requires k < |signals|
    ensures signals[k].index in ByIndex(signals) && ByIndex(signals)[signals[k].index] == signals[k]
  {
    if k < |signals| - 1 { BookIsFaithful(signals[..|signals| - 1], k); }
  }

  function Books(variants: seq<Variant>): (books: seq<Book>)
    ensures |books| == |variants| && Keyed(books)
  {
    seq(|variants|, v requires 0 <= v < |variants| => ByIndex(variants[v].signals))
  }

  predicate Keyed(books: seq<Book>) {
    forall v :: 0 <= v < |books| ==> forall i :: i in books[v] ==> books[v][i].index == i
  }

  datatype Observations = Observations(
    candidates: seq<nat>,
    spans: seq<Span>,
    earnings: seq<seq<real>>,
    trades: seq<seq<Option<BarrierTouch>>>,
    dropped: seq<nat>
  )

  /** The candidates sorted and de-duplicated. */
  function Grid(candidates: seq<nat>): seq<nat> {
    Select(Range(0, Bound(candidates)), (c: nat) => c in candidates)
  }

  function Bound(candidates: seq<nat>): (b: nat)
    ensures forall c :: c in candidates ==> c < b
  {
    if candidates == [] then 0
    else
      assert candidates == candidates[..|candidates| - 1] + [candidates[|candidates| - 1]];
      Max(Bound(candidates[..|candidates| - 1]), candidates[|candidates| - 1] + 1)
  }

  predicate HasStray(books: seq<Book>, grid: seq<nat>) {
    exists v :: 0 <= v < |books| && !(books[v].Keys <= set c | c in grid)
  }

  /** The decisions some variant took on this bar, in variant order. */
  function Needed(books: seq<Book>, index: nat): seq<Signal> {
    if books == [] then []
    else (if index in books[0] then [books[0][index]] else []) + Needed(books[1..], index)
  }

  function LabelOfSignal(bars: seq<Bar>, s: Signal, terms: Terms): Result<Option<BarrierTouch>>
    requires ValidBars(bars)
  {
    Labelled(bars, s.index, s.barriers, terms)
  }

  /** Whether every needed label forms; evaluation stops at the first that does not. */
  function Forms(bars: seq<Bar>, needed: seq<Signal>, terms: Terms): Result<bool>
    requires ValidBars(bars)
  {
    if needed == [] then Ok(true)
    else match LabelOfSignal(bars, needed[0], terms)
      case Err(e) => Err(e)
      case Ok(None) => Ok(false)
      case Ok(Some(_)) => Forms(bars, needed[1..], terms)
  }

  datatype Sifted = Sifted(kept: seq<nat>, dropped: seq<nat>)

  function Sift(bars: seq<Bar>, books: seq<Book>, grid: seq<nat>, terms: Terms): Result<Sifted>
    requires ValidBars(bars)
  {
    if grid == [] then Ok(Sifted([], []))
    else match Sift(bars, books, grid[..|grid| - 1], terms)
      case Err(e) => Err(e)
      case Ok(front) =>
        var last := grid[|grid| - 1];
        match Forms(bars, Needed(books, last), terms)
        case Err(e) => Err(e)
        case Ok(formed) =>
          Ok(if formed then front.(kept := front.kept + [last]) else front.(dropped := front.dropped + [last]))
  }

  /** Last bar a candidate may read: the latest expiry over all variants, but never nearer than the floor. */
  function Reach(books: seq<Book>, index: nat, horizon: int): int {
    if books == [] then index + horizon
    else
      var rest := Reach(books[..|books| - 1], index, horizon);
      var last := books[|books| - 1];
      if index in last then Max(rest, last[index].Reach()) else rest
  }

  function SpansOf(books: seq<Book>, kept: seq<nat>, horizon: int): (r: seq<Span>)
    ensures |r| == |kept|
  {
    seq(|kept|, p requires 0 <= p < |kept| => (kept[p] as int, Reach(books, kept[p], horizon)))
  }

  /** One cell: the variant's touch at the candidate, `None` if it decided nothing there. */
  function TradeAt(bars: seq<Bar>, book: Book, index: nat, terms: Terms): Option<BarrierTouch>
    requires ValidBars(bars)
  {
    if index !in book then None
    else match LabelOfSignal(bars, book[index], terms)
      case Ok(touch) => touch
      case Err(_) => None
  }

  function Earned(trade: Option<BarrierTouch>): real { if trade.Some? then trade.value.realised else 0.0 }

  function Trades(bars: seq<Bar>, book: Book, kept: seq<nat>, terms: Terms): (r: seq<Option<BarrierTouch>>)
    requires ValidBars(bars)
    ensures |r| == |kept| && forall p :: 0 <= p < |kept| ==> r[p] == TradeAt(bars, book, kept[p], terms)
  {
    seq(|kept|, p requires 0 <= p < |kept| => TradeAt(bars, book, kept[p], terms))
  }

  function Earnings(trades: seq<Option<BarrierTouch>>): (r: seq<real>)
    ensures |r| == |trades| && forall p :: 0 <= p < |r| ==> r[p] == Earned(trades[p])
  {
    seq(|trades|, p requires 0 <= p < |trades| => Earned(trades[p]))
  }

  function Matrix(bars: seq<Bar>, books: seq<Book>, sifted: Sifted, horizon: int, terms: Terms): Observations
    requires ValidBars(bars)
  {
    Observations(
      sifted.kept,
      SpansOf(books, sifted.kept, horizon),
      seq(|books|, v requires 0 <= v < |books| => Earnings(Trades(bars, books[v], sifted.kept, terms))),
      seq(|books|, v requires 0 <= v < |books| => Trades(bars, books[v], sifted.kept, terms)),
      sifted.dropped)
  }

  function Scored(bars: seq<Bar>, variants: seq<Variant>, candidates: seq<nat>, horizon: int, terms: Terms)
    : Result<Observations>
    requires ValidBars(bars)
  {
    var grid, books := Grid(candidates), Books(variants);
    if grid == [] then Err("no candidates to score")
    else if HasStray(books, grid) then Err("a signal falls outside the candidate set")
    else match Sift(bars, books, grid, terms)
      case Err(e) => Err(e)
      case Ok(sifted) => Ok(Matrix(bars, books, sifted, horizon, terms))
  }

  // ---- The cached computation ----

  type Cache = map<(nat, Barriers), Option<BarrierTouch>>

  ghost predicate CacheAgrees(cache: Cache, bars: seq<Bar>, terms: Terms)
    requires ValidBars(bars)
  {
    forall key :: key in cache ==> Labelled(bars, key.0, key.1, terms) == Ok(cache[key])
  }

  method TouchFor(bars: seq<Bar>, s: Signal, terms: Terms, cache: Cache)
    returns (r: Result<Option<BarrierTouch>>, after: Cache)
    requires ValidBars(bars) && CacheAgrees(cache, bars, terms)
    ensures r == LabelOfSignal(bars, s, terms)
    ensures CacheAgrees(after, bars, terms)
  {
    hide Labelled;
    var key := (s.index, s.barriers);
    after := cache;
    if key !in cache {
      r := TripleBarrier(bars, s.index, s.barriers, terms);
      if r.Ok? { after := cache[key := r.value]; }
    } else {
      r := Ok(cache[key]);
    }
  }

  method AllForm(bars: seq<Bar>, needed: seq<Signal>, terms: Terms, cache: Cache)
    returns (r: Result<bool>, after: Cache)
    requires ValidBars(bars) && CacheAgrees(cache, bars, terms)
    ensures r == Forms(bars, needed, terms)
    ensures CacheAgrees(after, bars, terms)
  {
    hide LabelOfSignal;
    after := cache;
    for k := 0 to |needed|
      invariant CacheAgrees(after, bars, terms)
      invariant Forms(bars, needed, terms) == Forms(bars, needed[k..], terms)
    {
      var touch;
      touch, after := TouchFor(bars, needed[k], terms, after);
      assert needed[k..][1..] == needed[k + 1..];
      if touch.Err? { return Err(touch.error), after; }
      if touch.value.None? { return Ok(false), after; }
    }
    r := Ok(true);
  }

  method SiftAll(bars: seq<Bar>, books: seq<Book>, grid: seq<nat>, terms: Terms)
    returns (r: Result<Sifted>, cache: Cache)
    requires ValidBars(bars)
    ensures r == Sift(bars, books, grid, terms)
    ensures CacheAgrees(cache, bars, terms)
  {
    hide Forms, Needed;
    cache := map[];
    var kept: seq<nat>, dropped: seq<nat> := [], [];
    for k := 0 to |grid|
      invariant CacheAgrees(cache, bars, terms)
      invariant Sift(bars, books, grid[..k], terms) == Ok(Sifted(kept, dropped))
    {
      assert grid[..k + 1][..k] == grid[..k];
      SiftFailurePersists(bars, books, grid, terms, k + 1);
      var formed;
      formed, cache := AllForm(bars, Needed(books, grid[k]), terms, cache);
      if formed.Err? { return Err(formed.error), cache; }
      if formed.value { kept := kept + [grid[k]]; } else { dropped := dropped + [grid[k]]; }
    }
    assert grid[..|grid|] == grid;
    r := Ok(Sifted(kept, dropped));
  }

  lemma {:induction false} SiftFailurePersists(bars: seq<Bar>, books: seq<Book>, grid: seq<nat>, terms: Terms, k: nat)
    requires ValidBars(bars) && k <= |grid|
    ensures Sift(bars, books, grid[..k], terms).Err? ==>
              Sift(bars, books, grid, terms) == Sift(bars, books, grid[..k], terms)
    decreases |grid| - k
  {
    hide Forms, Needed;
    if k == |grid| {
      assert grid[..k] == grid;
    } else {
      SiftFailurePersists(bars, books, grid, terms, k + 1);
      assert grid[..k + 1][..k] == grid[..k];
    }
  }

  method Column(bars: seq<Bar>, book: Book, kept: seq<nat>, terms: Terms, cache: Cache)
    returns (earned: seq<real>, taken: seq<Option<BarrierTouch>>, after: Cache)
    requires ValidBars(bars) && CacheAgrees(cache, bars, terms) && Keyed([book])
    requires forall p :: 0 <= p < |kept| ==> kept[p] in book ==>
               LabelOfSignal(bars, book[kept[p]], terms).Ok? && LabelOfSignal(bars, book[kept[p]], terms).value.Some?
    ensures taken == Trades(bars, book, kept, terms) && earned == Earnings(taken)
    ensures CacheAgrees(after, bars, terms)
  {
    hide LabelOfSignal;
    earned, taken, after := [], [], cache;
    for p := 0 to |kept|
      invariant |taken| == |earned| == p
      invariant forall q :: 0 <= q < p ==> taken[q] == TradeAt(bars, book, kept[q], terms) && earned[q] == Earned(taken[q])
      invariant CacheAgrees(after, bars, terms)
    {
      if kept[p] !in book {
        earned, taken := earned + [0.0], taken + [None];
        continue;
      }
      var touch;
      touch, after := TouchFor(bars, book[kept[p]], terms, after);
      earned, taken := earned + [touch.value.value.realised], taken + [touch.value];
    }
  }

  method LabelSignals(bars: seq<Bar>, variants: seq<Variant>, candidates: seq<nat>, horizon: int, terms: Terms)
    returns (r: Result<Observations>)
    requires ValidBars(bars)
    ensures r == Scored(bars, variants, candidates, horizon, terms)
  {
    hide Sift, Trades, TradeAt, SpansOf, LabelOfSignal;
    var grid, books := Grid(candidates), Books(variants);
    if grid == [] { return Err("no candidates to score"); }
    if HasStray(books, grid) { return Err("a signal falls outside the candidate set"); }
    var sifted, cache := SiftAll(bars, books, grid, terms);
    if sifted.Err? { return Err(sifted.error); }
    var kept := sifted.value.kept;
    var earnings: seq<seq<real>>, trades: seq<seq<Option<BarrierTouch>>> := [], [];
    for v := 0 to |books|
      invariant CacheAgrees(cache, bars, terms)
      invariant |earnings| == |trades| == v
      invariant forall w :: 0 <= w < v ==>
                  trades[w] == Trades(bars, books[w], kept, terms) && earnings[w] == Earnings(trades[w])
    {
      forall p | 0 <= p < |kept| && kept[p] in books[v]
        ensures LabelOfSignal(bars, books[v][kept[p]], terms).Ok? &&
                LabelOfSignal(bars, books[v][kept[p]], terms).value.Some?
      {
        KeptIsLabelled(bars, books, grid, terms, p, v);
      }
      var earned, taken;
      earned, taken, cache := Column(bars, books[v], kept, terms, cache);
      earnings, trades := earnings + [earned], trades + [taken];
    }
    var m := Matrix(bars, books, sifted.value, horizon, terms);
    assert earnings == m.earnings && trades == m.trades;
    return Ok(m.(earnings := earnings, trades := trades));
  }

  // ---- Which candidates survive ----

  lemma {:induction false} InNeeded(books: seq<Book>, index: nat, v: nat)
    requires v < |books| && index in books[v]
    ensures books[v][index] in Needed(books, index)
  {
    if v > 0 { InNeeded(books[1..], index, v - 1); }
  }

  lemma {:induction false} NeededComesFrom(books: seq<Book>, index: nat, s: Signal)
    requires s in Needed(books, index)
    ensures exists v :: 0 <= v < |books| && index in books[v] && books[v][index] == s
  {
    if !(index in books[0] && books[0][index] == s) {
      NeededComesFrom(books[1..], index, s);
      var v :| 0 <= v < |books[1..]| && index in books[1..][v] && books[1..][v][index] == s;
      assert books[v + 1][index] == s;
    }
  }

  lemma {:induction false} FormsMeansAll(bars: seq<Bar>, needed: seq<Signal>, terms: Terms)
    requires ValidBars(bars)
    ensures Forms(bars, needed, terms) == Ok(true) ==>
              forall s :: s in needed ==> LabelOfSignal(bars, s, terms).Ok? && LabelOfSignal(bars, s, terms).value.Some?
    ensures Forms(bars, needed, terms) == Ok(false) ==>
              exists s :: s in needed && LabelOfSignal(bars, s, terms) == Ok(None)
  {
    hide LabelOfSignal;
    if needed != [] {
      FormsMeansAll(bars, needed[1..], terms);
      assert needed[0] in needed;
      assert needed == [needed[0]] + needed[1..];
    }
  }

  /** A candidate is kept when every decision some variant took there could be labelled. */
  ghost predicate Keeps(bars: seq<Bar>, books: seq<Book>, terms: Terms, index: nat)
    requires ValidBars(bars)
  {
    forall v :: 0 <= v < |books| && index in books[v] ==>
      LabelOfSignal(bars, books[v][index], terms).Ok? && LabelOfSignal(bars, books[v][index], terms).value.Some?
  }

  lemma FormsIsKeeps(bars: seq<Bar>, books: seq<Book>, terms: Terms, index: nat)
    requires ValidBars(bars) && Forms(bars, Needed(books, index), terms).Ok?
    ensures Forms(bars, Needed(books, index), terms).value <==> Keeps(bars, books, terms, index)
  {
    hide LabelOfSignal, Forms;
    var needed := Needed(books, index);
    FormsMeansAll(bars, needed, terms);
    forall v | 0 <= v < |books| && index in books[v] ensures books[v][index] in needed { InNeeded(books, index, v); }
    if s :| s in needed && LabelOfSignal(bars, s, terms) == Ok(None) {
      NeededComesFrom(books, index, s);
    }
  }

  /** The grid is shared out in order between the kept, whose labels all formed, and the dropped. */
  lemma {:induction false} SiftPartitions(bars: seq<Bar>, books: seq<Book>, grid: seq<nat>, terms: Terms)
    requires ValidBars(bars) && Sift(bars, books, grid, terms).Ok?
    ensures var s := Sift(bars, books, grid, terms).value;
            && (forall c :: c in s.kept <==> c in grid && Keeps(bars, books, terms, c))
            && (forall c :: c in s.dropped <==> c in grid && !Keeps(bars, books, terms, c))
            && |s.kept| + |s.dropped| == |grid|
  {
    hide Keeps, Forms, Needed;
    if grid != [] {
      var front, last := grid[..|grid| - 1], grid[|grid| - 1];
      SiftPartitions(bars, books, front, terms);
      FormsIsKeeps(bars, books, terms, last);
      assert grid == front + [last];
    }
  }

  lemma KeptIsLabelled(bars: seq<Bar>, books: seq<Book>, grid: seq<nat>, terms: Terms, p: nat, v: nat)
    requires ValidBars(bars) && Sift(bars, books, grid, terms).Ok?
    requires p < |Sift(bars, books, grid, terms).value.kept| && v < |books|
    requires Sift(bars, books, grid, terms).value.kept[p] in books[v]
    ensures var s := books[v][Sift(bars, books, grid, terms).value.kept[p]];
            LabelOfSignal(bars, s, terms).Ok? && LabelOfSignal(bars, s, terms).value.Some?
  {
    var index := Sift(bars, books, grid, terms).value.kept[p];
    SiftPartitions(bars, books, grid, terms);
    hide Sift, LabelOfSignal;
    assert Keeps(bars, books, terms, index);
  }

  lemma {:induction false} KeptAscends(bars: seq<Bar>, books: seq<Book>, grid: seq<nat>, terms: Terms)
    requires ValidBars(bars) && Sift(bars, books, grid, terms).Ok? && Combinations.Ascending(grid)
    ensures Combinations.Ascending(Sift(bars, books, grid, terms).value.kept)
  {
    hide Forms, Needed;
    if grid != [] {
      var front, last := grid[..|grid| - 1], grid[|grid| - 1];
      KeptAscends(bars, books, front, terms);
      SiftPartitions(bars, books, front, terms);
      var kept := Sift(bars, books, front, terms).value.kept;
      forall k | 0 <= k < |kept| ensures kept[k] < last {
        assert kept[k] in kept;
        var g :| 0 <= g < |front| && front[g] == kept[k];
        assert grid[g] < grid[|grid| - 1];
      }
    }
  }

  lemma {:induction false} GridShape(candidates: seq<nat>, bound: nat)
    ensures var g := Select(Range(0, bound), (c: nat) => c in candidates);
            && Combinations.Ascending(g)
            && forall c: nat :: c in g <==> c < bound && c in candidates
  {
    Splits.SelectOfRange(bound, (c: nat) => c in candidates);
    forall c: nat ensures c in Select(Range(0, bound), (x: nat) => x in candidates) <==> c < bound && c in candidates {
      InSelect(Range(0, bound), c, (x: nat) => x in candidates);
      assert c < bound ==> Range(0, bound)[c] == c;
    }
  }

  /** Every candidate is either kept or dropped, both lists ascend, and a single label that cannot be
      formed removes its candidate from all columns. */
  lemma CandidatesPartition(bars: seq<Bar>, variants: seq<Variant>, candidates: seq<nat>, horizon: int, terms: Terms)
    requires ValidBars(bars) && Scored(bars, variants, candidates, horizon, terms).Ok?
    ensures var o := Scored(bars, variants, candidates, horizon, terms).value;
            && Combinations.Ascending(o.candidates)
            && (forall c: nat :: c in o.candidates <==> c in candidates && Keeps(bars, Books(variants), terms, c))
            && (forall c: nat :: c in o.dropped <==> c in candidates && !Keeps(bars, Books(variants), terms, c))
  {
    hide Keeps, Sift;
    var grid := Grid(candidates);
    GridShape(candidates, Bound(candidates));
    SiftPartitions(bars, Books(variants), grid, terms);
    KeptAscends(bars, Books(variants), grid, terms);
  }

  // ---- Columns and spans ----

  lemma {:induction false} ReachCovers(books: seq<Book>, index: nat, horizon: int, v: nat)
    requires v < |books| && index in books[v]
    ensures books[v][index].Reach() <= Reach(books, index, horizon)
  {
    if v < |books| - 1 { ReachCovers(books[..|books| - 1], index, horizon, v); }
  }

  lemma {:induction false} ReachIsFloored(books: seq<Book>, index: nat, horizon: int)
    ensures index + horizon <= Reach(books, index, horizon)
  {
    if books != [] { ReachIsFloored(books[..|books| - 1], index, horizon); }
  }

  /** Every column is aligned on the candidates: variant v's entry p is the label of the decision v
      took on bar candidates[p], or flat when it took none, and the span of p reaches past its exit. */
  lemma ColumnsAreAligned(bars: seq<Bar>, variants: seq<Variant>, candidates: seq<nat>, horizon: int, terms: Terms,
                          v: nat, p: nat)
    requires ValidBars(bars) && Scored(bars, variants, candidates, horizon, terms).Ok?
    requires v < |variants| && p < |Scored(bars, variants, candidates, horizon, terms).value.candidates|
    ensures var o := Scored(bars, variants, candidates, horizon, terms).value;
            var book, index := ByIndex(variants[v].signals), o.candidates[p];
            && |o.earnings| == |o.trades| == |variants| && |o.spans| == |o.candidates|
            && |o.earnings[v]| == |o.trades[v]| == |o.candidates|
            && o.spans[p].0 == index && index + horizon <= o.spans[p].1
            && (o.trades[v][p].Some? <==> index in book)
            && o.earnings[v][p] == (if index in book then o.trades[v][p].value.realised else 0.0)
            && (index in book ==>
                  && LabelOfSignal(bars, book[index], terms) == Ok(o.trades[v][p])
                  && index + o.trades[v][p].value.barsHeld <= o.spans[p].1)
  {
    hide Sift, LabelOfSignal;
    var books := Books(variants);
    var o := Scored(bars, variants, candidates, horizon, terms).value;
    var index := o.candidates[p];
    ReachIsFloored(books, index, horizon);
    if index in books[v] {
      KeptIsLabelled(bars, books, Grid(candidates), terms, p, v);
      ReachCovers(books, index, horizon, v);
      HeldWithinReach(bars, books[v][index], terms, o.trades[v][p].value);
    }
  }

  lemma HeldWithinReach(bars: seq<Bar>, s: Signal, terms: Terms, touch: BarrierTouch)
    requires ValidBars(bars) && LabelOfSignal(bars, s, terms) == Ok(Some(touch))
    ensures s.index + touch.barsHeld <= s.Reach()
  {
    FirstTouchDecides(bars, s.index, s.barriers, terms, touch);
  }
}
