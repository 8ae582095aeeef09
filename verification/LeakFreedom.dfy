/** The claim the whole pipeline exists for: with the decisions fixed, no price a split's test labels
    read can change which variant that split selects. Stated as a comparison of two runs over two
    price histories. */
module LeakFreedom {
  import opened Common
  import opened Market
  import opened Labelling
  import opened Signals
  import opened Evaluation
  import opened CrossValidation
  import opened Splits
  import opened PathScores

  // ---- Which labels form depends on the length of the series, not on its prices ----

  lemma FormationIgnoresPrices(bars: seq<Bar>, other: seq<Bar>, s: Signal, terms: Terms)
    requires ValidBars(bars) && ValidBars(other) && |bars| == |other|
    ensures match LabelOfSignal(bars, s, terms)
            case Err(e) => LabelOfSignal(other, s, terms) == Err(e)
            case Ok(None) => LabelOfSignal(other, s, terms) == Ok(None)
            case Ok(Some(_)) => LabelOfSignal(other, s, terms).Ok? && LabelOfSignal(other, s, terms).value.Some?
  {
    hide TouchAt, ExitOffset;
  }

  lemma {:induction false} FormsIgnoresPrices(bars: seq<Bar>, other: seq<Bar>, needed: seq<Signal>, terms: Terms)
    requires ValidBars(bars) && ValidBars(other) && |bars| == |other|
    ensures Forms(bars, needed, terms) == Forms(other, needed, terms)
  {
    hide LabelOfSignal;
    if needed != [] {
      FormationIgnoresPrices(bars, other, needed[0], terms);
      FormsIgnoresPrices(bars, other, needed[1..], terms);
    }
  }

  lemma {:induction false} SiftIgnoresPrices(bars: seq<Bar>, other: seq<Bar>, books: seq<Book>, grid: seq<nat>, terms: Terms)
    requires ValidBars(bars) && ValidBars(other) && |bars| == |other|
    ensures Sift(bars, books, grid, terms) == Sift(other, books, grid, terms)
  {
    hide Forms, Needed;
    if grid != [] {
      SiftIgnoresPrices(bars, other, books, grid[..|grid| - 1], terms);
      FormsIgnoresPrices(bars, other, Needed(books, grid[|grid| - 1]), terms);
    }
  }

  /** Two price histories of one length give the same candidates, spans and drops, or the same
      refusal. */
  lemma SampleIgnoresPrices(bars: seq<Bar>, other: seq<Bar>, variants: seq<Variant>, candidates: seq<nat>,
                            horizon: int, terms: Terms)
    requires ValidBars(bars) && ValidBars(other) && |bars| == |other|
    ensures match Scored(bars, variants, candidates, horizon, terms)
            case Err(e) => Scored(other, variants, candidates, horizon, terms) == Err(e)
            case Ok(o) =>
              Scored(other, variants, candidates, horizon, terms).Ok? &&
              var o' := Scored(other, variants, candidates, horizon, terms).value;
              o'.candidates == o.candidates && o'.spans == o.spans && o'.dropped == o.dropped
  {
    hide Sift, SpansOf, Trades, Grid;
    SiftIgnoresPrices(bars, other, Books(variants), Grid(candidates), terms);
  }

  // ---- What a training label reads ----

  /** The histories agree on every bar no hull covers. */
  ghost predicate AgreeOutside(bars: seq<Bar>, other: seq<Bar>, hulls: seq<Span>) {
    && |bars| == |other|
    && forall j :: 0 <= j < |bars| && !InSome(hulls, j) ==> bars[j] == other[j]
  }

  ghost predicate InSome(hulls: seq<Span>, j: int) {
    exists h :: 0 <= h < |hulls| && hulls[h].0 <= j <= hulls[h].1
  }

  lemma SameLength(bars: seq<Bar>, other: seq<Bar>, hulls: seq<Span>)
    requires AgreeOutside(bars, other, hulls)
    ensures |bars| == |other|
  {
  }

  lemma SurvivorReadsNoHull(bars: seq<Bar>, other: seq<Bar>, span: Span, hulls: seq<Span>, embargo: int)
    requires AgreeOutside(bars, other, hulls) && Survives(span, hulls, embargo)
    ensures AgreeOn(bars, other, span.0, span.1)
  {
    forall j | span.0 <= j <= span.1 && 0 <= j < |bars| ensures bars[j] == other[j] {
      forall h | 0 <= h < |hulls| ensures !(hulls[h].0 <= j <= hulls[h].1) { assert !Overlap(span, hulls[h]); }
    }
  }

  /** An observation whose whole span the histories agree on earned the same in both, whatever
      variant is asked. */
  lemma AgreeingCell(bars: seq<Bar>, other: seq<Bar>, variants: seq<Variant>, candidates: seq<nat>,
                     horizon: int, terms: Terms, v: nat, p: nat)
    requires ValidBars(bars) && ValidBars(other)
    requires Scored(bars, variants, candidates, horizon, terms).Ok?
    requires Scored(other, variants, candidates, horizon, terms).Ok?
    requires v < |variants| && p < |Scored(bars, variants, candidates, horizon, terms).value.candidates|
    requires |bars| == |other|
    requires var span := Scored(bars, variants, candidates, horizon, terms).value.spans[p];
             AgreeOn(bars, other, span.0, span.1)
    ensures var o := Scored(bars, variants, candidates, horizon, terms).value;
            var o' := Scored(other, variants, candidates, horizon, terms).value;
            && v < |o.earnings| && v < |o'.earnings| && p < |o.earnings[v]| && p < |o'.earnings[v]|
            && o.earnings[v][p] == o'.earnings[v][p]
  {
    hide Sift, LabelOfSignal;
    SampleIgnoresPrices(bars, other, variants, candidates, horizon, terms);
    var o := Scored(bars, variants, candidates, horizon, terms).value;
    var index, books := o.candidates[p], Books(variants);
    var book := books[v];
    if index in book {
      ReachCovers(books, index, horizon, v);
      SameLabel(bars, other, book[index], terms, o.spans[p].1);
    }
  }

  lemma SameLabel(bars: seq<Bar>, other: seq<Bar>, s: Signal, terms: Terms, last: int)
    requires ValidBars(bars) && ValidBars(other) && AgreeOn(bars, other, s.index, last) && s.Reach() <= last
    ensures LabelOfSignal(bars, s, terms) == LabelOfSignal(other, s, terms)
  {
    LabelIsLocal(bars, other, s.index, s.barriers, terms);
  }

  // ---- Selection ----

  ghost predicate SameColumnsAt(a: seq<seq<real>>, b: seq<seq<real>>, indices: seq<nat>) {
    && |a| == |b|
    && forall v, k :: 0 <= v < |a| && 0 <= k < |indices| ==>
         indices[k] < |a[v]| && indices[k] < |b[v]| && a[v][indices[k]] == b[v][indices[k]]
  }

  /** The selection sees nothing of the matrix but its training rows. */
  lemma SameScores(sharpe: Sharpe, a: seq<seq<real>>, b: seq<seq<real>>, train: seq<nat>)
    requires SameColumnsAt(a, b, train)
    ensures forall v :: 0 <= v < |a| ==> Below(train, |a[v]|) && Below(train, |b[v]|)
    ensures TrainScores(sharpe, a, train) == TrainScores(sharpe, b, train)
  {
    forall v | 0 <= v < |a| ensures Below(train, |a[v]|) && Below(train, |b[v]|) && Pick(a[v], train) == Pick(b[v], train) {
      forall k | 0 <= k < |train| ensures train[k] < |a[v]| && train[k] < |b[v]| && a[v][train[k]] == b[v][train[k]] {}
    }
  }

  /** End-to-end leak freedom. Fix the decisions and let two price histories of one length agree on
      every bar outside the hulls of a split's test blocks. Both runs then draw the same split, give
      every variant the same training score, and select the same winner, for every Sharpe there is. */
  lemma SelectionIsLeakFree(design: Design, groups: seq<nat>, sharpe: Sharpe, bars: seq<Bar>, other: seq<Bar>,
                            variants: seq<Variant>, candidates: seq<nat>, horizon: int, terms: Terms)
    requires design.Valid() && IsTestSet(design, groups) && variants != []
    requires ValidBars(bars) && ValidBars(other)
    requires Scored(bars, variants, candidates, horizon, terms).Ok?
    requires AgreeOutside(bars, other, SplitHulls(design, Scored(bars, variants, candidates, horizon, terms).value.spans, groups))
    ensures Scored(other, variants, candidates, horizon, terms).Ok?
    ensures var o := Scored(bars, variants, candidates, horizon, terms).value;
            var o' := Scored(other, variants, candidates, horizon, terms).value;
            var train := SplitOf(design, o.spans, groups).train;
            && SplitOf(design, o'.spans, groups) == SplitOf(design, o.spans, groups)
            && |o.earnings| == |o'.earnings| == |variants|
            && (forall v :: 0 <= v < |o.earnings| ==> Below(train, |o.earnings[v]|) && Below(train, |o'.earnings[v]|))
            && TrainScores(sharpe, o.earnings, train) == TrainScores(sharpe, o'.earnings, train)
            && Winner(sharpe, o.earnings, train) == Winner(sharpe, o'.earnings, train)
  {
    hide Scored, SplitOf, SplitHulls, IsTestSet, Survives, AgreeOutside;
    SameLength(bars, other, SplitHulls(design, Scored(bars, variants, candidates, horizon, terms).value.spans, groups));
    SampleIgnoresPrices(bars, other, variants, candidates, horizon, terms);
    MatrixWidth(bars, variants, candidates, horizon, terms);
    MatrixWidth(other, variants, candidates, horizon, terms);
    var o := Scored(bars, variants, candidates, horizon, terms).value;
    var o' := Scored(other, variants, candidates, horizon, terms).value;
    var train := SplitOf(design, o.spans, groups).train;
    forall v, k | 0 <= v < |o.earnings| && 0 <= k < |train|
      ensures train[k] < |o.earnings[v]| && train[k] < |o'.earnings[v]| && o.earnings[v][train[k]] == o'.earnings[v][train[k]]
    {
      TrainIsExact(design, o.spans, groups, train[k]);
      SurvivorReadsNoHull(bars, other, o.spans[train[k]], SplitHulls(design, o.spans, groups), design.embargo);
      AgreeingCell(bars, other, variants, candidates, horizon, terms, v, train[k]);
    }
    SameScores(sharpe, o.earnings, o'.earnings, train);
  }

  lemma MatrixWidth(bars: seq<Bar>, variants: seq<Variant>, candidates: seq<nat>, horizon: int, terms: Terms)
    requires ValidBars(bars) && Scored(bars, variants, candidates, horizon, terms).Ok?
    ensures var o := Scored(bars, variants, candidates, horizon, terms).value;
            |o.earnings| == |variants| && |o.spans| == |o.candidates| && Rectangular(o.earnings, |o.candidates|)
  {
    hide Sift, SpansOf, Trades, Grid, HasStray;
  }

  /** So no observation helps choose the variant it is scored with: rewrite every bar its own label
      reads, and each split that tests it still selects the same winner. */
  lemma OwnBarsCannotChoose(design: Design, groups: seq<nat>, sharpe: Sharpe, bars: seq<Bar>, other: seq<Bar>,
                            variants: seq<Variant>, candidates: seq<nat>, horizon: int, terms: Terms, i: nat)
    requires design.Valid() && IsTestSet(design, groups) && variants != []
    requires ValidBars(bars) && ValidBars(other) && |bars| == |other|
    requires Scored(bars, variants, candidates, horizon, terms).Ok?
    requires i in SplitOf(design, Scored(bars, variants, candidates, horizon, terms).value.spans, groups).test
    requires var span := if i < |Scored(bars, variants, candidates, horizon, terms).value.spans|
                         then Scored(bars, variants, candidates, horizon, terms).value.spans[i] else (0, 0);
             forall j :: 0 <= j < |bars| && !(span.0 <= j <= span.1) ==> bars[j] == other[j]
    ensures Scored(other, variants, candidates, horizon, terms).Ok?
    ensures var o := Scored(bars, variants, candidates, horizon, terms).value;
            var o' := Scored(other, variants, candidates, horizon, terms).value;
            var train := SplitOf(design, o.spans, groups).train;
            && (forall v :: 0 <= v < |o.earnings| ==> Below(train, |o.earnings[v]|) && Below(train, |o'.earnings[v]|))
            && |o.earnings| == |o'.earnings| > 0
            && Winner(sharpe, o.earnings, train) == Winner(sharpe, o'.earnings, train)
  {
    hide Scored, SplitOf, SplitHulls, IsTestSet;
    var o := Scored(bars, variants, candidates, horizon, terms).value;
    var h := TestLabelInHull(design, o.spans, groups, i);
    var hulls := SplitHulls(design, o.spans, groups);
    forall j | 0 <= j < |bars| && !InSome(hulls, j) ensures bars[j] == other[j] {
      assert !(hulls[h].0 <= j <= hulls[h].1);
    }
    SelectionIsLeakFree(design, groups, sharpe, bars, other, variants, candidates, horizon, terms);
  }
}
