/** Choosing a winner per split and scoring it where the split never looked. */
module PathScores {
  import opened Common
  import opened CrossValidation
  import opened Combinations
  import opened Splits
  import opened Paths

  /** The Sharpe ratio of a series, known here only as a function of it. */
  type Sharpe = seq<real> -> real

  /** A flat slice demonstrates no edge. */
  function SharpeOrFlat(sharpe: Sharpe, series: seq<real>): real {
    if |series| < 2 || (forall i :: 0 <= i < |series| ==> series[i] == series[0]) then 0.0 else sharpe(series)
  }

  ghost predicate Rectangular(earnings: seq<seq<real>>, n: nat) {
    forall v :: 0 <= v < |earnings| ==> |earnings[v]| == n
  }

  function Pick(series: seq<real>, indices: seq<nat>): (r: seq<real>)
    requires Below(indices, |series|)
  {
    seq(|indices|, k requires 0 <= k < |indices| => series[indices[k]])
  }

  function TrainScores(sharpe: Sharpe, earnings: seq<seq<real>>, train: seq<nat>): (r: seq<real>)
    requires forall v :: 0 <= v < |earnings| ==> Below(train, |earnings[v]|)
    ensures |r| == |earnings|
  {
    seq(|earnings|, v requires 0 <= v < |earnings| => SharpeOrFlat(sharpe, Pick(earnings[v], train)))
  }

  /** The position of the first largest among the first n scores. */
  function FirstMax(scores: seq<real>, n: nat): (m: nat)
    requires 1 <= n <= |scores|
    ensures m < n
  {
    if n == 1 then 0
    else
      var m := FirstMax(scores, n - 1);
      if scores[n - 1] > scores[m] then n - 1 else m
  }

  lemma {:induction false} FirstMaxIsFirst(scores: seq<real>, n: nat)
    requires 1 <= n <= |scores|
    ensures forall k :: 0 <= k < n ==> scores[k] <= scores[FirstMax(scores, n)]
    ensures forall k :: 0 <= k < FirstMax(scores, n) ==> scores[k] < scores[FirstMax(scores, n)]
  {
    if n > 1 { FirstMaxIsFirst(scores, n - 1); }
  }

  function Winner(sharpe: Sharpe, earnings: seq<seq<real>>, train: seq<nat>): (v: nat)
    requires earnings != [] && forall v :: 0 <= v < |earnings| ==> Below(train, |earnings[v]|)
    ensures v < |earnings|
  {
    FirstMax(TrainScores(sharpe, earnings, train), |earnings|)
  }

  method Choose(sharpe: Sharpe, earnings: seq<seq<real>>, train: seq<nat>) returns (best: nat)
    requires earnings != [] && forall v :: 0 <= v < |earnings| ==> Below(train, |earnings[v]|)
    ensures best == Winner(sharpe, earnings, train)
  {
    ghost var scores := TrainScores(sharpe, earnings, train);
    best := 0;
    var high := SharpeOrFlat(sharpe, Pick(earnings[0], train));
    for v := 1 to |earnings|
      invariant best == FirstMax(scores, v) && high == scores[best]
    {
      var score := SharpeOrFlat(sharpe, Pick(earnings[v], train));
      if score > high { best, high := v, score; }
    }
  }

  // ---- Out-of-sample paths ----

  ghost predicate ChosenFits(design: Design, chosen: seq<nat>, variants: nat) {
    |chosen| == |TestSets(design)| && forall s :: 0 <= s < |chosen| ==> chosen[s] < variants
  }

  ghost predicate LegsFit(path: seq<Leg>, splits: nat, groups: nat) {
    forall k :: 0 <= k < |path| ==> path[k].0 < splits && path[k].1 < groups
  }

  /** Leg by leg, the chosen variant's returns over the leg's group. */
  function SeriesOf(path: seq<Leg>, chosen: seq<nat>, earnings: seq<seq<real>>, n: nat, N: nat): seq<real>
    requires N > 0 && Rectangular(earnings, n)
    requires forall s :: 0 <= s < |chosen| ==> chosen[s] < |earnings|
    requires LegsFit(path, |chosen|, N)
  {
    if path == [] then []
    else
      var leg := path[|path| - 1];
      BlockFits(n, N, leg.1);
      SeriesOf(path[..|path| - 1], chosen, earnings, n, N) + Pick(earnings[chosen[leg.0]], Blocks(n, N)[leg.1])
  }

  lemma BlockFits(n: nat, N: nat, g: nat)
    requires g < N
    ensures Below(Blocks(n, N)[g], n)
    ensures |Blocks(n, N)[g]| == BlockStart(n, N, g + 1) - BlockStart(n, N, g) >= 0
    ensures forall k :: 0 <= k < |Blocks(n, N)[g]| ==> Blocks(n, N)[g][k] == BlockStart(n, N, g) + k
  {
    StartsAscend(n, N, g, g + 1);
    StartsAscend(n, N, g + 1, N);
    StartsCover(n, N);
    hide BlockStart;
  }

  lemma PathLegsFit(design: Design, path: seq<Leg>, p: nat)
    requires IsPath(design, path, p)
    ensures LegsFit(path, |TestSets(design)|, design.groups)
  {
    hide TestSets;
    forall g | 0 <= g < |path| ensures path[g].0 < |TestSets(design)| && path[g].1 < design.groups {
      assert IsLeg(design, path[g], g, p);
    }
  }

  /** Every path of the design scored out of sample. */
  method PathSharpes(design: Design, spans: seq<Span>, sharpe: Sharpe, earnings: seq<seq<real>>)
    returns (r: Result<seq<real>>, ghost chosen: seq<nat>, ghost paths: seq<seq<Leg>>)
    requires design.Valid() && Rectangular(earnings, |spans|)
    ensures r.Err? <==> |spans| < design.groups || earnings == []
    ensures r.Ok? ==> ChosenFits(design, chosen, |earnings|)
    ensures r.Ok? ==> forall s :: 0 <= s < |chosen| ==> IsChoice(design, spans, sharpe, earnings, s, chosen[s])
    ensures r.Ok? ==> |paths| == |r.value| == PathCount(design)
    ensures r.Ok? ==> forall p :: 0 <= p < |paths| ==> IsPath(design, paths[p], p)
    ensures r.Ok? ==> forall p :: 0 <= p < |paths| ==>
              IsScore(design, |spans|, sharpe, earnings, chosen, paths[p], p, r.value[p])
  {
    hide TestSets, SplitOf, Winner, SeriesOf, PathCount;
    chosen, paths := [], [];
    var splits := AllSplits(design, spans);
    if splits.Err? { return Err(splits.error), chosen, paths; }
    assert |splits.value| == |TestSets(design)| by { SameTestSets(design); }
    TestSetsExist(design);
    if earnings == [] { return Err("max of no variants"), chosen, paths; }
    var picked: seq<nat> := [];
    for s := 0 to |splits.value|
      invariant |picked| == s
      invariant forall t :: 0 <= t < s ==>
                  picked[t] < |earnings| && IsChoice(design, spans, sharpe, earnings, t, picked[t])
    {
      SameTestSets(design);
      assert splits.value[s] == SplitOf(design, spans, TestSets(design)[s]);
      TrainBelow(design, spans, TestSets(design)[s]);
      var best := Choose(sharpe, earnings, splits.value[s].train);
      picked := picked + [best];
    }
    chosen := picked;
    var assembled := Assemble(design);
    paths := assembled;
    var sharpes: seq<real> := [];
    for p := 0 to |assembled|
      invariant |sharpes| == p
      invariant forall q :: 0 <= q < p ==>
                  IsScore(design, |spans|, sharpe, earnings, chosen, assembled[q], q, sharpes[q])
    {
      PathLegsFit(design, assembled[p], p);
      var series := Walk(design, |spans|, assembled[p], picked, earnings);
      sharpes := sharpes + [SharpeOrFlat(sharpe, series)];
    }
    return Ok(sharpes), chosen, paths;
  }

  method Walk(design: Design, n: nat, path: seq<Leg>, chosen: seq<nat>, earnings: seq<seq<real>>)
    returns (series: seq<real>)
    requires design.groups > 0 && Rectangular(earnings, n)
    requires forall s :: 0 <= s < |chosen| ==> chosen[s] < |earnings|
    requires LegsFit(path, |chosen|, design.groups)
    ensures series == SeriesOf(path, chosen, earnings, n, design.groups)
  {
    series := [];
    for k := 0 to |path|
      invariant series == SeriesOf(path[..k], chosen, earnings, n, design.groups)
    {
      var (split, group) := path[k];
      BlockFits(n, design.groups, group);
      assert path[..k + 1][..k] == path[..k];
      series := series + Pick(earnings[chosen[split]], Blocks(n, design.groups)[group]);
    }
    assert path[..|path|] == path;
  }

  /** Split s chose v: the first variant with the largest Sharpe over the split's training set. */
  ghost predicate IsChoice(design: Design, spans: seq<Span>, sharpe: Sharpe, earnings: seq<seq<real>>, s: nat, v: nat)
    requires design.Valid() && earnings != [] && Rectangular(earnings, |spans|) && s < |TestSets(design)|
  {
    TrainBelow(design, spans, TestSets(design)[s]);
    v == Winner(sharpe, earnings, SplitOf(design, spans, TestSets(design)[s]).train)
  }

  ghost predicate IsScore(design: Design, n: nat, sharpe: Sharpe, earnings: seq<seq<real>>, chosen: seq<nat>,
                          path: seq<Leg>, p: nat, score: real)
    requires design.Valid() && Rectangular(earnings, n) && ChosenFits(design, chosen, |earnings|)
    requires IsPath(design, path, p)
  {
    PathLegsFit(design, path, p);
    score == SharpeOrFlat(sharpe, SeriesOf(path, chosen, earnings, n, design.groups))
  }

  lemma SameTestSets(design: Design)
    ensures TestSets(design) == Subsets(0, design.groups, design.testGroups)
  {
  }

  lemma TestSetsExist(design: Design)
    requires design.Valid()
    ensures |TestSets(design)| > 0
  {
    SubsetsCount(0, design.groups, design.testGroups);
    BinomialPositive(design.groups, design.testGroups);
  }

  lemma {:induction false} BinomialPositive(n: nat, k: nat)
    requires k <= n
    ensures Binomial(n, k) > 0
  {
    if k > 0 { BinomialPositive(n - 1, k - 1); }
  }

  lemma TrainBelow(design: Design, spans: seq<Span>, groups: seq<nat>)
    requires design.groups > 0 && IsTestSet(design, groups)
    ensures Below(SplitOf(design, spans, groups).train, |spans|)
  {
    hide SplitOf;
    var train := SplitOf(design, spans, groups).train;
    forall k | 0 <= k < |train| ensures train[k] < |spans| {
      TrainIsExact(design, spans, groups, train[k]);
    }
  }

  // ---- A path is a complete walk ----

  /** Observation i, a member of group h, appears in the series with the return of h's chosen variant. */
  ghost predicate Walked(n: nat, N: nat, path: seq<Leg>, chosen: seq<nat>, earnings: seq<seq<real>>,
                         series: seq<real>, h: nat, i: nat)
    requires h < N && h < |path| && path[h].0 < |chosen| && chosen[path[h].0] < |earnings| && Rectangular(earnings, n)
  {
    i in Blocks(n, N)[h] ==> i < |series| && i < n && series[i] == earnings[chosen[path[h].0]][i]
  }

  lemma {:induction false} WalkSoFar(design: Design, n: nat, path: seq<Leg>, p: nat, g: nat, chosen: seq<nat>,
                                     earnings: seq<seq<real>>)
    requires design.Valid() && IsPath(design, path, p) && g <= design.groups && Rectangular(earnings, n)
    requires ChosenFits(design, chosen, |earnings|)
    ensures LegsFit(path, |chosen|, design.groups) && LegsFit(path[..g], |chosen|, design.groups)
    ensures var series := SeriesOf(path[..g], chosen, earnings, n, design.groups);
            && |series| == BlockStart(n, design.groups, g)
            && forall h: nat, i: nat :: h < g ==> Walked(n, design.groups, path, chosen, earnings, series, h, i)
  {
    hide TestSets, Blocks, BlockStart;
    PathLegsFit(design, path, p);
    if g == 0 {
      ZeroStart(n, design.groups);
    } else {
      WalkSoFar(design, n, path, p, g - 1, chosen, earnings);
      assert path[..g][..g - 1] == path[..g - 1];
      assert IsLeg(design, path[g - 1], g - 1, p);
      BlockFits(n, design.groups, g - 1);
      var front, column := SeriesOf(path[..g - 1], chosen, earnings, n, design.groups), earnings[chosen[path[g - 1].0]];
      var block := Blocks(n, design.groups)[g - 1];
      WalkStep(front, column, block);
      var series := SeriesOf(path[..g], chosen, earnings, n, design.groups);
      assert series == front + Pick(column, block);
      hide SeriesOf, Pick;
      forall h: nat, i: nat | h < g ensures Walked(n, design.groups, path, chosen, earnings, series, h, i) {
        assert h < g - 1 ==> Walked(n, design.groups, path, chosen, earnings, front, h, i);
      }
    }
  }

  lemma ZeroStart(n: nat, N: nat)
    requires N > 0
    ensures BlockStart(n, N, 0) == 0
  {
  }

  lemma WalkStep(front: seq<real>, column: seq<real>, block: seq<nat>)
    requires Below(block, |column|)
    requires forall k :: 0 <= k < |block| ==> block[k] == |front| + k
    ensures |front + Pick(column, block)| == |front| + |block|
    ensures forall i :: i in block ==> i < |front + Pick(column, block)| && (front + Pick(column, block))[i] == column[i]
  {
  }

  /** Each path is a full walk: one entry per observation in observation order, and the entry for an
      observation comes from a split that held that observation out. */
  lemma PathIsCompleteWalk(design: Design, spans: seq<Span>, path: seq<Leg>, p: nat, chosen: seq<nat>,
                           earnings: seq<seq<real>>, i: nat) returns (split: nat)
    requires design.Valid() && IsPath(design, path, p) && design.groups <= |spans|
    requires Rectangular(earnings, |spans|) && ChosenFits(design, chosen, |earnings|)
    requires LegsFit(path, |chosen|, design.groups)
    requires i < |spans|
    ensures |SeriesOf(path, chosen, earnings, |spans|, design.groups)| == |spans|
    ensures split < |chosen|
    ensures SeriesOf(path, chosen, earnings, |spans|, design.groups)[i] == earnings[chosen[split]][i]
    ensures i in SplitOf(design, spans, TestSets(design)[split]).test
  {
    hide SplitOf;
    var n, N := |spans|, design.groups;
    WalkSoFar(design, n, path, p, N, chosen, earnings);
    assert path[..N] == path;
    StartsCover(n, N);
    var g := GroupOf(n, N, i, N);
    hide SeriesOf, BlockStart, Blocks;
    assert IsLeg(design, path[g], g, p);
    assert Walked(n, N, path, chosen, earnings, SeriesOf(path, chosen, earnings, n, N), g, i);
    split := path[g].0;
    var groups := TestSets(design)[split];
    TestSetShape(design, groups);
    TestIsMembers(design, spans, groups);
    InMembers(groups, Blocks(n, N), i);
  }

  /** When every split chooses the same variant, every path is that variant's returns. */
  lemma UnanimousPathsAreReturns(design: Design, spans: seq<Span>, path: seq<Leg>, p: nat, chosen: seq<nat>,
                                 earnings: seq<seq<real>>, v: nat)
    requires design.Valid() && IsPath(design, path, p) && design.groups <= |spans|
    requires Rectangular(earnings, |spans|) && ChosenFits(design, chosen, |earnings|)
    requires LegsFit(path, |chosen|, design.groups)
    requires v < |earnings| && forall s :: 0 <= s < |chosen| ==> chosen[s] == v
    ensures SeriesOf(path, chosen, earnings, |spans|, design.groups) == earnings[v]
  {
    hide SeriesOf;
    var series := SeriesOf(path, chosen, earnings, |spans|, design.groups);
    var first := PathIsCompleteWalk(design, spans, path, p, chosen, earnings, 0);
    forall i | 0 <= i < |spans| ensures series[i] == earnings[v][i] {
      var split := PathIsCompleteWalk(design, spans, path, p, chosen, earnings, i);
    }
  }
}
