/** Walk-forward: every block after the first is tested on what came before it. */
module WalkForward {
  import opened Common
  import opened Sequences
  import opened Combinations
  import opened CrossValidation
  import opened Splits

  datatype Plan = Plan(splits: nat, embargo: int, expanding: bool) {
    predicate Valid() { splits >= 1 && embargo >= 0 }
  }

  /** The groups a fold may train on. */
  function Earlier(plan: Plan, fold: nat): (r: seq<nat>)
    requires fold >= 1
    ensures Ascending(r) && Below(r, fold)
  {
    if plan.expanding then Range(0, fold) else Range(fold - 1, fold)
  }

  function FoldCandidates(plan: Plan, n: nat, fold: nat): (r: seq<nat>)
    requires 1 <= fold <= plan.splits
    ensures Ascending(r) && Below(r, n)
  {
    MembersAscend(Earlier(plan, fold), n, plan.splits + 1);
    Members(Earlier(plan, fold), Blocks(n, plan.splits + 1))
  }

  function FoldTest(plan: Plan, n: nat, fold: nat): (r: seq<nat>)
    requires 1 <= fold <= plan.splits
    ensures Below(r, n)
  {
    var N := plan.splits + 1;
    StartsAscend(n, N, fold + 1, N);
    StartsCover(n, N);
    Blocks(n, N)[fold]
  }

  function FoldOf(plan: Plan, spans: seq<Span>, fold: nat): Split
    requires 1 <= fold <= plan.splits
  {
    var test := FoldTest(plan, |spans|, fold);
    var purge := PurgeOf(FoldCandidates(plan, |spans|, fold), spans, Hulls([test], spans), plan.embargo);
    Split(purge.kept, test, [fold], purge.purged, purge.embargoed)
  }

  method Folds(plan: Plan, spans: seq<Span>) returns (r: Result<seq<Split>>)
    requires plan.Valid()
    ensures r.Err? <==> |spans| <= plan.splits
    ensures r.Ok? ==> |r.value| == plan.splits
    ensures r.Ok? ==> forall fold :: 1 <= fold <= plan.splits ==> r.value[fold - 1] == FoldOf(plan, spans, fold)
  {
    hide FoldOf, Blocks;
    var grouped := Groups(|spans|, plan.splits + 1);
    if grouped.Err? { return Err(grouped.error); }
    var blocks := grouped.value;
    var folds: seq<Split> := [];
    for fold := 1 to plan.splits + 1
      invariant |folds| == fold - 1
      invariant forall f :: 1 <= f < fold ==> folds[f - 1] == FoldOf(plan, spans, f)
    {
      var split := OneFold(plan, spans, blocks, fold);
      folds := folds + [split];
    }
    return Ok(folds);
  }

  method OneFold(plan: Plan, spans: seq<Span>, blocks: seq<seq<nat>>, fold: nat) returns (split: Split)
    requires plan.Valid() && 1 <= fold <= plan.splits
    requires blocks == Blocks(|spans|, plan.splits + 1)
    ensures split == FoldOf(plan, spans, fold)
  {
    var test := blocks[fold];
    assert test == FoldTest(plan, |spans|, fold);
    var candidates := Members(Earlier(plan, fold), blocks);
    assert candidates == FoldCandidates(plan, |spans|, fold);
    hide Blocks, Members, FoldTest, FoldCandidates;
    var purge := PurgeAndEmbargo(candidates, [test], spans, plan.embargo);
    split := Split(purge.value.kept, test, [fold], purge.value.purged, purge.value.embargoed);
  }

  // ---- Causality ----

  /** Observations are listed in the order their positions opened, and none closes before it opens. */
  ghost predicate InTimeOrder(spans: seq<Span>) {
    && (forall i :: 0 <= i < |spans| ==> spans[i].0 <= spans[i].1)
    && (forall i, j :: 0 <= i < j < |spans| ==> spans[i].0 <= spans[j].0)
  }

  lemma FoldHull(plan: Plan, spans: seq<Span>, fold: nat) returns (hull: Span)
    requires plan.Valid() && 1 <= fold <= plan.splits < |spans|
    requires InTimeOrder(spans)
    ensures Hulls([FoldTest(plan, |spans|, fold)], spans) == [hull]
    ensures hull.0 <= hull.1
    ensures forall t :: t in FoldTest(plan, |spans|, fold) ==> hull.0 <= spans[t].0
    ensures forall i :: i in FoldCandidates(plan, |spans|, fold) ==> spans[i].0 <= hull.0
  {
    var n, N := |spans|, plan.splits + 1;
    var test := FoldTest(plan, n, fold);
    StartsAscend(n, N, fold, fold + 1);
    HullIsTight(test, spans);
    hull := (FirstOpen(test, spans), LastClose(test, spans));
    var none: seq<seq<nat>> := [];
    assert [test][..0] == none;
    var a :| 0 <= a < |test| && spans[test[a]].0 == hull.0;
    forall i | i in FoldCandidates(plan, n, fold) ensures spans[i].0 <= hull.0 {
      CandidateIsEarlier(plan, n, fold, i);
      assert i < test[a];
    }
  }

  lemma CandidateIsEarlier(plan: Plan, n: nat, fold: nat, i: nat)
    requires 1 <= fold <= plan.splits
    requires i in FoldCandidates(plan, n, fold)
    ensures i < BlockStart(n, plan.splits + 1, fold)
  {
    var N := plan.splits + 1;
    hide BlockStart, Blocks;
    InMembers(Earlier(plan, fold), Blocks(n, N), i);
    var g :| g in Earlier(plan, fold) && i in Blocks(n, N)[g];
    BlockBounds(n, N, g, i);
    StartsAscend(n, N, g + 1, fold);
  }

  lemma BlockBounds(n: nat, N: nat, g: nat, i: nat)
    requires g < N && i in Blocks(n, N)[g]
    ensures BlockStart(n, N, g) <= i < BlockStart(n, N, g + 1)
  {
    hide BlockStart;
    StartsAscend(n, N, g, g + 1);
  }

  lemma TestIsLater(plan: Plan, n: nat, fold: nat, t: nat)
    requires 1 <= fold <= plan.splits
    requires t in FoldTest(plan, n, fold)
    ensures BlockStart(n, plan.splits + 1, fold) <= t
  {
  }

  lemma {:induction false} NothingTrails(candidates: seq<nat>, spans: seq<Span>, hull: Span, embargo: int)
    requires Below(candidates, |spans|)
    requires forall i :: 0 <= i < |candidates| ==> spans[candidates[i]].0 <= hull.1
    ensures PurgeOf(candidates, spans, [hull], embargo) == PurgeOf(candidates, spans, [hull], 0)
    ensures PurgeOf(candidates, spans, [hull], embargo).embargoed == 0
  {
    if candidates != [] {
      NothingTrails(candidates[..|candidates| - 1], spans, hull, embargo);
    }
  }

  /** The property walk-forward exists for: whatever it trains on had closed before any test
      position opened. */
  lemma TrainingClosesFirst(plan: Plan, spans: seq<Span>, fold: nat, i: nat, t: nat)
    requires plan.Valid() && 1 <= fold <= plan.splits < |spans|
    requires InTimeOrder(spans)
    requires i in FoldOf(plan, spans, fold).train && t in FoldOf(plan, spans, fold).test
    ensures i < t < |spans| && spans[i].1 < spans[t].0
  {
    hide FoldTest, FoldCandidates, PurgeOf, Hulls, InTimeOrder, BlockStart, Blocks;
    var hull := FoldHull(plan, spans, fold);
    var candidates := FoldCandidates(plan, |spans|, fold);
    PurgeIsExact(candidates, spans, [hull], plan.embargo);
    Sorting.InSelect(candidates, i, (j: nat) => j < |spans| && Survives(spans[j], [hull], plan.embargo));
    CandidateIsEarlier(plan, |spans|, fold, i);
    TestIsLater(plan, |spans|, fold, t);
    assert !Overlap(spans[i], [hull][0]);
  }

  lemma SameTest(plan: Plan, n: nat, fold: nat)
    requires 1 <= fold <= plan.splits
    ensures FoldTest(plan, n, fold) == FoldTest(plan.(embargo := 0), n, fold)
  {
  }

  /** The embargo looks only forward from a test block, and a fold trains only on what precedes its
      block, so on time-ordered spans every embargo gives the same folds and none drops anything. */
  lemma EmbargoIsInert(plan: Plan, spans: seq<Span>, fold: nat)
    requires plan.Valid() && 1 <= fold <= plan.splits < |spans|
    requires InTimeOrder(spans)
    ensures FoldOf(plan, spans, fold) == FoldOf(plan.(embargo := 0), spans, fold)
    ensures FoldOf(plan, spans, fold).embargoed == 0
  {
    hide FoldTest, PurgeOf, Hulls, InTimeOrder, BlockStart, Blocks;
    var hull := FoldHull(plan, spans, fold);
    var candidates := FoldCandidates(plan, |spans|, fold);
    assert candidates == FoldCandidates(plan.(embargo := 0), |spans|, fold);
    SameTest(plan, |spans|, fold);
    forall k | 0 <= k < |candidates| ensures spans[candidates[k]].0 <= hull.1 {
      assert candidates[k] in candidates;
    }
    NothingTrails(candidates, spans, hull, plan.embargo);
  }

  /** The gap an embargo is documented to leave: no training label closes within `embargo` before the test
      block opens. */
  ghost predicate LeavesGap(plan: Plan, spans: seq<Span>, fold: nat)
    requires 1 <= fold <= plan.splits < |spans|
  {
    forall i :: i in FoldOf(plan, spans, fold).train ==> i < |spans| && spans[i].1 < TestOpens(plan, spans, fold) - plan.embargo
  }

  ghost function TestOpens(plan: Plan, spans: seq<Span>, fold: nat): int
    requires 1 <= fold <= plan.splits < |spans|
  {
    StartsAscend(|spans|, plan.splits + 1, fold, fold + 1);
    FirstOpen(FoldTest(plan, |spans|, fold), spans)
  }

  /** The gap is there if and only if the data leave it: no label the fold may train on closes in the
      embargo before the test block opens. */
  lemma GapExactlyWhen(plan: Plan, spans: seq<Span>, fold: nat)
    requires plan.Valid() && 1 <= fold <= plan.splits < |spans| && InTimeOrder(spans)
    ensures LeavesGap(plan, spans, fold) <==>
              forall i :: i in FoldCandidates(plan, |spans|, fold) ==>
                !(TestOpens(plan, spans, fold) - plan.embargo <= spans[i].1 < TestOpens(plan, spans, fold))
  {
    hide FoldTest, FoldCandidates, PurgeOf, InTimeOrder, BlockStart, Blocks;
    var hull := FoldHull(plan, spans, fold);
    HullOpens(plan, spans, fold, hull);
    var candidates := FoldCandidates(plan, |spans|, fold);
    PurgeIsExact(candidates, spans, [hull], plan.embargo);
    forall i: nat ensures i in FoldOf(plan, spans, fold).train <==> i in candidates && spans[i].1 < hull.0 {
      Sorting.InSelect(candidates, i, (j: nat) => j < |spans| && Survives(spans[j], [hull], plan.embargo));
      if i in candidates { SurvivesExactlyWhen(spans[i], hull, plan.embargo); }
    }
  }

  lemma SurvivesExactlyWhen(span: Span, hull: Span, embargo: int)
    requires span.0 <= hull.0 <= hull.1
    ensures Survives(span, [hull], embargo) <==> span.1 < hull.0
  {
    assert [hull][0] == hull;
  }

  lemma HullOfOne(block: seq<nat>, spans: seq<Span>)
    requires block != [] && Below(block, |spans|)
    ensures IndicesFit([block], |spans|) && Hulls([block], spans) == [(FirstOpen(block, spans), LastClose(block, spans))]
  {
    var none: seq<seq<nat>> := [];
    assert [block][..0] == none;
    hide FirstOpen, LastClose;
  }

  lemma HullOpens(plan: Plan, spans: seq<Span>, fold: nat, hull: Span)
    requires plan.Valid() && 1 <= fold <= plan.splits < |spans|
    requires Hulls([FoldTest(plan, |spans|, fold)], spans) == [hull]
    ensures TestOpens(plan, spans, fold) == hull.0
  {
    StartsAscend(|spans|, plan.splits + 1, fold, fold + 1);
    assert FoldTest(plan, |spans|, fold) != [];
    hide FoldTest, Hulls, FirstOpen, LastClose;
    HullOfOne(FoldTest(plan, |spans|, fold), spans);
  }

  /** Two observations, an embargo of five: the first closes one instant before the second opens and is
      trained on all the same. */
  lemma EmbargoLeavesNoGap()
    ensures var plan, spans: seq<Span> := Plan(1, 5, true), [(0, 1), (2, 3)];
            && plan.Valid() && InTimeOrder(spans) && 0 in FoldOf(plan, spans, 1).train && FoldOf(plan, spans, 1).embargoed == 0
            && TestOpens(plan, spans, 1) == 2 && !LeavesGap(plan, spans, 1)
  {
    var plan, spans: seq<Span> := Plan(1, 5, true), [(0, 1), (2, 3)];
    TwoBlocks(plan);
    InTimeOrderOfTwo(spans);
    SecondOpens(spans);
    NearIsKept(spans);
    hide FoldCandidates, FoldTest, Hulls, FirstOpen, LastClose, PurgeOf, InTimeOrder;
    EmbargoIsInert(plan, spans, 1);
    HullOfOne([1], spans);
    assert FoldOf(plan, spans, 1).train == [0];
  }

  lemma SecondOpens(spans: seq<Span>)
    requires spans == [(0, 1), (2, 3)]
    ensures FirstOpen([1], spans) == 2 && LastClose([1], spans) == 3
  {
  }

  lemma InTimeOrderOfTwo(spans: seq<Span>)
    requires spans == [(0, 1), (2, 3)]
    ensures InTimeOrder(spans)
  {
  }

  lemma NearIsKept(spans: seq<Span>)
    requires spans == [(0, 1), (2, 3)]
    ensures PurgeOf([0], spans, [(2, 3)], 5).kept == [0]
  {
    assert [0][..0] == [];
    SurvivesExactlyWhen(spans[0], (2, 3), 5);
    assert PurgeOf([], spans, [(2, 3)], 5) == Purge([], 0, 0);
  }

  lemma TwoBlocks(plan: Plan)
    requires plan == Plan(1, 5, true)
    ensures FoldCandidates(plan, 2, 1) == [0] && FoldTest(plan, 2, 1) == [1]
  {
    BlocksOfTwo();
    hide Blocks;
    MembersOfOne(0, Blocks(2, 2));
    hide Members;
  }

  lemma BlocksOfTwo()
    ensures Blocks(2, 2)[0] == [0] && Blocks(2, 2)[1] == [1]
  {
    StartsOfTwo();
    hide BlockStart;
  }

  lemma StartsOfTwo()
    ensures BlockStart(2, 2, 0) == 0 && BlockStart(2, 2, 1) == 1 && BlockStart(2, 2, 2) == 2
  {
  }

  /** Every fold, expanding or rolling and on any spans, accounts for all it is given: what it may train on
      is kept, purged or embargoed, and its test block is the observations from its start to the next. */
  lemma FoldConserves(plan: Plan, spans: seq<Span>, fold: nat)
    requires 1 <= fold <= plan.splits
    ensures var f, N := FoldOf(plan, spans, fold), plan.splits + 1;
            var from := if plan.expanding then 0 else BlockStart(|spans|, N, fold - 1);
            && |f.train| + f.purged + f.embargoed == BlockStart(|spans|, N, fold) - from
            && |f.train| + f.purged + f.embargoed + |f.test| == BlockStart(|spans|, N, fold + 1) - from
  {
    var n, N := |spans|, plan.splits + 1;
    hide FoldCandidates, PurgeOf, Hulls, BlockStart, FoldTest;
    CandidatesFill(plan, n, fold);
    TestFills(plan, n, fold);
    PurgeConserves(FoldCandidates(plan, n, fold), spans, Hulls([FoldTest(plan, n, fold)], spans), plan.embargo);
  }

  lemma TestFills(plan: Plan, n: nat, fold: nat)
    requires 1 <= fold <= plan.splits
    ensures |FoldTest(plan, n, fold)| == BlockStart(n, plan.splits + 1, fold + 1) - BlockStart(n, plan.splits + 1, fold)
  {
    hide BlockStart;
    StartsAscend(n, plan.splits + 1, fold, fold + 1);
  }

  lemma CandidatesFill(plan: Plan, n: nat, fold: nat)
    requires 1 <= fold <= plan.splits
    ensures var N := plan.splits + 1;
            |FoldCandidates(plan, n, fold)| ==
              BlockStart(n, N, fold) - (if plan.expanding then 0 else BlockStart(n, N, fold - 1))
  {
    var N := plan.splits + 1;
    hide BlockStart;
    if plan.expanding {
      MembersOfRange(n, N, fold);
      BlocksTile(n, N, fold);
    } else {
      StartsAscend(n, N, fold - 1, fold);
      MembersOfOne(fold - 1, Blocks(n, N));
    }
  }

  lemma MembersOfOne(g: nat, blocks: seq<seq<nat>>)
    requires g < |blocks|
    ensures Members(Range(g, g + 1), blocks) == blocks[g]
  {
    assert Range(g, g + 1) == [g] && [g][..0] == [];
    assert Members([], blocks) == [];
  }

  /** The test blocks lie end to end from the first fold's start to the end of the sample. */
  lemma TestsTile(plan: Plan, spans: seq<Span>, fold: nat)
    requires 1 <= fold <= plan.splits
    ensures var N := plan.splits + 1;
            && BlockStart(|spans|, N, fold) <= BlockStart(|spans|, N, fold + 1)
            && FoldOf(plan, spans, fold).test == Range(BlockStart(|spans|, N, fold), BlockStart(|spans|, N, fold + 1))
            && (fold == plan.splits ==> BlockStart(|spans|, N, fold + 1) == |spans|)
  {
    StartsAscend(|spans|, plan.splits + 1, fold, fold + 1);
    StartsCover(|spans|, plan.splits + 1);
  }

  lemma {:induction false} MembersOfRange(n: nat, N: nat, g: nat)
    requires N > 0 && g <= N
    ensures Members(Range(0, g), Blocks(n, N)) == Concat(Blocks(n, N)[..g])
  {
    if g > 0 {
      MembersOfRange(n, N, g - 1);
      assert Range(0, g)[..g - 1] == Range(0, g - 1);
      assert Blocks(n, N)[..g][..g - 1] == Blocks(n, N)[..g - 1];
    } else {
      assert Range(0, 0) == [];
    }
  }
}
