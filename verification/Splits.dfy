/** The train/test partitions of the combinatorial design and of walk-forward. */
module Splits {
  import opened Common
  import opened Sequences
  import opened Sorting
  import opened Combinations
  import opened CrossValidation

  // ---- Maximal runs of test groups ----

  /** Runs of neighbouring groups, each as long as it can be. */
  function Runs(groups: seq<nat>): (runs: seq<seq<nat>>)
    ensures forall r :: 0 <= r < |runs| ==> runs[r] != []
  {
    if groups == [] then []
    else Extended(Runs(groups[..|groups| - 1]), groups[|groups| - 1])
  }

  function Extended(runs: seq<seq<nat>>, group: nat): (r: seq<seq<nat>>)
    requires forall r :: 0 <= r < |runs| ==> runs[r] != []
    ensures forall k :: 0 <= k < |r| ==> r[k] != []
  {
    if runs == [] then [[group]]
    else
      var m := |runs| - 1;
      if group == runs[m][|runs[m]| - 1] + 1 then runs[..m] + [runs[m] + [group]] else runs + [[group]]
  }

  method ContiguousRuns(groups: seq<nat>) returns (runs: seq<seq<nat>>)
    ensures runs == Runs(groups)
  {
    runs := [];
    for i := 0 to |groups|
      invariant runs == Runs(groups[..i])
    {
      assert groups[..i + 1][..i] == groups[..i];
      if runs != [] && groups[i] == runs[|runs| - 1][|runs[|runs| - 1]| - 1] + 1 {
        var m := |runs| - 1;
        runs := runs[..m] + [runs[m] + [groups[i]]];
      } else {
        runs := runs + [[groups[i]]];
      }
    }
    assert groups[..|groups|] == groups;
  }

  ghost predicate Consecutive(run: seq<nat>) {
    forall i :: 0 < i < |run| ==> run[i] == run[i - 1] + 1
  }

  /** Each run is consecutive, and no two neighbours could be one run. */
  ghost predicate Maximal(runs: seq<seq<nat>>) {
    && (forall r :: 0 <= r < |runs| ==> runs[r] != [] && Consecutive(runs[r]))
    && (forall r :: 0 < r < |runs| ==> runs[r][0] > runs[r - 1][|runs[r - 1]| - 1] + 1)
  }

  lemma ExtendedIsMaximal(runs: seq<seq<nat>>, group: nat)
    requires Maximal(runs)
    requires runs != [] ==> runs[|runs| - 1][|runs[|runs| - 1]| - 1] < group
    ensures Maximal(Extended(runs, group))
  {
  }

  lemma ExtendedSpells(runs: seq<seq<nat>>, group: nat)
    requires forall r :: 0 <= r < |runs| ==> runs[r] != []
    ensures Concat(Extended(runs, group)) == Concat(runs) + [group]
  {
    if runs == [] {
      ConcatPush([], [group]);
    } else {
      var front, run := runs[..|runs| - 1], runs[|runs| - 1];
      ConcatPush(runs, [group]);
      ConcatPush(front, run + [group]);
      assert Concat(front) + (run + [group]) == Concat(runs) + [group];
    }
  }

  /** The runs spell the groups and are maximal. */
  lemma {:induction false} RunsAreMaximal(groups: seq<nat>)
    requires Ascending(groups)
    ensures Concat(Runs(groups)) == groups
    ensures Maximal(Runs(groups))
  {
    if groups != [] {
      hide Maximal, Concat, Runs;
      RunsAreMaximal(groups[..|groups| - 1]);
      RunsGrow(groups);
    }
  }

  lemma RunsGrow(groups: seq<nat>)
    requires groups != [] && Ascending(groups)
    requires var front := Runs(groups[..|groups| - 1]); Concat(front) == groups[..|groups| - 1] && Maximal(front)
    ensures Concat(Runs(groups)) == groups
    ensures Maximal(Runs(groups))
  {
    hide Concat, Maximal;
    var front, last := Runs(groups[..|groups| - 1]), groups[|groups| - 1];
    assert Runs(groups) == Extended(front, last);
    ExtendedSpells(front, last);
    LastOfLast(front);
    hide Extended, Runs;
    ExtendedIsMaximal(front, last);
  }

  lemma LastOfLast(runs: seq<seq<nat>>)
    requires forall r :: 0 <= r < |runs| ==> runs[r] != []
    ensures runs != [] ==>
              (var all := Concat(runs); all != [] && all[|all| - 1] == runs[|runs| - 1][|runs[|runs| - 1]| - 1])
    ensures runs == [] ==> Concat(runs) == []
  {
  }

  // ---- Observations of a list of groups ----

  ghost predicate Below(groups: seq<nat>, N: nat) {
    forall i :: 0 <= i < |groups| ==> groups[i] < N
  }

  /** The observations of the groups, group by group. */
  function Members(groups: seq<nat>, blocks: seq<seq<nat>>): seq<nat>
    requires Below(groups, |blocks|)
  {
    if groups == [] then []
    else Members(groups[..|groups| - 1], blocks) + blocks[groups[|groups| - 1]]
  }

  lemma {:induction false} MembersJoin(a: seq<nat>, b: seq<nat>, blocks: seq<seq<nat>>)
    requires Below(a, |blocks|) && Below(b, |blocks|)
    ensures Members(a + b, blocks) == Members(a, blocks) + Members(b, blocks)
  {
    if b == [] {
      assert a + b == a;
    } else {
      var n := |b| - 1;
      assert (a + b)[..|a + b| - 1] == a + b[..n];
      MembersJoin(a, b[..n], blocks);
    }
  }

  lemma {:induction false} InMembers(groups: seq<nat>, blocks: seq<seq<nat>>, i: nat)
    requires Below(groups, |blocks|)
    ensures i in Members(groups, blocks) <==> exists g :: g in groups && i in blocks[g]
  {
    if groups != [] {
      var front := groups[..|groups| - 1];
      InMembers(front, blocks, i);
      assert groups == front + [groups[|groups| - 1]];
    }
  }

  /** Groups in ascending order hold observations in ascending order. */
  lemma {:induction false} MembersAscend(groups: seq<nat>, n: nat, N: nat)
    requires N > 0 && Below(groups, N) && Ascending(groups)
    ensures Ascending(Members(groups, Blocks(n, N)))
    ensures groups != [] ==>
              Below(Members(groups, Blocks(n, N)), BlockStart(n, N, groups[|groups| - 1] + 1))
    ensures Below(Members(groups, Blocks(n, N)), n)
  {
    if groups != [] {
      hide Members, BlockStart, Blocks;
      MembersAscend(groups[..|groups| - 1], n, N);
      AppendBlock(groups, n, N);
    }
  }

  lemma AppendBlock(groups: seq<nat>, n: nat, N: nat)
    requires N > 0 && groups != [] && Below(groups, N) && Ascending(groups)
    requires var front := groups[..|groups| - 1];
             && Ascending(Members(front, Blocks(n, N)))
             && (front != [] ==> Below(Members(front, Blocks(n, N)), BlockStart(n, N, front[|front| - 1] + 1)))
    ensures Ascending(Members(groups, Blocks(n, N)))
    ensures Below(Members(groups, Blocks(n, N)), BlockStart(n, N, groups[|groups| - 1] + 1))
    ensures Below(Members(groups, Blocks(n, N)), n)
  {
    hide BlockStart;
    var front, last := groups[..|groups| - 1], groups[|groups| - 1];
    StartsAscend(n, N, last, last + 1);
    StartsAscend(n, N, last + 1, N);
    StartsCover(n, N);
    var lo, hi := BlockStart(n, N, last), BlockStart(n, N, last + 1);
    assert Members(groups, Blocks(n, N)) == Members(front, Blocks(n, N)) + Range(lo, hi);
    if front != [] {
      StartsAscend(n, N, front[|front| - 1] + 1, last);
    }
    hide Members, Blocks;
    AscendingJoin(Members(front, Blocks(n, N)), lo, hi);
  }

  lemma AscendingJoin(a: seq<nat>, lo: nat, hi: nat)
    requires Ascending(a) && lo <= hi && forall i :: 0 <= i < |a| ==> a[i] < lo
    ensures Ascending(a + Range(lo, hi))
    ensures forall i :: 0 <= i < |a + Range(lo, hi)| ==> (a + Range(lo, hi))[i] < hi
  {
  }

  // ---- One split ----

  function TestBlocks(runs: seq<seq<nat>>, blocks: seq<seq<nat>>): (r: seq<seq<nat>>)
    requires forall i :: 0 <= i < |runs| ==> Below(runs[i], |blocks|)
  {
    seq(|runs|, i requires 0 <= i < |runs| => Members(runs[i], blocks))
  }

  lemma {:induction false} TestBlocksJoin(runs: seq<seq<nat>>, blocks: seq<seq<nat>>)
    requires forall i :: 0 <= i < |runs| ==> Below(runs[i], |blocks|)
    ensures Below(Concat(runs), |blocks|)
    ensures Concat(TestBlocks(runs, blocks)) == Members(Concat(runs), blocks)
  {
    if runs != [] {
      var front, last := runs[..|runs| - 1], runs[|runs| - 1];
      TestBlocksJoin(front, blocks);
      MembersJoin(Concat(front), last, blocks);
      assert TestBlocks(runs, blocks)[..|runs| - 1] == TestBlocks(front, blocks);
    }
  }

  lemma RunsStayBelow(groups: seq<nat>, N: nat)
    requires Ascending(groups) && Below(groups, N)
    ensures forall r :: 0 <= r < |Runs(groups)| ==> Below(Runs(groups)[r], N)
  {
    RunsAreMaximal(groups);
    forall r, i | 0 <= r < |Runs(groups)| && 0 <= i < |Runs(groups)[r]|
      ensures Runs(groups)[r][i] < N
    {
      InConcat(Runs(groups), Runs(groups)[r][i]);
      assert Runs(groups)[r][i] in Runs(groups)[r];
    }
  }

  function Outside(groups: seq<nat>, N: nat): seq<nat> {
    Select(Range(0, N), (g: nat) => g !in groups)
  }

  lemma {:induction false} SelectOfRange(N: nat, keep: nat -> bool)
    ensures Ascending(Select(Range(0, N), keep))
    ensures Below(Select(Range(0, N), keep), N)
  {
    if N > 0 {
      SelectOfRange(N - 1, keep);
      assert Range(0, N)[..N - 1] == Range(0, N - 1);
    }
  }

  predicate IsTestSet(design: Design, groups: seq<nat>) {
    groups in Subsets(0, design.groups, design.testGroups)
  }

  lemma TestSetShape(design: Design, groups: seq<nat>)
    requires IsTestSet(design, groups)
    ensures IsSubset(0, design.groups, design.testGroups, groups)
    ensures Ascending(groups) && Below(groups, design.groups)
  {
    var all := Subsets(0, design.groups, design.testGroups);
    var j :| 0 <= j < |all| && all[j] == groups;
    SubsetsAreSubsets(0, design.groups, design.testGroups, j);
  }

  /** The test blocks of a split: one per maximal run of test groups. */
  function BlocksUnderTest(design: Design, n: nat, groups: seq<nat>): (r: seq<seq<nat>>)
    requires design.groups > 0 && IsTestSet(design, groups)
    ensures IndicesFit(r, n)
  {
    TestSetShape(design, groups);
    RunsStayBelow(groups, design.groups);
    var r := TestBlocks(Runs(groups), Blocks(n, design.groups));
    TestBlocksFit(design, n, groups, r);
    r
  }

  lemma TestBlocksFit(design: Design, n: nat, groups: seq<nat>, r: seq<seq<nat>>)
    requires design.groups > 0 && Ascending(groups) && Below(groups, design.groups)
    requires forall i :: 0 <= i < |Runs(groups)| ==> Below(Runs(groups)[i], design.groups)
    requires r == TestBlocks(Runs(groups), Blocks(n, design.groups))
    ensures IndicesFit(r, n)
  {
    RunsAreMaximal(groups);
    TestBlocksJoin(Runs(groups), Blocks(n, design.groups));
    MembersAscend(groups, n, design.groups);
    forall b, i | 0 <= b < |r| && 0 <= i < |r[b]| ensures r[b][i] < n {
      InConcat(r, r[b][i]);
      assert r[b][i] in r[b];
    }
  }

  function SplitHulls(design: Design, spans: seq<Span>, groups: seq<nat>): seq<Span>
    requires design.groups > 0 && IsTestSet(design, groups)
  {
    Hulls(BlocksUnderTest(design, |spans|, groups), spans)
  }

  function Candidates(design: Design, n: nat, groups: seq<nat>): (r: seq<nat>)
    requires design.groups > 0
    ensures Below(r, n)
  {
    SelectOfRange(design.groups, (g: nat) => g !in groups);
    MembersAscend(Outside(groups, design.groups), n, design.groups);
    Members(Outside(groups, design.groups), Blocks(n, design.groups))
  }

  function SplitOf(design: Design, spans: seq<Span>, groups: seq<nat>): Split
    requires design.groups > 0 && IsTestSet(design, groups)
  {
    var test := Concat(BlocksUnderTest(design, |spans|, groups));
    var purge := PurgeOf(Candidates(design, |spans|, groups), spans, SplitHulls(design, spans, groups), design.embargo);
    Split(purge.kept, Sort(test, (a, b) => a <= b), groups, purge.purged, purge.embargoed)
  }

  method OneSplit(design: Design, spans: seq<Span>, blocks: seq<seq<nat>>, groups: seq<nat>) returns (split: Split)
    requires design.Valid() && IsTestSet(design, groups)
    requires blocks == Blocks(|spans|, design.groups)
    ensures split == SplitOf(design, spans, groups)
  {
    TestSetShape(design, groups);
    RunsStayBelow(groups, design.groups);
    var runs := ContiguousRuns(groups);
    var testBlocks := TestBlocks(runs, blocks);
    assert testBlocks == BlocksUnderTest(design, |spans|, groups);
    var candidates := Candidates(design, |spans|, groups);
    var purge := PurgeAndEmbargo(candidates, testBlocks, spans, design.embargo);
    split := Split(purge.value.kept, Sort(Concat(testBlocks), (a, b) => a <= b), groups,
                   purge.value.purged, purge.value.embargoed);
  }

  method AllSplits(design: Design, spans: seq<Span>) returns (r: Result<seq<Split>>)
    requires design.Valid()
    ensures r.Err? <==> |spans| < design.groups
    ensures r.Ok? ==>
              var all := Subsets(0, design.groups, design.testGroups);
              && |r.value| == |all|
              && forall s :: 0 <= s < |all| ==> r.value[s] == SplitOf(design, spans, all[s])
  {
    hide SplitOf, Subsets, Blocks;
    var grouped := Groups(|spans|, design.groups);
    if grouped.Err? { return Err(grouped.error); }
    var blocks := grouped.value;
    var all := Subsets(0, design.groups, design.testGroups);
    var splits: seq<Split> := [];
    for s := 0 to |all|
      invariant |splits| == s
      invariant forall t :: 0 <= t < s ==> splits[t] == SplitOf(design, spans, all[t])
    {
      var split := OneSplit(design, spans, blocks, all[s]);
      splits := splits + [split];
    }
    return Ok(splits);
  }

  // ---- What a split guarantees ----

  /** The test set is the observations of the test groups, in time order. */
  lemma TestIsMembers(design: Design, spans: seq<Span>, groups: seq<nat>)
    requires design.groups > 0 && IsTestSet(design, groups)
    requires Below(groups, design.groups)
    ensures var test := Members(groups, Blocks(|spans|, design.groups));
            && SplitOf(design, spans, groups).test == test
            && Concat(BlocksUnderTest(design, |spans|, groups)) == test
            && Ascending(test) && Below(test, |spans|)
  {
    var blocks := Blocks(|spans|, design.groups);
    TestSetShape(design, groups);
    RunsStayBelow(groups, design.groups);
    RunsAreMaximal(groups);
    TestBlocksJoin(Runs(groups), blocks);
    MembersAscend(groups, |spans|, design.groups);
    SortOfSorted(Members(groups, blocks), (a, b) => a <= b);
  }

  lemma FrontElements(s: seq<nat>, x: nat)
    requires Ascending(s) && s != []
    ensures x in s[..|s| - 1] <==> x in s && x != s[|s| - 1]
  {
  }

  /** Two ascending lists that share out the numbers below n hold n entries between them. */
  lemma {:induction false} SharedOut(a: seq<nat>, b: seq<nat>, n: nat)
    requires Ascending(a) && Ascending(b) && Below(a, n) && Below(b, n)
    requires forall i: nat :: i < n ==> (i in a <==> i !in b)
    ensures |a| + |b| == n
  {
    if n > 0 {
      if n - 1 in a {
        TopIsLast(a, n);
        forall i: nat | i < n - 1 ensures i in a[..|a| - 1] <==> i !in b { FrontElements(a, i); }
        SharedOut(a[..|a| - 1], b, n - 1);
      } else {
        TopIsLast(b, n);
        forall i: nat | i < n - 1 ensures i in a <==> i !in b[..|b| - 1] { FrontElements(b, i); }
        SharedOut(a, b[..|b| - 1], n - 1);
      }
    }
  }

  lemma TopIsLast(s: seq<nat>, n: nat)
    requires Ascending(s) && Below(s, n) && n > 0 && n - 1 in s
    ensures s != [] && s[|s| - 1] == n - 1 && Below(s[..|s| - 1], n - 1)
  {
  }

  /** Every observation of the sample is trained on, purged, embargoed or tested, once. */
  lemma SplitConserves(design: Design, spans: seq<Span>, groups: seq<nat>)
    requires design.groups > 0 && IsTestSet(design, groups)
    ensures var split := SplitOf(design, spans, groups);
            |split.train| + split.purged + split.embargoed + |split.test| == |spans|
  {
    var n := |spans|;
    TestSetShape(design, groups);
    TestIsMembers(design, spans, groups);
    CandidatesAscend(design, n, groups);
    PurgeConserves(Candidates(design, n, groups), spans, SplitHulls(design, spans, groups), design.embargo);
    forall i: nat | i < n
      ensures i in Candidates(design, n, groups) <==> i !in Members(groups, Blocks(n, design.groups))
    {
      CandidatesAreTheRest(design, n, groups, i);
    }
    hide Members, Candidates, Blocks;
    SharedOut(Candidates(design, n, groups), Members(groups, Blocks(n, design.groups)), n);
  }

  lemma CandidatesAscend(design: Design, n: nat, groups: seq<nat>)
    requires design.groups > 0
    ensures Ascending(Candidates(design, n, groups))
  {
    SelectOfRange(design.groups, (g: nat) => g !in groups);
    MembersAscend(Outside(groups, design.groups), n, design.groups);
  }

  /** The training set is exactly the observations outside the test groups whose spans miss every
      hull and every embargo. */
  lemma TrainIsExact(design: Design, spans: seq<Span>, groups: seq<nat>, i: nat)
    requires design.groups > 0 && IsTestSet(design, groups)
    ensures i in SplitOf(design, spans, groups).train <==>
            && i < |spans|
            && i !in SplitOf(design, spans, groups).test
            && Survives(spans[i], SplitHulls(design, spans, groups), design.embargo)
  {
    var N := design.groups;
    var hulls := SplitHulls(design, spans, groups);
    TestSetShape(design, groups);
    TestIsMembers(design, spans, groups);
    PurgeIsExact(Candidates(design, |spans|, groups), spans, hulls, design.embargo);
    InSelect(Candidates(design, |spans|, groups), i, (j: nat) => j < |spans| && Survives(spans[j], hulls, design.embargo));
    if i < |spans| {
      CandidatesAreTheRest(design, |spans|, groups, i);
    }
  }

  lemma CandidatesAreTheRest(design: Design, n: nat, groups: seq<nat>, i: nat)
    requires design.groups > 0 && Below(groups, design.groups) && i < n
    ensures i in Candidates(design, n, groups) <==> i !in Members(groups, Blocks(n, design.groups))
  {
    var N := design.groups;
    var blocks := Blocks(n, N);
    StartsCover(n, N);
    var g := GroupOf(n, N, i, N);
    SelectOfRange(N, (h: nat) => h !in groups);
    InMembers(groups, blocks, i);
    InMembers(Outside(groups, N), blocks, i);
    InSelect(Range(0, N), g, (h: nat) => h !in groups);
    assert Range(0, N)[g] == g;
    forall h | h in Outside(groups, N) ensures h < N && h !in groups {
      InSelect(Range(0, N), h, (k: nat) => k !in groups);
    }
  }

  lemma {:induction false} HullOfBlock(blocks: seq<seq<nat>>, spans: seq<Span>, b: nat)
    requires IndicesFit(blocks, |spans|) && b < |blocks| && blocks[b] != []
    ensures (FirstOpen(blocks[b], spans), LastClose(blocks[b], spans)) in Hulls(blocks, spans)
  {
    if b < |blocks| - 1 {
      HullOfBlock(blocks[..|blocks| - 1], spans, b);
    }
  }

  /** Every test label lies inside one of the split's hulls. */
  lemma TestLabelInHull(design: Design, spans: seq<Span>, groups: seq<nat>, t: nat) returns (h: nat)
    requires design.groups > 0 && IsTestSet(design, groups)
    requires t in SplitOf(design, spans, groups).test
    ensures t < |spans| && h < |SplitHulls(design, spans, groups)|
    ensures SplitHulls(design, spans, groups)[h].0 <= spans[t].0
    ensures spans[t].1 <= SplitHulls(design, spans, groups)[h].1
  {
    TestSetShape(design, groups);
    TestIsMembers(design, spans, groups);
    var blocks := BlocksUnderTest(design, |spans|, groups);
    InConcat(blocks, t);
    var b :| 0 <= b < |blocks| && t in blocks[b];
    HullIsTight(blocks[b], spans);
    HullOfBlock(blocks, spans, b);
    var hulls := SplitHulls(design, spans, groups);
    h :| 0 <= h < |hulls| && hulls[h] == (FirstOpen(blocks[b], spans), LastClose(blocks[b], spans));
  }

  /** No training label shares an instant with a test label. */
  lemma TrainMissesTest(design: Design, spans: seq<Span>, groups: seq<nat>, i: nat, t: nat)
    requires design.groups > 0 && IsTestSet(design, groups)
    requires i in SplitOf(design, spans, groups).train && t in SplitOf(design, spans, groups).test
    ensures i < |spans| && t < |spans| && !Overlap(spans[i], spans[t])
  {
    TrainIsExact(design, spans, groups, i);
    var h := TestLabelInHull(design, spans, groups, t);
    assert !Overlap(spans[i], SplitHulls(design, spans, groups)[h]);
  }
}
