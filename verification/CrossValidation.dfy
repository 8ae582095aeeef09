/** What both validation schemes share: contiguous groups, hulls of test blocks, and the purge and embargo
    of training labels against them. */
module CrossValidation {
  import opened Common
  import opened Sequences
  import opened Sorting

  /** A label's first and last bar (or instant), both inclusive. */
  type Span = (int, int)

  datatype Split = Split(
    train: seq<nat>,
    test: seq<nat>,
    testGroups: seq<nat>,
    purged: nat,
    embargoed: nat
  )

  datatype Purge = Purge(kept: seq<nat>, purged: nat, embargoed: nat)

  /** The configuration `CombinatorialPurgedCV` accepts. */
  datatype Design = Design(groups: nat, testGroups: nat, embargo: int) {
    predicate Valid() { groups >= 2 && 1 <= testGroups < groups && embargo >= 0 }
  }

  // ---- Groups ----

  /** Where group g starts: the first n % N groups hold one observation more. */
  function BlockStart(n: nat, N: nat, g: nat): nat
    requires N > 0
  {
    g * (n / N) + Min(g, n % N)
  }

  function Blocks(n: nat, N: nat): (r: seq<seq<nat>>)
    requires N > 0
    ensures |r| == N
  {
    seq(N, g requires 0 <= g < N => (StartsAscend(n, N, g, g + 1); Range(BlockStart(n, N, g), BlockStart(n, N, g + 1))))
  }

  lemma StartsAscend(n: nat, N: nat, g: nat, h: nat)
    requires N > 0 && g <= h
    ensures BlockStart(n, N, g) <= BlockStart(n, N, h)
    ensures n >= N && g < h ==> BlockStart(n, N, g) < BlockStart(n, N, h)
  {
    var base := n / N;
    assert h * base == g * base + (h - g) * base;
    if n >= N && g < h {
      assert base >= 1;
      assert (h - g) * base >= 1;
    } else {
      assert (h - g) * base >= 0;
    }
  }

  lemma StartsCover(n: nat, N: nat)
    requires N > 0
    ensures BlockStart(n, N, 0) == 0 && BlockStart(n, N, N) == n
  {
  }

  /** Laid end to end the first g groups are exactly the first observations, in order. */
  lemma {:induction false} BlocksTile(n: nat, N: nat, g: nat)
    requires N > 0 && g <= N
    ensures Concat(Blocks(n, N)[..g]) == Range(0, BlockStart(n, N, g))
  {
    if g > 0 {
      BlocksTile(n, N, g - 1);
      StartsAscend(n, N, g - 1, g);
      assert Blocks(n, N)[..g][..g - 1] == Blocks(n, N)[..g - 1];
    }
  }

  /** The groups partition the sample in time order, and no group is empty or more than one
      observation larger than another. */
  lemma GroupsPartition(n: nat, N: nat)
    requires N > 0
    ensures Concat(Blocks(n, N)) == Range(0, n)
    ensures forall g :: 0 <= g < N ==> n / N <= |Blocks(n, N)[g]| <= n / N + 1
    ensures forall g, h :: 0 <= g < h < N ==> |Blocks(n, N)[g]| >= |Blocks(n, N)[h]|
  {
    BlocksTile(n, N, N);
    StartsCover(n, N);
    assert Blocks(n, N)[..N] == Blocks(n, N);
    forall g | 0 <= g < N
      ensures |Blocks(n, N)[g]| == n / N + (if g < n % N then 1 else 0)
    {
      NextBlock(n, N, g);
    }
  }

  /** An observation belongs to exactly one group. */
  lemma {:induction false} GroupOf(n: nat, N: nat, i: nat, bound: nat) returns (g: nat)
    requires 0 < N && bound <= N && i < BlockStart(n, N, bound)
    ensures g < bound && i in Blocks(n, N)[g]
    ensures forall h :: 0 <= h < N && h != g ==> i !in Blocks(n, N)[h]
  {
    if i >= BlockStart(n, N, bound - 1) {
      g := bound - 1;
      var block := Blocks(n, N)[g];
      assert block[i - BlockStart(n, N, g)] == i;
      forall h | 0 <= h < N && h != g ensures i !in Blocks(n, N)[h] {
        if h < g { StartsAscend(n, N, h + 1, g); } else { StartsAscend(n, N, g + 1, h); }
      }
    } else {
      g := GroupOf(n, N, i, bound - 1);
    }
  }

  lemma NextBlock(n: nat, N: nat, g: nat)
    requires g < N
    ensures BlockStart(n, N, g + 1) == BlockStart(n, N, g) + n / N + (if g < n % N then 1 else 0)
  {
    var base, extra := n / N, n % N;
    assert (g + 1) * base == g * base + base;
    assert Min(g + 1, extra) == Min(g, extra) + (if g < extra then 1 else 0);
  }

  method Groups(n: nat, N: nat) returns (r: Result<seq<seq<nat>>>)
    requires N >= 2
    ensures r.Err? <==> n < N
    ensures r.Ok? ==> r.value == Blocks(n, N)
  {
    if n < N {
      return Err("observations cannot fill the groups");
    }
    var base, extra := n / N, n % N;
    var blocks: seq<seq<nat>> := [];
    var start := 0;
    for index := 0 to N
      invariant start == BlockStart(n, N, index)
      invariant |blocks| == index && forall g :: 0 <= g < index ==> blocks[g] == Blocks(n, N)[g]
    {
      var size := base + (if index < extra then 1 else 0);
      NextBlock(n, N, index);
      blocks := blocks + [Range(start, start + size)];
      start := start + size;
    }
    return Ok(blocks);
  }

  // ---- Purge and embargo ----

  function FirstOpen(block: seq<nat>, spans: seq<Span>): int
    requires block != [] && forall i :: 0 <= i < |block| ==> block[i] < |spans|
  {
    var last := spans[block[|block| - 1]].0;
    if |block| == 1 then last else Min(FirstOpen(block[..|block| - 1], spans), last)
  }

  function LastClose(block: seq<nat>, spans: seq<Span>): int
    requires block != [] && forall i :: 0 <= i < |block| ==> block[i] < |spans|
  {
    var last := spans[block[|block| - 1]].1;
    if |block| == 1 then last else Max(LastClose(block[..|block| - 1], spans), last)
  }

  /** The hull is the tightest interval that holds every span of the block. */
  lemma {:induction false} HullIsTight(block: seq<nat>, spans: seq<Span>)
    requires block != [] && forall i :: 0 <= i < |block| ==> block[i] < |spans|
    ensures forall i :: 0 <= i < |block| ==>
              FirstOpen(block, spans) <= spans[block[i]].0 && spans[block[i]].1 <= LastClose(block, spans)
    ensures exists i :: 0 <= i < |block| && spans[block[i]].0 == FirstOpen(block, spans)
    ensures exists i :: 0 <= i < |block| && spans[block[i]].1 == LastClose(block, spans)
  {
    var n := |block| - 1;
    if n > 0 {
      var front := block[..n];
      HullIsTight(front, spans);
      var a :| 0 <= a < |front| && spans[front[a]].0 == FirstOpen(front, spans);
      var b :| 0 <= b < |front| && spans[front[b]].1 == LastClose(front, spans);
      assert block[a] == front[a] && block[b] == front[b];
      forall i | 0 <= i < |block|
        ensures FirstOpen(block, spans) <= spans[block[i]].0 && spans[block[i]].1 <= LastClose(block, spans)
      {
        assert i < n ==> block[i] == front[i];
      }
    }
    assert spans[block[n]].0 == FirstOpen(block, spans) || FirstOpen(block, spans) < spans[block[n]].0;
  }

  predicate IndicesFit(blocks: seq<seq<nat>>, n: nat) {
    forall b :: 0 <= b < |blocks| ==> forall i :: 0 <= i < |blocks[b]| ==> blocks[b][i] < n
  }

  /** One hull per non-empty test block. */
  function Hulls(blocks: seq<seq<nat>>, spans: seq<Span>): seq<Span>
    requires IndicesFit(blocks, |spans|)
  {
    if blocks == [] then []
    else
      var last := blocks[|blocks| - 1];
      Hulls(blocks[..|blocks| - 1], spans) +
      (if last == [] then [] else [(FirstOpen(last, spans), LastClose(last, spans))])
  }

  /** The two spans share at least one instant. */
  predicate Overlap(a: Span, b: Span) { a.0 <= b.1 && a.1 >= b.0 }

  /** The span opens after the hull, but no more than `embargo` after it. */
  predicate Trails(a: Span, hull: Span, embargo: int) { hull.1 < a.0 <= hull.1 + embargo }

  predicate IsPurged(a: Span, hulls: seq<Span>) {
    exists h :: 0 <= h < |hulls| && Overlap(a, hulls[h])
  }

  predicate IsEmbargoed(a: Span, hulls: seq<Span>, embargo: int) {
    !IsPurged(a, hulls) && exists h :: 0 <= h < |hulls| && Trails(a, hulls[h], embargo)
  }

  predicate Survives(a: Span, hulls: seq<Span>, embargo: int) {
    !IsPurged(a, hulls) && !IsEmbargoed(a, hulls, embargo)
  }

  function PurgeOf(candidates: seq<nat>, spans: seq<Span>, hulls: seq<Span>, embargo: int): Purge
    requires forall i :: 0 <= i < |candidates| ==> candidates[i] < |spans|
  {
    if candidates == [] then Purge([], 0, 0)
    else
      var front := PurgeOf(candidates[..|candidates| - 1], spans, hulls, embargo);
      var last := candidates[|candidates| - 1];
      if IsPurged(spans[last], hulls) then front.(purged := front.purged + 1)
      else if IsEmbargoed(spans[last], hulls, embargo) then front.(embargoed := front.embargoed + 1)
      else front.(kept := front.kept + [last])
  }

  /** Exactly the candidates that miss every hull and every embargo are kept, and exactly those that
      meet a hull count as purged, whether or not an embargo covers them too. */
  lemma {:induction false} PurgeIsExact(candidates: seq<nat>, spans: seq<Span>, hulls: seq<Span>, embargo: int)
    requires forall i :: 0 <= i < |candidates| ==> candidates[i] < |spans|
    ensures var p := PurgeOf(candidates, spans, hulls, embargo);
            && p.kept == Select(candidates, (i: nat) => i < |spans| && Survives(spans[i], hulls, embargo))
            && p.purged == |Select(candidates, (i: nat) => i < |spans| && IsPurged(spans[i], hulls))|
  {
    hide IsPurged, IsEmbargoed;
    if candidates != [] {
      PurgeIsExact(candidates[..|candidates| - 1], spans, hulls, embargo);
    }
  }

  /** Each candidate is kept, purged or embargoed, once. */
  lemma {:induction false} PurgeConserves(candidates: seq<nat>, spans: seq<Span>, hulls: seq<Span>, embargo: int)
    requires forall i :: 0 <= i < |candidates| ==> candidates[i] < |spans|
    ensures var p := PurgeOf(candidates, spans, hulls, embargo);
            |p.kept| + p.purged + p.embargoed == |candidates|
  {
    hide IsPurged, IsEmbargoed;
    if candidates != [] {
      PurgeConserves(candidates[..|candidates| - 1], spans, hulls, embargo);
    }
  }

  /** Without a test block nothing is removed. */
  lemma {:induction false} NothingToPurge(candidates: seq<nat>, spans: seq<Span>, embargo: int)
    requires forall i :: 0 <= i < |candidates| ==> candidates[i] < |spans|
    ensures PurgeOf(candidates, spans, [], embargo) == Purge(candidates, 0, 0)
  {
    if candidates != [] {
      NothingToPurge(candidates[..|candidates| - 1], spans, embargo);
    }
  }

  predicate Fit(candidates: seq<nat>, n: nat) { forall i :: 0 <= i < |candidates| ==> candidates[i] < n }

  predicate NoBlock(blocks: seq<seq<nat>>) { forall b :: 0 <= b < |blocks| ==> blocks[b] == [] }

  lemma {:induction false} HullPerBlock(blocks: seq<seq<nat>>, spans: seq<Span>)
    requires IndicesFit(blocks, |spans|)
    ensures Hulls(blocks, spans) == [] <==> NoBlock(blocks)
  {
    if blocks != [] {
      var n := |blocks| - 1;
      HullPerBlock(blocks[..n], spans);
      if blocks[n] == [] && NoBlock(blocks[..n]) {
        forall b | 0 <= b < |blocks| ensures blocks[b] == [] { assert b < n ==> blocks[..n][b] == []; }
      }
    }
  }

  /** The purge, refused for a negative embargo or an index outside the spans. Where there is no test block
      at all the candidates are handed back unread. */
  method PurgeAndEmbargo(candidates: seq<nat>, testBlocks: seq<seq<nat>>, spans: seq<Span>, embargo: int)
    returns (r: Result<Purge>)
    ensures r.Err? <==>
              embargo < 0 || !IndicesFit(testBlocks, |spans|) || (!NoBlock(testBlocks) && !Fit(candidates, |spans|))
    ensures r.Ok? && Fit(candidates, |spans|) ==> r.value == PurgeOf(candidates, spans, Hulls(testBlocks, spans), embargo)
    ensures r.Ok? && NoBlock(testBlocks) ==> r.value == Purge(candidates, 0, 0)
  {
    if embargo < 0 { return Err("embargo must not be negative"); }
    if !IndicesFit(testBlocks, |spans|) { return Err("index out of range"); }
    var intervals := Hulls(testBlocks, spans);
    HullPerBlock(testBlocks, spans);
    if intervals == [] {
      if Fit(candidates, |spans|) { NothingToPurge(candidates, spans, embargo); }
      return Ok(Purge(candidates, 0, 0));
    }
    var kept: seq<nat> := [];
    var purged, embargoed := 0, 0;
    for c := 0 to |candidates|
      invariant Fit(candidates[..c], |spans|)
      invariant Purge(kept, purged, embargoed) == PurgeOf(candidates[..c], spans, intervals, embargo)
    {
      assert candidates[..c + 1][..c] == candidates[..c];
      if candidates[c] >= |spans| { return Err("index out of range"); }
      var span := spans[candidates[c]];
      if exists h :: 0 <= h < |intervals| && Overlap(span, intervals[h]) {
        purged := purged + 1;
        continue;
      }
      if exists h :: 0 <= h < |intervals| && Trails(span, intervals[h], embargo) {
        embargoed := embargoed + 1;
        continue;
      }
      kept := kept + [candidates[c]];
    }
    assert candidates[..|candidates|] == candidates;
    return Ok(Purge(kept, purged, embargoed));
  }
}
