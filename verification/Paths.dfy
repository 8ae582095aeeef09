/** Dealing the tested groups of the splits into complete walks over the sample. */
module Paths {
  import opened Combinations
  import opened CrossValidation

  /** A path takes its predictions for `group` from split `split`. */
  type Leg = (nat, nat)

  function SplitCount(design: Design): nat { Binomial(design.groups, design.testGroups) }

  function PathCount(design: Design): nat
    requires design.groups > 0
  {
    SplitCount(design) * design.testGroups / design.groups
  }

  /** C(N, k) k / N loses nothing to the floor: it is C(N - 1, k - 1). */
  lemma PathCountIsExact(design: Design)
    requires design.Valid()
    ensures SplitCount(design) * design.testGroups % design.groups == 0
    ensures PathCount(design) == Binomial(design.groups - 1, design.testGroups - 1)
  {
    var N, b := design.groups, Binomial(design.groups - 1, design.testGroups - 1);
    Absorption(N, design.testGroups);
    hide Binomial;
    DivideOut(N, b, SplitCount(design) * design.testGroups);
  }

  lemma DivideOut(n: nat, q: nat, product: nat)
    requires n > 0 && product == n * q
    ensures product % n == 0 && product / n == q
  {
    OnlyQuotient(n, q, product / n, product % n);
  }

  lemma OnlyQuotient(n: nat, q: nat, d: nat, m: nat)
    requires n * q == n * d + m && m < n
    ensures q == d && m == 0
  {
    if q > d {
      Distribute(n, d, q - d);
    } else if q < d {
      Distribute(n, q, d - q);
    }
  }

  lemma Distribute(n: nat, a: nat, b: nat)
    requires b >= 1
    ensures n * (a + b) == n * a + n * b
    ensures n * b >= n
  {
  }

  function TestSets(design: Design): seq<seq<nat>> {
    Subsets(0, design.groups, design.testGroups)
  }

  /** How many legs of group g have been dealt after s whole splits and t groups of the next. */
  function Used(all: seq<seq<nat>>, s: nat, t: nat, g: nat): nat
    requires s <= |all| && (s < |all| ==> t <= |all[s]|)
  {
    Appearances(all, s, g) + (if s < |all| && g in all[s][..t] then 1 else 0)
  }

  /** The leg for group g on path p comes from the split that tests g for the (p + 1)th time. */
  ghost predicate IsLeg(design: Design, leg: Leg, g: nat, p: nat) {
    var all := TestSets(design);
    leg.1 == g && leg.0 < |all| && g in all[leg.0] && Appearances(all, leg.0, g) == p
  }

  /** Path p so far holds, in order, the groups that have been dealt more than p times. */
  ghost predicate PathSoFar(design: Design, path: seq<Leg>, p: nat, s: nat, t: nat)
    requires s <= |TestSets(design)| && (s < |TestSets(design)| ==> t <= |TestSets(design)[s]|)
  {
    && |path| <= design.groups
    && (forall g :: 0 <= g < design.groups ==> (g < |path| <==> Used(TestSets(design), s, t, g) > p))
    && (forall g :: 0 <= g < |path| ==> IsLeg(design, path[g], g, p))
  }

  /** The next leg goes to a path that exists and is waiting for exactly that group. */
  lemma NextLeg(design: Design, path: seq<Leg>, s: nat, t: nat)
    requires design.Valid() && s < |TestSets(design)| && t < |TestSets(design)[s]|
    requires PathSoFar(design, path, Used(TestSets(design), s, t, TestSets(design)[s][t]), s, t)
    ensures var g := TestSets(design)[s][t];
            var p := Used(TestSets(design), s, t, g);
            && p == Appearances(TestSets(design), s, g) < PathCount(design)
            && |path| == g < design.groups
            && PathSoFar(design, path + [(s, g)], p, s, t + 1)
  {
    var all := TestSets(design);
    var g := all[s][t];
    SubsetsAreSubsets(0, design.groups, design.testGroups, s);
    LegFits(design, s, g);
    FreshInSplit(all[s], t);
    hide Subsets, Appearances, Binomial;
    if g > 0 {
      PredecessorIsAhead(design, s, t);
      assert g - 1 < |path|;
    }
    assert !(g < |path|);
    PathGrows(design, path, Used(all, s, t, g), s, t);
  }

  /** The exchange argument at work: the group before the one being dealt has been dealt more often. */
  lemma PredecessorIsAhead(design: Design, s: nat, t: nat)
    requires design.Valid() && s < |TestSets(design)| && t < |TestSets(design)[s]|
    requires 0 < TestSets(design)[s][t] < design.groups && Ascending(TestSets(design)[s])
    ensures var g := TestSets(design)[s][t];
            Used(TestSets(design), s, t, g - 1) > Used(TestSets(design), s, t, g)
  {
    var all := TestSets(design);
    SmallerLeads(0, design.groups, design.testGroups, s, all[s][t] - 1);
    FreshInSplit(all[s], t);
    NeighbourDealt(all[s], t);
    hide Subsets, Appearances;
  }

  lemma PathGrows(design: Design, path: seq<Leg>, p: nat, s: nat, t: nat)
    requires s < |TestSets(design)| && t < |TestSets(design)[s]|
    requires var g := TestSets(design)[s][t];
             && g == |path| < design.groups && p == Appearances(TestSets(design), s, g)
             && g !in TestSets(design)[s][..t]
    requires PathSoFar(design, path, p, s, t)
    ensures PathSoFar(design, path + [(s, |path|)], p, s, t + 1)
  {
    hide Subsets, Appearances;
    var all := TestSets(design);
    var path', t' := path + [(s, |path|)], t + 1;
    forall h | 0 <= h < design.groups
      ensures h < |path'| <==> Used(all, s, t', h) > p
    {
      OneMoreDealt(all[s], t, h);
      assert h < |path| <==> Used(all, s, t, h) > p;
    }
  }

  lemma LegFits(design: Design, s: nat, g: nat)
    requires design.Valid() && s < |TestSets(design)| && g in TestSets(design)[s] && g < design.groups
    ensures Appearances(TestSets(design), s, g) < PathCount(design)
  {
    var all := TestSets(design);
    assert Appearances(all, s + 1, g) == Appearances(all, s, g) + 1;
    AppearancesMonotone(all, s + 1, |all|, g);
    AppearancesTotal(0, design.groups, design.testGroups, g);
    PathCountIsExact(design);
  }

  lemma FreshInSplit(s: seq<nat>, t: nat)
    requires Ascending(s) && t < |s|
    ensures s[t] !in s[..t]
  {
  }

  lemma NeighbourDealt(s: seq<nat>, t: nat)
    requires Ascending(s) && t < |s| && s[t] > 0
    ensures s[t] - 1 in s ==> s[t] - 1 in s[..t]
  {
    if s[t] - 1 in s {
      var i :| 0 <= i < |s| && s[i] == s[t] - 1;
      assert i < t;
      assert s[..t][i] == s[t] - 1;
    }
  }

  lemma OneMoreDealt(s: seq<nat>, t: nat, h: nat)
    requires t < |s|
    ensures h in s[..t + 1] <==> h in s[..t] || h == s[t]
  {
    assert s[..t + 1] == s[..t] + [s[t]];
  }

  /** Dealing one leg leaves every other path as it was. */
  lemma OtherPathsWait(design: Design, path: seq<Leg>, p: nat, s: nat, t: nat)
    requires design.Valid() && s < |TestSets(design)| && t < |TestSets(design)[s]|
    requires p != Used(TestSets(design), s, t, TestSets(design)[s][t])
    requires PathSoFar(design, path, p, s, t)
    ensures PathSoFar(design, path, p, s, t + 1)
  {
    var all := TestSets(design);
    SubsetsAreSubsets(0, design.groups, design.testGroups, s);
    FreshInSplit(all[s], t);
    hide Subsets, Appearances;
    var t' := t + 1;
    forall h | 0 <= h < design.groups
      ensures h < |path| <==> Used(all, s, t', h) > p
    {
      OneMoreDealt(all[s], t, h);
      assert h < |path| <==> Used(all, s, t, h) > p;
    }
  }

  lemma SplitDone(design: Design, path: seq<Leg>, p: nat, s: nat)
    requires s < |TestSets(design)|
    requires PathSoFar(design, path, p, s, |TestSets(design)[s]|)
    ensures PathSoFar(design, path, p, s + 1, 0)
  {
    var all := TestSets(design);
    assert all[s][..|all[s]|] == all[s];
    var s' := s + 1;
    forall h | 0 <= h < design.groups
      ensures h < |path| <==> Used(all, s', 0, h) > p
    {
      assert h < |path| <==> Used(all, s, |all[s]|, h) > p;
      assert Appearances(all, s', h) == Used(all, s, |all[s]|, h);
    }
  }

  /** A path is complete when it holds one leg per group, in time order, each from the split that
      tests the group for the (p + 1)th time. */
  ghost predicate IsPath(design: Design, path: seq<Leg>, p: nat) {
    |path| == design.groups && forall g :: 0 <= g < |path| ==> IsLeg(design, path[g], g, p)
  }

  lemma PathDone(design: Design, path: seq<Leg>, p: nat)
    requires design.Valid() && p < PathCount(design)
    requires PathSoFar(design, path, p, |TestSets(design)|, 0)
    ensures IsPath(design, path, p)
  {
    AppearancesTotal(0, design.groups, design.testGroups, design.groups - 1);
    PathCountIsExact(design);
    assert design.groups - 1 < |path| <==> Used(TestSets(design), |TestSets(design)|, 0, design.groups - 1) > p;
  }

  /** Deals every (split, group) pair to the path that group has reached; no list is ever indexed
      beyond its end. */
  method Assemble(design: Design) returns (paths: seq<seq<Leg>>)
    requires design.Valid()
    ensures |paths| == PathCount(design)
    ensures forall p :: 0 <= p < |paths| ==> IsPath(design, paths[p], p)
  {
    var all := TestSets(design);
    var used := new nat[design.groups](_ => 0);
    var assembled := new seq<Leg>[PathCount(design)](_ => []);
    forall p | 0 <= p < PathCount(design) ensures PathSoFar(design, [], p, 0, 0) {}
    for s := 0 to |all|
      invariant forall g :: 0 <= g < design.groups ==> used[g] == Used(all, s, 0, g)
      invariant forall p :: 0 <= p < assembled.Length ==> PathSoFar(design, assembled[p], p, s, 0)
    {
      for t := 0 to |all[s]|
        invariant forall g :: 0 <= g < design.groups ==> used[g] == Used(all, s, t, g)
        invariant forall p :: 0 <= p < assembled.Length ==> PathSoFar(design, assembled[p], p, s, t)
      {
        var group := all[s][t];
        SubsetsAreSubsets(0, design.groups, design.testGroups, s);
        DealOne(design, used, assembled, s, t, group);
      }
      forall p | 0 <= p < assembled.Length ensures PathSoFar(design, assembled[p], p, s + 1, 0) {
        SplitDone(design, assembled[p], p, s);
      }
      assert all[s][..|all[s]|] == all[s];
    }
    forall p | 0 <= p < assembled.Length ensures IsPath(design, assembled[p], p) {
      PathDone(design, assembled[p], p);
    }
    return assembled[..];
  }

  method DealOne(design: Design, used: array<nat>, assembled: array<seq<Leg>>, s: nat, t: nat, group: nat)
    requires design.Valid() && used.Length == design.groups && assembled.Length == PathCount(design)
    requires s < |TestSets(design)| && t < |TestSets(design)[s]| && group == TestSets(design)[s][t] < design.groups
    requires forall g :: 0 <= g < design.groups ==> used[g] == Used(TestSets(design), s, t, g)
    requires forall p :: 0 <= p < assembled.Length ==> PathSoFar(design, assembled[p], p, s, t)
    modifies used, assembled
    ensures forall g :: 0 <= g < design.groups ==> used[g] == Used(TestSets(design), s, t + 1, g)
    ensures forall p :: 0 <= p < assembled.Length ==> PathSoFar(design, assembled[p], p, s, t + 1)
  {
    ghost var p := used[group];
    SubsetsAreSubsets(0, design.groups, design.testGroups, s);
    LegFits(design, s, group);
    FreshInSplit(TestSets(design)[s], t);
    hide Subsets, Appearances;
    NextLeg(design, assembled[p], s, t);
    forall q | 0 <= q < assembled.Length && q != p ensures PathSoFar(design, assembled[q], q, s, t + 1) {
      OtherPathsWait(design, assembled[q], q, s, t);
    }
    assembled[used[group]] := assembled[used[group]] + [(s, group)];
    used[group] := used[group] + 1;
    forall g | 0 <= g < design.groups ensures used[g] == Used(TestSets(design), s, t + 1, g) {
      OneMoreDealt(TestSets(design)[s], t, g);
    }
  }

  // ---- What the deal guarantees ----

  /** Every (split, tested group) pair appears on exactly one path. */
  lemma EveryLegDealtOnce(design: Design, paths: seq<seq<Leg>>, s: nat, g: nat)
    requires design.Valid() && |paths| == PathCount(design)
    requires forall p :: 0 <= p < |paths| ==> IsPath(design, paths[p], p)
    requires s < |TestSets(design)| && g in TestSets(design)[s]
    ensures g < design.groups
    ensures exists p :: 0 <= p < |paths| && (s, g) in paths[p]
    ensures forall p, q :: 0 <= p < |paths| && 0 <= q < |paths| && (s, g) in paths[p] && (s, g) in paths[q] ==> p == q
  {
    var all := TestSets(design);
    SubsetsAreSubsets(0, design.groups, design.testGroups, s);
    LegFits(design, s, g);
    hide Subsets, Appearances;
    var p := Appearances(all, s, g);
    var leg := paths[p][g];
    assert IsLeg(design, leg, g, p);
    if leg.0 < s {
      SameCountSameSplit(all, leg.0, s, g);
    } else if s < leg.0 {
      SameCountSameSplit(all, s, leg.0, g);
    }
    assert leg == (s, g);
    forall q | 0 <= q < |paths| && (s, g) in paths[q] ensures q == p {
      var k :| 0 <= k < |paths[q]| && paths[q][k] == (s, g);
      assert IsLeg(design, paths[q][k], k, q);
    }
  }

  lemma SameCountSameSplit(all: seq<seq<nat>>, i: nat, j: nat, g: nat)
    requires i < j < |all| && g in all[i]
    ensures Appearances(all, i, g) < Appearances(all, j, g)
  {
    assert Appearances(all, i + 1, g) == Appearances(all, i, g) + 1;
    AppearancesMonotone(all, i + 1, j, g);
  }

  /** The legs of a path lie in time order and come from splits that tested them. */
  lemma PathIsAWalk(design: Design, path: seq<Leg>, p: nat, g: nat)
    requires design.Valid() && IsPath(design, path, p) && g < design.groups
    ensures path[g].1 == g && path[g].0 < SplitCount(design)
    ensures g in TestSets(design)[path[g].0]
    ensures forall h :: g < h < design.groups && path[h].0 == path[g].0 ==> h in TestSets(design)[path[g].0]
  {
    SubsetsCount(0, design.groups, design.testGroups);
    assert IsLeg(design, path[g], g, p);
    forall h | g < h < design.groups && path[h].0 == path[g].0 ensures h in TestSets(design)[path[g].0] {
      assert IsLeg(design, path[h], h, p);
    }
  }
}
