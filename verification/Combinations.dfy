/** The k-element subsets of a range, in the lexicographic order `itertools.combinations`
    documents, and the counting facts the path assembly of the cross-validation rests on. */
module Combinations {

  /** Pascal's triangle: what `math.comb` returns. */
  function Binomial(n: nat, k: nat): nat {
    if k == 0 then 1 else if n == 0 then 0 else Binomial(n - 1, k - 1) + Binomial(n - 1, k)
  }

  function Prefixed(head: nat, tails: seq<seq<nat>>): seq<seq<nat>> {
    seq(|tails|, i requires 0 <= i < |tails| => [head] + tails[i])
  }

  /** Every k-element subset of [lo, hi) as an ascending sequence, smallest first. */
  function Subsets(lo: nat, hi: nat, k: nat): seq<seq<nat>>
    requires lo <= hi
    decreases hi - lo
  {
    if k == 0 then [[]]
    else if lo == hi then []
    else Prefixed(lo, Subsets(lo + 1, hi, k - 1)) + Subsets(lo + 1, hi, k)
  }

  ghost predicate Ascending(s: seq<nat>) {
    forall i, j :: 0 <= i < j < |s| ==> s[i] < s[j]
  }

  /** s is an ascending k-element sequence drawn from [lo, hi). */
  ghost predicate IsSubset(lo: nat, hi: nat, k: nat, s: seq<nat>) {
    |s| == k && Ascending(s) && forall i :: 0 <= i < |s| ==> lo <= s[i] < hi
  }

  /** s precedes t in dictionary order: they first differ at i, where s is smaller. */
  ghost predicate Precedes(s: seq<nat>, t: seq<nat>) {
    exists i :: 0 <= i < |s| && i < |t| && s[..i] == t[..i] && s[i] < t[i]
  }

  /** Every entry of the enumeration is a subset of the right shape. */
  lemma {:induction false} SubsetsAreSubsets(lo: nat, hi: nat, k: nat, j: nat)
    requires lo <= hi
    requires j < |Subsets(lo, hi, k)|
    ensures IsSubset(lo, hi, k, Subsets(lo, hi, k)[j])
    decreases hi - lo
  {
    if k > 0 && lo < hi {
      var with := Subsets(lo + 1, hi, k - 1);
      if j < |with| {
        SubsetsAreSubsets(lo + 1, hi, k - 1, j);
      } else {
        SubsetsAreSubsets(lo + 1, hi, k, j - |with|);
      }
    }
  }

  /** Every subset of the right shape is enumerated. */
  lemma {:induction false} SubsetsAreAll(lo: nat, hi: nat, k: nat, s: seq<nat>)
    requires lo <= hi
    requires IsSubset(lo, hi, k, s)
    ensures s in Subsets(lo, hi, k)
    decreases hi - lo
  {
    hide IsSubset, Subsets;
    if k == 0 {
      EmptyListed(lo, hi, s);
    } else {
      SplitAtHead(lo, hi, k, s);
      if s[0] == lo {
        SubsetsAreAll(lo + 1, hi, k - 1, s[1..]);
        ListedWithHead(lo, hi, k, s);
      } else {
        SubsetsAreAll(lo + 1, hi, k, s);
        ListedWithoutHead(lo, hi, k, s);
      }
    }
  }

  lemma SplitAtHead(lo: nat, hi: nat, k: nat, s: seq<nat>)
    requires k > 0 && IsSubset(lo, hi, k, s)
    ensures |s| > 0 && lo <= s[0] < hi
    ensures s[0] == lo ==> IsSubset(lo + 1, hi, k - 1, s[1..])
    ensures s[0] != lo ==> IsSubset(lo + 1, hi, k, s)
  {
    assert forall i :: 0 < i < |s| ==> s[0] < s[i];
  }

  lemma EmptyListed(lo: nat, hi: nat, s: seq<nat>)
    requires lo <= hi && IsSubset(lo, hi, 0, s)
    ensures s in Subsets(lo, hi, 0)
  {
    assert Subsets(lo, hi, 0)[0] == s;
  }

  lemma ListedWithHead(lo: nat, hi: nat, k: nat, s: seq<nat>)
    requires lo < hi && k > 0 && s != [] && s[0] == lo
    requires s[1..] in Subsets(lo + 1, hi, k - 1)
    ensures s in Subsets(lo, hi, k)
  {
    var with := Subsets(lo + 1, hi, k - 1);
    var j :| 0 <= j < |with| && with[j] == s[1..];
    assert Subsets(lo, hi, k)[j] == [lo] + with[j] == s;
  }

  lemma ListedWithoutHead(lo: nat, hi: nat, k: nat, s: seq<nat>)
    requires lo < hi && k > 0
    requires s in Subsets(lo + 1, hi, k)
    ensures s in Subsets(lo, hi, k)
  {
  }

  ghost predicate Ordered(subsets: seq<seq<nat>>) {
    forall i, j :: 0 <= i < j < |subsets| ==> Precedes(subsets[i], subsets[j])
  }

  /** The enumeration is strictly increasing in dictionary order, hence free of repeats. */
  lemma {:induction false} SubsetsAreOrdered(lo: nat, hi: nat, k: nat)
    requires lo <= hi
    ensures Ordered(Subsets(lo, hi, k))
    decreases hi - lo
  {
    hide Ordered, Precedes, IsSubset;
    if k == 0 || lo == hi {
      ShortIsOrdered(Subsets(lo, hi, k));
    } else {
      var with, without := Subsets(lo + 1, hi, k - 1), Subsets(lo + 1, hi, k);
      SubsetsAreOrdered(lo + 1, hi, k - 1);
      SubsetsAreOrdered(lo + 1, hi, k);
      forall j | 0 <= j < |without| ensures |without[j]| > 0 && lo < without[j][0] { HeadIsLarger(lo, hi, k, j); }
      OrderedJoin(lo, with, without);
    }
  }

  lemma ShortIsOrdered(subsets: seq<seq<nat>>)
    requires |subsets| <= 1
    ensures Ordered(subsets)
  {
  }

  lemma HeadIsLarger(lo: nat, hi: nat, k: nat, j: nat)
    requires lo < hi && k > 0
    requires j < |Subsets(lo + 1, hi, k)|
    ensures |Subsets(lo + 1, hi, k)[j]| > 0 && lo < Subsets(lo + 1, hi, k)[j][0]
  {
    SubsetsAreSubsets(lo + 1, hi, k, j);
  }

  lemma OrderedJoin(head: nat, with: seq<seq<nat>>, without: seq<seq<nat>>)
    requires Ordered(with) && Ordered(without)
    requires forall j :: 0 <= j < |without| ==> |without[j]| > 0 && head < without[j][0]
    ensures Ordered(Prefixed(head, with) + without)
  {
    var all := Prefixed(head, with) + without;
    forall i, j | 0 <= i < j < |all| ensures Precedes(all[i], all[j]) {
      if j < |with| {
        PrecedesUnderHead(head, with[i], with[j]);
      } else if i < |with| {
        assert all[i][..0] == all[j][..0] && all[i][0] < all[j][0];
      } else {
        assert Precedes(without[i - |with|], without[j - |with|]);
      }
    }
  }

  lemma PrecedesUnderHead(head: nat, s: seq<nat>, t: seq<nat>)
    requires Precedes(s, t)
    ensures Precedes([head] + s, [head] + t)
  {
    var d :| 0 <= d < |s| && d < |t| && s[..d] == t[..d] && s[d] < t[d];
    var s', t' := [head] + s, [head] + t;
    assert s'[..d + 1] == [head] + s[..d] == [head] + t[..d] == t'[..d + 1];
    assert s'[d + 1] < t'[d + 1];
  }

  /** There are C(hi - lo, k) of them. */
  lemma {:induction false} SubsetsCount(lo: nat, hi: nat, k: nat)
    requires lo <= hi
    ensures |Subsets(lo, hi, k)| == Binomial(hi - lo, k)
    decreases hi - lo
  {
    if k > 0 && lo < hi {
      SubsetsCount(lo + 1, hi, k - 1);
      SubsetsCount(lo + 1, hi, k);
    }
  }

  // ---- How often an element has appeared among the first j subsets ----

  function Appearances(subsets: seq<seq<nat>>, j: nat, g: nat): nat
    requires j <= |subsets|
  {
    if j == 0 then 0 else Appearances(subsets, j - 1, g) + (if g in subsets[j - 1] then 1 else 0)
  }

  lemma {:induction false} AppearancesLeft(a: seq<seq<nat>>, b: seq<seq<nat>>, j: nat, g: nat)
    requires j <= |a|
    ensures Appearances(a + b, j, g) == Appearances(a, j, g)
  {
    if j > 0 { AppearancesLeft(a, b, j - 1, g); }
  }

  lemma {:induction false} AppearancesRight(a: seq<seq<nat>>, b: seq<seq<nat>>, j: nat, g: nat)
    requires j <= |b|
    ensures Appearances(a + b, |a| + j, g) == Appearances(a, |a|, g) + Appearances(b, j, g)
  {
    if j == 0 {
      AppearancesLeft(a, b, |a|, g);
    } else {
      AppearancesRight(a, b, j - 1, g);
      assert (a + b)[|a| + j - 1] == b[j - 1];
    }
  }

  lemma {:induction false} AppearancesPrefixed(head: nat, tails: seq<seq<nat>>, j: nat, g: nat)
    requires j <= |tails|
    requires forall i :: 0 <= i < |tails| ==> head !in tails[i]
    ensures Appearances(Prefixed(head, tails), j, g) == if g == head then j else Appearances(tails, j, g)
  {
    if j > 0 {
      AppearancesPrefixed(head, tails, j - 1, g);
      assert Prefixed(head, tails)[j - 1] == [head] + tails[j - 1];
    }
  }

  lemma {:induction false} AppearancesMonotone(subsets: seq<seq<nat>>, i: nat, j: nat, g: nat)
    requires i <= j <= |subsets|
    ensures Appearances(subsets, i, g) <= Appearances(subsets, j, g) <= Appearances(subsets, i, g) + j - i
  {
    if i < j { AppearancesMonotone(subsets, i, j - 1, g); }
  }

  lemma {:induction false} NeverAppears(subsets: seq<seq<nat>>, j: nat, g: nat)
    requires j <= |subsets|
    requires forall i :: 0 <= i < j ==> g !in subsets[i]
    ensures Appearances(subsets, j, g) == 0
  {
    if j > 0 { NeverAppears(subsets, j - 1, g); }
  }

  ghost predicate Avoids(subsets: seq<seq<nat>>, g: nat) {
    forall i :: 0 <= i < |subsets| ==> g !in subsets[i]
  }

  lemma TailsAvoidHead(lo: nat, hi: nat, k: nat)
    requires lo < hi
    ensures Avoids(Subsets(lo + 1, hi, k), lo)
  {
    var tails := Subsets(lo + 1, hi, k);
    forall i | 0 <= i < |tails| ensures lo !in tails[i] { SubsetsAreSubsets(lo + 1, hi, k, i); }
  }

  /** Splits the count over the two halves the enumeration is built from: those that start with
      the head, and those that avoid it. */
  lemma AppearancesJoin(head: nat, with: seq<seq<nat>>, without: seq<seq<nat>>, j: nat, g: nat)
    requires Avoids(with, head) && Avoids(without, head)
    requires j <= |with| + |without|
    ensures Appearances(Prefixed(head, with) + without, j, g) ==
            if j <= |with| then (if g == head then j else Appearances(with, j, g))
            else if g == head then |with|
            else Appearances(with, |with|, g) + Appearances(without, j - |with|, g)
  {
    if j <= |with| {
      AppearancesLeft(Prefixed(head, with), without, j, g);
      AppearancesPrefixed(head, with, j, g);
    } else {
      AppearancesRight(Prefixed(head, with), without, j - |with|, g);
      AppearancesPrefixed(head, with, |with|, g);
      if g == head { NeverAppears(without, j - |with|, head); }
    }
  }

  function TotalAppearances(subsets: seq<seq<nat>>, g: nat): nat {
    Appearances(subsets, |subsets|, g)
  }

  lemma TotalUnfold(lo: nat, hi: nat, k: nat, g: nat)
    requires lo < hi && k > 0
    ensures var with := Subsets(lo + 1, hi, k - 1);
            TotalAppearances(Subsets(lo, hi, k), g) ==
            if g == lo then |with| else TotalAppearances(with, g) + TotalAppearances(Subsets(lo + 1, hi, k), g)
  {
    TailsAvoidHead(lo, hi, k - 1);
    TailsAvoidHead(lo, hi, k);
    TotalJoin(lo, Subsets(lo + 1, hi, k - 1), Subsets(lo + 1, hi, k), g);
  }

  lemma TotalJoin(head: nat, with: seq<seq<nat>>, without: seq<seq<nat>>, g: nat)
    requires Avoids(with, head) && Avoids(without, head)
    ensures TotalAppearances(Prefixed(head, with) + without, g) ==
            if g == head then |with| else TotalAppearances(with, g) + TotalAppearances(without, g)
  {
    AppearancesJoin(head, with, without, |with| + |without|, g);
    assert |Prefixed(head, with) + without| == |with| + |without|;
  }

  /** Every element of the range appears in exactly C(n - 1, k - 1) of the subsets. */
  lemma {:induction false} AppearancesTotal(lo: nat, hi: nat, k: nat, g: nat)
    requires lo <= g < hi && k > 0
    ensures TotalAppearances(Subsets(lo, hi, k), g) == Binomial(hi - lo - 1, k - 1)
    decreases hi - lo
  {
    hide TotalAppearances;
    TotalUnfold(lo, hi, k, g);
    if g == lo {
      SubsetsCount(lo + 1, hi, k - 1);
    } else {
      AppearancesTotal(lo + 1, hi, k, g);
      if k > 1 {
        AppearancesTotal(lo + 1, hi, k - 1, g);
      } else {
        SingleNever(g);
      }
    }
  }

  lemma SingleNever(g: nat)
    ensures TotalAppearances([[]], g) == 0
  {
    NeverAppears([[]], 1, g);
  }

  /** g + 1 trails g over the first j subsets, strictly so before a subset that holds g + 1 alone. */
  ghost predicate Leads(subsets: seq<seq<nat>>, j: nat, g: nat)
    requires j <= |subsets|
  {
    && Appearances(subsets, j, g) >= Appearances(subsets, j, g + 1)
    && (j < |subsets| && g + 1 in subsets[j] && g !in subsets[j] ==>
          Appearances(subsets, j, g) > Appearances(subsets, j, g + 1))
  }

  lemma NoneLead(j: nat, g: nat)
    requires j <= 1
    ensures Leads([[]], j, g)
  {
    NeverAppears([[]], j, g + 1);
  }

  /** Above the head the lead is inherited from the two halves. */
  lemma LeadsJoin(head: nat, with: seq<seq<nat>>, without: seq<seq<nat>>, j: nat, g: nat)
    requires head < g && Avoids(with, head) && Avoids(without, head)
    requires j <= |with| + |without|
    requires if j < |with| then Leads(with, j, g) else Leads(with, |with|, g) && Leads(without, j - |with|, g)
    ensures Leads(Prefixed(head, with) + without, j, g)
  {
    var all := Prefixed(head, with) + without;
    AppearancesJoin(head, with, without, j, g);
    AppearancesJoin(head, with, without, j, g + 1);
    if j < |with| {
      assert all[j] == [head] + with[j];
    } else if j < |all| {
      assert all[j] == without[j - |with|];
    }
  }

  /** At the head itself: its successor, seen in both halves, never outnumbers the first half. */
  lemma HeadLeads(head: nat, with: seq<seq<nat>>, without: seq<seq<nat>>, j: nat)
    requires Avoids(with, head) && Avoids(without, head)
    requires j <= |with| + |without|
    requires j >= |with| ==> Scarce(with, without, j - |with|, head + 1)
    ensures Leads(Prefixed(head, with) + without, j, head)
  {
    var all := Prefixed(head, with) + without;
    AppearancesJoin(head, with, without, j, head);
    AppearancesJoin(head, with, without, j, head + 1);
    if j < |with| {
      AppearancesMonotone(with, 0, j, head + 1);
      assert all[j] == [head] + with[j];
    } else {
      assert Scarce(with, without, j - |with|, head + 1);
      assert j < |all| ==> all[j] == without[j - |with|];
    }
  }

  /** g appears in at most |with| of the subsets in `with` and the first i of `without`. */
  ghost predicate Scarce(with: seq<seq<nat>>, without: seq<seq<nat>>, i: nat, g: nat)
    requires i <= |without|
  {
    var seen := TotalAppearances(with, g) + Appearances(without, i, g);
    seen <= |with| && (i < |without| && g in without[i] ==> seen < |with|)
  }

  /** lo + 1 heads an initial block of the subsets that avoid lo, and that block together with the
      subsets holding both is as large as the family that holds lo. */
  lemma SecondIsScarce(lo: nat, hi: nat, k: nat, i: nat)
    requires lo + 1 < hi && k > 0
    requires i <= |Subsets(lo + 1, hi, k)|
    ensures Scarce(Subsets(lo + 1, hi, k - 1), Subsets(lo + 1, hi, k), i, lo + 1)
  {
    var with := Subsets(lo + 1, hi, k - 1);
    var block, rest := Subsets(lo + 2, hi, k - 1), Subsets(lo + 2, hi, k);
    TailsAvoidHead(lo + 1, hi, k - 1);
    TailsAvoidHead(lo + 1, hi, k);
    AppearancesJoin(lo + 1, block, rest, i, lo + 1);
    assert Subsets(lo + 1, hi, k) == Prefixed(lo + 1, block) + rest;
    assert i >= |block| && i < |block| + |rest| ==> (Prefixed(lo + 1, block) + rest)[i] == rest[i - |block|];
    FamilySplits(lo, hi, k);
  }

  lemma FamilySplits(lo: nat, hi: nat, k: nat)
    requires lo + 1 < hi && k > 0
    ensures var with := Subsets(lo + 1, hi, k - 1);
            |with| == TotalAppearances(with, lo + 1) + |Subsets(lo + 2, hi, k - 1)|
  {
    if k == 1 {
      NeverAppears(Subsets(lo + 1, hi, 0), 1, lo + 1);
    } else {
      AppearancesTotal(lo + 1, hi, k - 1, lo + 1);
      SubsetsCount(lo + 1, hi, k - 1);
      SubsetsCount(lo + 2, hi, k - 1);
    }
  }

  /** The exchange argument. In any initial stretch of the enumeration an element has appeared at
      least as often as its successor, and strictly more often whenever the next subset holds the
      successor without it: trading the successor for the element gives an earlier subset. */
  lemma {:induction false} SmallerLeads(lo: nat, hi: nat, k: nat, j: nat, g: nat)
    requires lo <= g && g + 1 < hi
    requires j <= |Subsets(lo, hi, k)|
    ensures Leads(Subsets(lo, hi, k), j, g)
    decreases hi - lo
  {
    hide Leads, Appearances;
    if k == 0 {
      NoneLead(j, g);
    } else if g == lo {
      LeastLeads(lo, hi, k, j);
    } else {
      LengthUnfold(lo, hi, k);
      var n := |Subsets(lo + 1, hi, k - 1)|;
      if j < n {
        SmallerLeads(lo + 1, hi, k - 1, j, g);
        LaterLeads(lo, hi, k, j, g);
      } else {
        SmallerLeads(lo + 1, hi, k - 1, n, g);
        SmallerLeads(lo + 1, hi, k, j - n, g);
        LaterLeads(lo, hi, k, j, g);
      }
    }
  }

  /** And so any smaller element leads any larger one. */
  lemma {:induction false} AnySmallerLeads(lo: nat, hi: nat, k: nat, j: nat, g: nat, h: nat)
    requires lo <= g < h < hi
    requires j <= |Subsets(lo, hi, k)|
    ensures var subsets := Subsets(lo, hi, k);
            && Appearances(subsets, j, g) >= Appearances(subsets, j, h)
            && (j < |subsets| && h in subsets[j] && g !in subsets[j] ==> Appearances(subsets, j, g) > Appearances(subsets, j, h))
    decreases h - g
  {
    SmallerLeads(lo, hi, k, j, g);
    hide Appearances, Subsets;
    if g + 1 < h { AnySmallerLeads(lo, hi, k, j, g + 1, h); }
  }

  lemma LeastLeads(lo: nat, hi: nat, k: nat, j: nat)
    requires lo + 1 < hi && k > 0
    requires j <= |Subsets(lo, hi, k)|
    ensures Leads(Subsets(lo, hi, k), j, lo)
  {
    hide Leads, Appearances, Avoids, Scarce;
    TailsAvoidHead(lo, hi, k - 1);
    TailsAvoidHead(lo, hi, k);
    LengthUnfold(lo, hi, k);
    var n := |Subsets(lo + 1, hi, k - 1)|;
    if j >= n { SecondIsScarce(lo, hi, k, j - n); }
    HeadLeads(lo, Subsets(lo + 1, hi, k - 1), Subsets(lo + 1, hi, k), j);
  }

  lemma LaterLeads(lo: nat, hi: nat, k: nat, j: nat, g: nat)
    requires lo < g && g + 1 < hi && k > 0
    requires j <= |Subsets(lo + 1, hi, k - 1)| + |Subsets(lo + 1, hi, k)| == |Subsets(lo, hi, k)|
    requires var with := Subsets(lo + 1, hi, k - 1);
             if j < |with| then Leads(with, j, g)
             else Leads(with, |with|, g) && Leads(Subsets(lo + 1, hi, k), j - |with|, g)
    ensures Leads(Subsets(lo, hi, k), j, g)
  {
    hide Leads, Appearances, Avoids;
    TailsAvoidHead(lo, hi, k - 1);
    TailsAvoidHead(lo, hi, k);
    LeadsJoin(lo, Subsets(lo + 1, hi, k - 1), Subsets(lo + 1, hi, k), j, g);
  }

  lemma LengthUnfold(lo: nat, hi: nat, k: nat)
    requires lo < hi && k > 0
    ensures |Subsets(lo, hi, k)| == |Subsets(lo + 1, hi, k - 1)| + |Subsets(lo + 1, hi, k)|
  {
  }

  /** The absorption identity k C(n, k) = n C(n - 1, k - 1). */
  lemma {:induction false} Absorption(n: nat, k: nat)
    requires n > 0 && k > 0
    ensures k * Binomial(n, k) == n * Binomial(n - 1, k - 1)
  {
    if n > 1 && k > 1 {
      Absorption(n - 1, k);
      Absorption(n - 1, k - 1);
      AbsorptionStep(n, k, Binomial(n - 1, k - 1), Binomial(n - 1, k), Binomial(n - 2, k - 1), Binomial(n - 2, k - 2));
    } else if n > 1 {
      Absorption(n - 1, 1);
    } else {
      assert Binomial(1, k) == Binomial(0, k - 1) + Binomial(0, k);
    }
  }

  lemma AbsorptionStep(n: nat, k: nat, a: nat, b: nat, c: nat, d: nat)
    requires k * b == (n - 1) * c && (k - 1) * a == (n - 1) * d && a == d + c
    ensures k * (a + b) == n * a
  {
    calc {
      k * (a + b);
      (k - 1) * a + a + k * b;
      (n - 1) * d + (n - 1) * c + a;
      (n - 1) * (d + c) + a;
      n * a;
    }
  }
}
