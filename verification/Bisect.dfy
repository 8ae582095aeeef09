/** `bisect.bisect_right`: binary search for the end of the entries at or below a value. */
module Bisect {

  ghost predicate NonDecreasing(s: seq<int>) {
    forall i, j :: 0 <= i < j < |s| ==> s[i] <= s[j]
  }

  /** How many entries are at or below x. */
  function CountUpTo(s: seq<int>, x: int): (r: nat)
    ensures r <= |s|
  {
    if s == [] then 0 else CountUpTo(s[..|s| - 1], x) + (if s[|s| - 1] <= x then 1 else 0)
  }

  /** In sorted order the entries at or below x are a prefix, and its length is their number. */
  lemma {:induction false} CountSplits(s: seq<int>, x: int)
    requires NonDecreasing(s)
    ensures forall k :: 0 <= k < |s| ==> (s[k] <= x <==> k < CountUpTo(s, x))
  {
    if s != [] {
      var n := |s| - 1;
      CountSplits(s[..n], x);
      var c := CountUpTo(s[..n], x);
      assert c == n || s[c] <= s[n];
    }
  }

  lemma {:induction false} CountIsMonotone(s: seq<int>, x: int, y: int)
    requires x <= y
    ensures CountUpTo(s, x) <= CountUpTo(s, y)
  {
    if s != [] { CountIsMonotone(s[..|s| - 1], x, y); }
  }

  lemma CountIs(s: seq<int>, x: int, r: nat)
    requires NonDecreasing(s) && r <= |s|
    requires forall k :: 0 <= k < r ==> s[k] <= x
    requires forall k :: r <= k < |s| ==> x < s[k]
    ensures CountUpTo(s, x) == r
  {
    CountSplits(s, x);
    var c := CountUpTo(s, x);
    assert r < |s| ==> x < s[r];
    assert c < |s| ==> x < s[c];
  }

  method BisectRight(s: seq<int>, x: int) returns (r: nat)
    requires NonDecreasing(s)
    ensures r == CountUpTo(s, x)
    ensures r <= |s|
    ensures forall k :: 0 <= k < r ==> s[k] <= x
    ensures forall k :: r <= k < |s| ==> x < s[k]
  {
    var lo, hi := 0, |s|;
    while lo < hi
      invariant 0 <= lo <= hi <= |s|
      invariant forall k :: 0 <= k < lo ==> s[k] <= x
      invariant forall k :: hi <= k < |s| ==> x < s[k]
    {
      var mid := (lo + hi) / 2;
      if x < s[mid] { hi := mid; } else { lo := mid + 1; }
    }
    r := lo;
    CountIs(s, x, r);
  }
}
