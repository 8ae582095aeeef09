/** Values shared by every component: outcomes, sides, sequences and stable sorting. */
module Common {

  datatype Option<+T> = None | Some(value: T)

  /** A source exception becomes `Err` with the rule that was broken. */
  datatype Result<+T> = Ok(value: T) | Err(error: string)

  /** The direction of an order, a fill or a position. */
  datatype Side = BUY | SELL {
    function Sign(): real { if BUY? then 1.0 else -1.0 }
    function Opposite(): Side { if BUY? then SELL else BUY }
  }

  /** An instrument. Only its identity and its place in the sorted order of names matter here. */
  type Symbol = int

  function Min(a: int, b: int): int { if a <= b then a else b }
  function Max(a: int, b: int): int { if a >= b then a else b }
  function MaxReal(a: real, b: real): real { if a >= b then a else b }
  function MinReal(a: real, b: real): real { if a <= b then a else b }
  function Abs(a: real): real { if a >= 0.0 then a else -a }
}

/** Sequences: ranges, concatenation, sums and pigeonholes. */
module Sequences {

  /** lo, lo + 1, ..., hi - 1. */
  function Range(lo: nat, hi: nat): (r: seq<nat>)
    requires lo <= hi
    ensures |r| == hi - lo
    ensures forall i :: 0 <= i < |r| ==> r[i] == lo + i
  {
    seq(hi - lo, i => lo + i)
  }

  function Concat<T>(parts: seq<seq<T>>): seq<T> {
    if parts == [] then [] else Concat(parts[..|parts| - 1]) + parts[|parts| - 1]
  }

  lemma ConcatPush<T>(parts: seq<seq<T>>, x: seq<T>)
    ensures Concat(parts + [x]) == Concat(parts) + x
  {
    assert (parts + [x])[..|parts|] == parts;
  }

  lemma {:induction false} ConcatSplit<T>(a: seq<seq<T>>, b: seq<seq<T>>)
    ensures Concat(a + b) == Concat(a) + Concat(b)
  {
    if b == [] {
      assert a + b == a;
    } else {
      var n := |b| - 1;
      assert (a + b)[..|a + b| - 1] == a + b[..n];
      ConcatSplit(a, b[..n]);
      assert Concat(a + b) == Concat(a + b[..n]) + b[n];
    }
  }

  lemma {:induction false} InConcat<T>(parts: seq<seq<T>>, x: T)
    ensures x in Concat(parts) <==> exists i :: 0 <= i < |parts| && x in parts[i]
  {
    if parts != [] {
      var n := |parts| - 1;
      InConcat(parts[..n], x);
      assert forall i :: 0 <= i < n ==> parts[..n][i] == parts[i];
    }
  }

  /** Where entry i of a concatenation comes from. */
  lemma {:induction false} ConcatAt<T>(parts: seq<seq<T>>, i: nat) returns (a: nat, x: nat)
    requires i < |Concat(parts)|
    ensures a < |parts| && x < |parts[a]| && Concat(parts)[i] == parts[a][x] && i == |Concat(parts[..a])| + x
  {
    var n := |parts| - 1;
    if i < |Concat(parts[..n])| {
      a, x := ConcatAt(parts[..n], i);
      assert parts[..n][..a] == parts[..a];
    } else {
      a, x := n, i - |Concat(parts[..n])|;
    }
  }

  /** Earlier parts end before later ones begin. */
  lemma {:induction false} ConcatLater<T>(parts: seq<seq<T>>, a: nat, b: nat)
    requires a < b <= |parts|
    ensures |Concat(parts[..a])| + |parts[a]| <= |Concat(parts[..b])|
  {
    assert parts[..b][..b - 1] == parts[..b - 1];
    if a < b - 1 { ConcatLater(parts, a, b - 1); }
  }

  function Sum(s: seq<int>): int {
    if s == [] then 0 else Sum(s[..|s| - 1]) + s[|s| - 1]
  }

  function SumReal(s: seq<real>): real {
    if s == [] then 0.0 else SumReal(s[..|s| - 1]) + s[|s| - 1]
  }

  ghost predicate Distinct<T>(s: seq<T>) {
    forall i, j :: 0 <= i < j < |s| ==> s[i] != s[j]
  }

  lemma {:induction false} DistinctOnce<T>(s: seq<T>)
    ensures Distinct(s) <==> forall x :: x in multiset(s) ==> multiset(s)[x] == 1
  {
    if s != [] {
      var front, last := s[..|s| - 1], s[|s| - 1];
      DistinctOnce(front);
      assert s == front + [last];
      if last in front {
        var k :| 0 <= k < |front| && front[k] == last;
        assert s[k] == s[|s| - 1];
        assert multiset(s)[last] >= 2;
      } else if Distinct(front) {
        forall x | x in multiset(s) ensures multiset(s)[x] == 1 { assert x != last ==> x in multiset(front); }
      } else {
        var x :| x in multiset(front) && multiset(front)[x] != 1;
        assert multiset(s)[x] != 1;
      }
    }
  }

  /** As many pairwise different values below n as there are entries: at most n entries. */
  lemma {:induction false} Pigeonhole(s: seq<nat>, n: nat)
    requires Distinct(s)
    requires forall i :: 0 <= i < |s| ==> s[i] < n
    ensures |s| <= n
  {
    if s != [] {
      assert s[0] < n;
      if k :| 0 <= k < |s| && s[k] == n - 1 {
        var t := s[..k] + s[k + 1..];
        assert forall i :: 0 <= i < |t| ==> t[i] == if i < k then s[i] else s[i + 1];
        Pigeonhole(t, n - 1);
      } else {
        Pigeonhole(s, n - 1);
      }
    }
  }
}

/** The stable sort behind every `sorted` and `list.sort`, over an arbitrary total preorder. */
module Sorting {

  ghost predicate TotalPreorder<T(!new)>(le: (T, T) -> bool) {
    && (forall x, y :: le(x, y) || le(y, x))
    && (forall x, y, z :: le(x, y) && le(y, z) ==> le(x, z))
  }

  ghost predicate SortedBy<T>(s: seq<T>, le: (T, T) -> bool) {
    forall i, j :: 0 <= i < j < |s| ==> le(s[i], s[j])
  }

  /** Inserts x behind everything that does not have to follow it. */
  function Insert<T>(s: seq<T>, x: T, le: (T, T) -> bool): seq<T> {
    if s == [] then [x]
    else if le(s[|s| - 1], x) then s + [x]
    else Insert(s[..|s| - 1], x, le) + [s[|s| - 1]]
  }

  function Sort<T>(s: seq<T>, le: (T, T) -> bool): seq<T> {
    if s == [] then [] else Insert(Sort(s[..|s| - 1], le), s[|s| - 1], le)
  }

  lemma {:induction false} InsertContents<T>(s: seq<T>, x: T, le: (T, T) -> bool)
    ensures multiset(Insert(s, x, le)) == multiset(s) + multiset{x}
  {
    if s != [] && !le(s[|s| - 1], x) {
      InsertContents(s[..|s| - 1], x, le);
      assert s == s[..|s| - 1] + [s[|s| - 1]];
    }
  }

  lemma {:induction false} InsertKeepsSorted<T(!new)>(s: seq<T>, x: T, le: (T, T) -> bool)
    requires TotalPreorder(le) && SortedBy(s, le)
    ensures SortedBy(Insert(s, x, le), le)
  {
    if s == [] {
    } else if le(s[|s| - 1], x) {
      forall i | 0 <= i < |s| ensures le(s[i], x) { assert i < |s| - 1 ==> le(s[i], s[|s| - 1]); }
    } else {
      var front, last := s[..|s| - 1], s[|s| - 1];
      InsertKeepsSorted(front, x, le);
      var r := Insert(front, x, le);
      InsertContents(front, x, le);
      forall i | 0 <= i < |r| ensures le(r[i], last) {
        assert r[i] in multiset(r);
        if r[i] != x {
          assert r[i] in multiset(front);
          var j :| 0 <= j < |front| && front[j] == r[i];
          assert le(s[j], s[|s| - 1]);
        }
      }
    }
  }

  /** The result is an ordered rearrangement of the input. */
  lemma {:induction false} SortIsSort<T(!new)>(s: seq<T>, le: (T, T) -> bool)
    requires TotalPreorder(le)
    ensures SortedBy(Sort(s, le), le)
    ensures multiset(Sort(s, le)) == multiset(s)
    ensures |Sort(s, le)| == |s|
  {
    if s != [] {
      var front, last := s[..|s| - 1], s[|s| - 1];
      SortIsSort(front, le);
      InsertKeepsSorted(Sort(front, le), last, le);
      InsertContents(Sort(front, le), last, le);
      assert s == front + [last];
    }
    assert |Sort(s, le)| == |multiset(Sort(s, le))| == |multiset(s)| == |s|;
  }

  function Select<T>(s: seq<T>, keep: T -> bool): seq<T> {
    if s == [] then []
    else Select(s[..|s| - 1], keep) + (if keep(s[|s| - 1]) then [s[|s| - 1]] else [])
  }

  lemma SelectPush<T>(s: seq<T>, x: T, keep: T -> bool)
    ensures Select(s + [x], keep) == Select(s, keep) + (if keep(x) then [x] else [])
  {
    assert (s + [x])[..|s|] == s;
  }

  lemma {:induction false} SelectConcat<T>(a: seq<T>, b: seq<T>, keep: T -> bool)
    ensures Select(a + b, keep) == Select(a, keep) + Select(b, keep)
  {
    if b == [] {
      assert a + b == a;
    } else {
      var n := |b| - 1;
      assert (a + b)[..|a + b| - 1] == a + b[..n];
      SelectConcat(a, b[..n], keep);
    }
  }

  lemma {:induction false} InSelect<T>(s: seq<T>, x: T, keep: T -> bool)
    ensures x in Select(s, keep) <==> x in s && keep(x)
  {
    if s != [] {
      InSelect(s[..|s| - 1], x, keep);
      assert s == s[..|s| - 1] + [s[|s| - 1]];
    }
  }

  /** `keep` picks entries no two of which the order can tell apart. */
  ghost predicate Tied<T(!new)>(le: (T, T) -> bool, keep: T -> bool) {
    forall x, y :: keep(x) && keep(y) ==> le(x, y)
  }

  lemma {:induction false} InsertIsStable<T(!new)>(s: seq<T>, x: T, le: (T, T) -> bool, keep: T -> bool)
    requires Tied(le, keep)
    ensures Select(Insert(s, x, le), keep) == Select(s, keep) + (if keep(x) then [x] else [])
  {
    if s == [] {
      SelectPush([], x, keep);
    } else if le(s[|s| - 1], x) {
      SelectPush(s, x, keep);
    } else {
      InsertIsStable(s[..|s| - 1], x, le, keep);
      SelectPush(Insert(s[..|s| - 1], x, le), s[|s| - 1], keep);
    }
  }

  /** Entries the order ties stay in the order they came in. */
  lemma {:induction false} SortIsStable<T(!new)>(s: seq<T>, le: (T, T) -> bool, keep: T -> bool)
    requires Tied(le, keep)
    ensures Select(Sort(s, le), keep) == Select(s, keep)
  {
    if s != [] {
      SortIsStable(s[..|s| - 1], le, keep);
      InsertIsStable(Sort(s[..|s| - 1], le), s[|s| - 1], le, keep);
    }
  }

  lemma InsertAtEnd<T>(s: seq<T>, x: T, le: (T, T) -> bool)
    requires s == [] || le(s[|s| - 1], x)
    ensures Insert(s, x, le) == s + [x]
  {
  }

  lemma InsertBefore<T>(s: seq<T>, last: T, x: T, le: (T, T) -> bool)
    requires !le(last, x)
    ensures Insert(s + [last], x, le) == Insert(s, x, le) + [last]
  {
    assert (s + [last])[..|s|] == s;
  }

  lemma SelectOfNone<T>(keep: T -> bool)
    ensures Select([], keep) == []
  {
  }

  lemma SelectOne<T>(x: T, keep: T -> bool)
    ensures Select([x], keep) == if keep(x) then [x] else []
  {
    assert [x][..0] == [];
    assert Select([], keep) == [];
  }

  lemma {:induction false} KeepsAll<T>(s: seq<T>, keep: T -> bool)
    requires forall i :: 0 <= i < |s| ==> keep(s[i])
    ensures Select(s, keep) == s
  {
    if s != [] {
      KeepsAll(s[..|s| - 1], keep);
      assert s == s[..|s| - 1] + [s[|s| - 1]];
    }
  }

  lemma {:induction false} KeepsNone<T>(s: seq<T>, keep: T -> bool)
    requires forall i :: 0 <= i < |s| ==> !keep(s[i])
    ensures Select(s, keep) == []
  {
    if s != [] { KeepsNone(s[..|s| - 1], keep); }
  }

  lemma {:induction false} SelectSame<T>(s: seq<T>, keep: T -> bool, other: T -> bool)
    requires forall i :: 0 <= i < |s| ==> (keep(s[i]) <==> other(s[i]))
    ensures Select(s, keep) == Select(s, other)
  {
    if s != [] { SelectSame(s[..|s| - 1], keep, other); }
  }

  /** Keeping some entries and inserting commute. */
  lemma {:induction false} InsertThenSelect<T(!new)>(s: seq<T>, x: T, le: (T, T) -> bool, keep: T -> bool)
    requires TotalPreorder(le) && SortedBy(s, le)
    ensures Select(Insert(s, x, le), keep) == if keep(x) then Insert(Select(s, keep), x, le) else Select(s, keep)
  {
    hide Insert, Select, TotalPreorder;
    if s == [] || le(s[|s| - 1], x) {
      SelectOfNone(keep);
      InsertAtEnd(s, x, le);
      SelectPush(s, x, keep);
      if Select(s, keep) != [] { LastSelected(s, x, keep, le); }
      InsertAtEnd(Select(s, keep), x, le);
    } else {
      var front, last := s[..|s| - 1], s[|s| - 1];
      assert s == front + [last];
      InsertThenSelect(front, x, le, keep);
      InsertBefore(front, last, x, le);
      SelectPush(Insert(front, x, le), last, keep);
      SelectPush(front, last, keep);
      if keep(last) {
        InsertBefore(Select(front, keep), last, x, le);
      } else {
        assert Select(front, keep) + [] == Select(front, keep);
        assert Select(Insert(front, x, le), keep) + [] == Select(Insert(front, x, le), keep);
      }
    }
  }

  /** The last entry kept does not have to follow what the last entry need not follow. */
  lemma LastSelected<T(!new)>(s: seq<T>, x: T, keep: T -> bool, le: (T, T) -> bool)
    requires TotalPreorder(le) && SortedBy(s, le) && s != [] && Select(s, keep) != [] && le(s[|s| - 1], x)
    ensures le(Select(s, keep)[|Select(s, keep)| - 1], x)
  {
    hide Select;
    var kept := Select(s, keep);
    var y := kept[|kept| - 1];
    assert y in kept;
    InSelect(s, y, keep);
    var i :| 0 <= i < |s| && s[i] == y;
    assert i < |s| - 1 ==> le(s[i], s[|s| - 1]);
  }

  /** Sorting what is kept is keeping from what is sorted. */
  lemma {:induction false} SortThenSelect<T(!new)>(s: seq<T>, le: (T, T) -> bool, keep: T -> bool)
    requires TotalPreorder(le)
    ensures Select(Sort(s, le), keep) == Sort(Select(s, keep), le)
  {
    hide Insert, Select, Sort, TotalPreorder;
    if s == [] {
      SelectOfNone(keep);
      SortOfNone(le);
    } else {
      var front, last := s[..|s| - 1], s[|s| - 1];
      assert s == front + [last];
      SortThenSelect(front, le, keep);
      SortPush(front, last, le);
      SortIsSort(front, le);
      InsertThenSelect(Sort(front, le), last, le, keep);
      SelectPush(front, last, keep);
      if keep(last) { SortPush(Select(front, keep), last, le); } else { assert Select(front, keep) + [] == Select(front, keep); }
    }
  }

  lemma SortOfNone<T>(le: (T, T) -> bool)
    ensures Sort([], le) == []
  {
  }

  lemma SortPush<T>(s: seq<T>, x: T, le: (T, T) -> bool)
    ensures Sort(s + [x], le) == Insert(Sort(s, le), x, le)
  {
    assert (s + [x])[..|s|] == s;
  }

  /** Sorting what is already in order changes nothing. */
  lemma {:induction false} SortOfSorted<T>(s: seq<T>, le: (T, T) -> bool)
    requires SortedBy(s, le)
    ensures Sort(s, le) == s
  {
    if s != [] {
      SortOfSorted(s[..|s| - 1], le);
      assert s == s[..|s| - 1] + [s[|s| - 1]];
    }
  }
}

/** Dictionaries keyed on an instrument. */
module Dictionaries {
  import opened Common

  function Find<V>(m: map<Symbol, V>, k: Symbol): Option<V> { if k in m then Some(m[k]) else None }
  function Get<V>(m: map<Symbol, V>, k: Symbol, default: V): V { if k in m then m[k] else default }

  function Put<V>(m: map<Symbol, V>, k: Symbol, v: V): map<Symbol, V> { m[k := v] }
  function Without<V>(m: map<Symbol, V>, k: Symbol): map<Symbol, V> { m - {k} }

  /** Storing under one key shows there and nowhere else. */
  lemma Stores<V>()
    ensures forall m: map<Symbol, V>, k: Symbol, v: V, s: Symbol :: Find(Put(m, k, v), s)
              == if s == k then Some(v) else Find(m, s)
    ensures forall m: map<Symbol, V>, k: Symbol, v: V, s: Symbol, d: V :: Get(Put(m, k, v), s, d)
              == if s == k then v else Get(m, s, d)
    ensures forall m: map<Symbol, V>, k: Symbol, s: Symbol :: Find(Without(m, k), s) == if s == k then None else Find(m, s)
    ensures forall m: map<Symbol, V>, k: Symbol, v: V, s: Symbol :: s in Put(m, k, v) <==> s == k || s in m
  {
  }
}

/** Products of reals, named so that a proof can treat them as a whole. */
module Reals {

  function Product(x: real, y: real): real { x * y }

  lemma MulLe(a: real, b: real, c: real)
    requires a <= b && c >= 0.0
    ensures a * c <= b * c && c * a <= c * b
  {
  }

  lemma MulLess(a: real, b: real, c: real)
    requires a < b && c > 0.0
    ensures a * c < b * c
  {
  }
}
