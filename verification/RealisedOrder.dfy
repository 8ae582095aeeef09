/** When the order of the fills changes what is realised, and when it cannot. */
module RealisedOrder {
  import opened Common
  import opened Position
  import opened Reals
  import opened Sorting

  /** Every order of the fills books the same realised P&L. */
  ghost predicate OrderFree(symbol: Symbol, fills: seq<Fill>)
    requires ValidFills(fills) && Folded(symbol, fills).Ok?
  {
    forall other :: ValidFills(other) && multiset(other) == multiset(fills) && Folded(symbol, other).Ok? ==>
      Folded(symbol, other).value.realised == Folded(symbol, fills).value.realised
  }

  function Net(fills: seq<Fill>): real { SumBy(fills, Exposure()) }

  /** The side the fills leave open. */
  function NetSide(fills: seq<Fill>): Side { if Net(fills) > 0.0 then BUY else SELL }

  ghost predicate AllOn(fills: seq<Fill>, side: Side) { forall k :: 0 <= k < |fills| ==> fills[k].side == side }

  ghost predicate OnePrice(fills: seq<Fill>, side: Side) {
    forall i, j :: 0 <= i < |fills| && 0 <= j < |fills| && fills[i].side == side && fills[j].side == side ==>
      fills[i].price == fills[j].price
  }

  /** Read off the fills before any is folded: they leave nothing open, or they never close anything, or
      whatever stays open was dealt at one price. */
  ghost predicate NothingToOrder(fills: seq<Fill>) {
    Net(fills) == 0.0 || AllOn(fills, BUY) || AllOn(fills, SELL) || OnePrice(fills, NetSide(fills))
  }

  // ---- Folding onwards from a position ----

  function Onwards(p: Position, fills: seq<Fill>): (q: Position)
    requires p.Valid() && ValidFills(fills) && forall k :: 0 <= k < |fills| ==> fills[k].symbol == p.symbol
    ensures q.Valid() && q.symbol == p.symbol
    decreases |fills|
  {
    if fills == [] then p
    else
      ApplyKeepsValid(p, fills[0]);
      Onwards(Apply(p, fills[0]).value, fills[1..])
  }

  ghost predicate Foldable(symbol: Symbol, fills: seq<Fill>) {
    ValidFills(fills) && forall k :: 0 <= k < |fills| ==> fills[k].symbol == symbol
  }

  lemma FoldableFolds(symbol: Symbol, fills: seq<Fill>)
    requires Foldable(symbol, fills)
    ensures Folded(symbol, fills).Ok?
  {
    LedgerIdentity(symbol, fills);
  }

  /** Folding a sequence is folding its front and going on with the rest. */
  lemma {:induction false} FoldedJoins(symbol: Symbol, front: seq<Fill>, back: seq<Fill>)
    requires Foldable(symbol, front) && Foldable(symbol, back)
    ensures Foldable(symbol, front + back) && Folded(symbol, front).Ok? && Folded(symbol, front + back).Ok?
    ensures Folded(symbol, front + back).value == Onwards(Folded(symbol, front).value, back)
    decreases |back|
  {
    FoldableFolds(symbol, front);
    FoldableFolds(symbol, front + back);
    hide Apply, Folded;
    if back == [] {
      assert front + back == front;
    } else {
      var longer := front + [back[0]];
      FoldedPush(symbol, front, back[0]);
      assert longer + back[1..] == front + back;
      FoldedJoins(symbol, longer, back[1..]);
    }
  }

  // ---- Orders that cannot matter ----

  /** Fills that only open or add realise nothing. */
  lemma {:induction false} AddingRealisesNothing(p: Position, fills: seq<Fill>, side: Side)
    requires p.Valid() && Foldable(p.symbol, fills) && AllOn(fills, side) && (p.side.Some? ==> p.side.value == side)
    ensures Onwards(p, fills).realised == p.realised
    ensures fills != [] || p.side.Some? ==> Onwards(p, fills).side == Some(side)
    decreases |fills|
  {
    if fills != [] {
      var q := Apply(p, fills[0]).value;
      ApplyKeepsValid(p, fills[0]);
      assert q.realised == p.realised && q.side == Some(side);
      hide Apply;
      AddingRealisesNothing(q, fills[1..], side);
    }
  }

  lemma FromFlat(symbol: Symbol, fills: seq<Fill>)
    requires Foldable(symbol, fills)
    ensures Folded(symbol, fills).Ok? && Folded(symbol, fills).value == Onwards(Flat(symbol), fills)
  {
    FoldedJoins(symbol, [], fills);
    assert [] + fills == fills;
    assert Folded(symbol, []) == Ok(Flat(symbol));
  }

  lemma OneSidedRealisesNothing(symbol: Symbol, fills: seq<Fill>, side: Side)
    requires Foldable(symbol, fills) && AllOn(fills, side)
    ensures Folded(symbol, fills).Ok? && Folded(symbol, fills).value.realised == 0.0
    ensures fills != [] ==> Folded(symbol, fills).value.side == Some(side)
  {
    FromFlat(symbol, fills);
    hide Folded;
    AddingRealisesNothing(Flat(symbol), fills, side);
  }

  lemma NothingOpen(p: Position)
    requires p.Valid() && p.Signed() == 0.0
    ensures Basis(p) == 0.0
  {
  }

  /** A position built at one price has that price for its basis. */
  lemma {:induction false} BasisIsTheOnePrice(symbol: Symbol, fills: seq<Fill>, side: Side, price: real)
    requires Foldable(symbol, fills)
    requires forall k :: 0 <= k < |fills| && fills[k].side == side ==> fills[k].price == price
    ensures Folded(symbol, fills).Ok?
    ensures Folded(symbol, fills).value.side == Some(side) ==> Folded(symbol, fills).value.average == Some(price)
  {
    FoldableFolds(symbol, fills);
    if fills != [] {
      var n := |fills| - 1;
      BasisIsTheOnePrice(symbol, fills[..n], side, price);
      var p, f := Folded(symbol, fills[..n]).value, fills[n];
      assert Folded(symbol, fills) == Apply(p, f);
      hide Folded;
      OnePriceStays(p, f, side, price);
    }
  }

  lemma OnePriceStays(p: Position, f: Fill, side: Side, price: real)
    requires p.Valid() && f.Valid() && f.symbol == p.symbol && (f.side == side ==> f.price == price)
    requires p.side == Some(side) ==> p.average == Some(price)
    ensures Apply(p, f).Ok?
    ensures Apply(p, f).value.side == Some(side) ==> Apply(p, f).value.average == Some(price)
  {
    if p.side == Some(side) && f.side == side {
      PartsAverage(price, p.quantity, price, 0.0, f.quantity);
      hide Weighted;
    }
  }

  /** Realised P&L is the cash less the cost of what is open, so it is settled once that cost is. */
  lemma RealisedIsCashAndBasis(symbol: Symbol, fills: seq<Fill>, other: seq<Fill>)
    requires Foldable(symbol, fills) && Foldable(symbol, other) && multiset(other) == multiset(fills)
    ensures Folded(symbol, fills).Ok? && Folded(symbol, other).Ok?
    ensures Folded(symbol, other).value.Signed() == Folded(symbol, fills).value.Signed() == Net(fills)
    ensures Folded(symbol, other).value.realised - Basis(Folded(symbol, other).value) ==
              Folded(symbol, fills).value.realised - Basis(Folded(symbol, fills).value)
  {
    LedgerIdentity(symbol, fills);
    LedgerIdentity(symbol, other);
    SumByIgnoresOrder(fills, other, Exposure());
    SumByIgnoresOrder(fills, other, CashOf());
    hide *;
  }

  lemma SameFills(fills: seq<Fill>, other: seq<Fill>)
    requires multiset(other) == multiset(fills)
    ensures forall f :: f in other <==> f in fills
  {
    forall f ensures f in other <==> f in fills { assert f in multiset(other) <==> f in multiset(fills); }
  }

  lemma NetZeroIsOrderFree(symbol: Symbol, fills: seq<Fill>, other: seq<Fill>)
    requires Foldable(symbol, fills) && Foldable(symbol, other) && multiset(other) == multiset(fills) && Net(fills) == 0.0
    ensures Folded(symbol, fills).Ok? && Folded(symbol, other).Ok?
    ensures Folded(symbol, other).value.realised == Folded(symbol, fills).value.realised
  {
    RealisedIsCashAndBasis(symbol, fills, other);
    hide Folded, Basis, Net;
    NothingOpen(Folded(symbol, fills).value);
    NothingOpen(Folded(symbol, other).value);
  }

  lemma OneSideIsOrderFree(symbol: Symbol, fills: seq<Fill>, other: seq<Fill>, side: Side)
    requires Foldable(symbol, fills) && Foldable(symbol, other) && multiset(other) == multiset(fills) && AllOn(fills, side)
    ensures Folded(symbol, fills).Ok? && Folded(symbol, other).Ok?
    ensures Folded(symbol, other).value.realised == Folded(symbol, fills).value.realised
  {
    SameFills(fills, other);
    assert forall k :: 0 <= k < |other| ==> other[k] in other;
    hide Folded;
    OneSidedRealisesNothing(symbol, fills, side);
    OneSidedRealisesNothing(symbol, other, side);
  }

  lemma BasisAtOnePrice(p: Position, side: Side, price: real)
    requires p.Valid() && p.side == Some(side) && p.average == Some(price)
    ensures Basis(p) == AtMark(p.Signed(), price)
  {
  }

  lemma SideOfSign(p: Position)
    requires p.Valid() && p.Signed() != 0.0
    ensures p.side == Some(if p.Signed() > 0.0 then BUY else SELL)
  {
  }

  lemma OnePriceIsOrderFree(symbol: Symbol, fills: seq<Fill>, other: seq<Fill>)
    requires Foldable(symbol, fills) && Foldable(symbol, other) && multiset(other) == multiset(fills)
    requires Net(fills) != 0.0 && OnePrice(fills, NetSide(fills))
    ensures Folded(symbol, fills).Ok? && Folded(symbol, other).Ok?
    ensures Folded(symbol, other).value.realised == Folded(symbol, fills).value.realised
  {
    RealisedIsCashAndBasis(symbol, fills, other);
    SameFills(fills, other);
    var side := NetSide(fills);
    var price := PriceOn(fills, side);
    assert forall k :: 0 <= k < |other| ==> other[k] in other;
    hide Folded, Basis, Net;
    BasisIsTheOnePrice(symbol, fills, side, price);
    BasisIsTheOnePrice(symbol, other, side, price);
    SideOfSign(Folded(symbol, fills).value);
    SideOfSign(Folded(symbol, other).value);
    BasisAtOnePrice(Folded(symbol, fills).value, side, price);
    BasisAtOnePrice(Folded(symbol, other).value, side, price);
  }

  /** The price of the fills on a side, where it is one. */
  lemma PriceOn(fills: seq<Fill>, side: Side) returns (price: real)
    requires OnePrice(fills, side)
    ensures forall k :: 0 <= k < |fills| && fills[k].side == side ==> fills[k].price == price
  {
    if k :| 0 <= k < |fills| && fills[k].side == side { price := fills[k].price; } else { price := 0.0; }
  }

  // ---- Orders that do matter ----

  function Size(): Fill -> real { (f: Fill) => f.quantity }
  function Total(fills: seq<Fill>): real { SumBy(fills, Size()) }

  lemma TotalFromFront(fills: seq<Fill>)
    requires fills != []
    ensures Total(fills) == fills[0].quantity + Total(fills[1..])
  {
    SumByTakesOut(fills, Size(), 0);
    assert fills[..0] + fills[1..] == fills[1..];
  }

  lemma {:induction false} SumByJoins(a: seq<Fill>, b: seq<Fill>, amount: Fill -> real)
    ensures SumBy(a + b, amount) == SumBy(a, amount) + SumBy(b, amount)
  {
    if b == [] {
      assert a + b == a;
    } else {
      assert (a + b)[..|a + b| - 1] == a + b[..|b| - 1];
      SumByJoins(a, b[..|b| - 1], amount);
    }
  }

  /** What the first `shares` shares of the fills change hands for. */
  function Cost(fills: seq<Fill>, shares: real): real {
    if fills == [] then 0.0
    else if shares <= fills[0].quantity then Product(shares, fills[0].price)
    else Product(fills[0].quantity, fills[0].price) + Cost(fills[1..], shares - fills[0].quantity)
  }

  /** What buying back (selling off) a position for `cost` books against what it stood at. */
  function Booked(p: Position, cost: real): real
    requires p.average.Some? && p.side.Some?
  {
    if p.side.value.BUY? then cost - Product(p.quantity, p.average.value) else Product(p.quantity, p.average.value) - cost
  }

  lemma ClosePart(p: Position, f: Fill)
    requires p.Valid() && p.side.Some? && f.Valid() && f.symbol == p.symbol && f.side == p.side.value.Opposite()
    requires f.quantity < p.quantity
    ensures var q := Apply(p, f).value;
            && q == p.(quantity := p.quantity - f.quantity, realised := q.realised, fees := q.fees, fillCount := q.fillCount)
            && q.realised + Booked(q, 0.0) == p.realised + Booked(p, Product(f.quantity, f.price))
  {
  }

  lemma CloseAll(p: Position, f: Fill)
    requires p.Valid() && p.side.Some? && f.Valid() && f.symbol == p.symbol && f.side == p.side.value.Opposite()
    requires p.quantity <= f.quantity
    ensures var q := Apply(p, f).value;
            && q.realised == p.realised + Booked(p, Product(p.quantity, f.price))
            && (q.side.Some? ==> q.side.value == f.side)
  {
  }

  /** Fills on the other side, enough to close the position, book the cost of its shares in the order they
      come, and nothing after. */
  lemma {:induction false} ClosingBooksTheCost(p: Position, fills: seq<Fill>)
    requires p.Valid() && p.side.Some? && Foldable(p.symbol, fills) && AllOn(fills, p.side.value.Opposite())
    requires p.quantity <= Total(fills)
    ensures Onwards(p, fills).realised == p.realised + Booked(p, Cost(fills, p.quantity))
    decreases |fills|
  {
    if fills != [] {
      var f := fills[0];
      var q := Apply(p, f).value;
      ApplyKeepsValid(p, f);
      TotalFromFront(fills);
      if f.quantity < p.quantity {
        ClosePart(p, f);
        hide Apply, Product, Total;
        ClosingBooksTheCost(q, fills[1..]);
      } else {
        CloseAll(p, f);
        hide Apply, Product, Total;
        AddingRealisesNothing(q, fills[1..], f.side);
      }
    }
  }

  // ---- Two orders with different costs ----

  lemma {:induction false} CostAtOnePrice(fills: seq<Fill>, shares: real, price: real)
    requires ValidFills(fills) && 0.0 <= shares <= Total(fills) && forall k :: 0 <= k < |fills| ==> fills[k].price == price
    ensures Cost(fills, shares) == Product(shares, price)
    decreases |fills|
  {
    if fills != [] {
      TotalFromFront(fills);
      hide Total;
      if shares > fills[0].quantity {
        CostAtOnePrice(fills[1..], shares - fills[0].quantity, price);
        assert Product(shares, price) == Product(fills[0].quantity, price) + Product(shares - fills[0].quantity, price);
      }
    } else {
      assert Product(0.0, price) == 0.0;
    }
  }

  /** A fill put behind the others is reached only once they are used up. */
  lemma {:induction false} CostBehind(fills: seq<Fill>, last: Fill, shares: real)
    requires ValidFills(fills) && last.Valid() && 0.0 <= shares <= Total(fills) + last.quantity
    ensures Cost(fills + [last], shares) ==
              if shares <= Total(fills) then Cost(fills, shares)
              else Cost(fills, Total(fills)) + Product(shares - Total(fills), last.price)
    decreases |fills|
  {
    if fills == [] {
      assert fills + [last] == [last];
      assert shares == 0.0 ==> Product(shares, last.price) == 0.0;
    } else {
      TotalFromFront(fills);
      TotalIsNotNegative(fills[1..]);
      hide Total, Product;
      var rest := fills[1..];
      assert (fills + [last])[1..] == rest + [last];
      if shares > fills[0].quantity { CostBehind(rest, last, shares - fills[0].quantity); }
      if Total(rest) <= 0.0 { CostOfNothing(rest); }
    }
  }

  lemma {:induction false} TotalIsNotNegative(fills: seq<Fill>)
    requires ValidFills(fills)
    ensures Total(fills) >= 0.0 && (fills != [] ==> Total(fills) > 0.0)
  {
    if fills != [] { TotalIsNotNegative(fills[..|fills| - 1]); }
  }

  lemma CostOfNothing(fills: seq<Fill>)
    requires ValidFills(fills) && Total(fills) <= 0.0
    ensures fills == []
  {
    TotalIsNotNegative(fills);
  }

  lemma MovedToFront(fills: seq<Fill>, k: nat)
    requires k < |fills|
    ensures multiset([fills[k]] + (fills[..k] + fills[k + 1..])) == multiset(fills)
  {
    WithoutOne(fills, k);
  }

  lemma MovedToBack(first: Fill, rest: seq<Fill>)
    ensures multiset(rest + [first]) == multiset([first] + rest)
  {
  }

  /** The first fill alone covers the shares: leading with a fill at another price changes the cost. */
  lemma LeadWithAnother(fills: seq<Fill>, shares: real, k: nat) returns (other: seq<Fill>)
    requires ValidFills(fills) && 0 < k < |fills| && fills[k].price != fills[0].price && 0.0 < shares <= fills[0].quantity
    ensures multiset(other) == multiset(fills) && Cost(other, shares) != Cost(fills, shares)
  {
    var g := fills[k];
    other := [g] + (fills[..k] + fills[k + 1..]);
    MovedToFront(fills, k);
    assert other[0] == g && other[1..] == fills[..k] + fills[k + 1..] && other[1..][0] == fills[0];
    assert Cost(fills, shares) == Product(shares, fills[0].price);
    if shares <= g.quantity {
      assert Cost(other, shares) == Product(shares, g.price);
      ProductsDiffer(shares, g.price, fills[0].price);
    } else {
      assert Cost(other[1..], shares - g.quantity) == Product(shares - g.quantity, fills[0].price);
      assert Cost(other, shares) == Product(g.quantity, g.price) + Product(shares - g.quantity, fills[0].price);
      ProductsDiffer(g.quantity, g.price, fills[0].price);
      ProductSplits(shares, g.quantity, fills[0].price);
    }
  }

  lemma ProductsDiffer(x: real, y: real, z: real)
    requires x > 0.0 && y != z
    ensures Product(x, y) != Product(x, z)
  {
    if y < z { MulLess(y, z, x); } else { MulLess(z, y, x); }
  }

  lemma ProductSplits(x: real, part: real, y: real)
    ensures Product(x, y) == Product(part, y) + Product(x - part, y)
  {
  }

  /** Every other fill is at one price: putting the first one last changes the cost. */
  lemma FirstOneLast(fills: seq<Fill>, shares: real, price: real) returns (other: seq<Fill>)
    requires ValidFills(fills) && fills != [] && fills[0].price != price && fills[0].quantity < shares < Total(fills)
    requires forall k :: 1 <= k < |fills| ==> fills[k].price == price
    ensures multiset(other) == multiset(fills) && Cost(other, shares) != Cost(fills, shares)
  {
    var h, rest := fills[0], fills[1..];
    other := rest + [h];
    assert fills == [h] + rest;
    MovedToBack(h, rest);
    TotalFromFront(fills);
    TotalIsNotNegative(rest);
    hide Total, Product;
    CostAtOnePrice(rest, shares - h.quantity, price);
    assert Cost(fills, shares) == Product(h.quantity, h.price) + Product(shares - h.quantity, price);
    CostBehind(rest, h, shares);
    if shares <= Total(rest) {
      CostAtOnePrice(rest, shares, price);
      ProductSplits(shares, h.quantity, price);
      ProductsDiffer(h.quantity, h.price, price);
    } else {
      CostAtOnePrice(rest, Total(rest), price);
      FillsMeet(h.quantity, h.price, Total(rest), price, shares);
    }
  }

  /** Both fills are reached, one of them in full: which one is the difference. */
  lemma FillsMeet(q: real, x: real, r: real, y: real, shares: real)
    requires q < shares < q + r && r < shares && x != y
    ensures Product(q, x) + Product(shares - q, y) != Product(r, y) + Product(shares - r, x)
  {
    var left := q + r - shares;
    ProductSplits(q, left, x);
    ProductSplits(r, left, y);
    ProductsDiffer(left, x, y);
  }

  /** Unless they are all at one price, fills that more than cover the shares can be ordered to cover them
      at two different costs. */
  lemma {:induction false} TwoCosts(fills: seq<Fill>, shares: real, k: nat) returns (other: seq<Fill>)
    requires ValidFills(fills) && 0.0 < shares < Total(fills) && 0 < k < |fills| && fills[k].price != fills[0].price
    ensures multiset(other) == multiset(fills)
    ensures exists one :: multiset(one) == multiset(fills) && Cost(one, shares) != Cost(other, shares)
    decreases |fills|
  {
    var h, rest := fills[0], fills[1..];
    assert fills == [h] + rest;
    if shares <= h.quantity {
      other := LeadWithAnother(fills, shares, k);
      assert Cost(fills, shares) != Cost(other, shares);
    } else if j :| 0 < j < |rest| && rest[j].price != rest[0].price {
      TotalFromFront(fills);
      var behind := TwoCosts(rest, shares - h.quantity, j);
      var one :| multiset(one) == multiset(rest) && Cost(one, shares - h.quantity) != Cost(behind, shares - h.quantity);
      other := [h] + behind;
      CostAfter(h, one, shares);
      CostAfter(h, behind, shares);
      assert Cost([h] + one, shares) != Cost(other, shares);
    } else {
      assert forall i :: 1 <= i < |fills| ==> fills[i] == rest[i - 1];
      other := FirstOneLast(fills, shares, rest[0].price);
      assert Cost(fills, shares) != Cost(other, shares);
    }
  }

  lemma CostAfter(h: Fill, rest: seq<Fill>, shares: real)
    requires shares > h.quantity
    ensures Cost([h] + rest, shares) == Product(h.quantity, h.price) + Cost(rest, shares - h.quantity)
  {
    assert ([h] + rest)[1..] == rest;
  }

  // ---- The condition is exact ----

  function On(side: Side): Fill -> bool { (f: Fill) => f.side == side }

  lemma {:induction false} Sides(fills: seq<Fill>, side: Side)
    ensures multiset(Select(fills, On(side))) + multiset(Select(fills, On(side.Opposite()))) == multiset(fills)
  {
    hide *;
    if fills == [] {
      SelectOfNone(On(side));
      SelectOfNone(On(side.Opposite()));
    } else {
      var n := |fills| - 1;
      Sides(fills[..n], side);
      SidesStep(fills[..n], fills[n], side);
      assert fills == fills[..n] + [fills[n]];
    }
  }

  lemma SidesStep(front: seq<Fill>, f: Fill, side: Side)
    requires multiset(Select(front, On(side))) + multiset(Select(front, On(side.Opposite()))) == multiset(front)
    ensures multiset(Select(front + [f], On(side))) + multiset(Select(front + [f], On(side.Opposite()))) == multiset(front + [f])
  {
    SelectPush(front, f, On(side));
    SelectPush(front, f, On(side.Opposite()));
    hide Select;
    OneMore(Select(front, On(side)), Select(front, On(side.Opposite())), front, f, f.side == side);
  }

  lemma OneMore<T>(a: seq<T>, b: seq<T>, all: seq<T>, x: T, left: bool)
    requires multiset(a) + multiset(b) == multiset(all)
    ensures multiset(a + (if left then [x] else [])) + multiset(b + (if left then [] else [x])) == multiset(all + [x])
  {
    assert a + [] == a && b + [] == b;
  }

  lemma {:induction false} NetOfOneSide(fills: seq<Fill>, side: Side)
    requires AllOn(fills, side)
    ensures Net(fills) == if side.BUY? then Total(fills) else -Total(fills)
  {
    if fills != [] { NetOfOneSide(fills[..|fills| - 1], side); }
  }

  /** The fills of one side, with what they inherit. */
  lemma SideIsFoldable(symbol: Symbol, fills: seq<Fill>, side: Side)
    requires Foldable(symbol, fills)
    ensures Foldable(symbol, Select(fills, On(side))) && AllOn(Select(fills, On(side)), side)
    ensures forall f :: f in Select(fills, On(side)) <==> f in fills && f.side == side
  {
    hide Select;
    var kept := Select(fills, On(side));
    forall f ensures f in kept <==> f in fills && f.side == side { InSelect(fills, f, On(side)); }
    forall k | 0 <= k < |kept| ensures kept[k].Valid() && kept[k].symbol == symbol && kept[k].side == side {
      assert kept[k] in kept;
    }
  }

  lemma NetIsTheDifference(symbol: Symbol, fills: seq<Fill>, side: Side)
    requires Foldable(symbol, fills)
    ensures var net := Total(Select(fills, On(side))) - Total(Select(fills, On(side.Opposite())));
            Net(fills) == if side.BUY? then net else -net
  {
    var mine, theirs := Select(fills, On(side)), Select(fills, On(side.Opposite()));
    Sides(fills, side);
    SideIsFoldable(symbol, fills, side);
    SideIsFoldable(symbol, fills, side.Opposite());
    hide Select;
    SumByIgnoresOrder(mine + theirs, fills, Exposure());
    SumByJoins(mine, theirs, Exposure());
    NetOfOneSide(mine, side);
    NetOfOneSide(theirs, side.Opposite());
  }

  /** A fill on the net side at another price than the first of them. */
  lemma AnotherPrice(fills: seq<Fill>, side: Side) returns (k: nat)
    requires !OnePrice(fills, side)
    requires forall f :: f in Select(fills, On(side)) <==> f in fills && f.side == side
    ensures 0 < k < |Select(fills, On(side))|
    ensures Select(fills, On(side))[k].price != Select(fills, On(side))[0].price
  {
    var mine := Select(fills, On(side));
    hide Select;
    var i, j :| 0 <= i < |fills| && 0 <= j < |fills| && fills[i].side == side && fills[j].side == side
        && fills[i].price != fills[j].price;
    var a := IndexIn(mine, fills[i]);
    var b := IndexIn(mine, fills[j]);
    k := if mine[a].price != mine[0].price then a else b;
  }

  lemma IndexIn(fills: seq<Fill>, f: Fill) returns (k: nat)
    requires f in fills
    ensures k < |fills| && fills[k] == f
  {
    k :| 0 <= k < |fills| && fills[k] == f;
  }

  /** The side that is overtaken first, then the other: what is realised is settled by the cost of the
      shares that close the first. */
  lemma OvertakenFirst(symbol: Symbol, first: seq<Fill>, after: seq<Fill>, side: Side)
    requires Foldable(symbol, first) && Foldable(symbol, after) && first != []
    requires AllOn(first, side) && AllOn(after, side.Opposite()) && Total(first) <= Total(after)
    ensures Folded(symbol, first).Ok? && Folded(symbol, first).value.Valid() && Folded(symbol, first).value.side == Some(side)
    ensures Foldable(symbol, first + after) && Folded(symbol, first + after).Ok?
    ensures Folded(symbol, first + after).value.realised == Booked(Folded(symbol, first).value, Cost(after, Total(first)))
  {
    OneSidedRealisesNothing(symbol, first, side);
    LedgerIdentity(symbol, first);
    NetOfOneSide(first, side);
    FoldedJoins(symbol, first, after);
    hide Folded, Onwards, Cost, Total, Booked;
    ClosingBooksTheCost(Folded(symbol, first).value, after);
  }

  lemma BookedDiffers(p: Position, x: real, y: real)
    requires p.average.Some? && p.side.Some? && x != y
    ensures Booked(p, x) != Booked(p, y)
  {
    hide Product;
  }

  lemma CarriesOver(symbol: Symbol, fills: seq<Fill>, first: seq<Fill>, net: seq<Fill>, after: seq<Fill>, side: Side)
    requires Foldable(symbol, fills) && Foldable(symbol, net) && AllOn(net, side) && multiset(after) == multiset(net)
    requires multiset(net) + multiset(first) == multiset(fills)
    ensures Foldable(symbol, after) && AllOn(after, side) && Total(after) == Total(net)
    ensures multiset(first + after) == multiset(fills)
  {
    SameFills(net, after);
    assert forall k :: 0 <= k < |after| ==> after[k] in after;
    SumByIgnoresOrder(after, net, Size());
  }

  /** Otherwise there is an order that realises something else: the overtaken side first, then the other,
      led by one price or by another. */
  lemma OrderMatters(symbol: Symbol, fills: seq<Fill>)
    requires Foldable(symbol, fills) && Folded(symbol, fills).Ok? && !NothingToOrder(fills)
    ensures !OrderFree(symbol, fills)
  {
    var first, net, side, k := Overtaken(symbol, fills);
    hide Folded, Total, Cost, Booked, NothingToOrder;
    var other := TwoCosts(net, Total(first), k);
    var one :| multiset(one) == multiset(net) && Cost(one, Total(first)) != Cost(other, Total(first));
    TwoRealise(symbol, fills, first, net, one, other, side);
  }

  /** The side that is overtaken, and the net side with its two prices. */
  lemma Overtaken(symbol: Symbol, fills: seq<Fill>)
    returns (first: seq<Fill>, net: seq<Fill>, side: Side, k: nat)
    requires Foldable(symbol, fills) && !NothingToOrder(fills)
    ensures Foldable(symbol, first) && AllOn(first, side.Opposite()) && Foldable(symbol, net) && AllOn(net, side)
    ensures first != [] && 0.0 < Total(first) < Total(net) && multiset(net) + multiset(first) == multiset(fills)
    ensures 0 < k < |net| && net[k].price != net[0].price
  {
    side := NetSide(fills);
    net, first := Select(fills, On(side)), Select(fills, On(side.Opposite()));
    Sides(fills, side);
    SideIsFoldable(symbol, fills, side);
    SideIsFoldable(symbol, fills, side.Opposite());
    NetIsTheDifference(symbol, fills, side);
    k := AnotherPrice(fills, side);
    NotOneSided(fills, side);
    TotalIsNotNegative(first);
    hide Select, Total;
  }

  lemma TwoRealise(symbol: Symbol, fills: seq<Fill>, first: seq<Fill>, net: seq<Fill>, one: seq<Fill>,
      other: seq<Fill>, side: Side)
    requires Foldable(symbol, fills) && Folded(symbol, fills).Ok?
    requires Foldable(symbol, first) && AllOn(first, side.Opposite()) && Foldable(symbol, net) && AllOn(net, side)
    requires first != [] && 0.0 < Total(first) < Total(net) && multiset(net) + multiset(first) == multiset(fills)
    requires multiset(one) == multiset(net) == multiset(other) && Cost(one, Total(first)) != Cost(other, Total(first))
    ensures !OrderFree(symbol, fills)
  {
    hide Folded, Total, Cost, Booked;
    CarriesOver(symbol, fills, first, net, one, side);
    CarriesOver(symbol, fills, first, net, other, side);
    OvertakenFirst(symbol, first, one, side.Opposite());
    OvertakenFirst(symbol, first, other, side.Opposite());
    BookedDiffers(Folded(symbol, first).value, Cost(one, Total(first)), Cost(other, Total(first)));
  }

  lemma NotOneSided(fills: seq<Fill>, side: Side)
    requires !AllOn(fills, BUY) && !AllOn(fills, SELL)
    requires forall f :: f in Select(fills, On(side.Opposite())) <==> f in fills && f.side == side.Opposite()
    ensures Select(fills, On(side.Opposite())) != []
  {
    hide Select;
    var k :| 0 <= k < |fills| && fills[k].side != side;
    assert fills[k] in fills;
  }

  /** Every order of the fills realises the same if and only if they leave nothing open, lie all on one side,
      or deal the side they leave open at one price. */
  lemma OrderFreeExactlyWhen(symbol: Symbol, fills: seq<Fill>)
    requires ValidFills(fills) && Folded(symbol, fills).Ok?
    ensures OrderFree(symbol, fills) <==> NothingToOrder(fills)
  {
    LedgerIdentity(symbol, fills);
    hide Folded;
    if NothingToOrder(fills) {
      forall other | ValidFills(other) && multiset(other) == multiset(fills) && Folded(symbol, other).Ok?
        ensures Folded(symbol, other).value.realised == Folded(symbol, fills).value.realised
      {
        LedgerIdentity(symbol, other);
        if Net(fills) == 0.0 {
          NetZeroIsOrderFree(symbol, fills, other);
        } else if AllOn(fills, BUY) {
          OneSideIsOrderFree(symbol, fills, other, BUY);
        } else if AllOn(fills, SELL) {
          OneSideIsOrderFree(symbol, fills, other, SELL);
        } else {
          OnePriceIsOrderFree(symbol, fills, other);
        }
      }
    } else {
      OrderMatters(symbol, fills);
    }
  }
}
