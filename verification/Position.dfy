/** A position is what its fills add up to. */
module Position {
  import opened Common

  datatype Fill = Fill(symbol: Symbol, side: Side, price: real, quantity: real, commission: real) {
    /** What the constructor accepts. A commission may be a rebate. */
    predicate Valid() { price > 0.0 && quantity > 0.0 }

    function Signed(): real { if side.BUY? then quantity else -quantity }
  }

  datatype Position = Position(
    symbol: Symbol,
    side: Option<Side>,
    quantity: real,
    average: Option<real>,
    realised: real,
    fees: real,
    fillCount: nat
  ) {
    /** What the constructor accepts: flat, without a side and without a cost basis are the same thing. */
    predicate Valid() {
      && quantity >= 0.0
      && (side.None? <==> quantity == 0.0)
      && (average.None? <==> quantity == 0.0)
      && (average.Some? ==> average.value > 0.0)
    }

    function Signed(): real {
      if side.None? then 0.0 else if side.value.BUY? then quantity else -quantity
    }

    /** Gross paper gain or loss; zero when flat. */
    function Unrealised(mark: real): real {
      if side.None? || average.None? then 0.0 else Gain(mark, average.value, side.value) * quantity
    }

    function NetRealised(): real { realised - fees }

    function TotalPnl(mark: real): real { NetRealised() + Unrealised(mark) }
  }

  /** What one share held on `side` gains when the price goes from `basis` to `price`. */
  function Gain(price: real, basis: real, side: Side): real { (price - basis) * side.Sign() }

  function Flat(symbol: Symbol): Position { Position(symbol, None, 0.0, None, 0.0, 0.0, 0) }

  function Opened(p: Position, f: Fill, fees: real): Position {
    p.(side := Some(f.side), quantity := f.quantity, average := Some(f.price), fees := fees, fillCount := p.fillCount + 1)
  }

  /** The size-weighted average of two prices. */
  function Weighted(basis: real, held: real, price: real, added: real): real
    requires held + added != 0.0
  {
    (basis * held + price * added) / (held + added)
  }

  function Increased(p: Position, f: Fill, fees: real): Position
    requires p.Valid() && p.side.Some? && f.Valid()
  {
    p.(quantity := p.quantity + f.quantity,
       average := Some(Weighted(p.average.value, p.quantity, f.price, f.quantity)),
       fees := fees,
       fillCount := p.fillCount + 1)
  }

  function ReducedOrReversed(p: Position, f: Fill, fees: real): Position
    requires p.Valid() && p.side.Some?
  {
    var closing := MinReal(p.quantity, f.quantity);
    var realised := p.realised + Gain(f.price, p.average.value, p.side.value) * closing;
    var remaining, flipped := p.quantity - closing, f.quantity - closing;
    var next := p.(realised := realised, fees := fees, fillCount := p.fillCount + 1);
    if remaining > 0.0 then next.(quantity := remaining)
    else if flipped == 0.0 then next.(side := None, quantity := 0.0, average := None)
    else next.(side := Some(f.side), quantity := flipped, average := Some(f.price))
  }

  function Apply(p: Position, f: Fill): Result<Position>
    requires p.Valid() && f.Valid()
  {
    if f.symbol != p.symbol then Err("fill is for another instrument")
    else
      var fees := p.fees + f.commission;
      if p.side.None? then Ok(Opened(p, f, fees))
      else if f.side == p.side.value then Ok(Increased(p, f, fees))
      else Ok(ReducedOrReversed(p, f, fees))
  }

  ghost predicate ValidFills(fills: seq<Fill>) { forall k :: 0 <= k < |fills| ==> fills[k].Valid() }

  /** The projection: fills folded in order, from flat. */
  function Folded(symbol: Symbol, fills: seq<Fill>): (r: Result<Position>)
    requires ValidFills(fills)
    ensures r.Ok? ==> r.value.Valid() && r.value.symbol == symbol
  {
    if fills == [] then Ok(Flat(symbol))
    else match Folded(symbol, fills[..|fills| - 1])
      case Err(e) => Err(e)
      case Ok(p) =>
        ApplyKeepsValid(p, fills[|fills| - 1]);
        Apply(p, fills[|fills| - 1])
  }

  // ---- One fill ----

  lemma WeightedIsBetween(basis: real, held: real, price: real, added: real)
    requires held > 0.0 && added > 0.0
    ensures MinReal(basis, price) <= Weighted(basis, held, price, added) <= MaxReal(basis, price)
    ensures Weighted(basis, held, price, added) * (held + added) == basis * held + price * added
  {
    var lo, hi, total := MinReal(basis, price), MaxReal(basis, price), held + added;
    var top := basis * held + price * added;
    assert lo * held <= basis * held && lo * added <= price * added;
    assert hi * held >= basis * held && hi * added >= price * added;
    var w := top / total;
    assert w * total == top;
    if w < lo { assert w * total < lo * total; }
    if w > hi { assert w * total > hi * total; }
  }

  /** A fill is refused exactly when it is for another instrument; otherwise the position stays
      consistent, and side, size, basis and count move together. */
  lemma ApplyKeepsValid(p: Position, f: Fill)
    requires p.Valid() && f.Valid()
    ensures Apply(p, f).Ok? <==> f.symbol == p.symbol
    ensures Apply(p, f).Ok? ==> Apply(p, f).value.Valid() && Apply(p, f).value.symbol == p.symbol
  {
    if p.side.Some? && f.side == p.side.value {
      WeightedIsBetween(p.average.value, p.quantity, f.price, f.quantity);
      hide Weighted;
    }
  }

  /** What the open shares cost: signed size times the basis. */
  function Basis(p: Position): real {
    if p.average.None? then 0.0 else p.Signed() * p.average.value
  }

  /** Cash that changed hands for the shares: out on a buy, in on a sale. */
  function Cash(f: Fill): real { -(f.Signed() * f.price) }

  /** One fill moves exposure by its own size, and realised P&L less the basis by its own cash. */
  lemma ApplyBalances(p: Position, f: Fill)
    requires p.Valid() && f.Valid() && f.symbol == p.symbol
    ensures var q := Apply(p, f).value;
            && q.Signed() == p.Signed() + f.Signed()
            && q.realised - Basis(q) == p.realised - Basis(p) + Cash(f)
            && q.fees == p.fees + f.commission
            && q.fillCount == p.fillCount + 1
  {
    if p.side.Some? && f.side == p.side.value { WeightedIsBetween(p.average.value, p.quantity, f.price, f.quantity); }
  }

  // ---- Sums over fills ----

  function SumBy(fills: seq<Fill>, amount: Fill -> real): real {
    if fills == [] then 0.0 else SumBy(fills[..|fills| - 1], amount) + amount(fills[|fills| - 1])
  }

  function Exposure(): Fill -> real { (f: Fill) => f.Signed() }
  function CashOf(): Fill -> real { (f: Fill) => Cash(f) }
  function Charge(): Fill -> real { (f: Fill) => f.commission }
  function WorthAt(mark: real): Fill -> real { (f: Fill) => Worth(f, mark) }

  lemma {:induction false} SumByTakesOut(fills: seq<Fill>, amount: Fill -> real, k: nat)
    requires k < |fills|
    ensures SumBy(fills, amount) == SumBy(fills[..k] + fills[k + 1..], amount) + amount(fills[k])
  {
    var n := |fills| - 1;
    if k == n {
      assert fills[..k] + fills[k + 1..] == fills[..n];
    } else {
      SumByTakesOut(fills[..n], amount, k);
      var rest := fills[..k] + fills[k + 1..];
      assert rest[..|rest| - 1] == fills[..n][..k] + fills[..n][k + 1..];
      assert rest[|rest| - 1] == fills[n];
    }
  }

  lemma WithoutOne<T>(s: seq<T>, k: nat)
    requires k < |s|
    ensures multiset(s[..k] + s[k + 1..]) == multiset(s) - multiset{s[k]}
  {
    assert s == s[..k] + [s[k]] + s[k + 1..];
  }

  lemma {:induction false} SumByIgnoresOrder(a: seq<Fill>, b: seq<Fill>, amount: Fill -> real)
    requires multiset(a) == multiset(b)
    ensures SumBy(a, amount) == SumBy(b, amount)
  {
    if a == [] {
      assert |multiset(b)| == |b|;
    } else {
      var n := |a| - 1;
      assert a == a[..n] + [a[n]];
      assert a[n] in multiset(b);
      var k :| 0 <= k < |b| && b[k] == a[n];
      var rest := b[..k] + b[k + 1..];
      WithoutOne(b, k);
      assert multiset(a[..n]) == multiset(a) - multiset{a[n]};
      SumByIgnoresOrder(a[..n], rest, amount);
      SumByTakesOut(b, amount, k);
    }
  }

  // ---- Every sequence of fills ----

  /** The accounting identity: after any fills, exposure is their signed sum, realised P&L is the net
      cash flow plus what the open shares cost, and fees are the commissions. */
  lemma {:induction false} LedgerIdentity(symbol: Symbol, fills: seq<Fill>)
    requires ValidFills(fills)
    ensures Folded(symbol, fills).Ok? <==> forall k :: 0 <= k < |fills| ==> fills[k].symbol == symbol
    ensures Folded(symbol, fills).Ok? ==>
              var p := Folded(symbol, fills).value;
              && p.Signed() == SumBy(fills, Exposure())
              && p.realised == SumBy(fills, CashOf()) + Basis(p)
              && p.fees == SumBy(fills, Charge())
              && p.fillCount == |fills|
  {
    assert Basis(Flat(symbol)) == 0.0 && Flat(symbol).Signed() == 0.0;
    hide Apply, Cash, Basis;
    if fills != [] {
      var n := |fills| - 1;
      LedgerIdentity(symbol, fills[..n]);
      assert fills[..n] + [fills[n]] == fills;
      if Folded(symbol, fills[..n]).Ok? {
        var p := Folded(symbol, fills[..n]).value;
        ApplyKeepsValid(p, fills[n]);
        if fills[n].symbol == symbol { ApplyBalances(p, fills[n]); }
      }
    }
  }

  function AtMark(shares: real, mark: real): real { shares * mark }

  /** What one fill contributes to the account when the shares are valued at `mark`. */
  function Worth(f: Fill, mark: real): real { f.Signed() * (mark - f.price) - f.commission }

  lemma {:induction false} WorthAddsUp(fills: seq<Fill>, mark: real)
    ensures SumBy(fills, WorthAt(mark)) ==
              SumBy(fills, CashOf()) + AtMark(SumBy(fills, Exposure()), mark)
                - SumBy(fills, Charge())
  {
    if fills != [] {
      var n := |fills| - 1;
      WorthAddsUp(fills[..n], mark);
      WorthSplits(fills[n], mark);
      hide Worth, Cash;
      assert AtMark(SumBy(fills[..n], Exposure()) + fills[n].Signed(), mark) ==
             AtMark(SumBy(fills[..n], Exposure()), mark) + AtMark(fills[n].Signed(), mark);
    }
  }

  lemma WorthSplits(f: Fill, mark: real)
    ensures Worth(f, mark) == Cash(f) + AtMark(f.Signed(), mark) - f.commission
  {
  }

  lemma OpenSharesAtMark(p: Position, mark: real)
    requires p.Valid()
    ensures Basis(p) + p.Unrealised(mark) == AtMark(p.Signed(), mark)
  {
  }

  /** Total P&L at a mark is the sum of what each fill is worth there. */
  lemma TotalPnlIsTheSum(symbol: Symbol, fills: seq<Fill>, mark: real)
    requires ValidFills(fills) && Folded(symbol, fills).Ok?
    ensures Folded(symbol, fills).value.TotalPnl(mark) == SumBy(fills, WorthAt(mark))
  {
    hide Folded, Basis, WorthAt, CashOf, SumBy, Exposure, Charge, AtMark, Position.Unrealised;
    LedgerIdentity(symbol, fills);
    WorthAddsUp(fills, mark);
    OpenSharesAtMark(Folded(symbol, fills).value, mark);
  }

  /** The order fills arrive in changes neither the exposure, nor the fees, nor the total P&L at any
      mark. */
  lemma OrderOfFillsIsImmaterial(symbol: Symbol, a: seq<Fill>, b: seq<Fill>, mark: real)
    requires ValidFills(a) && ValidFills(b) && multiset(a) == multiset(b) && Folded(symbol, a).Ok?
    ensures Folded(symbol, b).Ok?
    ensures var p, q := Folded(symbol, a).value, Folded(symbol, b).value;
            q.TotalPnl(mark) == p.TotalPnl(mark) && q.Signed() == p.Signed() && q.fees == p.fees && q.fillCount == p.fillCount
  {
    hide Folded;
    LedgerIdentity(symbol, a);
    LedgerIdentity(symbol, b);
    forall k | 0 <= k < |b| ensures b[k].symbol == symbol {
      assert b[k] in multiset(b);
      assert b[k] in multiset(a);
    }
    TotalPnlIsTheSum(symbol, a, mark);
    TotalPnlIsTheSum(symbol, b, mark);
    SumByIgnoresOrder(a, b, WorthAt(mark));
    SumByIgnoresOrder(a, b, Exposure());
    SumByIgnoresOrder(a, b, Charge());
    assert |multiset(a)| == |a| && |multiset(b)| == |b|;
  }

  /** The order does change what is realised: a share bought after the sale is not averaged into the
      basis the sale was booked against. */
  lemma RealisedDependsOnOrder()
    ensures var first, second, sale := Bought(1.0), Bought(3.0), Sold(4.0);
            && multiset([first, second, sale]) == multiset([first, sale, second])
            && ValidFills([first, second, sale]) && ValidFills([first, sale, second])
            && Folded(0, [first, second, sale]).Ok? && Folded(0, [first, second, sale]).value.realised == 2.0
            && Folded(0, [first, sale, second]).Ok? && Folded(0, [first, sale, second]).value.realised == 3.0
  {
    var first, second, sale := Bought(1.0), Bought(3.0), Sold(4.0);
    var one := Position(0, Some(BUY), 1.0, Some(1.0), 0.0, 0.0, 1);
    var two := one.(quantity := 2.0, average := Some(2.0), fillCount := 2);
    var closed := one.(side := None, quantity := 0.0, average := None, realised := 3.0, fillCount := 2);
    AveragedFirst(one, two);
    SoldFirst(one, closed);
    hide Apply, Folded, Bought, Sold, ValidFills;
    FoldedThree(first, second, sale, one, two);
    FoldedThree(first, sale, second, one, closed);
    SwapLastTwo(first, second, sale);
  }

  lemma SwapLastTwo<T>(a: T, b: T, c: T)
    ensures multiset([a, b, c]) == multiset([a, c, b])
  {
  }

  lemma AveragedFirst(one: Position, two: Position)
    requires one == Position(0, Some(BUY), 1.0, Some(1.0), 0.0, 0.0, 1)
    requires two == one.(quantity := 2.0, average := Some(2.0), fillCount := 2)
    ensures Apply(Flat(0), Bought(1.0)) == Ok(one) && Apply(one, Bought(3.0)) == Ok(two)
    ensures Apply(two, Sold(4.0)).Ok? && Apply(two, Sold(4.0)).value.realised == 2.0
  {
    assert Gain(4.0, 2.0, BUY) == 2.0;
  }

  lemma SoldFirst(one: Position, closed: Position)
    requires one == Position(0, Some(BUY), 1.0, Some(1.0), 0.0, 0.0, 1)
    requires closed == one.(side := None, quantity := 0.0, average := None, realised := 3.0, fillCount := 2)
    ensures Apply(one, Sold(4.0)) == Ok(closed)
    ensures Apply(closed, Bought(3.0)).Ok? && Apply(closed, Bought(3.0)).value.realised == 3.0
  {
    assert Gain(4.0, 1.0, BUY) == 3.0;
  }

  function Bought(price: real): Fill { Fill(0, BUY, price, 1.0, 0.0) }
  function Sold(price: real): Fill { Fill(0, SELL, price, 1.0, 0.0) }

  lemma FoldedThree(a: Fill, b: Fill, c: Fill, p: Position, q: Position)
    requires a.Valid() && b.Valid() && c.Valid() && p.Valid() && q.Valid()
    requires Apply(Flat(0), a) == Ok(p) && Apply(p, b) == Ok(q)
    ensures ValidFills([a, b, c]) && Folded(0, [a, b, c]) == Apply(q, c)
  {
    assert Folded(0, []) == Ok(Flat(0));
    hide Apply, Folded;
    FoldedPush(0, [], a);
    FoldedPush(0, [a], b);
    FoldedPush(0, [a, b], c);
    assert [] + [a] == [a] && [a] + [b] == [a, b] && [a, b] + [c] == [a, b, c];
  }

  lemma FoldedPush(symbol: Symbol, fills: seq<Fill>, f: Fill)
    requires ValidFills(fills) && f.Valid()
    ensures ValidFills(fills + [f])
    ensures Folded(symbol, fills).Ok? ==> Folded(symbol, fills + [f]) == Apply(Folded(symbol, fills).value, f)
  {
    assert (fills + [f])[..|fills|] == fills;
    forall k | 0 <= k < |fills + [f]| ensures (fills + [f])[k].Valid() {}
  }

  /** The cost basis never leaves the range of the prices paid. */
  lemma {:induction false} AverageStaysInRange(symbol: Symbol, fills: seq<Fill>, lo: real, hi: real)
    requires ValidFills(fills) && Folded(symbol, fills).Ok?
    requires forall k :: 0 <= k < |fills| ==> lo <= fills[k].price <= hi
    ensures Folded(symbol, fills).value.average.Some? ==> lo <= Folded(symbol, fills).value.average.value <= hi
  {
    if fills != [] {
      var n := |fills| - 1;
      AverageStaysInRange(symbol, fills[..n], lo, hi);
      var p, f := Folded(symbol, fills[..n]).value, fills[n];
      assert Folded(symbol, fills) == Apply(p, f);
      assert p.average.Some? ==> lo <= p.average.value <= hi;
      hide Folded;
      if p.side.Some? && f.side == p.side.value {
        WeightedIsBetween(p.average.value, p.quantity, f.price, f.quantity);
        hide Weighted;
      }
    }
  }

  // ---- A fill in two parts ----

  /** The same execution reported as two fills at one price, the commission divided between them. */
  predicate Parts(f: Fill, a: Fill, b: Fill) {
    && a.Valid() && b.Valid() && a.quantity + b.quantity == f.quantity && a.commission + b.commission == f.commission
    && a == f.(quantity := a.quantity, commission := a.commission)
    && b == f.(quantity := b.quantity, commission := b.commission)
  }

  /** A fill and its two parts give one position, whether it opens, adds, reduces, closes or reverses
      through zero; only the number of fills differs. */
  lemma PartsMakeTheWhole(p: Position, f: Fill, a: Fill, b: Fill)
    requires p.Valid() && f.Valid() && Parts(f, a, b) && f.symbol == p.symbol
    ensures Apply(p, a).Ok? && Apply(p, a).value.Valid() && Apply(Apply(p, a).value, b).Ok?
    ensures Apply(Apply(p, a).value, b).value == Apply(p, f).value.(fillCount := p.fillCount + 2)
  {
    ApplyKeepsValid(p, a);
    if p.side.None? {
      PartsAverage(f.price, a.quantity, f.price, 0.0, b.quantity);
    } else if f.side == p.side.value {
      PartsAverage(p.average.value, p.quantity, f.price, a.quantity, b.quantity);
      hide Weighted;
    } else {
      PartsReverse(p, f, a, b);
    }
  }

  lemma PartsAverage(basis: real, held: real, price: real, a: real, b: real)
    requires held > 0.0 && a >= 0.0 && b > 0.0
    ensures Weighted(Weighted(basis, held, price, a), held + a, price, b) == Weighted(basis, held, price, a + b)
    ensures basis == price ==> Weighted(basis, held, price, b) == price
  {
    var first := Weighted(basis, held, price, a);
    var top := basis * held + price * a;
    assert first * (held + a) == top;
    assert top + price * b == basis * held + price * (a + b);
    if basis == price {
      assert basis * held + price * b == price * (held + b);
    }
  }

  lemma PartsReverse(p: Position, f: Fill, a: Fill, b: Fill)
    requires p.Valid() && f.Valid() && Parts(f, a, b) && f.symbol == p.symbol && p.side.Some? && f.side != p.side.value
    requires Apply(p, a).Ok? && Apply(p, a).value.Valid()
    ensures Apply(Apply(p, a).value, b) == Ok(Apply(p, f).value.(fillCount := p.fillCount + 2))
  {
    if a.quantity <= p.quantity {
      PartReduces(p, f, a, b);
    } else {
      PartReverses(p, f, a, b);
    }
  }

  lemma PartReduces(p: Position, f: Fill, a: Fill, b: Fill)
    requires p.Valid() && f.Valid() && Parts(f, a, b) && f.symbol == p.symbol && p.side.Some? && f.side != p.side.value
    requires Apply(p, a).Ok? && Apply(p, a).value.Valid() && a.quantity <= p.quantity
    ensures Apply(Apply(p, a).value, b) == Ok(Apply(p, f).value.(fillCount := p.fillCount + 2))
  {
    var gain := Gain(f.price, p.average.value, p.side.value);
    var rest := MinReal(p.quantity - a.quantity, b.quantity);
    assert MinReal(p.quantity, f.quantity) == a.quantity + rest;
    assert gain * (a.quantity + rest) == gain * a.quantity + gain * rest;
    hide Gain;
    var r, w := Apply(Apply(p, a).value, b).value, Apply(p, f).value;
    assert r.side == w.side && r.quantity == w.quantity && r.average == w.average;
    assert r.fees == w.fees && r.realised == w.realised;
  }

  lemma PartReverses(p: Position, f: Fill, a: Fill, b: Fill)
    requires p.Valid() && f.Valid() && Parts(f, a, b) && f.symbol == p.symbol && p.side.Some? && f.side != p.side.value
    requires Apply(p, a).Ok? && Apply(p, a).value.Valid() && a.quantity > p.quantity
    ensures Apply(Apply(p, a).value, b) == Ok(Apply(p, f).value.(fillCount := p.fillCount + 2))
  {
    PartsAverage(f.price, a.quantity - p.quantity, f.price, 0.0, b.quantity);
    hide Weighted, Gain;
    var q := Apply(p, a).value;
    assert q.side == Some(f.side) && q.quantity == a.quantity - p.quantity && q.average == Some(f.price);
    var r, w := Apply(q, b).value, Apply(p, f).value;
    assert r.side == w.side && r.quantity == w.quantity && r.average == w.average;
    assert r.fees == w.fees && r.realised == w.realised;
  }
}
