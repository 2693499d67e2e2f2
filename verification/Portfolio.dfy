/** The sub-portfolio: average-cost accounting of long and short positions
    (src/alpha_engine/strategies/base.py).

    Account is the value of a portfolio; Apply is the accounting rule stated once for both signs
    of the position; the class SubPortfolio follows the branches of the program and is proved
    against Apply. */
module Portfolio {
  import opened Finite

  // The side after upper-casing; Other is any string that is neither BUY nor SELL.
  datatype Side = Buy | Sell | Other

  datatype Fill = Fill(symbol: string, qty: int, side: Side, price: real, commission: real)

  datatype Account = Account(
    cash: real,
    positions: map<string, int>,
    costBasis: map<string, real>,
    lastPrices: map<string, real>,
    realizedPnl: real,
    totalCommissions: real)

  const ZERO := Account(0.0, map[], map[], map[], 0.0, 0.0)

  function Opened(cash: real): Account {
    ZERO.(cash := cash)
  }

  function Position(a: Account, s: string): int {
    if s in a.positions then a.positions[s] else 0
  }

  // The number of shares a fill adds to the position; nothing is traded for a quantity below one.
  function SignedQty(f: Fill): int {
    if f.qty <= 0 then 0
    else match f.side
      case Buy => f.qty
      case Sell => -f.qty
      case Other => 0
  }

  // What a fill costs before commission: paid when buying, received when selling.
  function SignedNotional(f: Fill): real {
    match f.side
    case Buy => f.qty as real * f.price
    case Sell => -(f.qty as real * f.price)
    case Other => 0.0
  }

  // A fill that opens or extends a position, rather than closing some of the other side.
  predicate Extends(a: Account, f: Fill) {
    SignedQty(f) != 0 &&
    (if SignedQty(f) > 0 then Position(a, f.symbol) >= 0 else Position(a, f.symbol) <= 0)
  }

  predicate Closes(a: Account, f: Fill) {
    SignedQty(f) != 0 && !Extends(a, f)
  }

  function Basis(a: Account, f: Fill): real {
    if f.symbol in a.costBasis then a.costBasis[f.symbol] else f.price
  }

  // Profit on the shares closed, less the commission of the closing fill.
  function RealizedBy(a: Account, f: Fill): real {
    if !Closes(a, f) then 0.0
    else
      var pos := Position(a, f.symbol);
      var closed := if Abs(pos) < f.qty then Abs(pos) else f.qty;
      var perShare := if pos > 0 then f.price - Basis(a, f) else Basis(a, f) - f.price;
      perShare * closed as real - f.commission
  }

  lemma {:induction false} RealizedIs(a: Account, f: Fill, perShare: real, closed: int)
    requires Closes(a, f)
    requires closed == if f.qty < Abs(Position(a, f.symbol)) then f.qty else Abs(Position(a, f.symbol))
    requires perShare == if Position(a, f.symbol) > 0 then f.price - Basis(a, f) else Basis(a, f) - f.price
    ensures perShare * closed as real - f.commission == RealizedBy(a, f)
  {
  }

  // The cost per share of held shares at one price and bought shares at another.
  function Average(held: int, cost: real, bought: int, price: real): real
    requires held >= 0 && bought > 0
  {
    (held as real * cost + bought as real * price) / (held + bought) as real
  }

  function CostAfter(a: Account, f: Fill): real
    requires SignedQty(f) != 0
  {
    var pos := Position(a, f.symbol);
    if Extends(a, f) then
      Average(Abs(pos), Basis(a, f), f.qty, f.price)
    else if f.qty > Abs(pos) then f.price
    else Basis(a, f)
  }

  function Mark(a: Account, s: string, price: real): Account {
    a.(lastPrices := a.lastPrices[s := price])
  }

  function Apply(a: Account, f: Fill): Account {
    if f.qty <= 0 then a
    else
      var seen := Mark(a, f.symbol, f.price).(totalCommissions := a.totalCommissions + f.commission);
      if SignedQty(f) == 0 then seen
      else
        var pos := Position(a, f.symbol) + SignedQty(f);
        seen.(
          cash := a.cash - SignedNotional(f) - f.commission,
          realizedPnl := a.realizedPnl + RealizedBy(a, f),
          positions := if pos == 0 then a.positions - {f.symbol} else a.positions[f.symbol := pos],
          costBasis := if pos == 0 then a.costBasis - {f.symbol}
                       else if Extends(a, f) || f.qty > Abs(Position(a, f.symbol))
                         then a.costBasis[f.symbol := CostAfter(a, f)]
                       else a.costBasis)
  }

  lemma {:induction false} NotionalIsSigned(f: Fill)
    requires SignedQty(f) != 0
    ensures SignedNotional(f) == SignedQty(f) as real * f.price
  {
  }

  function Outlay(f: Fill): real {
    if SignedQty(f) == 0 then 0.0 else SignedQty(f) as real * f.price + f.commission
  }

  lemma {:induction false} ApplyCash(a: Account, f: Fill)
    ensures Apply(a, f).cash == a.cash - Outlay(f)
  {
    if SignedQty(f) != 0 {
      NotionalIsSigned(f);
    }
  }

  lemma {:induction false} ApplyRealized(a: Account, f: Fill)
    ensures Apply(a, f).realizedPnl == a.realizedPnl + RealizedBy(a, f)
  {
  }

  // ----- valuation

  // get(symbol, cost_basis.get(symbol, 0.0))
  function MarkOf(a: Account, s: string): real {
    if s in a.lastPrices then a.lastPrices[s]
    else if s in a.costBasis then a.costBasis[s]
    else 0.0
  }

  function Worth(a: Account, s: string): real {
    Position(a, s) as real * MarkOf(a, s)
  }

  function Exposure(a: Account, s: string): real {
    Abs(Position(a, s)) as real * MarkOf(a, s)
  }

  function Gain(a: Account, s: string): real {
    Worth(a, s) - BookOf(a, s)
  }

  function Marked(a: Account): map<string, real> {
    map s | s in a.positions :: Worth(a, s)
  }

  function Exposed(a: Account): map<string, real> {
    map s | s in a.positions :: Exposure(a, s)
  }

  function BookOf(a: Account, s: string): real {
    if s in a.positions && s in a.costBasis then a.positions[s] as real * a.costBasis[s] else 0.0
  }

  function Booked(a: Account): map<string, real> {
    map s | s in a.positions && s in a.costBasis :: BookOf(a, s)
  }

  function Unbooked(a: Account): map<string, real> {
    map s | s in a.positions && s in a.costBasis :: Gain(a, s)
  }

  ghost function Nav(a: Account): real { a.cash + SumMap(Marked(a)) }
  ghost function GrossExposure(a: Account): real { SumMap(Exposed(a)) }
  ghost function BookEquity(a: Account): real { a.cash + SumMap(Booked(a)) }
  ghost function Unrealized(a: Account): real { SumMap(Unbooked(a)) }

  predicate Consistent(a: Account) {
    && a.positions.Keys == a.costBasis.Keys
    && a.positions.Keys <= a.lastPrices.Keys
    && forall s | s in a.positions :: a.positions[s] != 0
  }

  // The gain of a position is its size times the move away from its cost.
  lemma {:induction false} GainIsMove(a: Account, s: string)
    requires Consistent(a) && s in a.positions
    ensures Gain(a, s) == a.positions[s] as real * (a.lastPrices[s] - a.costBasis[s])
  {
    Distribute(a.positions[s] as real, a.costBasis[s], a.lastPrices[s]);
  }

  // ----- one fill

  function OpeningCommission(a: Account, f: Fill): real {
    if Extends(a, f) then f.commission else 0.0
  }

  lemma {:induction false} ApplyConsistent(a: Account, f: Fill)
    requires Consistent(a)
    ensures Consistent(Apply(a, f))
  {
  }

  lemma {:induction false} ApplyPosition(a: Account, f: Fill, s: string)
    ensures Position(Apply(a, f), s) == Position(a, s) + if s == f.symbol then SignedQty(f) else 0
  {
  }

  lemma {:induction false} BookSplits(a: Account, s: string)
    ensures SumMap(Booked(a)) == SumMap(Booked(a) - {s}) + BookOf(a, s)
  {
    if s in Booked(a) {
      SumMapRemove(Booked(a), s);
    } else {
      assert Booked(a) - {s} == Booked(a);
    }
  }

  // The same entry, or no entry, for symbol s.
  predicate SameFor(a: Account, b: Account, s: string) {
    && (s in a.positions <==> s in b.positions)
    && (s in a.costBasis <==> s in b.costBasis)
    && (s in a.positions ==> a.positions[s] == b.positions[s])
    && (s in a.costBasis ==> a.costBasis[s] == b.costBasis[s])
  }

  lemma {:induction false} BookIgnoresMarks(a: Account, b: Account)
    requires a.positions == b.positions && a.costBasis == b.costBasis
    ensures Booked(a) == Booked(b)
  {
    forall s | s in Booked(a)
      ensures BookOf(a, s) == BookOf(b, s)
    {
    }
  }

  lemma {:induction false} BookMovesWithSymbol(a: Account, b: Account, s: string)
    requires forall k | k != s :: SameFor(a, b, k)
    ensures BookEquity(b) - BookEquity(a) == b.cash - a.cash + BookOf(b, s) - BookOf(a, s)
  {
    BookSplits(a, s);
    BookSplits(b, s);
    assert Booked(a) - {s} == Booked(b) - {s} by {
      forall k | k != s
        ensures k in Booked(a) <==> k in Booked(b)
        ensures k in Booked(a) ==> Booked(a)[k] == Booked(b)[k]
      {
        assert SameFor(a, b, k);
        assert BookOf(a, k) == BookOf(b, k);
      }
    }
  }

  // The arithmetic of one fill on its own symbol.
  lemma {:induction false} BookOfSymbol(a: Account, f: Fill)
    requires Consistent(a) && SignedQty(f) != 0
    ensures var b := Apply(a, f);
            b.cash - a.cash + BookOf(b, f.symbol) - BookOf(a, f.symbol) == RealizedBy(a, f) - OpeningCommission(a, f)
  {
    NotionalIsSigned(f);
    if Extends(a, f) {
      BookOfExtension(a, f);
    } else if f.qty > Abs(Position(a, f.symbol)) {
      BookOfFlip(a, f);
    } else {
      BookOfClose(a, f);
    }
  }

  lemma {:induction false} BookOfExtension(a: Account, f: Fill)
    requires Consistent(a) && Extends(a, f)
    ensures BookOf(Apply(a, f), f.symbol) == BookOf(a, f.symbol) + SignedQty(f) as real * f.price
  {
    var pos, q, n := Position(a, f.symbol), SignedQty(f), Abs(Position(a, f.symbol)) + f.qty;
    var cost := CostAfter(a, f);
    assert cost * n as real == Abs(pos) as real * Basis(a, f) + f.qty as real * f.price;
    assert BookOf(Apply(a, f), f.symbol) == (pos + q) as real * cost;
    assert BookOf(a, f.symbol) == pos as real * Basis(a, f);
    if q > 0 {
      assert pos + q == n && Abs(pos) == pos;
    } else {
      assert pos + q == -n && Abs(pos) == -pos;
      assert (-n) as real * cost == -(n as real * cost);
      assert (-pos) as real * Basis(a, f) == -(pos as real * Basis(a, f));
      assert (-q) as real * f.price == -(q as real * f.price);
    }
  }

  lemma {:induction false} BookOfFlip(a: Account, f: Fill)
    requires Consistent(a) && Closes(a, f) && f.qty > Abs(Position(a, f.symbol))
    ensures BookOf(Apply(a, f), f.symbol) - SignedQty(f) as real * f.price - f.commission
         == BookOf(a, f.symbol) + RealizedBy(a, f)
  {
    var pos, q := Position(a, f.symbol) as real, SignedQty(f) as real;
    assert BookOf(Apply(a, f), f.symbol) == (pos + q) * f.price == pos * f.price + q * f.price;
    assert BookOf(a, f.symbol) == pos * Basis(a, f);
    assert RealizedBy(a, f) == (f.price - Basis(a, f)) * pos - f.commission;
    Distribute(pos, Basis(a, f), f.price);
  }

  lemma {:induction false} BookOfClose(a: Account, f: Fill)
    requires Consistent(a) && Closes(a, f) && f.qty <= Abs(Position(a, f.symbol))
    ensures BookOf(Apply(a, f), f.symbol) - SignedQty(f) as real * f.price - f.commission
         == BookOf(a, f.symbol) + RealizedBy(a, f)
  {
    var pos, q := Position(a, f.symbol) as real, SignedQty(f) as real;
    assert BookOf(Apply(a, f), f.symbol) == (pos + q) * Basis(a, f) == pos * Basis(a, f) + q * Basis(a, f);
    assert BookOf(a, f.symbol) == pos * Basis(a, f);
    assert RealizedBy(a, f) == (f.price - Basis(a, f)) * (-q) - f.commission;
    Distribute(q, Basis(a, f), f.price);
  }

  lemma {:induction false} Distribute(q: real, c: real, p: real)
    ensures q * p == q * c + q * (p - c)
  {
  }

  // Book equity moves by what was realized and by commissions of opening fills, nothing else.
  lemma {:induction false} ApplyConservesBook(a: Account, f: Fill)
    requires Consistent(a)
    ensures BookEquity(Apply(a, f)) == BookEquity(a) + RealizedBy(a, f) - OpeningCommission(a, f)
  {
    var b := Apply(a, f);
    if SignedQty(f) == 0 {
      BookIgnoresMarks(a, b);
    } else {
      BookOfSymbol(a, f);
      BookMovesWithSymbol(a, b, f.symbol);
    }
  }

  // ----- runs of fills and price marks

  datatype Event = Traded(fill: Fill) | Priced(symbol: string, price: real)

  function Run(cash: real, es: seq<Event>): Account {
    if es == [] then Opened(cash)
    else
      var a := Run(cash, es[..|es| - 1]);
      match es[|es| - 1]
      case Traded(f) => Apply(a, f)
      case Priced(s, p) => Mark(a, s, p)
  }

  function OpeningCommissions(cash: real, es: seq<Event>): real {
    if es == [] then 0.0
    else
      var init := es[..|es| - 1];
      OpeningCommissions(cash, init) +
      match es[|es| - 1]
      case Traded(f) => OpeningCommission(Run(cash, init), f)
      case Priced(_, _) => 0.0
  }

  function NetQty(es: seq<Event>, s: string): int {
    if es == [] then 0
    else
      NetQty(es[..|es| - 1], s) +
      match es[|es| - 1]
      case Traded(f) => if f.symbol == s then SignedQty(f) else 0
      case Priced(_, _) => 0
  }

  // Signed notional and commission paid by all fills that traded.
  function CashSpent(es: seq<Event>): real {
    if es == [] then 0.0
    else
      CashSpent(es[..|es| - 1]) +
      match es[|es| - 1]
      case Traded(f) => Outlay(f)
      case Priced(_, _) => 0.0
  }

  lemma {:induction false} RunConsistent(cash: real, es: seq<Event>)
    ensures Consistent(Run(cash, es))
  {
    if es != [] {
      RunConsistent(cash, es[..|es| - 1]);
    }
  }

  // Cash plus positions at cost: the initial cash, what was realized, less opening commissions.
  lemma {:induction false} BookConservation(cash: real, es: seq<Event>)
    ensures BookEquity(Run(cash, es)) == cash + Run(cash, es).realizedPnl - OpeningCommissions(cash, es)
  {
    if es == [] {
      assert Booked(Opened(cash)) == map[];
    } else {
      var init := es[..|es| - 1];
      var a := Run(cash, init);
      BookConservation(cash, init);
      RunConsistent(cash, init);
      match es[|es| - 1]
      case Traded(f) => ApplyConservesBook(a, f);
      case Priced(s, p) => BookIgnoresMarks(a, Mark(a, s, p));
    }
  }

  // NAV is the initial cash plus realized plus unrealized profit, less opening commissions.
  lemma {:induction false} NavDecomposition(cash: real, es: seq<Event>)
    ensures var a := Run(cash, es);
            Nav(a) == cash + a.realizedPnl + Unrealized(a) - OpeningCommissions(cash, es)
  {
    var a := Run(cash, es);
    RunConsistent(cash, es);
    BookConservation(cash, es);
    SumMapAdd(Booked(a), Unbooked(a), Marked(a));
  }

  // Whatever the order of the fills, positions and cash are plain signed sums over them.
  lemma {:induction false} PositionIsSum(cash: real, es: seq<Event>, s: string)
    ensures Position(Run(cash, es), s) == NetQty(es, s)
  {
    if es != [] {
      PositionIsSum(cash, es[..|es| - 1], s);
      if es[|es| - 1].Traded? {
        ApplyPosition(Run(cash, es[..|es| - 1]), es[|es| - 1].fill, s);
      }
    }
  }

  lemma {:induction false} CashIsSum(cash: real, es: seq<Event>)
    ensures Run(cash, es).cash == cash - CashSpent(es)
  {
    if es != [] {
      CashIsSum(cash, es[..|es| - 1]);
      if es[|es| - 1].Traded? {
        ApplyCash(Run(cash, es[..|es| - 1]), es[|es| - 1].fill);
      }
    }
  }

  // The prices of the fills that built the present position: restarted when it goes flat or flips.
  function OpenPrices(cash: real, es: seq<Event>, s: string): seq<real> {
    if es == [] then []
    else
      var init := es[..|es| - 1];
      var before := OpenPrices(cash, init, s);
      match es[|es| - 1]
      case Priced(_, _) => before
      case Traded(f) =>
        var a := Run(cash, init);
        if f.symbol != s || SignedQty(f) == 0 then before
        else if Extends(a, f) then before + [f.price]
        else if Position(a, s) + SignedQty(f) == 0 then []
        else if f.qty > Abs(Position(a, s)) then [f.price]
        else before
  }

  ghost predicate Between(x: real, ps: seq<real>) {
    && (exists i :: 0 <= i < |ps| && ps[i] <= x)
    && (exists i :: 0 <= i < |ps| && x <= ps[i])
  }

  // The average cost stays between the least and the greatest price that built the position.
  lemma {:induction false} CostBasisBetweenOpenPrices(cash: real, es: seq<Event>, s: string)
    ensures var a := Run(cash, es);
            if s in a.positions then s in a.costBasis && Between(a.costBasis[s], OpenPrices(cash, es, s))
            else OpenPrices(cash, es, s) == []
  {
    if es != [] {
      var init := es[..|es| - 1];
      CostBasisBetweenOpenPrices(cash, init, s);
      RunConsistent(cash, init);
      RunConsistent(cash, es);
      if es[|es| - 1].Traded? && es[|es| - 1].fill.symbol == s && SignedQty(es[|es| - 1].fill) != 0 {
        CostStepBetween(cash, init, es[|es| - 1].fill);
        assert init + [Traded(es[|es| - 1].fill)] == es;
      }
    }
  }

  lemma {:induction false} CostStepBetween(cash: real, init: seq<Event>, f: Fill)
    requires SignedQty(f) != 0 && Consistent(Run(cash, init))
    requires var a := Run(cash, init); var ps := OpenPrices(cash, init, f.symbol);
             if f.symbol in a.positions then Between(a.costBasis[f.symbol], ps) else ps == []
    ensures var es := init + [Traded(f)]; var b := Run(cash, es); var ps := OpenPrices(cash, es, f.symbol);
            if f.symbol in b.positions then f.symbol in b.costBasis && Between(b.costBasis[f.symbol], ps) else ps == []
  {
    var es := init + [Traded(f)];
    assert es[..|es| - 1] == init;
    var a, before := Run(cash, init), OpenPrices(cash, init, f.symbol);
    var after := OpenPrices(cash, es, f.symbol);
    ApplyConsistent(a, f);
    if Extends(a, f) {
      var cost := CostAfter(a, f);
      CostBetweenBasisAndPrice(a, f);
      assert after == before + [f.price];
      assert after[|before|] == f.price;
      if f.symbol in a.positions {
        var i :| 0 <= i < |before| && before[i] <= Basis(a, f);
        var j :| 0 <= j < |before| && Basis(a, f) <= before[j];
        assert after[i] == before[i] && after[j] == before[j];
        if f.price <= cost { assert after[|before|] <= cost; } else { assert after[i] <= cost; }
        if cost <= f.price { assert cost <= after[|before|]; } else { assert cost <= after[j]; }
      } else {
        assert cost == f.price;
      }
    } else if Position(a, f.symbol) + SignedQty(f) != 0 && f.qty > Abs(Position(a, f.symbol)) {
      assert after[0] == f.price;
    }
  }

  lemma {:induction false} CostBetweenBasisAndPrice(a: Account, f: Fill)
    requires Extends(a, f)
    ensures f.price <= CostAfter(a, f) <= Basis(a, f) || Basis(a, f) <= CostAfter(a, f) <= f.price
    ensures Position(a, f.symbol) == 0 ==> CostAfter(a, f) == f.price
  {
    var held := Abs(Position(a, f.symbol)) as real;
    assert (Abs(Position(a, f.symbol)) + f.qty) as real == held + f.qty as real;
    WeightedMeanBetween(held, Basis(a, f), f.qty as real, f.price, CostAfter(a, f));
  }

  lemma {:induction false} WeightedMeanBetween(m: real, x: real, n: real, y: real, c: real)
    requires m >= 0.0 && n > 0.0 && c * (m + n) == m * x + n * y
    ensures (x <= c <= y || y <= c <= x) && (m == 0.0 ==> c == y)
  {
    assert (c - x) * (m + n) == n * (y - x);
    assert (y - c) * (m + n) == m * (y - x);
    SameSign(c - x, m + n, n, y - x);
    SameSign(y - c, m + n, m, y - x);
  }

  lemma {:induction false} SameSign(p: real, t: real, n: real, d: real)
    requires t > 0.0 && n >= 0.0 && p * t == n * d
    ensures d >= 0.0 ==> p >= 0.0
    ensures d <= 0.0 ==> p <= 0.0
  {
    if d >= 0.0 { assert n * d >= 0.0; }
    if d <= 0.0 { assert n * d <= 0.0; }
    if p > 0.0 { assert p * t > 0.0; }
    if p < 0.0 { assert p * t < 0.0; }
  }

  lemma {:induction false} SizeBounds(q: int, p: real)
    requires p >= 0.0
    ensures -(Abs(q) as real * p) <= q as real * p <= Abs(q) as real * p
  {
    var x := q as real;
    assert Abs(q) as real == if q < 0 then -x else x;
    if q >= 0 { assert x * p >= 0.0; } else { assert (-x) * p >= 0.0; }
  }

  // With non-negative marks, gross exposure bounds the net value of the positions both ways.
  lemma {:induction false} GrossBoundsNet(a: Account)
    requires forall s | s in a.positions :: MarkOf(a, s) >= 0.0
    ensures -GrossExposure(a) <= Nav(a) - a.cash <= GrossExposure(a)
  {
    var negated := map s | s in a.positions :: -Exposed(a)[s];
    var nothing := map s | s in a.positions :: 0.0;
    forall s | s in a.positions
      ensures negated[s] <= Marked(a)[s] <= Exposed(a)[s]
    {
      SizeBounds(Position(a, s), MarkOf(a, s));
    }
    SumMapLeq(negated, Marked(a));
    SumMapLeq(Marked(a), Exposed(a));
    SumMapAdd(negated, Exposed(a), nothing);
    SumMapAdd(nothing, nothing, nothing);
  }

  // ----- the program's class

  class SubPortfolio {
    const initialCash: real
    var cash: real
    var positions: map<string, int>
    var costBasis: map<string, real>
    var lastPrices: map<string, real>
    var realizedPnl: real
    var totalCommissions: real

    function Value(): Account
      reads this
    {
      Account(cash, positions, costBasis, lastPrices, realizedPnl, totalCommissions)
    }

    predicate Valid()
      reads this
    {
      Consistent(Value())
    }

    constructor (initialCash: real)
      ensures Valid() && Value() == Opened(initialCash) && this.initialCash == initialCash
    {
      this.initialCash := initialCash;
      cash := initialCash;
      positions, costBasis, lastPrices := map[], map[], map[];
      realizedPnl, totalCommissions := 0.0, 0.0;
    }

    method UpdatePrice(symbol: string, price: real)
      requires Valid()
      modifies this
      ensures Valid() && Value() == Mark(old(Value()), symbol, price)
    {
      lastPrices := lastPrices[symbol := price];
    }

    method GetNav() returns (nav: real)
      ensures nav == Nav(Value())
    {
      var todo, positionValue := positions.Keys, 0.0;
      ghost var values := Marked(Value());
      assert values == Restrict(values, todo);
      while todo != {}
        invariant todo <= values.Keys
        invariant SumMap(values) == positionValue + SumMap(Restrict(values, todo))
        decreases todo
      {
        var symbol :| symbol in todo;
        SumRestrictStep(values, todo, symbol);
        positionValue := positionValue + Worth(Value(), symbol);
        todo := todo - {symbol};
      }
      assert Restrict(values, todo) == map[];
      nav := cash + positionValue;
    }

    method GetGrossExposure() returns (gross: real)
      ensures gross == GrossExposure(Value())
    {
      var todo := positions.Keys;
      gross := 0.0;
      ghost var values := Exposed(Value());
      assert values == Restrict(values, todo);
      while todo != {}
        invariant todo <= values.Keys
        invariant SumMap(values) == gross + SumMap(Restrict(values, todo))
        decreases todo
      {
        var symbol :| symbol in todo;
        SumRestrictStep(values, todo, symbol);
        gross := gross + Exposure(Value(), symbol);
        todo := todo - {symbol};
      }
      assert Restrict(values, todo) == map[];
    }

    // The BUY branch of ProcessFill, entered once the price and the commission are noted.
    method ProcessBuy(ghost was: Account, fill: Fill, currentPos: int, currentCost: real)
      returns (tradePnl: real)
      requires Consistent(was) && fill.qty > 0 && fill.side == Buy
      requires Value() == Mark(was, fill.symbol, fill.price)
                            .(totalCommissions := was.totalCommissions + fill.commission)
      requires currentPos == Position(was, fill.symbol) && currentCost == Basis(was, fill)
      modifies this
      ensures Value() == Apply(was, fill) && tradePnl == RealizedBy(was, fill)
    {
      var Fill(symbol, qty, _, execPrice, commission) := fill;
      tradePnl := 0.0;
      cash := cash - (qty as real * execPrice + commission);
      if currentPos >= 0 {
        costBasis := costBasis[symbol := Average(currentPos, currentCost, qty, execPrice)];
        positions := positions[symbol := currentPos + qty];
      } else {
        var shortQty := Abs(currentPos);
        var closedQty := if qty < shortQty then qty else shortQty;
        RealizedIs(was, fill, currentCost - execPrice, closedQty);
        tradePnl := (currentCost - execPrice) * closedQty as real - commission;
        realizedPnl := realizedPnl + tradePnl;
        if shortQty - closedQty > 0 {
          positions := positions[symbol := -(shortQty - closedQty)];
        } else if qty - closedQty > 0 {
          positions := positions[symbol := qty - closedQty];
          costBasis := costBasis[symbol := execPrice];
        } else {
          positions, costBasis := positions - {symbol}, costBasis - {symbol};
        }
      }
      ghost var after := Apply(was, fill);
      ApplyCash(was, fill);
      ApplyRealized(was, fill);
      assert cash == after.cash;
      assert tradePnl == RealizedBy(was, fill) && realizedPnl == was.realizedPnl + tradePnl;
      assert positions == after.positions;
      assert costBasis == after.costBasis;
    }

    // The SELL branch of ProcessFill.
    method ProcessSell(ghost was: Account, fill: Fill, currentPos: int, currentCost: real)
      returns (tradePnl: real)
      requires Consistent(was) && fill.qty > 0 && fill.side == Sell
      requires Value() == Mark(was, fill.symbol, fill.price)
                            .(totalCommissions := was.totalCommissions + fill.commission)
      requires currentPos == Position(was, fill.symbol) && currentCost == Basis(was, fill)
      modifies this
      ensures Value() == Apply(was, fill) && tradePnl == RealizedBy(was, fill)
    {
      var Fill(symbol, qty, _, execPrice, commission) := fill;
      tradePnl := 0.0;
      cash := cash + (qty as real * execPrice - commission);
      if currentPos <= 0 {
        costBasis := costBasis[symbol := Average(Abs(currentPos), currentCost, qty, execPrice)];
        positions := positions[symbol := -(Abs(currentPos) + qty)];
      } else {
        var closedQty := if qty < currentPos then qty else currentPos;
        RealizedIs(was, fill, execPrice - currentCost, closedQty);
        tradePnl := (execPrice - currentCost) * closedQty as real - commission;
        realizedPnl := realizedPnl + tradePnl;
        if currentPos - closedQty > 0 {
          positions := positions[symbol := currentPos - closedQty];
        } else if qty - closedQty > 0 {
          positions := positions[symbol := -(qty - closedQty)];
          costBasis := costBasis[symbol := execPrice];
        } else {
          positions, costBasis := positions - {symbol}, costBasis - {symbol};
        }
      }
      ghost var after := Apply(was, fill);
      ApplyCash(was, fill);
      ApplyRealized(was, fill);
      assert cash == after.cash;
      assert tradePnl == RealizedBy(was, fill) && realizedPnl == was.realizedPnl + tradePnl;
      assert positions == after.positions;
      assert costBasis == after.costBasis;
    }

    method ProcessFill(symbol: string, qty: int, side: Side, execPrice: real, commission: real)
      returns (tradePnl: real)
      requires Valid()
      modifies this
      ensures Valid()
      ensures Value() == Apply(old(Value()), Fill(symbol, qty, side, execPrice, commission))
      ensures tradePnl == RealizedBy(old(Value()), Fill(symbol, qty, side, execPrice, commission))
    {
      tradePnl := 0.0;
      if qty <= 0 {
        return;
      }
      var fill := Fill(symbol, qty, side, execPrice, commission);
      ghost var was := Value();
      ApplyConsistent(was, fill);
      UpdatePrice(symbol, execPrice);
      totalCommissions := totalCommissions + commission;
      var currentPos := if symbol in positions then positions[symbol] else 0;
      var currentCost := if symbol in costBasis then costBasis[symbol] else execPrice;
      match side {
        case Buy => tradePnl := ProcessBuy(was, fill, currentPos, currentCost);
        case Sell => tradePnl := ProcessSell(was, fill, currentPos, currentCost);
        case Other =>
      }
      if symbol in positions && positions[symbol] == 0 {
        assert false;  // the program's clean-up of zero positions finds none
      }
    }
  }
}
