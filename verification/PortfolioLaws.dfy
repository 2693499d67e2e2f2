/** What one fill does to a portfolio, in the fill's own terms, and what is known of marks, commissions
    and exposure after any sequence of fills and marks (src/alpha_engine/strategies/base.py). */
module PortfolioLaws {
  import opened Finite
  import opened Portfolio

  // ----- one fill

  predicate IsTrade(f: Fill) {
    f.qty > 0 && (f.side == Buy || f.side == Sell)
  }

  // The shares that a fill adds, and what it takes out of the cash.
  function SharesAdded(f: Fill): int {
    if !IsTrade(f) then 0 else if f.side == Buy then f.qty else -f.qty
  }

  function CashTaken(f: Fill): real {
    if !IsTrade(f) then 0.0
    else if f.side == Buy then f.qty as real * f.price + f.commission
    else f.commission - f.qty as real * f.price
  }

  // Buying adds shares and selling removes them; no other position moves.
  lemma {:induction false} FillMovesShares(a: Account, f: Fill, s: string)
    ensures Position(Apply(a, f), s) == Position(a, s) + if s == f.symbol then SharesAdded(f) else 0
  {
    ApplyPosition(a, f, s);
  }

  // Buying pays for the shares and the commission, selling is paid less the commission.
  lemma {:induction false} FillMovesCash(a: Account, f: Fill)
    ensures Apply(a, f).cash == a.cash - CashTaken(f)
  {
    ApplyCash(a, f);
    if IsTrade(f) && f.side == Sell {
      Negated(f.qty as real, f.price);
    }
  }

  // The shares that a fill closes: those held on the other side, as far as it goes.
  function ClosedShares(a: Account, f: Fill): int {
    var pos := Position(a, f.symbol);
    if !IsTrade(f) then 0
    else if f.side == Buy && pos < 0 then (if f.qty < -pos then f.qty else -pos)
    else if f.side == Sell && pos > 0 then (if f.qty < pos then f.qty else pos)
    else 0
  }

  // A fill that closes nothing realizes nothing. One that closes shares realizes the move away from
  // their cost, less its commission. A partial close leaves the cost per share as it was, a fill
  // that flips the position starts again at its price, and one that only closes leaves nothing.
  lemma {:induction false} FillRealizes(a: Account, f: Fill)
    requires Consistent(a)
    ensures var b, pos, closed := Apply(a, f), Position(a, f.symbol), ClosedShares(a, f);
            && (closed == 0 ==> b.realizedPnl == a.realizedPnl)
            && (closed > 0 ==>
                  && f.symbol in a.costBasis
                  && var move := if f.side == Sell then f.price - a.costBasis[f.symbol]
                                 else a.costBasis[f.symbol] - f.price;
                     b.realizedPnl == a.realizedPnl + move * closed as real - f.commission)
            && (0 < closed && closed == f.qty < Abs(pos) ==>
                  f.symbol in b.costBasis && b.costBasis[f.symbol] == a.costBasis[f.symbol])
            && (0 < closed < f.qty ==> f.symbol in b.costBasis && b.costBasis[f.symbol] == f.price)
            && (0 < closed && closed == f.qty == Abs(pos) ==>
                  f.symbol !in b.positions && f.symbol !in b.costBasis)
  {
    if ClosedShares(a, f) > 0 {
      var move := if f.side == Sell then f.price - a.costBasis[f.symbol] else a.costBasis[f.symbol] - f.price;
      RealizedIs(a, f, move, ClosedShares(a, f));
    }
  }

  // A fill that opens or extends a position averages the cost over the shares.
  lemma {:induction false} FillAverages(a: Account, f: Fill)
    requires Consistent(a) && IsTrade(f) && ClosedShares(a, f) == 0
    ensures var b, held := Apply(a, f), Abs(Position(a, f.symbol)) as real;
            && f.symbol in b.costBasis
            && (f.symbol !in a.costBasis ==> b.costBasis[f.symbol] == f.price)
            && (f.symbol in a.costBasis ==>
                  b.costBasis[f.symbol] * (held + f.qty as real)
                  == held * a.costBasis[f.symbol] + f.qty as real * f.price)
  {
    var held := Abs(Position(a, f.symbol)) as real;
    assert (Abs(Position(a, f.symbol)) + f.qty) as real == held + f.qty as real;
    if f.symbol !in a.costBasis {
      CostBetweenBasisAndPrice(a, f);
    }
  }

  // ----- marks

  lemma {:induction false} FillMarks(a: Account, f: Fill)
    ensures var b := Apply(a, f);
            && (f.qty > 0 ==> f.symbol in b.lastPrices && b.lastPrices[f.symbol] == f.price)
            && (f.qty <= 0 ==> b == a)
            && b.lastPrices - {f.symbol} == a.lastPrices - {f.symbol}
  {
  }

  // The price of the last fill or update of a symbol, if there was one.
  predicate MarksSymbol(e: Event, s: string) {
    match e
    case Traded(f) => f.symbol == s && f.qty > 0
    case Priced(t, _) => t == s
  }

  function PriceOf(e: Event): real {
    match e
    case Traded(f) => f.price
    case Priced(_, p) => p
  }

  ghost predicate LastMarkAt(es: seq<Event>, s: string, i: int) {
    && 0 <= i < |es| && MarksSymbol(es[i], s)
    && forall j | i < j < |es| :: !MarksSymbol(es[j], s)
  }

  // After any run the mark of a symbol is the price of its last event, and a symbol without one has
  // no mark.
  lemma {:induction false} MarkIsLastPrice(cash: real, es: seq<Event>, s: string)
    ensures var a := Run(cash, es);
            && (s in a.lastPrices ==> exists i :: LastMarkAt(es, s, i) && a.lastPrices[s] == PriceOf(es[i]))
            && (s !in a.lastPrices ==> forall i | 0 <= i < |es| :: !MarksSymbol(es[i], s))
  {
    if es != [] {
      var init, e := es[..|es| - 1], es[|es| - 1];
      MarkIsLastPrice(cash, init, s);
      if e.Traded? { FillMarks(Run(cash, init), e.fill); }
      if MarksSymbol(e, s) {
        assert LastMarkAt(es, s, |es| - 1);
      } else if s in Run(cash, init).lastPrices {
        var i :| LastMarkAt(init, s, i) && Run(cash, init).lastPrices[s] == PriceOf(init[i]);
        LastMarkStands(init, e, s, i);
        assert init + [e] == es;
        var a := Run(cash, es);
        assert a.lastPrices - {if e.Traded? then e.fill.symbol else e.symbol}
            == Run(cash, init).lastPrices - {if e.Traded? then e.fill.symbol else e.symbol};
      }
    }
  }

  lemma {:induction false} LastMarkStands(es: seq<Event>, e: Event, s: string, i: int)
    requires LastMarkAt(es, s, i) && !MarksSymbol(e, s)
    ensures LastMarkAt(es + [e], s, i)
  {
  }

  // ----- the value of the portfolio

  lemma {:induction false} NavSplits(a: Account, s: string)
    ensures Nav(a) == a.cash + SumMap(Marked(a) - {s}) + Worth(a, s)
  {
    if s in Marked(a) {
      SumMapRemove(Marked(a), s);
    } else {
      assert Marked(a) - {s} == Marked(a);
    }
  }

  lemma {:induction false} OthersAreWorthTheSame(a: Account, f: Fill)
    requires Consistent(a)
    ensures Marked(Apply(a, f)) - {f.symbol} == Marked(a) - {f.symbol}
  {
    var b := Apply(a, f);
    ApplyConsistent(a, f);
    forall s | s != f.symbol
      ensures s in Marked(a) <==> s in Marked(b)
      ensures s in Marked(a) ==> Marked(a)[s] == Marked(b)[s]
    {
      assert s in a.positions <==> s in b.positions;
    }
  }

  // What a new price does to the value of the position that is held.
  function Revaluation(a: Account, s: string, price: real): real {
    Position(a, s) as real * (price - MarkOf(a, s))
  }

  function ValueAt(a: Account, s: string, price: real): real {
    Position(a, s) as real * price
  }

  lemma {:induction false} RevaluationIs(a: Account, s: string, price: real)
    ensures Revaluation(a, s, price) == ValueAt(a, s, price) - Worth(a, s)
  {
    Distribute(Position(a, s) as real, MarkOf(a, s), price);
  }

  // What the shares of a fill cost at its price.
  function PaidForShares(f: Fill): real {
    SharesAdded(f) as real * f.price
  }

  function CommissionOf(f: Fill): real {
    if IsTrade(f) then f.commission else 0.0
  }

  lemma {:induction false} CashIsForShares(f: Fill)
    ensures CashTaken(f) == PaidForShares(f) + CommissionOf(f)
  {
    if IsTrade(f) && f.side == Sell {
      assert SharesAdded(f) as real == -(f.qty as real);
      Negated(f.qty as real, f.price);
    }
  }

  lemma {:induction false} Negated(q: real, p: real)
    ensures (-q) * p == -(q * p)
  {
  }

  lemma {:induction false} SumTimes(q: int, n: int, p: real)
    ensures (q + n) as real * p == q as real * p + n as real * p
  {
    assert (q + n) as real == q as real + n as real;
  }

  lemma {:induction false} WorthAfter(a: Account, b: Account, f: Fill)
    requires Position(b, f.symbol) == Position(a, f.symbol) + SharesAdded(f)
    requires MarkOf(b, f.symbol) == f.price
    ensures Worth(b, f.symbol) == ValueAt(a, f.symbol, f.price) + PaidForShares(f)
  {
    SumTimes(Position(a, f.symbol), SharesAdded(f), f.price);
  }

  // The NAV of an account whose position in s is now worth value and the shares paid for, and that
  // is as before otherwise.
  lemma {:induction false} NavMoves(a: Account, b: Account, s: string, value: real, paid: real, commission: real)
    requires Marked(b) - {s} == Marked(a) - {s}
    requires Worth(b, s) == value + paid && b.cash == a.cash - paid - commission
    ensures Nav(b) == Nav(a) + value - Worth(a, s) - commission
  {
    NavSplits(a, s);
    NavSplits(b, s);
  }

  // NAV moves by the position held before the fill times the move of its mark to the price of the
  // fill, less the commission of a trade.
  lemma {:induction false} FillMovesNav(a: Account, f: Fill)
    requires Consistent(a) && f.qty > 0
    ensures Nav(Apply(a, f)) == Nav(a) + Revaluation(a, f.symbol, f.price) - CommissionOf(f)
  {
    OthersAreWorthTheSame(a, f);
    FillMovesCash(a, f);
    FillMovesShares(a, f, f.symbol);
    FillMarks(a, f);
    CashIsForShares(f);
    WorthAfter(a, Apply(a, f), f);
    NavMoves(a, Apply(a, f), f.symbol, ValueAt(a, f.symbol, f.price), PaidForShares(f), CommissionOf(f));
    RevaluationIs(a, f.symbol, f.price);
  }

  lemma {:induction false} SameWorth(a: Account, b: Account, s: string)
    requires a.positions == b.positions && MarkOf(a, s) == MarkOf(b, s)
    ensures Worth(a, s) == Worth(b, s)
  {
  }

  lemma {:induction false} OthersKeepTheirWorth(a: Account, b: Account, s: string)
    requires a.positions == b.positions && forall k | k != s :: MarkOf(a, k) == MarkOf(b, k)
    ensures Marked(b) - {s} == Marked(a) - {s}
  {
    forall k | k in a.positions && k != s
      ensures Worth(a, k) == Worth(b, k)
    {
      SameWorth(a, b, k);
    }
  }

  lemma {:induction false} WorthAtMark(a: Account, b: Account, s: string, price: real)
    requires Position(a, s) == Position(b, s) && MarkOf(b, s) == price
    ensures Worth(b, s) == ValueAt(a, s, price)
  {
  }

  // A price update moves NAV by the position times the move of its mark.
  lemma {:induction false} MarkMovesNav(a: Account, s: string, price: real)
    ensures Nav(Mark(a, s, price)) == Nav(a) + Revaluation(a, s, price)
  {
    OthersKeepTheirWorth(a, Mark(a, s, price), s);
    WorthAtMark(a, Mark(a, s, price), s, price);
    NavMoves(a, Mark(a, s, price), s, ValueAt(a, s, price), 0.0, 0.0);
    RevaluationIs(a, s, price);
  }

  // ----- gross exposure

  function LongWorth(a: Account): map<string, real> {
    map s | s in a.positions :: if a.positions[s] > 0 then Worth(a, s) else 0.0
  }

  function ShortWorth(a: Account): map<string, real> {
    map s | s in a.positions :: if a.positions[s] > 0 then 0.0 else -Worth(a, s)
  }

  // The gross exposure is what the long positions are worth and what the short ones owe, whose
  // difference is the net position value.
  lemma {:induction false} GrossIsLongPlusShort(a: Account)
    ensures GrossExposure(a) == SumMap(LongWorth(a)) + SumMap(ShortWorth(a))
    ensures Nav(a) - a.cash == SumMap(LongWorth(a)) - SumMap(ShortWorth(a))
  {
    var owed := map s | s in a.positions :: -ShortWorth(a)[s];
    forall s | s in a.positions
      ensures Exposed(a)[s] == LongWorth(a)[s] + ShortWorth(a)[s]
      ensures Marked(a)[s] == LongWorth(a)[s] + owed[s]
    {
      SignedSize(a.positions[s], MarkOf(a, s));
    }
    SumMapAdd(LongWorth(a), ShortWorth(a), Exposed(a));
    SumMapAdd(LongWorth(a), owed, Marked(a));
    var nothing := map s | s in a.positions :: 0.0;
    SumMapAdd(owed, ShortWorth(a), nothing);
    SumMapAdd(nothing, nothing, nothing);
  }

  lemma {:induction false} SignedSize(q: int, p: real)
    ensures Abs(q) as real * p == if q > 0 then q as real * p else -(q as real * p)
  {
    if q <= 0 { Negated(q as real, p); }
  }

  // ----- commissions

  function CommissionsPaid(es: seq<Event>): real {
    if es == [] then 0.0
    else
      CommissionsPaid(es[..|es| - 1]) +
      match es[|es| - 1]
      case Traded(f) => if f.qty > 0 then f.commission else 0.0
      case Priced(_, _) => 0.0
  }

  lemma {:induction false} CommissionsAreSum(cash: real, es: seq<Event>)
    ensures Run(cash, es).totalCommissions == CommissionsPaid(es)
  {
    if es != [] {
      CommissionsAreSum(cash, es[..|es| - 1]);
    }
  }
}
