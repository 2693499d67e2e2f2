/** The reinforcement-learning environment over one symbol: each step fills the order of the step
    before and places the next one (src/alpha_engine/rl/env.py). */
module RlEnv {
  import opened Finite
  import opened Portfolio

  datatype Row = Row(close: real, volume: real)

  datatype Config = Config(
    symbol: string, initialCash: real, maxPosition: int, gamma: real, commissionRate: real, windowSize: nat)

  // lastNav is left out of the state; no step reads it but for the reward.
  datatype Env = Env(account: Account, index: nat, pending: seq<(int, Side)>)

  predicate Usable(c: Config, rows: seq<Row>) {
    c.maxPosition >= 0 && forall i | 0 <= i < |rows| :: rows[i].close > 0.0
  }

  function Clip(x: int, lo: int, hi: int): int {
    if x < lo then lo else if x > hi then hi else x
  }

  function ClipReal(x: real, lo: real, hi: real): real {
    if x < lo then lo else if x > hi then hi else x
  }

  // Rounding to the nearest integer, ties to even.
  function Round(x: real): int {
    var f := x.Floor;
    var d := x - f as real;
    if d < 0.5 then f
    else if d > 0.5 then f + 1
    else if f % 2 == 0 then f else f + 1
  }

  function FillFor(c: Config, row: Row, order: (int, Side)): Fill {
    var pct := if row.volume > 0.0 then c.gamma * (order.0 as real / row.volume) else 0.0;
    var price := if order.1 == Buy then row.close * (1.0 + pct) else row.close * (1.0 - pct);
    Fill(c.symbol, order.0, order.1, price, order.0 as real * price * c.commissionRate)
  }

  function FillAll(c: Config, row: Row, a: Account, orders: seq<(int, Side)>): Account {
    if orders == [] then a
    else Apply(FillAll(c, row, a, orders[..|orders| - 1]), FillFor(c, row, orders[|orders| - 1]))
  }

  // The shares that a weighted NAV buys.
  function Share(w: real, nav: real, price: real): real
    requires price > 0.0
  {
    w * nav / price
  }

  // The position that an action aims at, given the NAV after the fills of the step.
  function Target(c: Config, action: real, nav: real, price: real): int
    requires price > 0.0
  {
    Clip(Round(Share(ClipReal(action, -1.0, 1.0), nav, price)), -c.maxPosition, c.maxPosition)
  }

  function OrderFor(current: int, target: int): seq<(int, Side)> {
    if target == current then []
    else [(Abs(target - current), if target > current then Buy else Sell)]
  }

  // The account of a step once its pending orders are filled and its price is noted.
  function Settled(c: Config, rows: seq<Row>, e: Env): Account
    requires e.index < |rows|
  {
    Mark(FillAll(c, rows[e.index], e.account, e.pending), c.symbol, rows[e.index].close)
  }

  ghost function Chosen(c: Config, rows: seq<Row>, e: Env, action: real): int
    requires Usable(c, rows) && e.index < |rows|
  {
    Target(c, action, Nav(Settled(c, rows, e)), rows[e.index].close)
  }

  ghost function Step(c: Config, rows: seq<Row>, e: Env, action: real): Env
    requires Usable(c, rows)
  {
    if |rows| <= e.index then e
    else
      var a := Settled(c, rows, e);
      Env(a, e.index + 1, OrderFor(Position(a, c.symbol), Chosen(c, rows, e, action)))
  }

  function Reset(c: Config, rows: seq<Row>): Env {
    var a := Opened(c.initialCash);
    Env(if |rows| > c.windowSize then Mark(a, c.symbol, rows[c.windowSize].close) else a, c.windowSize, [])
  }

  ghost function Episode(c: Config, rows: seq<Row>, actions: seq<real>): Env
    requires Usable(c, rows)
  {
    if actions == [] then Reset(c, rows)
    else Step(c, rows, Episode(c, rows, actions[..|actions| - 1]), actions[|actions| - 1])
  }

  // The target of the latest step that took place, 0 before the first.
  ghost function LastTarget(c: Config, rows: seq<Row>, actions: seq<real>): int
    requires Usable(c, rows)
  {
    if actions == [] then 0
    else
      var init := actions[..|actions| - 1];
      var e := Episode(c, rows, init);
      if |rows| <= e.index then LastTarget(c, rows, init)
      else Chosen(c, rows, e, actions[|actions| - 1])
  }

  predicate EnvOk(c: Config, e: Env, target: int) {
    && |e.pending| <= 1
    && e.pending == OrderFor(Position(e.account, c.symbol), target)
    && -c.maxPosition <= target <= c.maxPosition
    && -c.maxPosition <= Position(e.account, c.symbol) <= c.maxPosition
  }

  // Filling the pending order brings the position to the target it was placed for.
  lemma {:induction false} SettledMeetsTarget(c: Config, rows: seq<Row>, e: Env, target: int)
    requires e.index < |rows| && EnvOk(c, e, target)
    ensures Position(Settled(c, rows, e), c.symbol) == target
  {
    if e.pending != [] {
      assert |e.pending| == 1 && e.pending[..|e.pending| - 1] == [];
      var f := FillFor(c, rows[e.index], e.pending[0]);
      ApplyPosition(e.account, f, c.symbol);
      assert FillAll(c, rows[e.index], e.account, []) == e.account;
      assert FillAll(c, rows[e.index], e.account, e.pending) == Apply(e.account, f);
      assert SignedQty(f) == target - Position(e.account, c.symbol);
    } else {
      assert FillAll(c, rows[e.index], e.account, e.pending) == e.account;
      assert OrderFor(Position(e.account, c.symbol), target) == [];
    }
  }

  lemma {:induction false} EpisodeOk(c: Config, rows: seq<Row>, actions: seq<real>)
    requires Usable(c, rows)
    ensures EnvOk(c, Episode(c, rows, actions), LastTarget(c, rows, actions))
  {
    if actions != [] {
      var init := actions[..|actions| - 1];
      EpisodeOk(c, rows, init);
      var e := Episode(c, rows, init);
      if e.index < |rows| {
        SettledMeetsTarget(c, rows, e, LastTarget(c, rows, init));
      }
    }
  }

  // Over every episode at most one order is pending, the position never exceeds the maximum, and
  // a step that takes place moves it to exactly the target chosen by the step before.
  lemma {:induction false} PositionFollowsTargets(c: Config, rows: seq<Row>, actions: seq<real>, action: real)
    requires Usable(c, rows)
    ensures var e := Episode(c, rows, actions);
            && |e.pending| <= 1
            && Abs(Position(e.account, c.symbol)) <= c.maxPosition
            && (e.index < |rows| ==>
                  Position(Step(c, rows, e, action).account, c.symbol) == LastTarget(c, rows, actions))
  {
    EpisodeOk(c, rows, actions);
    var e := Episode(c, rows, actions);
    if e.index < |rows| {
      SettledMeetsTarget(c, rows, e, LastTarget(c, rows, actions));
    }
  }

  // ----- the account of an episode

  function FillEvents(c: Config, row: Row, orders: seq<(int, Side)>): seq<Event> {
    if orders == [] then []
    else FillEvents(c, row, orders[..|orders| - 1]) + [Traded(FillFor(c, row, orders[|orders| - 1]))]
  }

  function StepEvents(c: Config, rows: seq<Row>, e: Env): seq<Event> {
    if |rows| <= e.index then []
    else FillEvents(c, rows[e.index], e.pending) + [Priced(c.symbol, rows[e.index].close)]
  }

  ghost function EpisodeEvents(c: Config, rows: seq<Row>, actions: seq<real>): seq<Event>
    requires Usable(c, rows)
  {
    if actions == [] then
      if |rows| > c.windowSize then [Priced(c.symbol, rows[c.windowSize].close)] else []
    else
      var init := actions[..|actions| - 1];
      EpisodeEvents(c, rows, init) + StepEvents(c, rows, Episode(c, rows, init))
  }

  lemma {:induction false} RunSnoc(cash: real, es: seq<Event>, e: Event)
    ensures Run(cash, es + [e]) ==
              match e
              case Traded(f) => Apply(Run(cash, es), f)
              case Priced(s, p) => Mark(Run(cash, es), s, p)
  {
    assert (es + [e])[..|es|] == es;
  }

  lemma {:induction false} FillsAccount(c: Config, row: Row, cash: real, es: seq<Event>, orders: seq<(int, Side)>)
    ensures Run(cash, es + FillEvents(c, row, orders)) == FillAll(c, row, Run(cash, es), orders)
  {
    if orders == [] {
      assert es + FillEvents(c, row, orders) == es;
    } else {
      var init, e := orders[..|orders| - 1], Traded(FillFor(c, row, orders[|orders| - 1]));
      FillsAccount(c, row, cash, es, init);
      RunSnoc(cash, es + FillEvents(c, row, init), e);
      assert es + FillEvents(c, row, orders) == es + FillEvents(c, row, init) + [e];
    }
  }

  lemma {:induction false} StepAccount(c: Config, rows: seq<Row>, e: Env, es: seq<Event>)
    requires e.index < |rows| && e.account == Run(c.initialCash, es)
    ensures Settled(c, rows, e) == Run(c.initialCash, es + StepEvents(c, rows, e))
  {
    var row := rows[e.index];
    var fills := FillEvents(c, row, e.pending);
    FillsAccount(c, row, c.initialCash, es, e.pending);
    RunSnoc(c.initialCash, es + fills, Priced(c.symbol, row.close));
    assert es + StepEvents(c, rows, e) == es + fills + [Priced(c.symbol, row.close)];
  }

  lemma {:induction false} EpisodeAccount(c: Config, rows: seq<Row>, actions: seq<real>)
    requires Usable(c, rows)
    ensures Episode(c, rows, actions).account == Run(c.initialCash, EpisodeEvents(c, rows, actions))
  {
    if actions == [] {
      if |rows| > c.windowSize {
        var e := Priced(c.symbol, rows[c.windowSize].close);
        RunSnoc(c.initialCash, [], e);
        assert [] + [e] == [e];
      }
    } else {
      var init := actions[..|actions| - 1];
      var e, es := Episode(c, rows, init), EpisodeEvents(c, rows, init);
      EpisodeAccount(c, rows, init);
      if e.index < |rows| {
        StepAccount(c, rows, e, es);
      } else {
        assert es + StepEvents(c, rows, e) == es;
      }
    }
  }

  // At every point of every episode the NAV is the initial cash plus realized and unrealized profit,
  // less the commissions of the fills that opened a position.
  lemma {:induction false} EpisodeNav(c: Config, rows: seq<Row>, actions: seq<real>)
    requires Usable(c, rows)
    ensures var a := Episode(c, rows, actions).account;
            var paid := OpeningCommissions(c.initialCash, EpisodeEvents(c, rows, actions));
            Nav(a) == c.initialCash + a.realizedPnl + Unrealized(a) - paid
  {
    EpisodeAccount(c, rows, actions);
    NavDecomposition(c.initialCash, EpisodeEvents(c, rows, actions));
  }

  // ----- rounding

  // n is nearest to x, and even when there are two nearest integers.
  predicate IsRounded(x: real, n: int) {
    && -0.5 <= n as real - x <= 0.5
    && (n as real - x == 0.5 || x - n as real == 0.5 ==> n % 2 == 0)
  }

  // That determines the rounded number.
  lemma {:induction false} RoundIff(x: real, n: int)
    ensures Round(x) == n <==> IsRounded(x, n)
  {
    var f := x.Floor;
    assert f as real <= x < (f + 1) as real;
    if IsRounded(x, n) { assert n == f || n == f + 1; }
  }

  // ----- what an action asks for, and what an order pays

  // The action, cut to the range from -1 to 1.
  predicate IsWeight(action: real, w: real) {
    && -1.0 <= w <= 1.0
    && (-1.0 <= action <= 1.0 ==> w == action)
    && (action > 1.0 ==> w == 1.0) && (action < -1.0 ==> w == -1.0)
  }

  // x is the number of shares that the weighted NAV buys.
  predicate Buys(w: real, nav: real, price: real, x: real) {
    x * price == w * nav
  }

  lemma {:induction false} ShareBuys(w: real, nav: real, price: real, x: real)
    requires price > 0.0
    ensures Buys(w, nav, price, x) <==> x == Share(w, nav, price)
  {
    var q := w * nav / price;
    assert q * price == w * nav;
    if Buys(w, nav, price, x) {
      SameFactor(x, q, price);
    }
  }

  lemma {:induction false} SameFactor(x: real, y: real, price: real)
    requires price > 0.0 && x * price == y * price
    ensures x == y
  {
    assert (x - y) * price == 0.0;
  }

  lemma {:induction false} RoundStays(x: real, n: int)
    ensures x <= n as real ==> Round(x) <= n
    ensures x >= n as real ==> Round(x) >= n
  {
  }

  lemma {:induction false} ClippedRound(x: real, n: int, target: int)
    requires n >= 0 && target == Clip(Round(x), -n, n)
    ensures -n <= target <= n
    ensures -(n as real) <= x <= n as real ==> IsRounded(x, target)
    ensures x > n as real ==> target == n
    ensures x < -(n as real) ==> target == -n
    ensures x >= 0.0 ==> target >= 0
    ensures x <= 0.0 ==> target <= 0
  {
    RoundIff(x, Round(x));
    RoundStays(x, n);
    RoundStays(x, -n);
    RoundStays(x, 0);
  }

  // The target is the nearest to the number of shares that the weighted NAV buys, as far as the
  // greatest position allows.
  lemma {:induction false} TargetIsNearest(c: Config, action: real, nav: real, price: real, w: real, x: real)
    requires price > 0.0 && c.maxPosition >= 0 && IsWeight(action, w) && Buys(w, nav, price, x)
    ensures var target, most := Target(c, action, nav, price), c.maxPosition as real;
            && -c.maxPosition <= target <= c.maxPosition
            && (-most <= x <= most ==> IsRounded(x, target))
            && (x > most ==> target == c.maxPosition)
            && (x < -most ==> target == -c.maxPosition)
  {
    ShareBuys(w, nav, price, x);
    ClippedRound(x, c.maxPosition, Target(c, action, nav, price));
  }

  // A long weight of a positive NAV never asks for a short position, nor the other way around.
  lemma {:induction false} TargetHasSignOfWeight(c: Config, action: real, nav: real, price: real)
    requires price > 0.0 && nav > 0.0 && c.maxPosition >= 0
    ensures action >= 0.0 ==> Target(c, action, nav, price) >= 0
    ensures action <= 0.0 ==> Target(c, action, nav, price) <= 0
  {
    var w := ClipReal(action, -1.0, 1.0);
    var x := Share(w, nav, price);
    ShareBuys(w, nav, price, x);
    SignOfShare(w, nav, price, x);
    ClippedRound(x, c.maxPosition, Target(c, action, nav, price));
  }

  // The signed quantity of the pending orders.
  function Ordered(orders: seq<(int, Side)>): int {
    if orders == [] then 0
    else
      var (qty, side) := orders[|orders| - 1];
      Ordered(orders[..|orders| - 1]) + if side == Buy then qty else -qty
  }

  // After a step the position and what is ordered make up the nearest whole number of shares x that
  // the weighted NAV buys at the close of the row, as far as the greatest position allows.
  lemma {:induction false} StepAims(
      c: Config, rows: seq<Row>, e: Env, d: Env, action: real, w: real, x: real)
    requires Usable(c, rows) && e.index < |rows| && d == Step(c, rows, e, action)
    requires IsWeight(action, w) && Buys(w, Nav(d.account), rows[e.index].close, x)
    ensures var aim, most := Position(d.account, c.symbol) + Ordered(d.pending), c.maxPosition as real;
            && (-most <= x <= most ==> IsRounded(x, aim))
            && (x > most ==> aim == c.maxPosition)
            && (x < -most ==> aim == -c.maxPosition)
  {
    var target := Target(c, action, Nav(d.account), rows[e.index].close);
    TargetIsNearest(c, action, Nav(d.account), rows[e.index].close, w, x);
    OrderMakesUp(Position(d.account, c.symbol), target);
    assert d.pending == OrderFor(Position(d.account, c.symbol), target);
  }

  lemma {:induction false} OrderMakesUp(current: int, target: int)
    ensures current + Ordered(OrderFor(current, target)) == target
  {
    if target != current {
      assert OrderFor(current, target)[..0] == [];
    }
  }

  lemma {:induction false} SignOfShare(w: real, nav: real, price: real, x: real)
    requires price > 0.0 && nav > 0.0 && Buys(w, nav, price, x)
    ensures w >= 0.0 ==> x >= 0.0
    ensures w <= 0.0 ==> x <= 0.0
  {
    SignOf(w, nav);
    SignOf(x, price);
  }

  lemma {:induction false} SignOf(q: real, price: real)
    requires price > 0.0
    ensures q * price >= 0.0 <==> q >= 0.0
    ensures q * price <= 0.0 <==> q <= 0.0
  {
  }

  // An order pays the close and its impact: gamma times its share of the volume, on top of the close
  // for a buy and off it for a sale; and a commission on what it pays.
  lemma {:induction false} OrderPays(c: Config, row: Row, order: (int, Side), impact: real)
    requires row.volume > 0.0 ==> impact == row.close * (c.gamma * (order.0 as real / row.volume))
    requires row.volume <= 0.0 ==> impact == 0.0
    ensures var f := FillFor(c, row, order);
            && f.symbol == c.symbol && f.qty == order.0 && f.side == order.1
            && f.price == (if order.1 == Buy then row.close + impact else row.close - impact)
            && f.commission == f.qty as real * f.price * c.commissionRate
  {
    var pct := if row.volume > 0.0 then c.gamma * (order.0 as real / row.volume) else 0.0;
    assert row.close * (1.0 + pct) == row.close + row.close * pct;
    assert row.close * (1.0 - pct) == row.close - row.close * pct;
  }

  // Every step that takes place moves on by one row, and leaves the symbol marked at its close.
  lemma {:induction false} EpisodeMovesOn(c: Config, rows: seq<Row>, actions: seq<real>)
    requires Usable(c, rows)
    ensures var e := Episode(c, rows, actions);
            && (c.windowSize + |actions| <= |rows| ==> e.index == c.windowSize + |actions|)
            && (c.windowSize < |rows| < c.windowSize + |actions| ==> e.index == |rows|)
            && (|rows| <= c.windowSize ==> e.index == c.windowSize)
            && (c.windowSize < e.index <= |rows| ==>
                  c.symbol in e.account.lastPrices && e.account.lastPrices[c.symbol] == rows[e.index - 1].close)
  {
    if actions != [] {
      EpisodeMovesOn(c, rows, actions[..|actions| - 1]);
    }
  }

  class TradingGymEnv {
    const c: Config
    const rows: seq<Row>
    var portfolio: SubPortfolio
    var currentIdx: nat
    var pendingOrders: seq<(int, Side)>
    var lastNav: real

    function Value(): Env
      reads this, portfolio
    {
      Env(portfolio.Value(), currentIdx, pendingOrders)
    }

    predicate Valid()
      reads this, portfolio
    {
      portfolio.Valid()
    }

    constructor (c: Config, rows: seq<Row>)
      ensures Valid() && fresh(portfolio) && this.c == c && this.rows == rows
      ensures Value() == Env(Opened(c.initialCash), c.windowSize, [])
    {
      this.c, this.rows := c, rows;
      portfolio := new SubPortfolio(c.initialCash);
      currentIdx, pendingOrders, lastNav := c.windowSize, [], c.initialCash;
    }

    method ResetEnv()
      requires Valid()
      modifies this
      ensures Valid() && fresh(portfolio) && Value() == Reset(c, rows) && lastNav == Nav(Value().account)
    {
      portfolio := new SubPortfolio(c.initialCash);
      currentIdx := c.windowSize;
      pendingOrders := [];
      if |rows| > currentIdx {
        portfolio.UpdatePrice(c.symbol, rows[currentIdx].close);
      }
      lastNav := portfolio.GetNav();
    }

    method FillPending(row: Row)
      requires Valid()
      modifies portfolio
      ensures Valid() && portfolio.Value() == FillAll(c, row, old(portfolio.Value()), pendingOrders)
    {
      for i := 0 to |pendingOrders|
        invariant Valid() && portfolio.Value() == FillAll(c, row, old(portfolio.Value()), pendingOrders[..i])
      {
        assert pendingOrders[..i + 1][..i] == pendingOrders[..i];
        var f := FillFor(c, row, pendingOrders[i]);
        var _ := portfolio.ProcessFill(c.symbol, pendingOrders[i].0, pendingOrders[i].1, f.price, f.commission);
      }
      assert pendingOrders[..|pendingOrders|] == pendingOrders;
    }

    method StepEnv(action: real) returns (terminated: bool)
      requires Valid() && Usable(c, rows)
      modifies this, portfolio
      ensures Valid() && portfolio == old(portfolio) && Value() == Step(c, rows, old(Value()), action)
      ensures old(currentIdx) < |rows| ==> lastNav == Nav(Value().account)
      ensures terminated <==>
        || |rows| <= old(currentIdx)
        || currentIdx >= |rows| - 1
        || Nav(Value().account) <= c.initialCash * 0.1
    {
      if |rows| <= currentIdx {
        return true;
      }
      var row := rows[currentIdx];
      FillPending(row);
      pendingOrders := [];
      portfolio.UpdatePrice(c.symbol, row.close);
      var currentNav := portfolio.GetNav();
      lastNav := currentNav;
      assert portfolio.Value() == Settled(c, rows, old(Value()));
      var targetQty := Target(c, action, currentNav, row.close);
      var currentQty := if c.symbol in portfolio.positions then portfolio.positions[c.symbol] else 0;
      assert targetQty == Chosen(c, rows, old(Value()), action);
      var orderQty := targetQty - currentQty;
      if orderQty != 0 {
        pendingOrders := pendingOrders + [(Abs(orderQty), if orderQty > 0 then Buy else Sell)];
      }
      assert pendingOrders == OrderFor(currentQty, targetQty);
      currentIdx := currentIdx + 1;
      terminated := currentIdx >= |rows| - 1 || currentNav <= c.initialCash * 0.1;
    }
  }
}
