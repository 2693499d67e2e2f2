/** The simulated order book: orders, bar matching, slippage, commission and trade records
    (src/alpha_engine/backtest_driver.py). */
module Book {
  import opened Options
  import opened Portfolio

  datatype Kind = Market | Limit
  datatype Status = Pending | Cancelled | Filled(execPrice: real, commission: real)

  datatype Ticket = Ticket(
    id: nat, symbol: string, qty: int, side: Side, price: real, kind: Kind,
    status: Status, created: Option<int>)

  datatype Row = Row(ts: int, symbol: string, open: real, high: real, low: real, close: real, volume: real)

  // power stands for raising to the exponent alpha.
  datatype Models = Models(
    gamma: real, power: real -> real, fixedBps: real,
    flatFee: real, rate: real, perShare: real, minFee: real, maxFeePct: real)

  datatype Trade = Trade(
    time: int, id: nat, symbol: string, side: Side, qty: int, orderPrice: real, execPrice: real,
    slippageCost: real, commission: real, realizedPnl: real, cashAfter: real, positionAfter: int)

  datatype Ctx = Ctx(
    account: Account, now: Option<int>, orders: map<nat, Ticket>, pending: seq<nat>,
    trades: seq<Trade>, navs: seq<real>, times: seq<int>, counter: nat)

  function Start(capital: real): Ctx {
    Ctx(Opened(capital), None, map[], [], [], [capital], [], 0)
  }

  function Min(x: real, y: real): real { if y < x then y else x }
  function Max(x: real, y: real): real { if y > x then y else x }

  function SlippagePct(m: Models, qty: int, volume: real): real {
    Max(0.0, m.fixedBps / 10000.0 +
             if volume > 0.0 && m.gamma > 0.0 then m.gamma * m.power(qty as real / volume) else 0.0)
  }

  function Commission(m: Models, qty: int, execPrice: real): real {
    var notional := qty as real * execPrice;
    var comm := Max(m.minFee, m.flatFee + notional * m.rate + qty as real * m.perShare);
    if m.maxFeePct > 0.0 then Min(comm, notional * m.maxFeePct) else comm
  }

  // The price before slippage at which an order trades against a bar, if it does.
  function MatchPrice(t: Ticket, bar: Row): Option<real> {
    if t.kind == Limit && t.price > 0.0 then
      match t.side
      case Buy => if bar.low <= t.price then Some(Min(bar.open, t.price)) else None
      case Sell => if bar.high >= t.price then Some(Max(bar.open, t.price)) else None
      case Other => Some(bar.close)
    else Some(bar.close)
  }

  function ExecPrice(m: Models, t: Ticket, bar: Row, base: real): real {
    var pct := SlippagePct(m, t.qty, bar.volume);
    if t.side == Buy then base * (1.0 + pct) else base * (1.0 - pct)
  }

  function FillOf(m: Models, t: Ticket, bar: Row, base: real): Fill {
    var price := ExecPrice(m, t, bar, base);
    Fill(t.symbol, t.qty, t.side, price, Commission(m, t.qty, price))
  }

  function Record(now: Option<int>, before: Account, after: Account, t: Ticket, f: Fill, base: real): Trade {
    var slip := if t.side == Buy then (f.price - base) * t.qty as real else (base - f.price) * t.qty as real;
    Trade(
      match now { case Some(ts) => ts case None => 0 },
      t.id, t.symbol, t.side, t.qty, if t.kind == Limit then t.price else base, f.price,
      slip, f.commission, RealizedBy(before, f), after.cash, Position(after, t.symbol))
  }

  // The context after order id traded at a base price.
  function Trades(m: Models, c: Ctx, bar: Row, id: nat, base: real): Ctx
    requires id in c.orders
  {
    var t := c.orders[id];
    var f := FillOf(m, t, bar, base);
    var a := Apply(c.account, f);
    c.(account := a,
       orders := c.orders[id := t.(status := Filled(f.price, f.commission))],
       trades := c.trades + [Record(c.now, c.account, a, t, f, base)])
  }

  // One order of the pending list against a bar: the context, and whether the order stays pending.
  function MatchOne(m: Models, c: Ctx, bar: Row, id: nat): (Ctx, bool) {
    if id !in c.orders || c.orders[id].symbol != bar.symbol then (c, true)
    else if c.orders[id].status == Cancelled then (c, false)
    else match MatchPrice(c.orders[id], bar)
      case None => (c, true)
      case Some(base) => (Trades(m, c, bar, id, base), false)
  }

  // The orders of a list against a bar, in order, and those of them that stay pending.
  function MatchAll(m: Models, c: Ctx, bar: Row, ids: seq<nat>): (Ctx, seq<nat>) {
    if ids == [] then (c, [])
    else
      var (d, kept) := MatchAll(m, c, bar, ids[..|ids| - 1]);
      var (e, stays) := MatchOne(m, d, bar, ids[|ids| - 1]);
      (e, if stays then kept + [ids[|ids| - 1]] else kept)
  }

  function Match(m: Models, c: Ctx, bar: Row): Ctx {
    var (d, kept) := MatchAll(m, c, bar, c.pending);
    d.(pending := kept)
  }

  // ----- what a strategy may ask for

  datatype Command =
    | Submit(symbol: string, qty: int, side: Side, price: real, kind: Kind)
    | Cancel(id: nat)

  function Without(ids: seq<nat>, id: nat): seq<nat> {
    if ids == [] then []
    else Without(ids[..|ids| - 1], id) + if ids[|ids| - 1] == id then [] else [ids[|ids| - 1]]
  }

  function Execute(c: Ctx, cmd: Command): Ctx {
    match cmd
    case Submit(symbol, qty, side, price, kind) =>
      var id := c.counter + 1;
      c.(counter := id, pending := c.pending + [id],
         orders := c.orders[id := Ticket(id, symbol, qty, side, price, kind, Pending, c.now)])
    case Cancel(id) =>
      if id in c.orders && c.orders[id].status == Pending then
        c.(orders := c.orders[id := c.orders[id].(status := Cancelled)], pending := Without(c.pending, id))
      else c
  }

  function ExecuteAll(c: Ctx, cmds: seq<Command>): Ctx {
    if cmds == [] then c else Execute(ExecuteAll(c, cmds[..|cmds| - 1]), cmds[|cmds| - 1])
  }

  ghost function RecordNav(c: Ctx): Ctx {
    c.(navs := c.navs + [Nav(c.account)],
       times := match c.now { case Some(ts) => c.times + [ts] case None => c.times })
  }

  // ----- matching respects limits

  predicate ConsistentBar(r: Row) {
    0.0 <= r.low <= r.open <= r.high && r.low <= r.close <= r.high
  }

  // An order whose limit counts.
  predicate Limited(t: Ticket) {
    t.kind == Limit && t.price > 0.0 && t.side != Other
  }

  predicate Respects(t: Ticket, price: real) {
    if t.side == Buy then price <= t.price else price >= t.price
  }

  // The bar reaches the limit of the order, if it has one that counts.
  predicate Reaches(bar: Row, t: Ticket) {
    Limited(t) ==> if t.side == Buy then bar.low <= t.price else bar.high >= t.price
  }

  // The close for a market order; for a limit order the better of the open and the limit.
  function DuePrice(bar: Row, t: Ticket): real {
    if !Limited(t) then bar.close
    else if t.side == Buy then (if bar.open < t.price then bar.open else t.price)
    else if bar.open > t.price then bar.open
    else t.price
  }

  lemma {:induction false} MatchesAtDuePrice(t: Ticket, bar: Row)
    ensures MatchPrice(t, bar) == if Reaches(bar, t) then Some(DuePrice(bar, t)) else None
  {
  }

  // On a consistent bar a base price lies within the bar and is no worse than the limit, and
  // slippage moves the executed price only against the order.
  lemma {:induction false} LimitIsRespected(m: Models, t: Ticket, bar: Row)
    requires ConsistentBar(bar) && MatchPrice(t, bar).Some?
    ensures var base := MatchPrice(t, bar).value;
            && bar.low <= base <= bar.high
            && (Limited(t) ==> Respects(t, base))
            && (t.side == Buy ==> ExecPrice(m, t, bar, base) >= base)
            && (t.side != Buy ==> ExecPrice(m, t, bar, base) <= base)
  {
    var base, pct := MatchPrice(t, bar).value, SlippagePct(m, t.qty, bar.volume);
    Slips(base, pct);
  }

  lemma {:induction false} Slips(x: real, pct: real)
    requires x >= 0.0 && pct >= 0.0
    ensures x * (1.0 + pct) >= x >= x * (1.0 - pct)
    ensures x > 0.0 && pct > 0.0 ==> x * (1.0 + pct) > x > x * (1.0 - pct)
  {
    assert x * pct >= 0.0;
    assert x > 0.0 && pct > 0.0 ==> x * pct > 0.0;
    assert x * (1.0 + pct) == x + x * pct && x * (1.0 - pct) == x - x * pct;
  }

  // There is no slippage, or the open is so far inside the limit that slippage does not reach it.
  predicate SlippageFits(m: Models, t: Ticket, bar: Row) {
    var pct := SlippagePct(m, t.qty, bar.volume);
    || pct == 0.0
    || (t.side == Buy && bar.open * (1.0 + pct) <= t.price)
    || (t.side == Sell && bar.open * (1.0 - pct) >= t.price)
  }

  // The executed price of a limit order that trades is no worse than the limit if and only if the
  // slippage fits between the open and the limit.
  lemma {:induction false} ExecutedPriceRespectsLimitIff(m: Models, t: Ticket, bar: Row)
    requires ConsistentBar(bar) && Limited(t) && MatchPrice(t, bar).Some?
    ensures Respects(t, ExecPrice(m, t, bar, MatchPrice(t, bar).value)) <==> SlippageFits(m, t, bar)
  {
    var pct := SlippagePct(m, t.qty, bar.volume);
    Slips(bar.open, pct);
    Slips(t.price, pct);
  }

  // A buy limited to 100 trades at 100.1 on a bar that opens at 101 and falls to 99, at 10 basis
  // points of slippage.
  lemma {:induction false} ExecutedPastTheLimit(m: Models, t: Ticket, bar: Row)
    requires m.fixedBps == 10.0 && m.gamma == 0.0
    requires t.kind == Limit && t.side == Buy && t.price == 100.0
    requires bar.open == 101.0 && bar.high == 101.0 && bar.low == 99.0 && bar.close == 100.0
    ensures ConsistentBar(bar) && MatchPrice(t, bar) == Some(100.0)
    ensures ExecPrice(m, t, bar, 100.0) == 100.1 && !Respects(t, ExecPrice(m, t, bar, 100.0))
  {
    assert SlippagePct(m, t.qty, bar.volume) == 0.001;
  }

  // Without volume or impact the slippage is the fixed part; with both it adds gamma times the power
  // of the ratio of quantity and volume. It is never negative.
  lemma {:induction false} SlippageIs(m: Models, qty: int, volume: real)
    requires m.fixedBps >= 0.0
    ensures var fixed, pct := m.fixedBps / 10000.0, SlippagePct(m, qty, volume);
            && pct >= 0.0
            && (volume <= 0.0 || m.gamma <= 0.0 ==> pct == fixed)
            && (volume > 0.0 && m.gamma > 0.0 && m.power(qty as real / volume) >= 0.0 ==>
                  pct == fixed + m.gamma * m.power(qty as real / volume))
  {
  }

  // A buy pays the base price and the slippage on it, any other order gets the base price less it.
  lemma {:induction false} SlippageIsPaid(m: Models, t: Ticket, bar: Row, base: real)
    ensures var slip := base * SlippagePct(m, t.qty, bar.volume);
            ExecPrice(m, t, bar, base) == if t.side == Buy then base + slip else base - slip
  {
    var pct := SlippagePct(m, t.qty, bar.volume);
    assert base * (1.0 + pct) == base + base * pct && base * (1.0 - pct) == base - base * pct;
  }

  // The commission is the larger of the schedule and the minimum, unless the cap is set and lower.
  lemma {:induction false} CommissionIsCapped(m: Models, qty: int, price: real)
    ensures var c, notional := Commission(m, qty, price), qty as real * price;
            var fees, cap := m.flatFee + notional * m.rate + qty as real * m.perShare, notional * m.maxFeePct;
            var capped := m.maxFeePct > 0.0;
            && (capped ==> c <= cap)
            && (c < m.minFee || c < fees ==> capped && c == cap)
            && (c == m.minFee || c == fees || (capped && c == cap))
  {
  }

  // ----- the invariant of the book

  function AsFill(tr: Trade): Fill {
    Fill(tr.symbol, tr.qty, tr.side, tr.execPrice, tr.commission)
  }

  function TradedCash(trs: seq<Trade>): real {
    if trs == [] then 0.0 else TradedCash(trs[..|trs| - 1]) + Outlay(AsFill(trs[|trs| - 1]))
  }

  function TradedQty(trs: seq<Trade>, s: string): int {
    if trs == [] then 0
    else
      var tr := trs[|trs| - 1];
      TradedQty(trs[..|trs| - 1], s) + if tr.symbol == s then SignedQty(AsFill(tr)) else 0
  }

  function TradedPnl(trs: seq<Trade>): real {
    if trs == [] then 0.0 else TradedPnl(trs[..|trs| - 1]) + trs[|trs| - 1].realizedPnl
  }

  // Every trade states the cash and the position that the trades up to it leave.
  predicate RunningTotals(capital: real, trs: seq<Trade>) {
    trs == [] ||
    var tr := trs[|trs| - 1];
    && RunningTotals(capital, trs[..|trs| - 1])
    && tr.cashAfter == capital - TradedCash(trs)
    && tr.positionAfter == TradedQty(trs, tr.symbol)
  }

  // The pending list is exactly the PENDING orders, in the order of their submission.
  predicate PendingOk(c: Ctx) {
    && (forall i, j | 0 <= i < j < |c.pending| :: c.pending[i] < c.pending[j])
    && (forall id | id in c.pending :: id in c.orders && c.orders[id].status == Pending)
    && (forall id | id in c.orders && c.orders[id].status == Pending :: id in c.pending)
  }

  predicate OrdersOk(c: Ctx) {
    && (forall id | id in c.orders :: 1 <= id <= c.counter && c.orders[id].id == id)
    && (forall id | 1 <= id <= c.counter :: id in c.orders)
    && (forall id | id in c.orders ::
          && c.orders[id].created.Some? && c.now.Some?
          && c.orders[id].created.value <= c.now.value)
  }

  // A trade records the fill of its order, strictly after the order was created.
  predicate TradeOk(c: Ctx, tr: Trade) {
    && tr.id in c.orders
    && var t := c.orders[tr.id];
       && t.status == Filled(tr.execPrice, tr.commission)
       && t.symbol == tr.symbol && t.side == tr.side && t.qty == tr.qty
       && t.created.Some? && t.created.value < tr.time
  }

  // One trade per FILLED order, and no other trades.
  ghost predicate TradesOk(c: Ctx) {
    && (forall i | 0 <= i < |c.trades| :: TradeOk(c, c.trades[i]))
    && (forall i, j | 0 <= i < j < |c.trades| :: c.trades[i].id != c.trades[j].id)
    && (forall id | id in c.orders && c.orders[id].status.Filled? ::
          exists i :: 0 <= i < |c.trades| && c.trades[i].id == id)
  }

  // The trade records account for the whole account.
  ghost predicate AccountOk(capital: real, c: Ctx) {
    && Consistent(c.account)
    && c.account.cash == capital - TradedCash(c.trades)
    && c.account.realizedPnl == TradedPnl(c.trades)
    && RunningTotals(capital, c.trades)
    && forall s :: Position(c.account, s) == TradedQty(c.trades, s)
  }

  // Every pending order was created before the present time.
  predicate Aged(c: Ctx) {
    c.now.Some? && forall id | id in c.orders :: c.orders[id].created.Some? && c.orders[id].created.value < c.now.value
  }

  ghost predicate BookOk(capital: real, c: Ctx) {
    PendingOk(c) && OrdersOk(c) && TradesOk(c) && AccountOk(capital, c)
  }

  lemma {:induction false} TradesKeepsTrades(m: Models, c: Ctx, bar: Row, id: nat, base: real)
    requires TradesOk(c) && Aged(c) && id in c.orders && c.orders[id].status == Pending && c.orders[id].id == id
    ensures TradesOk(Trades(m, c, bar, id, base))
  {
    var d := Trades(m, c, bar, id, base);
    forall i | 0 <= i < |c.trades|
      ensures d.trades[i] == c.trades[i] && TradeOk(d, d.trades[i]) && d.trades[i].id != id
    {
      assert TradeOk(c, c.trades[i]);
    }
    assert TradeOk(d, d.trades[|c.trades|]);
    forall k | k in d.orders && d.orders[k].status.Filled?
      ensures exists i :: 0 <= i < |d.trades| && d.trades[i].id == k
    {
      if k == id {
        assert d.trades[|c.trades|].id == k;
      } else {
        var i :| 0 <= i < |c.trades| && c.trades[i].id == k;
        assert d.trades[i].id == k;
      }
    }
  }

  lemma {:induction false} TradesKeepsAccount(m: Models, capital: real, c: Ctx, bar: Row, id: nat, base: real)
    requires AccountOk(capital, c) && id in c.orders
    ensures AccountOk(capital, Trades(m, c, bar, id, base))
  {
    var d, f := Trades(m, c, bar, id, base), FillOf(m, c.orders[id], bar, base);
    assert d.trades[..|d.trades| - 1] == c.trades;
    assert AsFill(d.trades[|d.trades| - 1]) == f;
    ApplyConsistent(c.account, f);
    ApplyCash(c.account, f);
    ApplyRealized(c.account, f);
    forall s
      ensures Position(d.account, s) == TradedQty(d.trades, s)
    {
      ApplyPosition(c.account, f, s);
    }
  }

  lemma {:induction false} TradesIgnoresPending(m: Models, c: Ctx, bar: Row, id: nat, base: real, ids: seq<nat>)
    requires id in c.orders
    ensures Trades(m, c.(pending := ids), bar, id, base) == Trades(m, c, bar, id, base).(pending := ids)
  {
  }

  // A pending order that trades leaves the pending list and enters the trade records.
  lemma {:induction false} TradeKeepsBook(
      m: Models, capital: real, c: Ctx, bar: Row, kept: seq<nat>, id: nat, rest: seq<nat>, base: real)
    requires BookOk(capital, c) && Aged(c) && c.pending == kept + [id] + rest && id in c.orders
    ensures var d := Trades(m, c, bar, id, base).(pending := kept + rest);
            BookOk(capital, d) && Aged(d)
  {
    assert c.pending[|kept|] == id;
    var e := Trades(m, c, bar, id, base);
    var d := e.(pending := kept + rest);
    TradesKeepsTrades(m, c, bar, id, base);
    TradesKeepsAccount(m, capital, c, bar, id, base);
    RemovedFromPending(c, d, kept, id, rest);
    TradesStand(e, d);
    AccountStands(capital, e, d);
    TradesKeepsOrders(m, c, bar, id, base);
    assert OrdersOk(d) && Aged(d);
  }

  lemma {:induction false} TradesKeepsOrders(m: Models, c: Ctx, bar: Row, id: nat, base: real)
    requires OrdersOk(c) && Aged(c) && id in c.orders
    ensures OrdersOk(Trades(m, c, bar, id, base)) && Aged(Trades(m, c, bar, id, base))
  {
  }

  // The book while a bar is being matched: kept is what stays of the orders already visited.
  lemma {:induction false} MatchOneKeeps(
      m: Models, capital: real, c: Ctx, bar: Row, kept: seq<nat>, id: nat, rest: seq<nat>)
    requires BookOk(capital, c.(pending := kept + [id] + rest)) && Aged(c)
    ensures var (d, stays) := MatchOne(m, c, bar, id);
            var e := d.(pending := (if stays then kept + [id] else kept) + rest);
            BookOk(capital, e) && Aged(e)
  {
    var before := c.(pending := kept + [id] + rest);
    assert before.pending[|kept|] == id;
    if c.orders[id].symbol == bar.symbol && MatchPrice(c.orders[id], bar).Some? {
      var base := MatchPrice(c.orders[id], bar).value;
      TradesIgnoresPending(m, c, bar, id, base, kept + [id] + rest);
      TradeKeepsBook(m, capital, before, bar, kept, id, rest, base);
    }
  }

  lemma {:induction false} RemovedFromPending(c: Ctx, d: Ctx, kept: seq<nat>, id: nat, rest: seq<nat>)
    requires PendingOk(c) && c.pending == kept + [id] + rest && d.pending == kept + rest
    requires c.orders.Keys == d.orders.Keys && id in d.orders && d.orders[id].status != Pending
    requires forall k | k in c.orders && k != id :: d.orders[k] == c.orders[k]
    ensures PendingOk(d)
  {
    forall i | 0 <= i < |d.pending|
      ensures d.pending[i] == c.pending[if i < |kept| then i else i + 1] && d.pending[i] != id
    {
      assert c.pending[|kept|] == id;
    }
    forall k | k in d.orders && d.orders[k].status == Pending
      ensures k in d.pending
    {
      var i :| 0 <= i < |c.pending| && c.pending[i] == k;
      assert d.pending[if i < |kept| then i else i - 1] == k;
    }
  }

  lemma {:induction false} MatchAllKeeps(m: Models, capital: real, c: Ctx, bar: Row, ids: seq<nat>, rest: seq<nat>)
    requires BookOk(capital, c.(pending := ids + rest)) && Aged(c)
    ensures var (d, kept) := MatchAll(m, c, bar, ids);
            BookOk(capital, d.(pending := kept + rest)) && Aged(d.(pending := kept + rest))
  {
    if ids == [] {
      assert ids + rest == rest;
    } else {
      var init, id := ids[..|ids| - 1], ids[|ids| - 1];
      assert init + ([id] + rest) == ids + rest;
      MatchAllKeeps(m, capital, c, bar, init, [id] + rest);
      var (d, kept) := MatchAll(m, c, bar, init);
      assert kept + ([id] + rest) == kept + [id] + rest;
      MatchOneKeeps(m, capital, d, bar, kept, id, rest);
    }
  }

  lemma {:induction false} MatchKeeps(m: Models, capital: real, c: Ctx, bar: Row)
    requires BookOk(capital, c) && Aged(c)
    ensures BookOk(capital, Match(m, c, bar)) && Aged(Match(m, c, bar))
  {
    assert c.pending + [] == c.pending;
    MatchAllKeeps(m, capital, c, bar, c.pending, []);
    var (d, kept) := MatchAll(m, c, bar, c.pending);
    assert kept + [] == kept;
  }

  lemma {:induction false} WithoutSplits(ids: seq<nat>, i: nat)
    requires i < |ids| && forall j, k | 0 <= j < k < |ids| :: ids[j] < ids[k]
    ensures Without(ids, ids[i]) == ids[..i] + ids[i + 1..]
  {
    if i < |ids| - 1 {
      var init := ids[..|ids| - 1];
      WithoutSplits(init, i);
      assert ids[..i] + ids[i + 1..] == init[..i] + init[i + 1..] + [ids[|ids| - 1]];
    } else {
      WithoutAbsent(ids[..i], ids[i]);
      assert ids[..i] + ids[i + 1..] == ids[..i];
    }
  }

  lemma {:induction false} WithoutAbsent(ids: seq<nat>, id: nat)
    requires id !in ids
    ensures Without(ids, id) == ids
  {
    if ids != [] {
      WithoutAbsent(ids[..|ids| - 1], id);
    }
  }

  // Trade records stand as long as the FILLED orders do.
  lemma {:induction false} TradesStand(c: Ctx, d: Ctx)
    requires TradesOk(c) && c.trades == d.trades
    requires forall id | id in c.orders && c.orders[id].status.Filled? :: id in d.orders && d.orders[id] == c.orders[id]
    requires forall id | id in d.orders && d.orders[id].status.Filled? :: id in c.orders && d.orders[id] == c.orders[id]
    ensures TradesOk(d)
  {
    forall i | 0 <= i < |d.trades|
      ensures TradeOk(d, d.trades[i])
    {
      assert TradeOk(c, c.trades[i]);
    }
  }

  lemma {:induction false} AccountStands(capital: real, c: Ctx, d: Ctx)
    requires AccountOk(capital, c) && c.account == d.account && c.trades == d.trades
    ensures AccountOk(capital, d)
  {
  }

  lemma {:induction false} SubmitKeeps(capital: real, c: Ctx, cmd: Command)
    requires BookOk(capital, c) && c.now.Some? && cmd.Submit?
    ensures BookOk(capital, Execute(c, cmd))
  {
    var d := Execute(c, cmd);
    TradesStand(c, d);
    AccountStands(capital, c, d);
    assert OrdersOk(d);
    PendingAfterSubmit(c, d);
  }

  lemma {:induction false} PendingAfterSubmit(c: Ctx, d: Ctx)
    requires PendingOk(c) && OrdersOk(c) && d.pending == c.pending + [d.counter] && d.counter == c.counter + 1
    requires d.orders.Keys == c.orders.Keys + {d.counter} && d.orders[d.counter].status == Pending
    requires forall k | k in c.orders :: d.orders[k] == c.orders[k]
    ensures PendingOk(d)
  {
    forall i | 0 <= i < |c.pending|
      ensures d.pending[i] == c.pending[i] && d.pending[i] < d.counter
    {
      assert c.pending[i] in c.pending;
    }
    forall id | id in d.orders && d.orders[id].status == Pending
      ensures id in d.pending
    {
      assert d.pending[|c.pending|] == d.counter;
      if id != d.counter {
        var i :| 0 <= i < |c.pending| && c.pending[i] == id;
        assert d.pending[i] == id;
      }
    }
  }

  lemma {:induction false} CancelKeeps(capital: real, c: Ctx, id: nat)
    requires BookOk(capital, c) && id in c.orders && c.orders[id].status == Pending
    ensures BookOk(capital, Execute(c, Cancel(id)))
  {
    var d := Execute(c, Cancel(id));
    TradesStand(c, d);
    AccountStands(capital, c, d);
    assert OrdersOk(d);
    PendingAfterCancel(c, d, id);
  }

  lemma {:induction false} PendingAt(c: Ctx, id: nat) returns (i: nat)
    requires PendingOk(c) && id in c.orders && c.orders[id].status == Pending
    ensures i < |c.pending| && c.pending[i] == id
    ensures forall j, k | 0 <= j < k < |c.pending| :: c.pending[j] < c.pending[k]
  {
    i :| 0 <= i < |c.pending| && c.pending[i] == id;
  }

  lemma {:induction false} PendingAfterCancel(c: Ctx, d: Ctx, id: nat)
    requires PendingOk(c) && id in c.orders && c.orders[id].status == Pending
    requires c.orders.Keys == d.orders.Keys && d.orders[id].status != Pending
    requires forall k | k in c.orders && k != id :: d.orders[k] == c.orders[k]
    requires d.pending == Without(c.pending, id)
    ensures PendingOk(d)
  {
    var i := PendingAt(c, id);
    WithoutSplits(c.pending, i);
    assert c.pending == c.pending[..i] + [id] + c.pending[i + 1..];
    RemovedFromPending(c, d, c.pending[..i], id, c.pending[i + 1..]);
  }

  lemma {:induction false} ExecuteKeeps(capital: real, c: Ctx, cmd: Command)
    requires BookOk(capital, c) && c.now.Some?
    ensures BookOk(capital, Execute(c, cmd))
  {
    match cmd
    case Submit(_, _, _, _, _) => SubmitKeeps(capital, c, cmd);
    case Cancel(id) =>
      if id in c.orders && c.orders[id].status == Pending { CancelKeeps(capital, c, id); }
  }

  lemma {:induction false} ExecuteAllKeeps(capital: real, c: Ctx, cmds: seq<Command>)
    requires BookOk(capital, c) && c.now.Some?
    ensures BookOk(capital, ExecuteAll(c, cmds)) && ExecuteAll(c, cmds).now == c.now
  {
    if cmds != [] {
      ExecuteAllKeeps(capital, c, cmds[..|cmds| - 1]);
      ExecuteKeeps(capital, ExecuteAll(c, cmds[..|cmds| - 1]), cmds[|cmds| - 1]);
    }
  }
}
