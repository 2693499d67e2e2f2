/** Where the trades of a backtest come from: each order trades at the first row that it matches after
    its creation, at the price that this row gives it (src/alpha_engine/backtest_driver.py). */
module TradeOrigins {
  import opened Options
  import opened Portfolio
  import opened Book
  import opened Backtest

  // The slippage cost is what the trade paid more, or got less, than the base price.
  predicate SlippageOk(tr: Trade, base: real) {
    var atBase, paid := tr.qty as real * base, tr.qty as real * tr.execPrice;
    paid == if tr.side == Buy then atBase + tr.slippageCost else atBase - tr.slippageCost
  }

  predicate PriceOk(m: Models, t: Ticket, row: Row, base: real, price: real) {
    && row.low <= base <= row.high
    && (Limited(t) ==> Respects(t, base))
    && (Limited(t) ==> (Respects(t, price) <==> SlippageFits(m, t, row)))
  }

  // The trade executed against this row, of its own time and symbol, which reaches the limit of the
  // order if it has one, at the due price moved by slippage only.
  predicate FairTrade(m: Models, tr: Trade, t: Ticket, row: Row) {
    && row.ts == tr.time && row.symbol == tr.symbol
    && Reaches(row, t)
    && var base := DuePrice(row, t);
       && tr.execPrice == ExecPrice(m, t, row, base)
       && tr.orderPrice == (if t.kind == Limit then t.price else base)
       && SlippageOk(tr, base)
       && tr.commission == Commission(m, tr.qty, tr.execPrice)
       && (ConsistentBar(row) ==> PriceOk(m, t, row, base, tr.execPrice))
  }

  // If the order was there before this row, the row did not match it.
  predicate PassedBy(t: Ticket, row: Row) {
    row.symbol == t.symbol && t.created.Some? && t.created.value < row.ts ==> !Reaches(row, t)
  }

  predicate Unmet(t: Ticket, rows: seq<Row>) {
    forall j | 0 <= j < |rows| :: PassedBy(t, rows[j])
  }

  // The order as it was submitted: everything but its status stands.
  function Plain(t: Ticket): Ticket {
    t.(status := Pending)
  }

  // Row k is the first one that the order matched.
  predicate HasOrigin(m: Models, tr: Trade, t: Ticket, rows: seq<Row>, k: int) {
    0 <= k < |rows| && FairTrade(m, tr, t, rows[k]) && Unmet(t, rows[..k])
  }

  ghost predicate Originates(m: Models, tr: Trade, orders: map<nat, Ticket>, rows: seq<Row>) {
    tr.id in orders && exists k :: HasOrigin(m, tr, Plain(orders[tr.id]), rows, k)
  }

  ghost predicate Grounded(m: Models, c: Ctx, rows: seq<Row>) {
    forall i | 0 <= i < |c.trades| :: Originates(m, c.trades[i], c.orders, rows)
  }

  // No row seen so far matched an order that is still pending.
  predicate PendingUnmet(c: Ctx, rows: seq<Row>) {
    forall id | id in c.orders && c.orders[id].status == Pending :: Unmet(c.orders[id], rows)
  }

  // ----- origins stand

  lemma {:induction false} OriginatesMore(
      m: Models, tr: Trade, orders: map<nat, Ticket>, rows: seq<Row>, more: seq<Row>)
    requires Originates(m, tr, orders, rows)
    ensures Originates(m, tr, orders, rows + more)
  {
    var k :| HasOrigin(m, tr, Plain(orders[tr.id]), rows, k);
    assert (rows + more)[..k] == rows[..k];
    assert HasOrigin(m, tr, Plain(orders[tr.id]), rows + more, k);
  }

  // Origins survive as the book moves on.
  lemma {:induction false} OriginatesLater(m: Models, c: Ctx, d: Ctx, tr: Trade, rows: seq<Row>)
    requires Originates(m, tr, c.orders, rows) && Later(c, d)
    ensures Originates(m, tr, d.orders, rows)
  {
    var k :| HasOrigin(m, tr, Plain(c.orders[tr.id]), rows, k);
    assert Plain(d.orders[tr.id]) == Plain(c.orders[tr.id]);
  }

  lemma {:induction false} GroundedMore(m: Models, c: Ctx, rows: seq<Row>, more: seq<Row>)
    requires Grounded(m, c, rows)
    ensures Grounded(m, c, rows + more)
  {
    forall i | 0 <= i < |c.trades|
      ensures Originates(m, c.trades[i], c.orders, rows + more)
    {
      OriginatesMore(m, c.trades[i], c.orders, rows, more);
    }
  }

  lemma {:induction false} GroundedLater(m: Models, c: Ctx, d: Ctx, rows: seq<Row>)
    requires Grounded(m, c, rows) && Later(c, d) && c.trades == d.trades
    ensures Grounded(m, d, rows)
  {
    forall i | 0 <= i < |d.trades|
      ensures Originates(m, d.trades[i], d.orders, rows)
    {
      OriginatesLater(m, c, d, c.trades[i], rows);
    }
  }

  // One more trade, with its origin.
  lemma {:induction false} GroundedSnoc(m: Models, c: Ctx, d: Ctx, rows: seq<Row>, tr: Trade)
    requires Grounded(m, c, rows) && Later(c, d) && d.trades == c.trades + [tr]
    requires Originates(m, tr, d.orders, rows)
    ensures Grounded(m, d, rows)
  {
    forall i | 0 <= i < |d.trades|
      ensures Originates(m, d.trades[i], d.orders, rows)
    {
      if i < |c.trades| {
        OriginatesLater(m, c, d, c.trades[i], rows);
      } else {
        assert d.trades[i] == tr;
      }
    }
  }

  lemma {:induction false} UnmetSnoc(t: Ticket, rows: seq<Row>, row: Row)
    requires Unmet(t, rows) && PassedBy(t, row)
    ensures Unmet(t, rows + [row])
  {
  }

  // ----- one bar

  lemma {:induction false} Distributed(q: real, x: real, base: real)
    ensures q * x == q * base + (x - base) * q && q * x == q * base - (base - x) * q
  {
  }

  lemma {:induction false} RecordHasSlippage(
      now: Option<int>, before: Account, after: Account, t: Ticket, f: Fill, base: real)
    ensures SlippageOk(Record(now, before, after, t, f, base), base)
  {
    Distributed(t.qty as real, f.price, base);
  }

  lemma {:induction false} PriceIsOk(m: Models, t: Ticket, bar: Row)
    requires ConsistentBar(bar) && MatchPrice(t, bar).Some?
    ensures var base := MatchPrice(t, bar).value; PriceOk(m, t, bar, base, ExecPrice(m, t, bar, base))
  {
    LimitIsRespected(m, t, bar);
    if Limited(t) { ExecutedPriceRespectsLimitIff(m, t, bar); }
  }

  lemma {:induction false} TradeIsFair(m: Models, c: Ctx, bar: Row, id: nat)
    requires id in c.orders && c.now == Some(bar.ts) && c.orders[id].symbol == bar.symbol
    requires MatchPrice(c.orders[id], bar).Some?
    ensures var d := Trades(m, c, bar, id, MatchPrice(c.orders[id], bar).value);
            FairTrade(m, d.trades[|c.trades|], c.orders[id], bar)
  {
    var t := c.orders[id];
    var base := MatchPrice(t, bar).value;
    var f := FillOf(m, t, bar, base);
    MatchesAtDuePrice(t, bar);
    if ConsistentBar(bar) { PriceIsOk(m, t, bar); }
    RecordHasSlippage(c.now, c.account, Apply(c.account, f), t, f, base);
  }

  lemma {:induction false} TradesGrounded(m: Models, c: Ctx, bar: Row, id: nat, rows: seq<Row>)
    requires Grounded(m, c, rows + [bar]) && c.now == Some(bar.ts)
    requires id in c.orders && c.orders[id].id == id && c.orders[id].status == Pending && Unmet(c.orders[id], rows)
    requires c.orders[id].symbol == bar.symbol && MatchPrice(c.orders[id], bar).Some?
    ensures Grounded(m, Trades(m, c, bar, id, MatchPrice(c.orders[id], bar).value), rows + [bar])
  {
    var d := Trades(m, c, bar, id, MatchPrice(c.orders[id], bar).value);
    var tr := d.trades[|c.trades|];
    TradeIsFair(m, c, bar, id);
    assert (rows + [bar])[|rows|] == bar && (rows + [bar])[..|rows|] == rows;
    assert HasOrigin(m, tr, c.orders[id], rows + [bar], |rows|);
    assert Plain(d.orders[id]) == c.orders[id];
    assert Originates(m, tr, d.orders, rows + [bar]);
    GroundedSnoc(m, c, d, rows + [bar], tr);
  }

  // The orders to match: pending ones in the order of their ids, that no earlier row matched.
  predicate Waiting(c: Ctx, ids: seq<nat>, rows: seq<Row>) {
    && (forall i, j | 0 <= i < j < |ids| :: ids[i] < ids[j])
    && (forall i | 0 <= i < |ids| ::
          ids[i] in c.orders && c.orders[ids[i]].status == Pending && c.orders[ids[i]].id == ids[i])
    && (forall i | 0 <= i < |ids| :: Unmet(c.orders[ids[i]], rows))
  }

  lemma {:induction false} MatchAllGrounded(m: Models, c: Ctx, bar: Row, ids: seq<nat>, rows: seq<Row>)
    requires Grounded(m, c, rows + [bar]) && c.now == Some(bar.ts) && Waiting(c, ids, rows)
    ensures Grounded(m, MatchAll(m, c, bar, ids).0, rows + [bar])
  {
    if ids != [] {
      var init, id := ids[..|ids| - 1], ids[|ids| - 1];
      MatchAllGrounded(m, c, bar, init, rows);
      MatchAllLater(m, c, bar, init);
      MatchAllAppends(m, c, bar, init);
      var d := MatchAll(m, c, bar, init).0;
      assert id !in init && d.orders[id] == c.orders[id];
      if d.orders[id].symbol == bar.symbol && MatchPrice(d.orders[id], bar).Some? {
        TradesGrounded(m, d, bar, id, rows);
      }
    }
  }

  // The orders that stay pending are those that the bar did not match, and they are as before.
  lemma {:induction false} KeptPassed(m: Models, c: Ctx, bar: Row, ids: seq<nat>)
    requires c.now == Some(bar.ts) && Waiting(c, ids, [])
    ensures var (d, kept) := MatchAll(m, c, bar, ids);
            forall id | id in kept ::
              && id in ids && id in c.orders && id in d.orders
              && d.orders[id] == c.orders[id] && PassedBy(c.orders[id], bar)
  {
    if ids != [] {
      var init, id := ids[..|ids| - 1], ids[|ids| - 1];
      var d := MatchAll(m, c, bar, init).0;
      KeptPassed(m, c, bar, init);
      MatchAllLater(m, c, bar, init);
      assert id !in init;
      MatchOneLater(m, c, d, bar, id);
      if MatchOne(m, d, bar, id).1 { StaysIsPassed(m, c, d, bar, id); }
    }
  }

  lemma {:induction false} StaysIsPassed(m: Models, c: Ctx, d: Ctx, bar: Row, id: nat)
    requires id in c.orders && id in d.orders && d.orders[id] == c.orders[id] && c.orders[id].status == Pending
    requires MatchOne(m, d, bar, id).1
    ensures MatchOne(m, d, bar, id).0 == d && PassedBy(c.orders[id], bar)
  {
    MatchesAtDuePrice(c.orders[id], bar);
  }

  lemma {:induction false} PendingWaits(c: Ctx, rows: seq<Row>)
    requires PendingOk(c) && OrdersOk(c) && PendingUnmet(c, rows)
    ensures Waiting(c, c.pending, rows) && Waiting(c, c.pending, [])
  {
  }

  // Matching a bar keeps both: trades have origins, and pending orders have met nothing.
  lemma {:induction false} MatchOrigins(m: Models, capital: real, c: Ctx, bar: Row, rows: seq<Row>)
    requires BookOk(capital, c) && Aged(c) && c.now == Some(bar.ts)
    requires Grounded(m, c, rows) && PendingUnmet(c, rows)
    ensures Grounded(m, Match(m, c, bar), rows + [bar]) && PendingUnmet(Match(m, c, bar), rows + [bar])
  {
    var (d, kept) := MatchAll(m, c, bar, c.pending);
    var e := Match(m, c, bar);
    GroundedMore(m, c, rows, [bar]);
    PendingWaits(c, rows);
    MatchAllGrounded(m, c, bar, c.pending, rows);
    GroundedLater(m, d, e, rows + [bar]);
    KeptPassed(m, c, bar, c.pending);
    MatchKeeps(m, capital, c, bar);
    forall id | id in e.orders && e.orders[id].status == Pending
      ensures Unmet(e.orders[id], rows + [bar])
    {
      assert id in e.pending;
      UnmetSnoc(c.orders[id], rows, bar);
    }
  }

  lemma {:induction false} MatchRowsOrigins(m: Models, capital: real, c: Ctx, bars: seq<Row>, rows: seq<Row>)
    requires BookOk(capital, c) && Aged(c) && Grounded(m, c, rows) && PendingUnmet(c, rows)
    requires forall bar | bar in bars :: c.now == Some(bar.ts)
    ensures Grounded(m, MatchRows(m, c, bars), rows + bars) && PendingUnmet(MatchRows(m, c, bars), rows + bars)
  {
    if bars == [] {
      assert rows + bars == rows;
    } else {
      var init, bar := bars[..|bars| - 1], bars[|bars| - 1];
      assert init + [bar] == bars && rows + init + [bar] == rows + bars;
      MatchRowsOrigins(m, capital, c, init, rows);
      MatchRowsKeeps(m, capital, c, init);
      MatchRowsAppends(m, c, init);
      var d := MatchRows(m, c, init);
      assert d.now == Some(bar.ts) by { assert bar in bars; }
      MatchOrigins(m, capital, d, bar, rows + init);
    }
  }

  // ----- what the strategy does

  predicate NoneLater(rows: seq<Row>, now: int) {
    forall r | r in rows :: r.ts <= now
  }

  // An order that is submitted now has been there before none of the rows seen.
  lemma {:induction false} ExecuteUnmet(c: Ctx, cmd: Command, rows: seq<Row>)
    requires PendingUnmet(c, rows) && c.now.Some? && NoneLater(rows, c.now.value)
    ensures PendingUnmet(Execute(c, cmd), rows) && Execute(c, cmd).now == c.now
  {
  }

  lemma {:induction false} ExecuteAllUnmet(c: Ctx, cmds: seq<Command>, rows: seq<Row>)
    requires PendingUnmet(c, rows) && c.now.Some? && NoneLater(rows, c.now.value)
    ensures PendingUnmet(ExecuteAll(c, cmds), rows) && ExecuteAll(c, cmds).now == c.now
  {
    if cmds != [] {
      ExecuteAllUnmet(c, cmds[..|cmds| - 1], rows);
      ExecuteUnmet(ExecuteAll(c, cmds[..|cmds| - 1]), cmds[|cmds| - 1], rows);
    }
  }

  // ----- whole runs

  lemma {:induction false} GroupOrigins<S>(
      m: Models, strategy: Strategy<S>, capital: real, s: Sim<S>, g: Group, rows: seq<Row>)
    requires BookOk(capital, s.ctx) && (s.ctx.now.Some? ==> s.ctx.now.value < g.ts)
    requires Grounded(m, s.ctx, rows) && PendingUnmet(s.ctx, rows)
    requires NoneLater(rows, g.ts) && forall r | r in g.rows :: r.ts == g.ts
    ensures var d := ProcessGroup(m, strategy, s, g).ctx;
            Grounded(m, d, rows + g.rows) && PendingUnmet(d, rows + g.rows)
  {
    var c := Entered(s.ctx, g);
    EnteredKeeps(capital, s.ctx, g);
    GroundedLater(m, s.ctx, c, rows);
    MatchRowsOrigins(m, capital, c, g.rows, rows);
    MatchRowsKeeps(m, capital, c, g.rows);
    MatchRowsAppends(m, c, g.rows);
    var shown := Shown(m, s.ctx, g);
    var (_, cmds) := strategy(s.state, shown, BarsOf(g.rows));
    ExecuteAllLater(capital, shown, cmds);
    ExecuteAllKeepsHistories(shown, cmds);
    ExecuteAllUnmet(shown, cmds, rows + g.rows);
    GroundedLater(m, shown, RecordNav(ExecuteAll(shown, cmds)), rows + g.rows);
  }

  ghost predicate OfOneTime(gs: seq<Group>) {
    forall i, r | 0 <= i < |gs| && r in gs[i].rows :: r.ts == gs[i].ts
  }

  lemma {:induction false} OfOneTimeInit(gs: seq<Group>)
    requires gs != [] && OfOneTime(gs)
    ensures OfOneTime(gs[..|gs| - 1])
    ensures forall r | r in gs[|gs| - 1].rows :: r.ts == gs[|gs| - 1].ts
  {
    forall i, r | 0 <= i < |gs| - 1 && r in gs[..|gs| - 1][i].rows
      ensures r.ts == gs[i].ts
    {
      assert gs[..|gs| - 1][i] == gs[i];
    }
  }

  lemma {:induction false} FlattenNoneLater(gs: seq<Group>, now: int)
    requires OfOneTime(gs) && forall i | 0 <= i < |gs| :: gs[i].ts <= now
    ensures NoneLater(Flatten(gs), now)
  {
    if gs != [] {
      OfOneTimeInit(gs);
      FlattenNoneLater(gs[..|gs| - 1], now);
    }
  }

  lemma {:induction false} GroupsOrigins<S>(
      m: Models, strategy: Strategy<S>, capital: real, state: S, gs: seq<Group>)
    requires Increasing(gs) && OfOneTime(gs)
    ensures var d := RunGroups(m, strategy, Sim(Start(capital), state), gs).ctx;
            Grounded(m, d, Flatten(gs)) && PendingUnmet(d, Flatten(gs))
  {
    if gs != [] {
      var init, g := gs[..|gs| - 1], gs[|gs| - 1];
      OfOneTimeInit(gs);
      GroupsOrigins(m, strategy, capital, state, init);
      GroupsKeepBook(m, strategy, capital, state, init);
      FlattenNoneLater(init, g.ts);
      GroupOrigins(m, strategy, capital, RunGroups(m, strategy, Sim(Start(capital), state), init), g, Flatten(init));
    }
  }

  // After any run every trade executed fairly at the first row that its order matched since its
  // creation, and no row since its creation matched an order that is still pending.
  lemma {:induction false} TradesAreFair<S>(m: Models, strategy: Strategy<S>, capital: real, state: S, rows: seq<Row>)
    requires Chronological(rows)
    ensures var c := Backtest.Run(m, strategy, Sim(Start(capital), state), rows).ctx;
            Grounded(m, c, rows) && PendingUnmet(c, rows)
  {
    GroupsIncrease(rows);
    GroupsFlatten(rows);
    var gs := Groups(rows);
    forall i, r | 0 <= i < |gs| && r in gs[i].rows
      ensures r.ts == gs[i].ts
    {
      GroupsAreOfOneTime(rows, i, r);
    }
    GroupsOrigins(m, strategy, capital, state, gs);
  }
}
