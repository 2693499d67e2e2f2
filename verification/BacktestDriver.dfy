/** The simulated execution context and the driver loop, as the program runs them
    (src/alpha_engine/backtest_driver.py). An order lives in the orders map; the pending list holds
    its id where the program holds a second reference to it. */
module BacktestDriver {
  import opened Options
  import opened Portfolio
  import opened Book
  import opened Backtest

  class BacktestContext {
    const m: Models
    const portfolio: SubPortfolio
    var now: Option<int>
    var orders: map<nat, Ticket>
    var pending: seq<nat>
    var trades: seq<Trade>
    var navs: seq<real>
    var times: seq<int>
    var counter: nat

    function Value(): Ctx
      reads this, portfolio
    {
      Ctx(portfolio.Value(), now, orders, pending, trades, navs, times, counter)
    }

    predicate Valid()
      reads this, portfolio
    {
      portfolio.Valid()
    }

    constructor (capital: real, m: Models)
      ensures Valid() && fresh(portfolio) && Value() == Start(capital) && this.m == m
    {
      this.m := m;
      portfolio := new SubPortfolio(capital);
      now, orders, pending, trades, navs, times, counter := None, map[], [], [], [capital], [], 0;
    }

    method SubmitOrder(symbol: string, qty: int, side: Side, price: real, kind: Kind) returns (id: nat)
      requires Valid()
      modifies this`counter, this`orders, this`pending
      ensures Valid() && Value() == Execute(old(Value()), Submit(symbol, qty, side, price, kind))
      ensures id == counter && id == old(counter) + 1
    {
      counter := counter + 1;
      id := counter;
      orders := orders[id := Ticket(id, symbol, qty, side, price, kind, Pending, now)];
      pending := pending + [id];
    }

    method CancelOrder(id: nat) returns (ok: bool)
      requires Valid()
      modifies this`orders, this`pending
      ensures Valid() && Value() == Execute(old(Value()), Cancel(id))
      ensures ok <==> id in old(orders) && old(orders)[id].status == Pending
    {
      if id !in orders || orders[id].status != Pending {
        return false;
      }
      orders := orders[id := orders[id].(status := Cancelled)];
      var kept := [];
      for i := 0 to |pending|
        invariant kept == Without(pending[..i], id)
      {
        assert pending[..i + 1][..i] == pending[..i];
        if pending[i] != id {
          kept := kept + [pending[i]];
        }
      }
      assert pending[..|pending|] == pending;
      pending := kept;
      return true;
    }

    method ProcessFillsForBar(bar: Row)
      requires Valid()
      modifies this`orders, this`pending, this`trades, portfolio
      ensures Valid() && Value() == Match(m, old(Value()), bar)
    {
      ghost var before := Value();
      var stillPending: seq<nat> := [];
      for i := 0 to |pending|
        invariant Valid() && pending == before.pending
        invariant (Value(), stillPending) == MatchAll(m, before, bar, pending[..i])
      {
        assert pending[..i + 1][..i] == pending[..i];
        var id := pending[i];
        var stays := ProcessOrder(bar, id);
        if stays {
          stillPending := stillPending + [id];
        }
      }
      assert pending[..|pending|] == pending;
      pending := stillPending;
    }

    // The body of the matching loop for one pending order.
    method ProcessOrder(bar: Row, id: nat) returns (stays: bool)
      requires Valid()
      modifies this`orders, this`trades, portfolio
      ensures Valid() && (Value(), stays) == MatchOne(m, old(Value()), bar, id)
    {
      if id !in orders || orders[id].symbol != bar.symbol {
        return true;
      }
      var t := orders[id];
      if t.status == Cancelled {
        return false;
      }
      var fillable, base := BasePrice(t, bar);
      if !fillable {
        return true;
      }
      FillOrder(bar, id, base);
      return false;
    }

    static method BasePrice(t: Ticket, bar: Row) returns (fillable: bool, base: real)
      ensures MatchPrice(t, bar) == if fillable then Some(base) else None
    {
      fillable, base := true, bar.close;
      if t.kind == Limit && t.price > 0.0 {
        if t.side == Buy {
          if bar.low <= t.price {
            base := Min(bar.open, t.price);
          } else {
            fillable := false;
          }
        } else if t.side == Sell {
          if bar.high >= t.price {
            base := Max(bar.open, t.price);
          } else {
            fillable := false;
          }
        }
      }
    }

    method FillOrder(bar: Row, id: nat, base: real)
      requires Valid() && id in orders
      modifies this`orders, this`trades, portfolio
      ensures Valid() && Value() == Trades(m, old(Value()), bar, id, base)
    {
      var t := orders[id];
      var execPrice := ExecPrice(m, t, bar, base);
      var commission := Commission(m, t.qty, execPrice);
      ghost var before, f := Value(), FillOf(m, t, bar, base);
      var pnl := portfolio.ProcessFill(t.symbol, t.qty, t.side, execPrice, commission);
      orders := orders[id := t.(status := Filled(execPrice, commission))];
      var trade := Trade(
        match now { case Some(ts) => ts case None => 0 },
        t.id, t.symbol, t.side, t.qty, if t.kind == Limit then t.price else base, execPrice,
        if t.side == Buy then (execPrice - base) * t.qty as real else (base - execPrice) * t.qty as real,
        commission, pnl, portfolio.cash, Position(portfolio.Value(), t.symbol));
      assert trade == Record(now, before.account, portfolio.Value(), t, f, base);
      trades := trades + [trade];
      assert Value() == Trades(m, before, bar, id, base);
    }

    method RecordNav()
      requires Valid()
      modifies this`navs, this`times
      ensures Valid() && Value() == Book.RecordNav(old(Value()))
    {
      var nav := portfolio.GetNav();
      navs := navs + [nav];
      if now.Some? {
        times := times + [now.value];
      }
    }

    method Perform(cmds: seq<Command>)
      requires Valid()
      modifies this`counter, this`orders, this`pending
      ensures Valid() && Value() == ExecuteAll(old(Value()), cmds)
    {
      ghost var before := Value();
      for i := 0 to |cmds|
        invariant Valid() && Value() == ExecuteAll(before, cmds[..i])
      {
        assert cmds[..i + 1][..i] == cmds[..i];
        match cmds[i] {
          case Submit(symbol, qty, side, price, kind) =>
            var _ := SubmitOrder(symbol, qty, side, price, kind);
          case Cancel(id) =>
            var _ := CancelOrder(id);
        }
      }
      assert cmds[..|cmds|] == cmds;
    }

    // The first loop of process_group: marks.
    method MarkRows(rows: seq<Row>)
      requires Valid()
      modifies portfolio
      ensures Valid() && portfolio.Value() == MarkAll(old(portfolio.Value()), rows)
    {
      for i := 0 to |rows|
        invariant Valid() && portfolio.Value() == MarkAll(old(portfolio.Value()), rows[..i])
      {
        assert rows[..i + 1][..i] == rows[..i];
        portfolio.UpdatePrice(rows[i].symbol, rows[i].close);
      }
      assert rows[..|rows|] == rows;
    }

    // The second loop: fills.
    method FillRows(rows: seq<Row>)
      requires Valid()
      modifies this`orders, this`pending, this`trades, portfolio
      ensures Valid() && Value() == MatchRows(m, old(Value()), rows)
    {
      for i := 0 to |rows|
        invariant Valid() && Value() == MatchRows(m, old(Value()), rows[..i])
      {
        assert rows[..i + 1][..i] == rows[..i];
        ProcessFillsForBar(rows[i]);
      }
      assert rows[..|rows|] == rows;
    }

    // The third loop: the bars of the group by symbol.
    static method CollectBars(rows: seq<Row>) returns (bars: Bars)
      ensures bars == BarsOf(rows)
    {
      bars := map[];
      for i := 0 to |rows|
        invariant bars == BarsOf(rows[..i])
      {
        assert rows[..i + 1][..i] == rows[..i];
        bars := bars[rows[i].symbol := rows[i]];
      }
      assert rows[..|rows|] == rows;
    }

    // process_group: mark, match, show to the strategy, value.
    method ProcessGroup<S>(strategy: Strategy<S>, state: S, ts: int, rows: seq<Row>) returns (next: S)
      requires Valid()
      modifies this, portfolio
      ensures Valid()
      ensures Sim(Value(), next) == Backtest.ProcessGroup(m, strategy, Sim(old(Value()), state), Group(ts, rows))
    {
      ghost var before := Value();
      now := Some(ts);
      MarkRows(rows);
      assert Value() == Entered(before, Group(ts, rows));
      FillRows(rows);
      var bars := CollectBars(rows);
      var reaction := strategy(state, Value(), bars);
      next := reaction.0;
      Perform(reaction.1);
      RecordNav();
    }
  }

  // The streaming loop: a group is processed when the next timestamp appears, the last at the end.
  method RunBacktest<S>(m: Models, strategy: Strategy<S>, capital: real, state: S, rows: seq<Row>)
    returns (ctx: BacktestContext, final: S)
    ensures fresh(ctx) && ctx.Valid()
    ensures Sim(ctx.Value(), final) == Backtest.Run(m, strategy, Sim(Start(capital), state), rows)
  {
    ctx := new BacktestContext(capital, m);
    final := state;
    ghost var s0 := Sim(Start(capital), state);
    var currentTs: Option<int> := None;
    var currentGroup: seq<Row> := [];
    for i := 0 to |rows|
      invariant ctx.Valid() && fresh(ctx) && fresh(ctx.portfolio) && ctx.m == m
      invariant i == 0 <==> currentTs.None?
      invariant i == 0 <==> currentGroup == []
      invariant i == 0 ==> Sim(ctx.Value(), final) == s0
      invariant i > 0 ==>
        var gs := Groups(rows[..i]);
        && gs != [] && gs[|gs| - 1] == Group(currentTs.value, currentGroup)
        && Sim(ctx.Value(), final) == RunGroups(m, strategy, s0, gs[..|gs| - 1])
    {
      assert rows[..i + 1][..i] == rows[..i];
      var row := rows[i];
      if currentTs.None? {
        currentTs := Some(row.ts);
      }
      if row.ts != currentTs.value {
        final := ctx.ProcessGroup(strategy, final, currentTs.value, currentGroup);
        ghost var gs := Groups(rows[..i]);
        assert (gs + [Group(row.ts, [row])])[..|gs|] == gs;
        currentTs := Some(row.ts);
        currentGroup := [row];
      } else {
        currentGroup := currentGroup + [row];
      }
    }
    assert rows[..|rows|] == rows;
    if currentGroup != [] && currentTs.Some? {
      final := ctx.ProcessGroup(strategy, final, currentTs.value, currentGroup);
    }
  }
}
