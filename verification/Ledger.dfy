/** The accounting of whole backtests: the account of a run is that of its price marks and fills, so
    the conservation laws of the portfolio hold of every NAV that is recorded
    (src/alpha_engine/backtest_driver.py, src/alpha_engine/strategies/base.py). */
module Ledger {
  import opened Options
  import opened Portfolio
  import opened Book
  import opened Backtest

  // ----- what happens to the account

  function Marks(rows: seq<Row>): seq<Event> {
    if rows == [] then []
    else Marks(rows[..|rows| - 1]) + [Priced(rows[|rows| - 1].symbol, rows[|rows| - 1].close)]
  }

  // The fill of one order of the pending list, if it trades.
  function FillsOfOne(m: Models, c: Ctx, bar: Row, id: nat): seq<Fill> {
    if id !in c.orders || c.orders[id].symbol != bar.symbol || c.orders[id].status == Cancelled then []
    else match MatchPrice(c.orders[id], bar)
      case None => []
      case Some(base) => [FillOf(m, c.orders[id], bar, base)]
  }

  function FillsOfBar(m: Models, c: Ctx, bar: Row, ids: seq<nat>): seq<Fill> {
    if ids == [] then []
    else
      var init := ids[..|ids| - 1];
      FillsOfBar(m, c, bar, init) + FillsOfOne(m, MatchAll(m, c, bar, init).0, bar, ids[|ids| - 1])
  }

  function FillsOfRows(m: Models, c: Ctx, rows: seq<Row>): seq<Fill> {
    if rows == [] then []
    else
      var d := MatchRows(m, c, rows[..|rows| - 1]);
      FillsOfRows(m, c, rows[..|rows| - 1]) + FillsOfBar(m, d, rows[|rows| - 1], d.pending)
  }

  function AsEvents(fs: seq<Fill>): seq<Event> {
    if fs == [] then [] else AsEvents(fs[..|fs| - 1]) + [Traded(fs[|fs| - 1])]
  }

  ghost function GroupEvents(m: Models, c: Ctx, g: Group): seq<Event> {
    Marks(g.rows) + AsEvents(FillsOfRows(m, Entered(c, g), g.rows))
  }

  // All marks and fills of a run, in the order in which they reach the account.
  ghost function RunEvents<S>(m: Models, strategy: Strategy<S>, s: Sim<S>, gs: seq<Group>): seq<Event> {
    if gs == [] then []
    else
      var init := gs[..|gs| - 1];
      RunEvents(m, strategy, s, init) + GroupEvents(m, RunGroups(m, strategy, s, init).ctx, gs[|gs| - 1])
  }

  // ----- they make up the account, and the fills are those of the trades

  function Fills(es: seq<Event>): seq<Fill> {
    if es == [] then []
    else
      Fills(es[..|es| - 1]) +
      match es[|es| - 1]
      case Traded(f) => [f]
      case Priced(_, _) => []
  }

  function TradeFills(trs: seq<Trade>): seq<Fill> {
    if trs == [] then [] else TradeFills(trs[..|trs| - 1]) + [AsFill(trs[|trs| - 1])]
  }

  // The account is that of these events, and their fills are the trades.
  predicate Accounts(capital: real, c: Ctx, es: seq<Event>) {
    c.account == Portfolio.Run(capital, es) && TradeFills(c.trades) == Fills(es)
  }

  lemma {:induction false} MarksAccount(capital: real, c: Ctx, es: seq<Event>, rows: seq<Row>)
    requires Accounts(capital, c, es)
    ensures Accounts(capital, c.(account := MarkAll(c.account, rows)), es + Marks(rows))
  {
    if rows == [] {
      assert es + Marks(rows) == es;
    } else {
      var init, e := rows[..|rows| - 1], Priced(rows[|rows| - 1].symbol, rows[|rows| - 1].close);
      MarksAccount(capital, c, es, init);
      assert es + Marks(rows) == es + Marks(init) + [e];
      assert (es + Marks(init) + [e])[..|es + Marks(init)|] == es + Marks(init);
    }
  }

  // One more trade.
  lemma {:induction false} TradeAccounts(capital: real, c: Ctx, d: Ctx, es: seq<Event>, tr: Trade)
    requires Accounts(capital, c, es)
    requires d.account == Apply(c.account, AsFill(tr)) && d.trades == c.trades + [tr]
    ensures Accounts(capital, d, es + [Traded(AsFill(tr))])
  {
    assert (es + [Traded(AsFill(tr))])[..|es|] == es;
    assert d.trades[..|c.trades|] == c.trades;
  }

  lemma {:induction false} OneAccounts(m: Models, capital: real, c: Ctx, es: seq<Event>, bar: Row, id: nat)
    requires Accounts(capital, c, es)
    ensures Accounts(capital, MatchOne(m, c, bar, id).0, es + AsEvents(FillsOfOne(m, c, bar, id)))
  {
    var d, fs := MatchOne(m, c, bar, id).0, FillsOfOne(m, c, bar, id);
    if d.trades == c.trades {
      assert es + AsEvents(fs) == es;
    } else {
      var tr := d.trades[|c.trades|];
      assert fs == [AsFill(tr)] && fs[..0] == [];
      assert AsEvents(fs) == [Traded(AsFill(tr))];
      TradeAccounts(capital, c, d, es, tr);
    }
  }

  lemma {:induction false} AsEventsConcat(fs: seq<Fill>, gs: seq<Fill>)
    ensures AsEvents(fs + gs) == AsEvents(fs) + AsEvents(gs)
  {
    if gs == [] {
      assert fs + gs == fs;
    } else {
      var init := gs[..|gs| - 1];
      AsEventsConcat(fs, init);
      assert (fs + gs)[..|fs + gs| - 1] == fs + init;
    }
  }

  lemma {:induction false} EventsConcat(es: seq<Event>, fs: seq<Fill>, gs: seq<Fill>)
    ensures es + AsEvents(fs + gs) == es + AsEvents(fs) + AsEvents(gs)
  {
    AsEventsConcat(fs, gs);
    assert es + (AsEvents(fs) + AsEvents(gs)) == es + AsEvents(fs) + AsEvents(gs);
  }

  lemma {:induction false} BarAccounts(m: Models, capital: real, c: Ctx, es: seq<Event>, bar: Row, ids: seq<nat>)
    requires Accounts(capital, c, es)
    ensures Accounts(capital, MatchAll(m, c, bar, ids).0, es + AsEvents(FillsOfBar(m, c, bar, ids)))
  {
    if ids == [] {
      assert es + AsEvents(FillsOfBar(m, c, bar, ids)) == es;
    } else {
      var init, id := ids[..|ids| - 1], ids[|ids| - 1];
      var d, done := MatchAll(m, c, bar, init).0, FillsOfBar(m, c, bar, init);
      BarAccounts(m, capital, c, es, bar, init);
      OneAccounts(m, capital, d, es + AsEvents(done), bar, id);
      EventsConcat(es, done, FillsOfOne(m, d, bar, id));
    }
  }

  lemma {:induction false} MatchAccounts(m: Models, capital: real, c: Ctx, es: seq<Event>, bar: Row)
    requires Accounts(capital, c, es)
    ensures Accounts(capital, Match(m, c, bar), es + AsEvents(FillsOfBar(m, c, bar, c.pending)))
  {
    BarAccounts(m, capital, c, es, bar, c.pending);
  }

  lemma {:induction false} RowsAccount(m: Models, capital: real, c: Ctx, es: seq<Event>, rows: seq<Row>)
    requires Accounts(capital, c, es)
    ensures Accounts(capital, MatchRows(m, c, rows), es + AsEvents(FillsOfRows(m, c, rows)))
  {
    if rows == [] {
      assert es + AsEvents(FillsOfRows(m, c, rows)) == es;
    } else {
      var init, row := rows[..|rows| - 1], rows[|rows| - 1];
      var d, done := MatchRows(m, c, init), FillsOfRows(m, c, init);
      RowsAccount(m, capital, c, es, init);
      MatchAccounts(m, capital, d, es + AsEvents(done), row);
      EventsConcat(es, done, FillsOfBar(m, d, row, d.pending));
    }
  }

  lemma {:induction false} ShownAccounts(m: Models, capital: real, c: Ctx, g: Group, es: seq<Event>)
    requires Accounts(capital, c, es)
    ensures Accounts(capital, Shown(m, c, g), es + GroupEvents(m, c, g))
  {
    var d, marked := Entered(c, g), es + Marks(g.rows);
    MarksAccount(capital, c, es, g.rows);
    AccountsStand(capital, c.(account := MarkAll(c.account, g.rows)), d, marked);
    RowsAccount(m, capital, d, marked, g.rows);
    var fills := AsEvents(FillsOfRows(m, d, g.rows));
    assert marked + fills == es + (Marks(g.rows) + fills);
  }

  lemma {:induction false} AccountsStand(capital: real, c: Ctx, d: Ctx, es: seq<Event>)
    requires Accounts(capital, c, es) && d.account == c.account && d.trades == c.trades
    ensures Accounts(capital, d, es)
  {
  }

  lemma {:induction false} GroupAccounts<S>(
      m: Models, strategy: Strategy<S>, capital: real, s: Sim<S>, g: Group, es: seq<Event>)
    requires Accounts(capital, s.ctx, es)
    ensures Accounts(capital, ProcessGroup(m, strategy, s, g).ctx, es + GroupEvents(m, s.ctx, g))
  {
    var shown := Shown(m, s.ctx, g);
    var (_, cmds) := strategy(s.state, shown, BarsOf(g.rows));
    ShownAccounts(m, capital, s.ctx, g, es);
    ExecuteAllKeepsHistories(shown, cmds);
    AccountsStand(capital, shown, ProcessGroup(m, strategy, s, g).ctx, es + GroupEvents(m, s.ctx, g));
  }

  lemma {:induction false} RunAccounts<S>(m: Models, strategy: Strategy<S>, capital: real, state: S, gs: seq<Group>)
    ensures var s := Sim(Start(capital), state);
            Accounts(capital, RunGroups(m, strategy, s, gs).ctx, RunEvents(m, strategy, s, gs))
  {
    if gs != [] {
      var s, init := Sim(Start(capital), state), gs[..|gs| - 1];
      RunAccounts(m, strategy, capital, state, init);
      GroupAccounts(
        m, strategy, capital, RunGroups(m, strategy, s, init), gs[|gs| - 1], RunEvents(m, strategy, s, init));
    }
  }

  // ----- the recorded values

  lemma {:induction false} GroupRecords<S>(m: Models, strategy: Strategy<S>, s: Sim<S>, g: Group)
    ensures var d := ProcessGroup(m, strategy, s, g).ctx; d.navs == s.ctx.navs + [Nav(d.account)]
  {
    var shown := Shown(m, s.ctx, g);
    MatchRowsAppends(m, Entered(s.ctx, g), g.rows);
    var (_, cmds) := strategy(s.state, shown, BarsOf(g.rows));
    ExecuteAllKeepsHistories(shown, cmds);
  }

  // NAV number k is that of the account after k groups.
  lemma {:induction false} RecordedNav<S>(
      m: Models, strategy: Strategy<S>, capital: real, state: S, gs: seq<Group>, k: nat)
    requires k <= |gs|
    ensures var s := Sim(Start(capital), state); var navs := RunGroups(m, strategy, s, gs).ctx.navs;
            |navs| == |gs| + 1 && navs[k] == Nav(RunGroups(m, strategy, s, gs[..k]).ctx.account)
  {
    var s := Sim(Start(capital), state);
    if gs == [] {
      assert Marked(s.ctx.account) == map[];
    } else {
      var init := gs[..|gs| - 1];
      GroupRecords(m, strategy, RunGroups(m, strategy, s, init), gs[|gs| - 1]);
      if k < |gs| {
        RecordedNav(m, strategy, capital, state, init, k);
        assert init[..k] == gs[..k];
      } else {
        RecordedNav(m, strategy, capital, state, init, k - 1);
        assert gs[..k] == gs;
      }
    }
  }

  // Every recorded NAV is the capital plus the profit realized and the profit open in the positions,
  // less the commissions of the fills that opened them; the fills are those of the trade records.
  lemma {:induction false} RecordedNavDecomposes<S>(
      m: Models, strategy: Strategy<S>, capital: real, state: S, gs: seq<Group>, k: nat)
    requires k <= |gs|
    ensures var s := Sim(Start(capital), state);
            var c, es := RunGroups(m, strategy, s, gs[..k]).ctx, RunEvents(m, strategy, s, gs[..k]);
            var navs := RunGroups(m, strategy, s, gs).ctx.navs;
            && Accounts(capital, c, es) && |navs| == |gs| + 1
            && navs[k] == capital + c.account.realizedPnl + Unrealized(c.account) - OpeningCommissions(capital, es)
  {
    RunAccounts(m, strategy, capital, state, gs[..k]);
    RecordedNav(m, strategy, capital, state, gs, k);
    NavDecomposition(capital, RunEvents(m, strategy, Sim(Start(capital), state), gs[..k]));
  }
}
