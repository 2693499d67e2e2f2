/** What a strategy's commands and the bars do to the orders of a backtest: every order is the one that
    was asked for, a bar settles orders by trading only, and the strategy sees the last row of each
    symbol (src/alpha_engine/backtest_driver.py). */
module BookLaws {
  import opened Options
  import opened Portfolio
  import opened Book
  import opened Backtest

  // ----- one bar

  // d differs from c in orders that have traded only.
  predicate OnlyFills(c: Ctx, d: Ctx) {
    && d.orders.Keys == c.orders.Keys
    && forall id | id in c.orders :: d.orders[id] == c.orders[id] || d.orders[id].status.Filled?
  }

  lemma {:induction false} MatchAllOnlyFills(m: Models, c: Ctx, bar: Row, ids: seq<nat>)
    ensures OnlyFills(c, MatchAll(m, c, bar, ids).0)
  {
    if ids != [] {
      MatchAllOnlyFills(m, c, bar, ids[..|ids| - 1]);
    }
  }

  lemma {:induction false} MatchOneTradesIff(m: Models, c: Ctx, bar: Row, id: nat)
    requires id in c.orders && c.orders[id].status == Pending
    ensures var d := MatchOne(m, c, bar, id).0; var t := c.orders[id];
            && id in d.orders
            && (d.orders[id].status.Filled? <==> t.symbol == bar.symbol && Reaches(bar, t))
  {
    MatchesAtDuePrice(c.orders[id], bar);
  }

  // Of the orders to match, exactly those of the bar's symbol trade whose limit, if any, is reached.
  lemma {:induction false} MatchAllTradesIff(m: Models, c: Ctx, bar: Row, ids: seq<nat>, i: nat)
    requires forall i, j | 0 <= i < j < |ids| :: ids[i] < ids[j]
    requires forall i | 0 <= i < |ids| :: ids[i] in c.orders && c.orders[ids[i]].status == Pending
    requires i < |ids|
    ensures var d := MatchAll(m, c, bar, ids).0; var t := c.orders[ids[i]];
            ids[i] in d.orders && (d.orders[ids[i]].status.Filled? <==> t.symbol == bar.symbol && Reaches(bar, t))
  {
    var init, id := ids[..|ids| - 1], ids[|ids| - 1];
    var d := MatchAll(m, c, bar, init).0;
    MatchAllLater(m, c, bar, init);
    assert id !in init;
    if i < |ids| - 1 {
      MatchAllTradesIff(m, c, bar, init, i);
      MatchOneLater(m, c, d, bar, id);
    } else {
      MatchOneTradesIff(m, d, bar, id);
    }
  }

  // A bar trades exactly the pending orders of its symbol that it reaches, and changes no other.
  lemma {:induction false} BarTradesIff(m: Models, capital: real, c: Ctx, bar: Row, id: nat)
    requires BookOk(capital, c) && id in c.orders
    ensures var d := Match(m, c, bar); var t := c.orders[id];
            && id in d.orders
            && (t.status == Pending && t.symbol == bar.symbol && Reaches(bar, t) ==> d.orders[id].status.Filled?)
            && (!(t.status == Pending && t.symbol == bar.symbol && Reaches(bar, t)) ==> d.orders[id] == t)
  {
    MatchAllLater(m, c, bar, c.pending);
    MatchAllOnlyFills(m, c, bar, c.pending);
    if c.orders[id].status == Pending {
      var i :| 0 <= i < |c.pending| && c.pending[i] == id;
      MatchAllTradesIff(m, c, bar, c.pending, i);
    }
  }

  // ----- commands

  // A cancel closes its order if it is pending, and touches no other.
  lemma {:induction false} CancelCloses(c: Ctx, id: nat, k: nat)
    requires k in c.orders
    ensures var d := Execute(c, Cancel(id));
            && d.orders.Keys == c.orders.Keys && d.counter == c.counter
            && d.orders[k] == if k == id && c.orders[k].status == Pending
                              then c.orders[k].(status := Cancelled) else c.orders[k]
  {
  }

  // A submit that was issued at a time.
  datatype Request = Request(cmd: Command, time: Option<int>)

  // The submits of a list of commands.
  function Submits(cmds: seq<Command>, time: Option<int>): seq<Request> {
    if cmds == [] then []
    else
      Submits(cmds[..|cmds| - 1], time) +
      if cmds[|cmds| - 1].Submit? then [Request(cmds[|cmds| - 1], time)] else []
  }

  ghost function Commands<S>(m: Models, strategy: Strategy<S>, s: Sim<S>, g: Group): seq<Command> {
    strategy(s.state, Shown(m, s.ctx, g), BarsOf(g.rows)).1
  }

  // All submits of a run, in their order.
  ghost function Requests<S>(m: Models, strategy: Strategy<S>, s: Sim<S>, gs: seq<Group>): seq<Request> {
    if gs == [] then []
    else
      var init, g := gs[..|gs| - 1], gs[|gs| - 1];
      var cmds := Commands(m, strategy, RunGroups(m, strategy, s, init), g);
      Requests(m, strategy, s, init) + Submits(cmds, Some(g.ts))
  }

  // The order is the one that was asked for, whatever has become of it.
  predicate Answers(t: Ticket, r: Request) {
    && r.cmd.Submit?
    && t.symbol == r.cmd.symbol && t.qty == r.cmd.qty && t.side == r.cmd.side
    && t.price == r.cmd.price && t.kind == r.cmd.kind && t.created == r.time
  }

  // Order number k is the answer to submit number k.
  ghost predicate AllAnswered(c: Ctx, rs: seq<Request>) {
    && c.counter == |rs|
    && forall k | 1 <= k <= |rs| :: k in c.orders && Answers(c.orders[k], rs[k - 1])
  }

  lemma {:induction false} AnsweredLater(c: Ctx, d: Ctx, rs: seq<Request>)
    requires AllAnswered(c, rs) && Later(c, d) && d.counter == c.counter
    ensures AllAnswered(d, rs)
  {
    forall k | 1 <= k <= |rs|
      ensures k in d.orders && Answers(d.orders[k], rs[k - 1])
    {
      assert d.orders[k].(status := c.orders[k].status) == c.orders[k];
    }
  }

  lemma {:induction false} SubmitAnswers(c: Ctx, cmd: Command, rs: seq<Request>)
    requires AllAnswered(c, rs) && cmd.Submit?
    ensures AllAnswered(Execute(c, cmd), rs + [Request(cmd, c.now)])
  {
    var d, more := Execute(c, cmd), rs + [Request(cmd, c.now)];
    forall k | 1 <= k <= |more|
      ensures k in d.orders && Answers(d.orders[k], more[k - 1])
    {
      if k <= |rs| {
        assert more[k - 1] == rs[k - 1] && d.orders[k] == c.orders[k];
      } else {
        assert more[k - 1] == Request(cmd, c.now);
      }
    }
  }

  lemma {:induction false} ExecuteAnswers(c: Ctx, cmd: Command, rs: seq<Request>)
    requires AllAnswered(c, rs)
    ensures AllAnswered(Execute(c, cmd), rs + if cmd.Submit? then [Request(cmd, c.now)] else [])
  {
    match cmd
    case Submit(_, _, _, _, _) => SubmitAnswers(c, cmd, rs);
    case Cancel(id) =>
      assert rs + [] == rs;
      AnsweredLater(c, Execute(c, cmd), rs);
  }

  lemma {:induction false} ExecuteAllAnswers(c: Ctx, cmds: seq<Command>, rs: seq<Request>)
    requires AllAnswered(c, rs)
    ensures AllAnswered(ExecuteAll(c, cmds), rs + Submits(cmds, c.now)) && ExecuteAll(c, cmds).now == c.now
  {
    if cmds == [] {
      assert rs + Submits(cmds, c.now) == rs;
    } else {
      var init, cmd := cmds[..|cmds| - 1], cmds[|cmds| - 1];
      ExecuteAllAnswers(c, init, rs);
      ExecuteAnswers(ExecuteAll(c, init), cmd, rs + Submits(init, c.now));
      var last := if cmd.Submit? then [Request(cmd, c.now)] else [];
      assert rs + (Submits(init, c.now) + last) == rs + Submits(init, c.now) + last;
    }
  }

  lemma {:induction false} MatchAllCounts(m: Models, c: Ctx, bar: Row, ids: seq<nat>)
    ensures MatchAll(m, c, bar, ids).0.counter == c.counter
  {
    if ids != [] {
      MatchAllCounts(m, c, bar, ids[..|ids| - 1]);
    }
  }

  lemma {:induction false} MatchRowsCounts(m: Models, c: Ctx, rows: seq<Row>)
    ensures MatchRows(m, c, rows).counter == c.counter
  {
    if rows != [] {
      var d := MatchRows(m, c, rows[..|rows| - 1]);
      MatchRowsCounts(m, c, rows[..|rows| - 1]);
      MatchAllCounts(m, d, rows[|rows| - 1], d.pending);
    }
  }

  lemma {:induction false} ShownAnswers(m: Models, capital: real, c: Ctx, g: Group, rs: seq<Request>)
    requires BookOk(capital, c) && (c.now.Some? ==> c.now.value < g.ts) && AllAnswered(c, rs)
    ensures AllAnswered(Shown(m, c, g), rs) && Shown(m, c, g).now == Some(g.ts)
  {
    var d := Entered(c, g);
    EnteredKeeps(capital, c, g);
    AnsweredLater(c, d, rs);
    MatchRowsLater(m, capital, d, g.rows);
    MatchRowsCounts(m, d, g.rows);
    MatchRowsAppends(m, d, g.rows);
    AnsweredLater(d, Shown(m, c, g), rs);
  }

  // In every run order number k has the symbol, quantity, side, price and kind of the k-th submit of
  // the strategy, and the time of the group in which it was issued; there are no other orders.
  lemma {:induction false} OrdersAreRequests<S>(
      m: Models, strategy: Strategy<S>, capital: real, state: S, gs: seq<Group>)
    requires Increasing(gs)
    ensures var s := Sim(Start(capital), state); var c := RunGroups(m, strategy, s, gs).ctx;
            AllAnswered(c, Requests(m, strategy, s, gs)) && forall id | id in c.orders :: 1 <= id <= c.counter
  {
    GroupsKeepBook(m, strategy, capital, state, gs);
    if gs != [] {
      var s0, init, g := Sim(Start(capital), state), gs[..|gs| - 1], gs[|gs| - 1];
      OrdersAreRequests(m, strategy, capital, state, init);
      GroupsKeepBook(m, strategy, capital, state, init);
      var s, rs := RunGroups(m, strategy, s0, init), Requests(m, strategy, s0, init);
      ShownAnswers(m, capital, s.ctx, g, rs);
      ExecuteAllAnswers(Shown(m, s.ctx, g), Commands(m, strategy, s, g), rs);
    }
  }

  // ----- what the strategy is shown

  // Row k is the last one of its symbol.
  ghost predicate IsLastOf(rows: seq<Row>, s: string, k: int) {
    && 0 <= k < |rows| && rows[k].symbol == s
    && forall j | k < j < |rows| :: rows[j].symbol != s
  }

  lemma {:induction false} LastOfStands(rows: seq<Row>, row: Row, s: string, k: int)
    requires IsLastOf(rows, s, k) && row.symbol != s
    ensures IsLastOf(rows + [row], s, k)
  {
  }

  // The bars of a group are the last rows of its symbols, and each of them is marked at their close.
  lemma {:induction false} BarsAreLastRows(rows: seq<Row>, a: Account, s: string)
    ensures s in BarsOf(rows) <==> exists k :: 0 <= k < |rows| && rows[k].symbol == s
    ensures s in BarsOf(rows) ==>
              && (exists k :: IsLastOf(rows, s, k) && BarsOf(rows)[s] == rows[k])
              && s in MarkAll(a, rows).lastPrices && MarkAll(a, rows).lastPrices[s] == BarsOf(rows)[s].close
  {
    if rows != [] {
      var init, row := rows[..|rows| - 1], rows[|rows| - 1];
      assert init + [row] == rows;
      BarsAreLastRows(init, a, s);
      if row.symbol == s {
        assert IsLastOf(rows, s, |rows| - 1);
      } else if s in BarsOf(init) {
        var k :| IsLastOf(init, s, k) && BarsOf(init)[s] == init[k];
        LastOfStands(init, row, s, k);
        assert rows[k] == init[k];
      }
      assert forall k | 0 <= k < |init| :: init[k] == rows[k];
    }
  }

  // The strategy is called once for every group, and its time is recorded with the NAV.
  lemma {:induction false} TimesAreGroups<S>(
      m: Models, strategy: Strategy<S>, capital: real, state: S, gs: seq<Group>, k: nat)
    requires k < |gs|
    ensures var times := RunGroups(m, strategy, Sim(Start(capital), state), gs).ctx.times;
            |times| == |gs| && times[k] == gs[k].ts
  {
    var s0, init, g := Sim(Start(capital), state), gs[..|gs| - 1], gs[|gs| - 1];
    var s := RunGroups(m, strategy, s0, init);
    var shown := Shown(m, s.ctx, g);
    MatchRowsAppends(m, Entered(s.ctx, g), g.rows);
    ExecuteAllKeepsHistories(shown, Commands(m, strategy, s, g));
    if init != [] {
      TimesAreGroups(m, strategy, capital, state, init, if k < |init| then k else 0);
    }
  }
}
