/** The chronological event loop of a backtest: rows grouped by timestamp, each group matched
    against the book, shown to the strategy and valued (src/alpha_engine/backtest_driver.py).

    The strategy is any function from its own state, the context and the bars of the group to a
    new state and a list of orders to submit or cancel. */
module Backtest {
  import opened Options
  import opened Portfolio
  import opened Book

  type Bars = map<string, Row>
  type Strategy<!S> = (S, Ctx, Bars) -> (S, seq<Command>)

  datatype Group = Group(ts: int, rows: seq<Row>)
  datatype Sim<S> = Sim(ctx: Ctx, state: S)

  function Extended(done: seq<Group>, row: Row): seq<Group> {
    if done != [] && done[|done| - 1].ts == row.ts
    then done[..|done| - 1] + [Group(row.ts, done[|done| - 1].rows + [row])]
    else done + [Group(row.ts, [row])]
  }

  // Consecutive rows with equal timestamps form a group.
  function Groups(rows: seq<Row>): seq<Group> {
    if rows == [] then [] else Extended(Groups(rows[..|rows| - 1]), rows[|rows| - 1])
  }

  function MarkAll(a: Account, rows: seq<Row>): Account {
    if rows == [] then a
    else Mark(MarkAll(a, rows[..|rows| - 1]), rows[|rows| - 1].symbol, rows[|rows| - 1].close)
  }

  function MatchRows(m: Models, c: Ctx, rows: seq<Row>): Ctx {
    if rows == [] then c else Match(m, MatchRows(m, c, rows[..|rows| - 1]), rows[|rows| - 1])
  }

  function BarsOf(rows: seq<Row>): Bars {
    if rows == [] then map[] else BarsOf(rows[..|rows| - 1])[rows[|rows| - 1].symbol := rows[|rows| - 1]]
  }

  function Entered(c: Ctx, g: Group): Ctx {
    c.(now := Some(g.ts), account := MarkAll(c.account, g.rows))
  }

  // The context as the strategy sees it in a group.
  function Shown(m: Models, c: Ctx, g: Group): Ctx {
    MatchRows(m, Entered(c, g), g.rows)
  }

  ghost function ProcessGroup<S>(m: Models, strategy: Strategy<S>, s: Sim<S>, g: Group): Sim<S> {
    var shown := Shown(m, s.ctx, g);
    var (state, cmds) := strategy(s.state, shown, BarsOf(g.rows));
    Sim(RecordNav(ExecuteAll(shown, cmds)), state)
  }

  ghost function RunGroups<S>(m: Models, strategy: Strategy<S>, s: Sim<S>, gs: seq<Group>): Sim<S> {
    if gs == [] then s
    else ProcessGroup(m, strategy, RunGroups(m, strategy, s, gs[..|gs| - 1]), gs[|gs| - 1])
  }

  ghost function Run<S>(m: Models, strategy: Strategy<S>, s: Sim<S>, rows: seq<Row>): Sim<S> {
    RunGroups(m, strategy, s, Groups(rows))
  }

  // ----- grouping

  predicate Chronological(rows: seq<Row>) {
    forall i, j | 0 <= i < j < |rows| :: rows[i].ts <= rows[j].ts
  }

  predicate Increasing(gs: seq<Group>) {
    forall i, j | 0 <= i < j < |gs| :: gs[i].ts < gs[j].ts
  }

  function Flatten(gs: seq<Group>): seq<Row> {
    if gs == [] then [] else Flatten(gs[..|gs| - 1]) + gs[|gs| - 1].rows
  }

  lemma {:induction false} FlattenExtended(done: seq<Group>, row: Row)
    ensures Flatten(Extended(done, row)) == Flatten(done) + [row]
  {
    var gs := Extended(done, row);
    if done != [] && done[|done| - 1].ts == row.ts {
      assert gs[..|gs| - 1] == done[..|done| - 1];
    } else {
      assert gs[..|gs| - 1] == done;
    }
  }

  // Grouping loses and reorders nothing.
  lemma {:induction false} GroupsFlatten(rows: seq<Row>)
    ensures Flatten(Groups(rows)) == rows
  {
    if rows != [] {
      var init, row := rows[..|rows| - 1], rows[|rows| - 1];
      assert init + [row] == rows;
      GroupsFlatten(init);
      FlattenExtended(Groups(init), row);
      assert Groups(rows) == Extended(Groups(init), row);
    }
  }

  // Every group holds rows of its own time only.
  lemma {:induction false} GroupsAreOfOneTime(rows: seq<Row>, i: nat, r: Row)
    requires i < |Groups(rows)| && r in Groups(rows)[i].rows
    ensures r.ts == Groups(rows)[i].ts && r in rows
  {
    var init, row := rows[..|rows| - 1], rows[|rows| - 1];
    if r == row && i == |Groups(rows)| - 1 {
    } else {
      GroupsAreOfOneTime(init, i, r);
    }
  }

  // On chronological rows no two groups share a time.
  lemma {:induction false} GroupsIncrease(rows: seq<Row>)
    requires Chronological(rows)
    ensures Increasing(Groups(rows))
    ensures rows == [] <==> Groups(rows) == []
    ensures rows != [] ==> Groups(rows)[|Groups(rows)| - 1].ts == rows[|rows| - 1].ts
    ensures forall i | 0 <= i < |Groups(rows)| :: Groups(rows)[i].ts <= rows[|rows| - 1].ts
  {
    if rows != [] {
      GroupsIncrease(rows[..|rows| - 1]);
      IncreasingExtended(Groups(rows[..|rows| - 1]), rows[|rows| - 1]);
    }
  }

  lemma {:induction false} IncreasingExtended(done: seq<Group>, row: Row)
    requires Increasing(done) && (done != [] ==> done[|done| - 1].ts <= row.ts)
    ensures var gs := Extended(done, row);
            Increasing(gs) && gs[|gs| - 1].ts == row.ts && forall i | 0 <= i < |gs| :: gs[i].ts <= row.ts
  {
  }

  // ----- causality

  // The rows known at time t.
  function Upto(rows: seq<Row>, t: int): seq<Row> {
    if rows == [] then []
    else Upto(rows[..|rows| - 1], t) + if rows[|rows| - 1].ts <= t then [rows[|rows| - 1]] else []
  }

  lemma {:induction false} UptoAll(rows: seq<Row>, t: int)
    requires forall i | 0 <= i < |rows| :: rows[i].ts <= t
    ensures Upto(rows, t) == rows
  {
    if rows != [] {
      UptoAll(rows[..|rows| - 1], t);
    }
  }

  // The groups of the rows known at t are the first groups of all rows; the others are later.
  lemma {:induction false} KnownGroupsComeFirst(rows: seq<Row>, t: int)
    requires Chronological(rows)
    ensures var known, gs := Groups(Upto(rows, t)), Groups(rows);
            && known <= gs
            && (forall i | 0 <= i < |known| :: known[i].ts <= t)
            && (forall i | |known| <= i < |gs| :: gs[i].ts > t)
  {
    if rows != [] {
      var init, row := rows[..|rows| - 1], rows[|rows| - 1];
      if row.ts <= t {
        UptoAll(rows, t);
        GroupsIncrease(rows);
      } else {
        KnownGroupsComeFirst(init, t);
        assert Upto(rows, t) == Upto(init, t);
        LaterRowComesLast(Groups(Upto(init, t)), Groups(init), row, t);
      }
    }
  }

  lemma {:induction false} LaterRowComesLast(known: seq<Group>, done: seq<Group>, row: Row, t: int)
    requires known <= done && row.ts > t
    requires forall i | 0 <= i < |known| :: known[i].ts <= t
    requires forall i | |known| <= i < |done| :: done[i].ts > t
    ensures var gs := Extended(done, row);
            known <= gs && forall i | |known| <= i < |gs| :: gs[i].ts > t
  {
  }

  lemma {:induction false} MatchAllAppends(m: Models, c: Ctx, bar: Row, ids: seq<nat>)
    ensures var d := MatchAll(m, c, bar, ids).0;
            && c.trades <= d.trades && d.navs == c.navs && d.times == c.times && d.now == c.now
            && (c.now.Some? ==> forall i | |c.trades| <= i < |d.trades| :: d.trades[i].time == c.now.value)
  {
    if ids != [] {
      MatchAllAppends(m, c, bar, ids[..|ids| - 1]);
    }
  }

  lemma {:induction false} MatchRowsAppends(m: Models, c: Ctx, rows: seq<Row>)
    ensures var d := MatchRows(m, c, rows);
            && c.trades <= d.trades && d.navs == c.navs && d.times == c.times && d.now == c.now
            && (c.now.Some? ==> forall i | |c.trades| <= i < |d.trades| :: d.trades[i].time == c.now.value)
  {
    if rows != [] {
      var d := MatchRows(m, c, rows[..|rows| - 1]);
      MatchRowsAppends(m, c, rows[..|rows| - 1]);
      MatchAllAppends(m, d, rows[|rows| - 1], d.pending);
    }
  }

  lemma {:induction false} ExecuteAllKeepsHistories(c: Ctx, cmds: seq<Command>)
    ensures var d := ExecuteAll(c, cmds);
            d.trades == c.trades && d.navs == c.navs && d.times == c.times && d.now == c.now && d.account == c.account
  {
    if cmds != [] {
      ExecuteAllKeepsHistories(c, cmds[..|cmds| - 1]);
    }
  }

  // What lies in d's histories beyond those of c happened after time t.
  ghost predicate ExtendsAfter(c: Ctx, d: Ctx, t: int) {
    && c.trades <= d.trades && c.navs <= d.navs && c.times <= d.times
    && |d.navs| - |c.navs| == |d.times| - |c.times|
    && (forall i | |c.trades| <= i < |d.trades| :: d.trades[i].time > t)
    && (forall i | |c.times| <= i < |d.times| :: d.times[i] > t)
  }

  lemma {:induction false} GroupExtends<S>(m: Models, strategy: Strategy<S>, s: Sim<S>, g: Group, t: int)
    requires g.ts > t
    ensures ExtendsAfter(s.ctx, ProcessGroup(m, strategy, s, g).ctx, t)
  {
    var shown := Shown(m, s.ctx, g);
    MatchRowsAppends(m, Entered(s.ctx, g), g.rows);
    var (state, cmds) := strategy(s.state, shown, BarsOf(g.rows));
    ExecuteAllKeepsHistories(shown, cmds);
  }

  lemma {:induction false} LaterGroupsExtend<S>(
      m: Models, strategy: Strategy<S>, s: Sim<S>, gs: seq<Group>, k: nat, t: int)
    requires k <= |gs| && forall i | k <= i < |gs| :: gs[i].ts > t
    ensures ExtendsAfter(RunGroups(m, strategy, s, gs[..k]).ctx, RunGroups(m, strategy, s, gs).ctx, t)
  {
    if k == |gs| {
      assert gs[..k] == gs;
    } else {
      var init := gs[..|gs| - 1];
      LaterGroupsExtend(m, strategy, s, init, k, t);
      assert init[..k] == gs[..k];
      GroupExtends(m, strategy, RunGroups(m, strategy, s, init), gs[|gs| - 1], t);
    }
  }

  // Running on the rows known at t gives exactly the histories of the full run up to t: every
  // trade, valuation and timestamp beyond them belongs to a later time.
  lemma {:induction false} NoLookahead<S>(m: Models, strategy: Strategy<S>, s: Sim<S>, rows: seq<Row>, t: int)
    requires Chronological(rows)
    ensures ExtendsAfter(Run(m, strategy, s, Upto(rows, t)).ctx, Run(m, strategy, s, rows).ctx, t)
  {
    KnownGroupsComeFirst(rows, t);
    var k := |Groups(Upto(rows, t))|;
    assert Groups(rows)[..k] == Groups(Upto(rows, t));
    LaterGroupsExtend(m, strategy, s, Groups(rows), k, t);
  }

  // Two markets that agree up to t cannot be told apart by anything that happens up to t.
  lemma {:induction false} SamePastSameHistory<S>(
      m: Models, strategy: Strategy<S>, s: Sim<S>, rows: seq<Row>, others: seq<Row>, t: int)
    requires Chronological(rows) && Chronological(others) && Upto(rows, t) == Upto(others, t)
    ensures var common := Run(m, strategy, s, Upto(rows, t)).ctx;
            && ExtendsAfter(common, Run(m, strategy, s, rows).ctx, t)
            && ExtendsAfter(common, Run(m, strategy, s, others).ctx, t)
  {
    NoLookahead(m, strategy, s, rows, t);
    NoLookahead(m, strategy, s, others, t);
  }

  // ----- the book over whole runs

  lemma {:induction false} MarkAllKeeps(capital: real, c: Ctx, rows: seq<Row>)
    requires AccountOk(capital, c)
    ensures AccountOk(capital, c.(account := MarkAll(c.account, rows)))
  {
    if rows != [] {
      MarkAllKeeps(capital, c, rows[..|rows| - 1]);
      var a := MarkAll(c.account, rows[..|rows| - 1]);
      forall s
        ensures Position(MarkAll(c.account, rows), s) == Position(a, s)
      {
      }
    }
  }

  lemma {:induction false} MatchRowsKeeps(m: Models, capital: real, c: Ctx, rows: seq<Row>)
    requires BookOk(capital, c) && Aged(c)
    ensures BookOk(capital, MatchRows(m, c, rows)) && Aged(MatchRows(m, c, rows))
  {
    if rows != [] {
      MatchRowsKeeps(m, capital, c, rows[..|rows| - 1]);
      MatchKeeps(m, capital, MatchRows(m, c, rows[..|rows| - 1]), rows[|rows| - 1]);
    }
  }

  lemma {:induction false} EnteredKeeps(capital: real, c: Ctx, g: Group)
    requires BookOk(capital, c) && (c.now.Some? ==> c.now.value < g.ts)
    ensures BookOk(capital, Entered(c, g)) && Aged(Entered(c, g))
  {
    MarkAllKeeps(capital, c, g.rows);
    var d := Entered(c, g);
    TradesStand(c, d);
    AccountStands(capital, c.(account := MarkAll(c.account, g.rows)), d);
  }

  lemma {:induction false} GroupsKeepBook<S>(m: Models, strategy: Strategy<S>, capital: real, state: S, gs: seq<Group>)
    requires Increasing(gs)
    ensures var c := RunGroups(m, strategy, Sim(Start(capital), state), gs).ctx;
            && BookOk(capital, c)
            && c.now == if gs == [] then None else Some(gs[|gs| - 1].ts)
  {
    var s0 := Sim(Start(capital), state);
    if gs != [] {
      var init, g := gs[..|gs| - 1], gs[|gs| - 1];
      GroupsKeepBook(m, strategy, capital, state, init);
      var s := RunGroups(m, strategy, s0, init);
      EnteredKeeps(capital, s.ctx, g);
      MatchRowsKeeps(m, capital, Entered(s.ctx, g), g.rows);
      MatchRowsAppends(m, Entered(s.ctx, g), g.rows);
      var shown := Shown(m, s.ctx, g);
      var (state', cmds) := strategy(s.state, shown, BarsOf(g.rows));
      ExecuteAllKeeps(capital, shown, cmds);
      NavKeeps(capital, ExecuteAll(shown, cmds));
    }
  }

  lemma {:induction false} NavKeeps(capital: real, c: Ctx)
    requires BookOk(capital, c)
    ensures BookOk(capital, RecordNav(c))
  {
    TradesStand(c, RecordNav(c));
    AccountStands(capital, c, RecordNav(c));
  }

  // After any run the pending list is exactly the PENDING orders in submission order, every FILLED
  // order has its one trade, strictly later than its creation, and the trades account for all of
  // cash, positions and realized profit.
  lemma {:induction false} BookHoldsAfterRun<S>(
      m: Models, strategy: Strategy<S>, capital: real, state: S, rows: seq<Row>)
    requires Chronological(rows)
    ensures BookOk(capital, Run(m, strategy, Sim(Start(capital), state), rows).ctx)
  {
    GroupsIncrease(rows);
    GroupsKeepBook(m, strategy, capital, state, Groups(rows));
  }

  // ----- final orders and the origin of trades

  // d is a later state of the book of c: no order changes but by leaving PENDING.
  ghost predicate Later(c: Ctx, d: Ctx) {
    && c.counter <= d.counter
    && forall id | id in c.orders ::
         && id in d.orders
         && d.orders[id].(status := c.orders[id].status) == c.orders[id]
         && (c.orders[id].status != Pending ==> d.orders[id].status == c.orders[id].status)
  }

  lemma {:induction false} MatchOneLater(m: Models, c: Ctx, d: Ctx, bar: Row, id: nat)
    requires Later(c, d) && id in c.orders && c.orders[id].status == Pending && d.orders[id] == c.orders[id]
    ensures Later(c, MatchOne(m, d, bar, id).0)
    ensures var e := MatchOne(m, d, bar, id).0;
            forall k | k in d.orders && k != id :: k in e.orders && e.orders[k] == d.orders[k]
  {
  }

  lemma {:induction false} MatchAllLater(m: Models, c: Ctx, bar: Row, ids: seq<nat>)
    requires forall i, j | 0 <= i < j < |ids| :: ids[i] < ids[j]
    requires forall i | 0 <= i < |ids| :: ids[i] in c.orders && c.orders[ids[i]].status == Pending
    ensures Later(c, MatchAll(m, c, bar, ids).0)
    ensures var d := MatchAll(m, c, bar, ids).0;
            forall k | k in c.orders && k !in ids :: k in d.orders && d.orders[k] == c.orders[k]
  {
    if ids != [] {
      var init, id := ids[..|ids| - 1], ids[|ids| - 1];
      MatchAllLater(m, c, bar, init);
      assert id !in init;
      MatchOneLater(m, c, MatchAll(m, c, bar, init).0, bar, id);
    }
  }

  lemma {:induction false} ExecuteAllLater(capital: real, c: Ctx, cmds: seq<Command>)
    requires BookOk(capital, c) && c.now.Some?
    ensures Later(c, ExecuteAll(c, cmds))
  {
    if cmds != [] {
      ExecuteAllLater(capital, c, cmds[..|cmds| - 1]);
      ExecuteAllKeeps(capital, c, cmds[..|cmds| - 1]);
    }
  }

  lemma {:induction false} MatchRowsLater(m: Models, capital: real, c: Ctx, rows: seq<Row>)
    requires BookOk(capital, c) && Aged(c)
    ensures Later(c, MatchRows(m, c, rows))
  {
    if rows != [] {
      var d := MatchRows(m, c, rows[..|rows| - 1]);
      MatchRowsLater(m, capital, c, rows[..|rows| - 1]);
      MatchRowsKeeps(m, capital, c, rows[..|rows| - 1]);
      MatchAllLater(m, d, rows[|rows| - 1], d.pending);
    }
  }

  // Over any continuation of a run, FILLED and CANCELLED orders never change again and no order
  // is lost or altered in anything but its status.
  lemma {:induction false} SettledOrdersStay<S>(
      m: Models, strategy: Strategy<S>, capital: real, state: S, gs: seq<Group>, k: nat)
    requires Increasing(gs) && k <= |gs|
    ensures var s := Sim(Start(capital), state);
            Later(RunGroups(m, strategy, s, gs[..k]).ctx, RunGroups(m, strategy, s, gs).ctx)
  {
    if k == |gs| {
      assert gs[..k] == gs;
    } else {
      var init, g := gs[..|gs| - 1], gs[|gs| - 1];
      assert init[..k] == gs[..k];
      SettledOrdersStay(m, strategy, capital, state, init, k);
      GroupsKeepBook(m, strategy, capital, state, init);
      var s := RunGroups(m, strategy, Sim(Start(capital), state), init);
      EnteredKeeps(capital, s.ctx, g);
      MatchRowsLater(m, capital, Entered(s.ctx, g), g.rows);
      MatchRowsKeeps(m, capital, Entered(s.ctx, g), g.rows);
      var shown := Shown(m, s.ctx, g);
      var (_, cmds) := strategy(s.state, shown, BarsOf(g.rows));
      MatchRowsAppends(m, Entered(s.ctx, g), g.rows);
      ExecuteAllLater(capital, shown, cmds);
    }
  }
}
