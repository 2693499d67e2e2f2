/** Orders, their events, and replay of the write-ahead log
    (cmd/ems/state/state_machine.go, cmd/ems/state/wal.go). */
module OrderLog {
  import opened Options

  datatype Status =
    | Unspecified | Pending | Submitted | PartiallyFilled
    | Filled | Canceled | Rejected | PendingCancel

  datatype Event = Event(
    id: string, state: Status, delta: int, corr: string,
    symbol: string, price: real, totalQty: int)

  datatype Order = Order(
    symbol: string, price: real, totalQty: int, cumQty: int, state: Status, corr: string)

  type Orders = map<string, Order>

  const MAX_INT32 := 0x7fff_ffff

  // Addition of two int32 values, wrapping around.
  function AddInt32(a: int, b: int): int {
    var sum := a + b;
    if sum > MAX_INT32 then sum - 0x1_0000_0000
    else if sum < -MAX_INT32 - 1 then sum + 0x1_0000_0000
    else sum
  }

  predicate IsFill(st: Status) { st == PartiallyFilled || st == Filled }
  predicate Terminal(st: Status) { st == Filled || st == Canceled || st == Rejected }
  predicate Risky(st: Status) { st == Pending || st == Submitted }

  predicate IsValidTransition(current: Status, target: Status) {
    match current
    case Pending => target == Submitted || target == Rejected
    case Submitted => target == PartiallyFilled || target == Filled || target == PendingCancel || target == Rejected
    case PartiallyFilled => target == PartiallyFilled || target == Filled || target == PendingCancel
    case PendingCancel => target == Canceled || target == Filled
    case _ => false
  }

  function FillDelta(e: Event): int {
    if IsFill(e.state) then e.delta else 0
  }

  function Created(e: Event): Order {
    Order(e.symbol, e.price, e.totalQty, 0, e.state, e.corr)
  }

  function Advanced(o: Order, e: Event): Order {
    o.(cumQty := if IsFill(e.state) then AddInt32(o.cumQty, e.delta) else o.cumQty, state := e.state, corr := e.corr)
  }

  function ReplayEvent(orders: Orders, e: Event): Orders {
    orders[e.id := if e.id in orders then Advanced(orders[e.id], e) else Created(e)]
  }

  function ReplayOnto(orders: Orders, es: seq<Event>): Orders {
    if es == [] then orders
    else ReplayEvent(ReplayOnto(orders, es[..|es| - 1]), es[|es| - 1])
  }

  function Replay(es: seq<Event>): Orders {
    ReplayOnto(map[], es)
  }

  // ----- disciplined histories

  // The event e may follow a history that has produced these orders: the first event of an order
  // is its only PENDING one, a final order gets no more events, and fills neither pass the total
  // nor reach it without the order becoming FILLED.
  predicate Admissible(orders: Orders, e: Event) {
    if e.id !in orders then
      e.state == Pending && 0 <= e.totalQty <= MAX_INT32
    else
      var o := orders[e.id];
      && e.state != Pending
      && !Terminal(o.state)
      && FillDelta(e) >= 0
      && o.cumQty + FillDelta(e) <= o.totalQty
      && (IsFill(e.state) && o.cumQty + e.delta == o.totalQty ==> e.state == Filled)
  }

  predicate Disciplined(es: seq<Event>) {
    es == [] ||
    var init := es[..|es| - 1];
    Disciplined(init) && Admissible(Replay(init), es[|es| - 1])
  }

  predicate OrderOk(o: Order) {
    && 0 <= o.cumQty <= o.totalQty <= MAX_INT32
    && (o.cumQty == o.totalQty && o.totalQty >= 1 ==> o.state == Filled)
  }

  lemma {:induction false} DisciplinedOrders(es: seq<Event>)
    requires Disciplined(es)
    ensures forall id | id in Replay(es) :: OrderOk(Replay(es)[id])
  {
    if es != [] {
      DisciplinedOrders(es[..|es| - 1]);
    }
  }

  // The quantity filled according to the events of one order.
  function FilledBy(es: seq<Event>, id: string): int {
    if es == [] then 0
    else
      var e := es[|es| - 1];
      FilledBy(es[..|es| - 1], id) + if e.id == id then FillDelta(e) else 0
  }

  lemma {:induction false} ReplayCountsFills(es: seq<Event>, id: string)
    requires Disciplined(es)
    ensures if id in Replay(es) then Replay(es)[id].cumQty == FilledBy(es, id) else FilledBy(es, id) == 0
  {
    if es != [] {
      ReplayCountsFills(es[..|es| - 1], id);
      DisciplinedOrders(es[..|es| - 1]);
    }
  }

  // An order exists exactly when it has events, and its state is that of the last one.
  lemma {:induction false} ReplayLastState(es: seq<Event>, i: nat)
    requires i < |es|
    ensures es[i].id in Replay(es)
    ensures (forall j | i < j < |es| :: es[j].id != es[i].id) ==> Replay(es)[es[i].id].state == es[i].state
  {
    if i < |es| - 1 {
      var init := es[..|es| - 1];
      assert init[i] == es[i];
      ReplayLastState(init, i);
      assert forall j | i < j < |init| :: init[j] == es[j];
    }
  }

  // The last record of one order.
  function LastRecord(es: seq<Event>, id: string): Option<Event> {
    if es == [] then None
    else if es[|es| - 1].id == id then Some(es[|es| - 1])
    else LastRecord(es[..|es| - 1], id)
  }

  lemma {:induction false} LastRecordStands(es: seq<Event>, id: string)
    ensures match LastRecord(es, id)
            case None => id !in Replay(es)
            case Some(e) =>
              && id in Replay(es) && Replay(es)[id].state == e.state && Replay(es)[id].corr == e.corr
              && exists i :: 0 <= i < |es| && es[i] == e && e.id == id
  {
    if es != [] {
      var init, last := es[..|es| - 1], es[|es| - 1];
      LastRecordStands(init, id);
      if last.id == id {
        assert es[|es| - 1] == last;
      } else if LastRecord(init, id).Some? {
        var i :| 0 <= i < |init| && init[i] == LastRecord(init, id).value;
        assert es[i] == init[i];
      }
    }
  }

  // No event follows a terminal event of its order, and every event after the first of its
  // order is not PENDING while the first is.
  lemma {:induction false} TerminalIsLast(es: seq<Event>, i: nat, j: nat)
    requires Disciplined(es) && i < j < |es| && es[i].id == es[j].id
    ensures !Terminal(es[i].state) && es[j].state != Pending
  {
    if j < |es| - 1 {
      var init := es[..|es| - 1];
      assert init[i] == es[i] && init[j] == es[j];
      TerminalIsLast(init, i, j);
    } else {
      var init := es[..j];
      assert init[i] == es[i];
      ReplayLastState(init, i);
      if Terminal(es[i].state) {
        forall k | i < k < |init|
          ensures init[k].id != es[i].id
        {
          if init[k].id == es[i].id {
            assert init[k] == es[k];
            TerminalIsLast(init, i, k);
          }
        }
      }
    }
  }

  // ----- what was logged of what was accepted

  // An accepted event and whether its append succeeded.
  datatype Entry = Entry(ev: Event, logged: bool)

  function Events(h: seq<Entry>): seq<Event> {
    if h == [] then [] else Events(h[..|h| - 1]) + [h[|h| - 1].ev]
  }

  function Logged(h: seq<Entry>): seq<Event> {
    if h == [] then []
    else
      var e := h[|h| - 1];
      Logged(h[..|h| - 1]) + if e.logged then [e.ev] else []
  }

  predicate AllLogged(h: seq<Entry>) {
    forall e | e in h :: e.logged
  }

  // Only records that do not open risk may be missing from the log.
  predicate OnlySafeLost(h: seq<Entry>) {
    forall e | e in h :: e.logged || !Risky(e.ev.state)
  }

  function LostQty(h: seq<Entry>, id: string): int {
    if h == [] then 0
    else
      var e := h[|h| - 1];
      LostQty(h[..|h| - 1], id) + if e.ev.id == id && !e.logged then FillDelta(e.ev) else 0
  }

  predicate LagsOne(l: Order, m: Order) {
    && l.symbol == m.symbol && l.price == m.price && l.totalQty == m.totalQty
    && l.cumQty <= m.cumQty <= m.totalQty
    && (Terminal(l.state) ==> m.state == l.state)
  }

  // The recovered orders l are behind the live orders m, but they are the same orders.
  predicate Lags(l: Orders, m: Orders) {
    l.Keys == m.Keys && forall id | id in l :: LagsOne(l[id], m[id])
  }

  lemma {:induction false} LagsStep(l: Orders, m: Orders, e: Event, logged: bool)
    requires Lags(l, m) && Admissible(m, e) && (logged || !Risky(e.state))
    requires forall id | id in l :: OrderOk(l[id]) && OrderOk(m[id])
    ensures Lags(if logged then ReplayEvent(l, e) else l, ReplayEvent(m, e))
    ensures logged ==> Admissible(l, e)
  {
  }

  // The log alone is a disciplined history, of the same orders, behind the accepted one.
  lemma {:induction false} LogLags(h: seq<Entry>)
    requires Disciplined(Events(h)) && OnlySafeLost(h)
    ensures Disciplined(Logged(h)) && Lags(Replay(Logged(h)), Replay(Events(h)))
  {
    if h != [] {
      var init, e := h[..|h| - 1], h[|h| - 1];
      assert Events(h)[..|Events(h)| - 1] == Events(init);
      LogLags(init);
      DisciplinedOrders(Logged(init));
      DisciplinedOrders(Events(init));
      LagsStep(Replay(Logged(init)), Replay(Events(init)), e.ev, e.logged);
      if e.logged {
        assert Logged(h)[..|Logged(h)| - 1] == Logged(init);
      } else {
        assert Logged(h) == Logged(init);
      }
    }
  }

  // The accepted and the logged history end in the same state and correlation id of an order.
  predicate SameStanding(h: seq<Entry>, id: string) {
    var l, a := LastRecord(Logged(h), id), LastRecord(Events(h), id);
    l.Some? && a.Some? && l.value.state == a.value.state && l.value.corr == a.value.corr
  }

  // An order is recovered exactly if and only if none of its fills was lost and its last logged
  // record has the state and correlation id of its last accepted one.
  lemma {:induction false} RecoveredExactlyIff(h: seq<Entry>, id: string)
    requires Disciplined(Events(h)) && OnlySafeLost(h) && id in Replay(Events(h))
    ensures id in Replay(Logged(h))
    ensures Replay(Logged(h))[id] == Replay(Events(h))[id] <==> LostQty(h, id) == 0 && SameStanding(h, id)
  {
    LogLags(h);
    ReplayCountsFills(Events(h), id);
    ReplayCountsFills(Logged(h), id);
    LostFillsAreMissing(h, id);
    LastRecordStands(Events(h), id);
    LastRecordStands(Logged(h), id);
    assert LagsOne(Replay(Logged(h))[id], Replay(Events(h))[id]);
  }

  // A terminal record of the order that reached the log.
  ghost predicate TerminalLogged(h: seq<Entry>, id: string) {
    exists e :: e in h && e.logged && e.ev.id == id && Terminal(e.ev.state)
  }

  lemma {:induction false} LoggedAre(h: seq<Entry>, ev: Event)
    ensures ev in Logged(h) <==> Entry(ev, true) in h
  {
    if h != [] {
      var init, e := h[..|h| - 1], h[|h| - 1];
      LoggedAre(init, ev);
      assert h == init + [e];
    }
  }

  lemma {:induction false} TerminalStands(es: seq<Event>, i: nat)
    requires Disciplined(es) && i < |es| && Terminal(es[i].state)
    ensures es[i].id in Replay(es) && Replay(es)[es[i].id].state == es[i].state
  {
    forall j | i < j < |es|
      ensures es[j].id != es[i].id
    {
      if es[j].id == es[i].id { TerminalIsLast(es, i, j); }
    }
    ReplayLastState(es, i);
  }

  // An order is recovered terminal if and only if a terminal record of it was logged.
  lemma {:induction false} RecoveredTerminalIff(h: seq<Entry>, id: string)
    requires Disciplined(Logged(h)) && id in Replay(Logged(h))
    ensures Terminal(Replay(Logged(h))[id].state) <==> TerminalLogged(h, id)
  {
    var log := Logged(h);
    LastRecordStands(log, id);
    if Terminal(Replay(log)[id].state) {
      var e := LastRecord(log, id).value;
      LoggedAre(h, e);
      assert Entry(e, true) in h && Entry(e, true).logged;
    }
    if TerminalLogged(h, id) {
      var e :| e in h && e.logged && e.ev.id == id && Terminal(e.ev.state);
      LoggedAre(h, e.ev);
      var i :| 0 <= i < |log| && log[i] == e.ev;
      TerminalStands(log, i);
    }
  }

  // All that is known of a recovered order beside the live one.
  lemma {:induction false} RecoveredOrder(h: seq<Entry>, id: string)
    requires Disciplined(Events(h)) && OnlySafeLost(h) && id in Replay(Events(h))
    ensures id in Replay(Logged(h))
    ensures var l, m := Replay(Logged(h))[id], Replay(Events(h))[id];
            && LagsOne(l, m)
            && l.cumQty + LostQty(h, id) == m.cumQty
            && (l == m <==> LostQty(h, id) == 0 && SameStanding(h, id))
            && (Terminal(l.state) <==> TerminalLogged(h, id))
  {
    LogLags(h);
    RecoveredExactlyIff(h, id);
    RecoveredTerminalIff(h, id);
    ReplayCountsFills(Events(h), id);
    ReplayCountsFills(Logged(h), id);
    LostFillsAreMissing(h, id);
  }

  // Exactly the fills whose append failed are missing after a recovery.
  lemma {:induction false} LostFillsAreMissing(h: seq<Entry>, id: string)
    ensures FilledBy(Logged(h), id) + LostQty(h, id) == FilledBy(Events(h), id)
  {
    if h != [] {
      var init, e := h[..|h| - 1], h[|h| - 1];
      LostFillsAreMissing(init, id);
      assert (Events(init) + [e.ev])[..|Events(init)|] == Events(init);
      if e.logged {
        assert (Logged(init) + [e.ev])[..|Logged(init)|] == Logged(init);
      } else {
        assert Logged(h) == Logged(init);
      }
    }
  }

  lemma {:induction false} AllLoggedIsExact(h: seq<Entry>)
    requires AllLogged(h)
    ensures Logged(h) == Events(h)
  {
    if h != [] {
      assert h[|h| - 1] in h;
      AllLoggedIsExact(h[..|h| - 1]);
    }
  }

  function AsLogged(es: seq<Event>): seq<Entry> {
    seq(|es|, i requires 0 <= i < |es| => Entry(es[i], true))
  }

  lemma {:induction false} AsLoggedIsLog(es: seq<Event>)
    ensures Events(AsLogged(es)) == es && Logged(AsLogged(es)) == es && AllLogged(AsLogged(es))
  {
    if es != [] {
      var init := es[..|es| - 1];
      AsLoggedIsLog(init);
      assert AsLogged(es)[..|es| - 1] == AsLogged(init);
    }
  }

  // The events of one order, and the order in which the log kept them.
  function Project(es: seq<Event>, id: string): seq<Event> {
    if es == [] then []
    else
      Project(es[..|es| - 1], id) + if es[|es| - 1].id == id then [es[|es| - 1]] else []
  }

  predicate Subsequence(a: seq<Event>, b: seq<Event>) {
    a == [] ||
    (b != [] &&
     ((a[|a| - 1] == b[|b| - 1] && Subsequence(a[..|a| - 1], b[..|b| - 1])) || Subsequence(a, b[..|b| - 1])))
  }

  lemma {:induction false} ProjectSnoc(es: seq<Event>, e: Event, id: string)
    ensures Project(es + [e], id) == if e.id == id then Project(es, id) + [e] else Project(es, id)
  {
    assert (es + [e])[..|es|] == es;
  }

  lemma {:induction false} SubsequenceSnoc(a: seq<Event>, b: seq<Event>, e: Event)
    requires Subsequence(a, b)
    ensures Subsequence(a + [e], b + [e]) && Subsequence(a, b + [e])
  {
    assert (a + [e])[..|a|] == a && (b + [e])[..|b|] == b;
  }

  // Per order, the log keeps a subsequence of what was accepted.
  lemma {:induction false} LogIsSubsequence(h: seq<Entry>, id: string)
    ensures Subsequence(Project(Logged(h), id), Project(Events(h), id))
  {
    if h != [] {
      var init, e := h[..|h| - 1], h[|h| - 1];
      LogIsSubsequence(init, id);
      ProjectSnoc(Events(init), e.ev, id);
      ProjectSnoc(Logged(init), e.ev, id);
      SubsequenceSnoc(Project(Logged(init), id), Project(Events(init), id), e.ev);
      if !e.logged {
        assert Logged(h) == Logged(init);
      }
    }
  }

  // Per order, the log starts with the PENDING record that opened the accepted history.
  lemma {:induction false} LogKeepsFirstRecord(h: seq<Entry>, id: string)
    requires Disciplined(Events(h)) && OnlySafeLost(h)
    ensures var l, a := Project(Logged(h), id), Project(Events(h), id);
            && (id in Replay(Events(h)) <==> a != []) && (a == [] <==> l == [])
            && (a != [] ==> l[0] == a[0] && a[0].state == Pending)
  {
    if h != [] {
      var init, e := h[..|h| - 1], h[|h| - 1];
      assert Events(h)[..|Events(h)| - 1] == Events(init);
      LogKeepsFirstRecord(init, id);
      var l, a := Project(Logged(init), id), Project(Events(init), id);
      ProjectSnoc(Events(init), e.ev, id);
      assert e in h;
      if e.logged {
        ProjectSnoc(Logged(init), e.ev, id);
        assert l != [] ==> (l + [e.ev])[0] == l[0];
      } else {
        assert Logged(h) == Logged(init);
      }
      assert a != [] ==> (a + [e.ev])[0] == a[0];
    }
  }
}
