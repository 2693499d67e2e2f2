/** The order state machine as interleaved steps (cmd/ems/state/state_machine.go, cmd/ems/main.go).

    A submit stores its order and then appends the PENDING record; a transition checks and books
    the fill under the order's lock and then appends. Other callers run between the two halves,
    so each half is a step of its own. A crash may come at any point; a restart replays the log. */
module OrderMachine {
  import opened OrderLog

  datatype Request = Request(id: string, symbol: string, price: real, quantity: real, corr: string)

  // flights holds, per order, the record that its caller is about to append.
  datatype Core = Core(
    up: bool, orders: Orders, flights: map<string, Event>, degraded: bool, log: seq<Event>)

  // The conversion int32(quantity): towards zero.
  function Trunc(q: real): int {
    if q >= 0.0 then q.Floor else -((-q).Floor)
  }

  // n is the whole part of q.
  predicate WholePart(q: real, n: int) {
    if q >= 0.0 then n as real <= q < n as real + 1.0 else n as real - 1.0 < q <= n as real
  }

  lemma {:induction false} TruncIsWholePart(q: real)
    ensures WholePart(q, Trunc(q))
  {
  }

  // The terms of the order are those of the request, with the whole part of its quantity.
  predicate HasTerms(o: Order, r: Request) {
    o.symbol == r.symbol && o.price == r.price && WholePart(r.quantity, o.totalQty)
  }

  function Fresh(r: Request): Order {
    Order(r.symbol, r.price, Trunc(r.quantity), 0, Pending, r.corr)
  }

  function Opening(r: Request): Event {
    Event(r.id, Pending, 0, r.corr, r.symbol, r.price, Trunc(r.quantity))
  }

  // SubmitOrder up to its append: the registry lookup, the degraded check and the store.
  function Submit(c: Core, r: Request): Core {
    if !c.up || r.id in c.orders || c.degraded then c
    else c.(orders := c.orders[r.id := Fresh(r)], flights := c.flights[r.id := Opening(r)])
  }

  datatype Verdict = NotFound | Busy | BadTransition | ReadOnly | OverFill | Accepted

  function Booked(o: Order, target: Status, delta: int): int {
    if IsFill(target) then AddInt32(o.cumQty, delta) else o.cumQty
  }

  function Check(c: Core, id: string, target: Status, delta: int): Verdict {
    if id !in c.orders then NotFound
    else if id in c.flights then Busy
    else
      var o := c.orders[id];
      if !IsValidTransition(o.state, target) then BadTransition
      else if c.degraded && Risky(target) then ReadOnly
      else if IsFill(target) && Booked(o, target, delta) > o.totalQty then OverFill
      else Accepted
  }

  function Next(o: Order, target: Status, delta: int): Status {
    if IsFill(target) && Booked(o, target, delta) == o.totalQty then Filled else target
  }

  // TransitionState up to its append. A caller that finds the lock taken waits: it begins later.
  // So does a venue report for an order whose submit has not logged yet.
  function Begin(c: Core, id: string, target: Status, delta: int, corr: string): Core {
    if !c.up then c
    else match Check(c, id, target, delta)
      case Accepted =>
        var o := c.orders[id];
        c.(orders := c.orders[id := o.(cumQty := Booked(o, target, delta))],
           flights := c.flights[id := Record(o, id, target, delta, corr)])
      case OverFill => c.(up := false)  // panic
      case _ => c
  }

  // The append of the order's record, with its outcome, and what follows it.
  function End(c: Core, id: string, ok: bool): Core {
    if !c.up || id !in c.flights || id !in c.orders then c
    else
      var ev := c.flights[id];
      c.(log := if ok then c.log + [ev] else c.log,
         degraded := c.degraded || !ok,
         flights := c.flights - {id},
         orders := if ev.state == Pending then (if ok then c.orders else c.orders - {id})
                   else if ev.state == Submitted && !ok then c.orders
                   else c.orders[id := c.orders[id].(state := ev.state, corr := ev.corr)])
  }

  // The order after an accepted transition whose two halves ran back to back.
  function Moved(o: Order, target: Status, delta: int, corr: string): Order {
    o.(cumQty := Booked(o, target, delta), state := Next(o, target, delta), corr := corr)
  }

  function Record(o: Order, id: string, target: Status, delta: int, corr: string): Event {
    Event(id, Next(o, target, delta), delta, corr, "", 0.0, 0)
  }

  // TransitionState by a caller that runs alone.
  function Transition(c: Core, id: string, target: Status, delta: int, corr: string, ok: bool): Core
    requires Check(c, id, target, delta) == Accepted
  {
    var o := c.orders[id];
    c.(orders := if target == Submitted && !ok then c.orders else c.orders[id := Moved(o, target, delta, corr)],
       degraded := c.degraded || !ok,
       log := if ok then c.log + [Record(o, id, target, delta, corr)] else c.log)
  }

  lemma {:induction false} TransitionIsTwoSteps(c: Core, id: string, target: Status, delta: int, corr: string, ok: bool)
    requires c.up && c.flights == map[] && Check(c, id, target, delta) == Accepted
    ensures Transition(c, id, target, delta, corr, ok) == End(Begin(c, id, target, delta, corr), id, ok)
  {
  }

  predicate Working(c: Core, id: string) {
    id in c.orders && (c.orders[id].state == Submitted || c.orders[id].state == PartiallyFilled)
  }

  // A cancel that runs alone passes both of its transitions if the order is working, whatever
  // its appends do, and otherwise not even the first.
  lemma {:induction false} LoneCancel(c: Core, id: string, corr: string, ok: bool)
    requires c.flights == map[]
    ensures Check(c, id, PendingCancel, 0) == Accepted <==> Working(c, id)
    ensures Working(c, id) ==> Check(Transition(c, id, PendingCancel, 0, corr, ok), id, Canceled, 0) == Accepted
  {
  }

  // SubmitOrder by a caller that runs alone, up to its transition to SUBMITTED.
  function Open(c: Core, r: Request, ok: bool): Core {
    c.(orders := if ok then c.orders[r.id := Fresh(r)] else c.orders,
       degraded := !ok,
       log := if ok then c.log + [Opening(r)] else c.log)
  }

  lemma {:induction false} OpenIsTwoSteps(c: Core, r: Request, ok: bool)
    requires c.up && c.flights == map[] && r.id !in c.orders && !c.degraded
    ensures Open(c, r, ok) == End(Submit(c, r), r.id, ok)
  {
    assert c.orders[r.id := Fresh(r)] - {r.id} == c.orders;
    assert c.flights[r.id := Opening(r)] - {r.id} == c.flights;
  }

  datatype Action =
    | DoSubmit(r: Request)
    | DoBegin(id: string, target: Status, delta: int, corr: string)
    | DoEnd(id: string, ok: bool)
    | DoSetDegraded(val: bool)
    | DoCrash
    | DoRestart

  // The core with the history of what was accepted, which no step reads.
  datatype Sys = Sys(core: Core, hist: seq<Entry>)

  const INIT := Sys(Core(true, map[], map[], false, []), [])

  // The record of a pending append counts as accepted unless its failure undoes the call.
  function HistAfter(s: Sys, id: string, ok: bool): seq<Entry> {
    if s.core.up && id in s.core.flights && id in s.core.orders && (ok || !Risky(s.core.flights[id].state))
    then s.hist + [Entry(s.core.flights[id], ok)]
    else s.hist
  }

  function Step(s: Sys, a: Action): Sys {
    match a
    case DoSubmit(r) => s.(core := Submit(s.core, r))
    case DoBegin(id, target, delta, corr) => s.(core := Begin(s.core, id, target, delta, corr))
    case DoEnd(id, ok) => Sys(End(s.core, id, ok), HistAfter(s, id, ok))
    case DoSetDegraded(val) => if s.core.up then s.(core := s.core.(degraded := val)) else s
    case DoCrash => s.(core := s.core.(up := false))
    case DoRestart =>
      if s.core.up then s
      else Sys(Core(true, Replay(s.core.log), map[], false, s.core.log), AsLogged(s.core.log))
  }

  // What the environment owes: quantities that the request validation lets through and that fit
  // an int32, and reports with non-negative deltas that do not wrap the fill counter.
  predicate Legal(s: Sys, a: Action) {
    match a
    case DoSubmit(r) => 0.0 < r.quantity < 2147483648.0
    case DoBegin(id, target, delta, _) =>
      && 0 <= delta
      && (id in s.core.orders ==> s.core.orders[id].cumQty + delta <= MAX_INT32)
    case _ => true
  }

  function RunFrom(s: Sys, acts: seq<Action>): Sys {
    if acts == [] then s else Step(RunFrom(s, acts[..|acts| - 1]), acts[|acts| - 1])
  }

  predicate LegalFrom(s: Sys, acts: seq<Action>) {
    acts == [] ||
    (LegalFrom(s, acts[..|acts| - 1]) && Legal(RunFrom(s, acts[..|acts| - 1]), acts[|acts| - 1]))
  }

  // ----- the invariant

  // The live order without the fill that is booked but not appended yet.
  function SettledOne(c: Core, id: string): Order
    requires id in c.orders
  {
    var o := c.orders[id];
    if id in c.flights then o.(cumQty := o.cumQty - FillDelta(c.flights[id])) else o
  }

  predicate Submitting(c: Core, id: string) {
    id in c.flights && c.flights[id].state == Pending
  }

  // The live orders as the accepted events account for them.
  function Settled(c: Core): Orders {
    map id | id in c.orders && !Submitting(c, id) :: SettledOne(c, id)
  }

  // One order agrees with the orders m that the accepted events replay to.
  predicate TracksOne(c: Core, m: Orders, id: string) {
    if Submitting(c, id) then
      && id !in m && id in c.orders
      && c.flights[id].id == id
      && c.orders[id] == Created(c.flights[id])
      && 0 <= c.flights[id].totalQty <= MAX_INT32
    else
      && (id in c.orders <==> id in m)
      && (id in m ==> SettledOne(c, id) == m[id])
      && (id in c.flights ==>
            && id in m
            && c.flights[id].id == id
            && IsValidTransition(m[id].state, c.flights[id].state)
            && Admissible(m, c.flights[id]))
  }

  ghost predicate Tracks(c: Core, m: Orders) {
    forall id :: TracksOne(c, m, id)
  }

  ghost predicate Inv(s: Sys) {
    && s.core.log == Logged(s.hist)
    && Disciplined(Events(s.hist))
    && OnlySafeLost(s.hist)
    && (s.core.up ==> Tracks(s.core, Replay(Events(s.hist))))
  }

  predicate SameEntry(c: Core, d: Core, id: string) {
    && (id in c.orders <==> id in d.orders)
    && (id in c.orders ==> c.orders[id] == d.orders[id])
    && (id in c.flights <==> id in d.flights)
    && (id in c.flights ==> c.flights[id] == d.flights[id])
  }

  // A step that touches one order only has to be checked for that order.
  lemma {:induction false} TracksElsewhere(c: Core, m: Orders, d: Core, n: Orders, id: string)
    requires Tracks(c, m) && TracksOne(d, n, id)
    requires forall k | k != id :: SameEntry(c, d, k)
    requires m - {id} == n - {id}
    ensures Tracks(d, n)
  {
    forall k | k != id
      ensures TracksOne(d, n, k)
    {
      assert SameEntry(c, d, k) && TracksOne(c, m, k);
      assert k in m <==> k in m - {id};
      assert k in n <==> k in n - {id};
    }
  }

  ghost predicate AllOk(m: Orders) {
    forall id | id in m :: OrderOk(m[id])
  }

  lemma {:induction false} SubmitTracks(c: Core, m: Orders, r: Request)
    requires Tracks(c, m) && Legal(Sys(c, []), DoSubmit(r))
    ensures Tracks(Submit(c, r), m)
  {
    if Submit(c, r) != c {
      assert TracksOne(c, m, r.id);
      TracksElsewhere(c, m, Submit(c, r), m, r.id);
    }
  }

  lemma {:induction false} BeginTracks(c: Core, m: Orders, id: string, target: Status, delta: int, corr: string)
    requires Tracks(c, m) && AllOk(m) && Legal(Sys(c, []), DoBegin(id, target, delta, corr))
    requires Check(c, id, target, delta) == Accepted
    ensures Tracks(Begin(c, id, target, delta, corr), m)
  {
    assert TracksOne(c, m, id);
    TracksElsewhere(c, m, Begin(c, id, target, delta, corr), m, id);
  }

  // An append either commits its record, which the history admits, or leaves the orders as accepted.
  lemma {:induction false} EndTracks(c: Core, m: Orders, id: string, ok: bool)
    requires c.up && id in c.flights && Tracks(c, m) && AllOk(m)
    ensures id in c.orders && c.flights[id].id == id
    ensures var ev := c.flights[id];
            if ok || !Risky(ev.state) then Admissible(m, ev) && Tracks(End(c, id, ok), ReplayEvent(m, ev))
            else Tracks(End(c, id, ok), m)
  {
    var d, ev := End(c, id, ok), c.flights[id];
    assert TracksOne(c, m, id);
    if ok || !Risky(ev.state) {
      TracksElsewhere(c, m, d, ReplayEvent(m, ev), id);
    } else {
      TracksElsewhere(c, m, d, m, id);
    }
  }

  lemma {:induction false} EndKeeps(s: Sys, id: string, ok: bool)
    requires Inv(s)
    ensures Inv(Step(s, DoEnd(id, ok)))
  {
    if s.core.up && id in s.core.flights {
      var ev := s.core.flights[id];
      DisciplinedOrders(Events(s.hist));
      EndTracks(s.core, Replay(Events(s.hist)), id, ok);
      if ok || !Risky(ev.state) {
        HistSnoc(s.hist, Entry(ev, ok));
      }
    }
  }

  lemma {:induction false} HistSnoc(h: seq<Entry>, e: Entry)
    ensures Events(h + [e]) == Events(h) + [e.ev]
    ensures Logged(h + [e]) == if e.logged then Logged(h) + [e.ev] else Logged(h)
    ensures Replay(Events(h + [e])) == ReplayEvent(Replay(Events(h)), e.ev)
    ensures Disciplined(Events(h + [e])) <==> Disciplined(Events(h)) && Admissible(Replay(Events(h)), e.ev)
  {
    assert (h + [e])[..|h|] == h;
    assert (Events(h) + [e.ev])[..|Events(h)|] == Events(h);
  }

  lemma {:induction false} RestartTracks(m: Orders, log: seq<Event>)
    ensures Tracks(Core(true, m, map[], false, log), m)
  {
  }

  lemma {:induction false} RestartKeeps(s: Sys)
    requires Inv(s)
    ensures Inv(Step(s, DoRestart))
  {
    LogLags(s.hist);
    AsLoggedIsLog(s.core.log);
    RestartTracks(Replay(s.core.log), s.core.log);
  }

  lemma {:induction false} DegradeTracks(c: Core, m: Orders, val: bool)
    requires Tracks(c, m)
    ensures Tracks(c.(degraded := val), m)
  {
    forall id
      ensures TracksOne(c.(degraded := val), m, id)
    {
      assert TracksOne(c, m, id);
    }
  }

  lemma {:induction false} StepKeeps(s: Sys, a: Action)
    requires Inv(s) && Legal(s, a)
    ensures Inv(Step(s, a))
  {
    match a
    case DoSubmit(r) =>
      if s.core.up { SubmitTracks(s.core, Replay(Events(s.hist)), r); }
    case DoBegin(id, target, delta, corr) =>
      if s.core.up && Check(s.core, id, target, delta) == Accepted {
        DisciplinedOrders(Events(s.hist));
        BeginTracks(s.core, Replay(Events(s.hist)), id, target, delta, corr);
      }
    case DoEnd(id, ok) => EndKeeps(s, id, ok);
    case DoSetDegraded(val) =>
      if s.core.up { DegradeTracks(s.core, Replay(Events(s.hist)), val); }
    case DoCrash =>
    case DoRestart => RestartKeeps(s);
  }

  lemma {:induction false} RunKeeps(s: Sys, acts: seq<Action>)
    requires Inv(s) && LegalFrom(s, acts)
    ensures Inv(RunFrom(s, acts))
  {
    if acts != [] {
      RunKeeps(s, acts[..|acts| - 1]);
      StepKeeps(RunFrom(s, acts[..|acts| - 1]), acts[|acts| - 1]);
    }
  }

  lemma {:induction false} Reachable(acts: seq<Action>)
    requires LegalFrom(INIT, acts)
    ensures Inv(RunFrom(INIT, acts))
  {
    RunKeeps(INIT, acts);
  }
}
