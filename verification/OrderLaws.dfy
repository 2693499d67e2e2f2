/** What single steps of the order state machine do to an order, in every reachable state: the terms it
    is stored with, the records that may follow each other, and what a failed append brings about
    (cmd/ems/state/state_machine.go). */
module OrderLaws {
  import opened Options
  import opened OrderLog
  import opened OrderMachine
  import opened OrderTheorems

  // ----- the terms of an order

  predicate SameTerms(o: Order, p: Order) {
    o.symbol == p.symbol && o.price == p.price && o.totalQty == p.totalQty
  }

  // A submit that is logged, in a state that neither knows the order nor is degraded.
  lemma {:induction false} LoggedSubmit(s: Sys, r: Request)
    requires s.core.up && !s.core.degraded && r.id !in s.core.orders
    ensures var c := Step(Step(s, DoSubmit(r)), DoEnd(r.id, true)).core;
            && r.id in c.orders && HasTerms(c.orders[r.id], r)
            && c.orders[r.id].state == Pending && c.orders[r.id].cumQty == 0 && c.orders[r.id].corr == r.corr
            && c.log == s.core.log + [c.log[|s.core.log|]]
            && var ev := c.log[|s.core.log|];
               && ev.id == r.id && ev.state == Pending && ev.corr == r.corr
               && Created(ev) == c.orders[r.id]
  {
    TruncIsWholePart(r.quantity);
  }

  // In every reachable state a logged submit stores the order with the terms of its request, and a
  // replay of the log brings back the same order.
  lemma {:induction false} SubmitStoresTerms(acts: seq<Action>, r: Request)
    requires LegalFrom(INIT, acts)
    requires var c := RunFrom(INIT, acts).core; c.up && !c.degraded && r.id !in c.orders
    ensures var c := Step(Step(RunFrom(INIT, acts), DoSubmit(r)), DoEnd(r.id, true)).core;
            && r.id in c.orders && HasTerms(c.orders[r.id], r)
            && c.orders[r.id].state == Pending && c.orders[r.id].cumQty == 0 && c.orders[r.id].corr == r.corr
            && r.id in Replay(c.log) && Replay(c.log)[r.id] == c.orders[r.id]
  {
    var s := RunFrom(INIT, acts);
    Reachable(acts);
    LoggedSubmit(s, r);
    NotInLog(s, r.id);
    var log := Step(Step(s, DoSubmit(r)), DoEnd(r.id, true)).core.log;
    ReplayNew(s.core.log, log[|s.core.log|]);
  }

  lemma {:induction false} NotInLog(s: Sys, id: string)
    requires Inv(s) && s.core.up && id !in s.core.orders
    ensures id !in Replay(s.core.log)
  {
    LogLags(s.hist);
    assert TracksOne(s.core, Replay(Events(s.hist)), id);
  }

  lemma {:induction false} ReplayNew(log: seq<Event>, ev: Event)
    requires ev.id !in Replay(log)
    ensures ev.id in Replay(log + [ev]) && Replay(log + [ev])[ev.id] == Created(ev)
  {
    assert (log + [ev])[..|log|] == log;
  }

  // No step changes the terms of an order that it leaves in the registry.
  lemma {:induction false} TermsStand(s: Sys, a: Action, id: string)
    requires id in s.core.orders && a != DoRestart && id in Step(s, a).core.orders
    ensures SameTerms(Step(s, a).core.orders[id], s.core.orders[id])
  {
  }

  // Nor does a crash and a restart.
  lemma {:induction false} TermsComeBack(acts: seq<Action>, id: string)
    requires LegalFrom(INIT, acts) && RunFrom(INIT, acts).core.up && id in Settled(RunFrom(INIT, acts).core)
    ensures var s := RunFrom(INIT, acts);
            id in Restarted(s).core.orders && SameTerms(Restarted(s).core.orders[id], s.core.orders[id])
  {
    Reachable(acts);
    RestartOfOrder(RunFrom(INIT, acts), id);
  }

  // ----- which records may follow each other

  // The states from which a record of this state is accepted.
  function Predecessors(target: Status): set<Status> {
    match target
    case Submitted => {Pending}
    case PartiallyFilled => {Submitted, PartiallyFilled}
    case Filled => {Submitted, PartiallyFilled, PendingCancel}
    case PendingCancel => {Submitted, PartiallyFilled}
    case Canceled => {PendingCancel}
    case Rejected => {Pending, Submitted}
    case _ => {}
  }

  lemma {:induction false} ValidIff(current: Status, target: Status)
    ensures IsValidTransition(current, target) <==> current in Predecessors(target)
  {
  }

  // In every reachable state an append accepts at most the record of its order: the PENDING one of
  // a new order, or one that may follow the state that the order was in.
  lemma {:induction false} RecordsFollowEdges(acts: seq<Action>, id: string, ok: bool)
    requires LegalFrom(INIT, acts)
    ensures var s := RunFrom(INIT, acts); var t := Step(s, DoEnd(id, ok));
            t.hist != s.hist ==>
              && |t.hist| == |s.hist| + 1 && s.hist <= t.hist
              && var e := t.hist[|s.hist|];
                 && e.ev.id == id && e.logged == ok
                 && if id in Settled(s.core) then Settled(s.core)[id].state in Predecessors(e.ev.state)
                    else e.ev.state == Pending
  {
    var s := RunFrom(INIT, acts);
    Reachable(acts);
    if Step(s, DoEnd(id, ok)).hist != s.hist {
      assert TracksOne(s.core, Replay(Events(s.hist)), id);
      ValidIff(s.core.orders[id].state, s.core.flights[id].state);
    }
  }

  // A report that runs alone is refused exactly for an unknown order, for a state that it may not
  // follow, for opening risk in degraded mode, or for an over-fill that the counter shows.
  lemma {:induction false} AcceptedIff(c: Core, id: string, target: Status, delta: int)
    requires c.flights == map[] && (id in c.orders ==> OrderOk(c.orders[id])) && 0 <= delta
    requires id in c.orders ==> c.orders[id].cumQty + delta <= MAX_INT32
    ensures Check(c, id, target, delta) == Accepted <==>
              && id in c.orders
              && c.orders[id].state in Predecessors(target)
              && !(c.degraded && (target == Pending || target == Submitted))
              && (target == PartiallyFilled || target == Filled ==>
                    c.orders[id].cumQty + delta <= c.orders[id].totalQty)
  {
    if id in c.orders { ValidIff(c.orders[id].state, target); }
  }

  // What an accepted report leaves. Only a SUBMITTED record that fails to be logged undoes its call.
  lemma {:induction false} AcceptedReportLeaves(
      c: Core, id: string, target: Status, delta: int, corr: string, ok: bool)
    requires c.flights == map[] && Check(c, id, target, delta) == Accepted
    requires OrderOk(c.orders[id]) && 0 <= delta && c.orders[id].cumQty + delta <= MAX_INT32
    ensures var d := Transition(c, id, target, delta, corr, ok); var o := c.orders[id];
            && (d.degraded <==> c.degraded || !ok)
            && (target == Submitted && !ok ==> d.orders == c.orders)
            && (target != Submitted || ok ==>
                  && d.orders.Keys == c.orders.Keys && d.orders - {id} == c.orders - {id}
                  && SameTerms(d.orders[id], o) && d.orders[id].corr == corr
                  && (target == PartiallyFilled || target == Filled ==>
                        && d.orders[id].cumQty == o.cumQty + delta
                        && d.orders[id].state == if o.cumQty + delta == o.totalQty then Filled else target)
                  && (target != PartiallyFilled && target != Filled ==>
                        d.orders[id].cumQty == o.cumQty && d.orders[id].state == target))
            && (!ok ==> d.log == c.log)
            && (ok ==>
                  && |d.log| == |c.log| + 1 && c.log <= d.log
                  && var ev := d.log[|c.log|];
                     ev.id == id && ev.state == d.orders[id].state && ev.delta == delta && ev.corr == corr)
  {
  }

  // An over-fill that the counter shows ends the process, with the log as it was.
  lemma {:induction false} OverFillCrashes(s: Sys, id: string, target: Status, delta: int, corr: string)
    requires s.core.up && id in s.core.orders && id !in s.core.flights && OrderOk(s.core.orders[id])
    requires target == PartiallyFilled || target == Filled
    requires s.core.orders[id].state in Predecessors(target) && delta >= 0
    requires s.core.orders[id].totalQty < s.core.orders[id].cumQty + delta <= MAX_INT32
    ensures var t := Step(s, DoBegin(id, target, delta, corr));
            !t.core.up && t.core.log == s.core.log && t.hist == s.hist
  {
    ValidIff(s.core.orders[id].state, target);
  }

  // ----- a failed append

  lemma {:induction false} DegradedStays(s: Sys, a: Action)
    requires s.core.degraded && KeepsDegraded(a)
    ensures Step(s, a).core.degraded && Step(s, a).core.orders.Keys <= s.core.orders.Keys
  {
  }

  lemma {:induction false} DegradedRunStays(s: Sys, acts: seq<Action>)
    requires s.core.degraded && StaysDegraded(acts)
    ensures RunFrom(s, acts).core.degraded && RunFrom(s, acts).core.orders.Keys <= s.core.orders.Keys
  {
    if acts != [] {
      var init, a := acts[..|acts| - 1], acts[|acts| - 1];
      assert a in acts;
      DegradedRunStays(s, init);
      DegradedStays(RunFrom(s, init), a);
    }
  }

  // A failed append puts the machine into degraded mode, in which it takes no new order until the
  // mode is lifted or the process restarts.
  lemma {:induction false} FailedAppendDegrades(s: Sys, id: string, acts: seq<Action>)
    requires s.core.up && id in s.core.flights && id in s.core.orders && StaysDegraded(acts)
    ensures var t := Step(s, DoEnd(id, false));
            && t.core.log == s.core.log && t.core.degraded
            && RunFrom(t, acts).core.degraded && RunFrom(t, acts).core.orders.Keys <= t.core.orders.Keys
  {
    DegradedRunStays(Step(s, DoEnd(id, false)), acts);
  }
}
