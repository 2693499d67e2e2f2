/** What holds of every run of the order state machine, from the empty log on, across any
    interleaving of submits, reports, cancels, failing appends, crashes and restarts. */
module OrderTheorems {
  import opened OrderLog
  import opened OrderMachine

  lemma {:induction false} SettledIsReplay(s: Sys)
    requires Inv(s) && s.core.up
    ensures Settled(s.core) == Replay(Events(s.hist))
  {
    forall id
      ensures id in Settled(s.core) <==> id in Replay(Events(s.hist))
      ensures id in Settled(s.core) ==> Settled(s.core)[id] == Replay(Events(s.hist))[id]
    {
      assert TracksOne(s.core, Replay(Events(s.hist)), id);
    }
  }

  // While no accepted record failed to reach the log, the log replays to the live orders.
  lemma {:induction false} ReplayIsExact(acts: seq<Action>)
    requires LegalFrom(INIT, acts)
    ensures var s := RunFrom(INIT, acts);
            s.core.up && AllLogged(s.hist) ==>
              && Replay(s.core.log) == Settled(s.core)
              && (s.core.flights == map[] ==> Replay(s.core.log) == s.core.orders)
  {
    var s := RunFrom(INIT, acts);
    Reachable(acts);
    if s.core.up && AllLogged(s.hist) {
      SettledIsReplay(s);
      AllLoggedIsExact(s.hist);
      if s.core.flights == map[] {
        assert Settled(s.core) == s.core.orders;
      }
    }
  }

  function Restarted(s: Sys): Sys {
    Step(Step(s, DoCrash), DoRestart)
  }

  // A crash and a restart bring back the same orders, each behind by exactly its lost fills.
  lemma {:induction false} RestartRecovers(acts: seq<Action>)
    requires LegalFrom(INIT, acts) && RunFrom(INIT, acts).core.up
    ensures var s := RunFrom(INIT, acts); var r := Restarted(s);
            && r.core.up && !r.core.degraded && r.core.log == s.core.log
            && Lags(r.core.orders, Settled(s.core))
            && (forall id | id in r.core.orders ::
                  r.core.orders[id].cumQty + LostQty(s.hist, id) == Settled(s.core)[id].cumQty)
            && (AllLogged(s.hist) ==> r.core.orders == Settled(s.core))
  {
    var s := RunFrom(INIT, acts);
    Reachable(acts);
    SettledIsReplay(s);
    LogLags(s.hist);
    ReplayIsExact(acts);
    forall id | id in Settled(s.core)
      ensures Replay(s.core.log)[id].cumQty + LostQty(s.hist, id) == Settled(s.core)[id].cumQty
    {
      ReplayCountsFills(Events(s.hist), id);
      ReplayCountsFills(s.core.log, id);
      LostFillsAreMissing(s.hist, id);
    }
  }

  lemma {:induction false} RestartOfOrder(s: Sys, id: string)
    requires Inv(s) && s.core.up && id in Settled(s.core)
    ensures var r := Restarted(s).core.orders;
            && id in r
            && (r[id] == Settled(s.core)[id] <==> LostQty(s.hist, id) == 0 && SameStanding(s.hist, id))
            && (Terminal(r[id].state) <==> TerminalLogged(s.hist, id))
            && LagsOne(r[id], Settled(s.core)[id])
            && r[id].cumQty + LostQty(s.hist, id) == Settled(s.core)[id].cumQty
  {
    SettledIsReplay(s);
    RestartReplays(s);
    RecoveredOrder(s.hist, id);
  }

  lemma {:induction false} RestartReplays(s: Sys)
    ensures Restarted(s).core == Core(true, Replay(s.core.log), map[], false, s.core.log)
  {
  }

  // What a restart brings back of an order is what it was if and only if no fill of it was lost
  // and its last record, or one like it, was logged; it is terminal if and only if a terminal
  // record was logged.
  lemma {:induction false} RestartIsExactIff(acts: seq<Action>, id: string)
    requires LegalFrom(INIT, acts) && RunFrom(INIT, acts).core.up && id in Settled(RunFrom(INIT, acts).core)
    ensures var s := RunFrom(INIT, acts); var r := Restarted(s).core.orders;
            && id in r
            && (r[id] == Settled(s.core)[id] <==> LostQty(s.hist, id) == 0 && SameStanding(s.hist, id))
            && (Terminal(r[id].state) <==> TerminalLogged(s.hist, id))
  {
    Reachable(acts);
    RestartOfOrder(RunFrom(INIT, acts), id);
  }

  // The log replays to the live orders if and only if this holds of every order.
  lemma {:induction false} ReplayIsExactIff(acts: seq<Action>)
    requires LegalFrom(INIT, acts) && RunFrom(INIT, acts).core.up
    ensures var s := RunFrom(INIT, acts);
            Replay(s.core.log) == Settled(s.core) <==>
              forall id | id in Settled(s.core) :: LostQty(s.hist, id) == 0 && SameStanding(s.hist, id)
  {
    var s := RunFrom(INIT, acts);
    RestartRecovers(acts);
    forall id | id in Settled(s.core)
      ensures Replay(s.core.log)[id] == Settled(s.core)[id] <==> LostQty(s.hist, id) == 0 && SameStanding(s.hist, id)
    {
      RestartIsExactIff(acts, id);
    }
  }

  // Per order, the log keeps a subsequence of the accepted events, from their PENDING record on.
  lemma {:induction false} LogIsFaithful(acts: seq<Action>, id: string)
    requires LegalFrom(INIT, acts)
    ensures var s := RunFrom(INIT, acts);
            var l, a := Project(s.core.log, id), Project(Events(s.hist), id);
            && Subsequence(l, a)
            && (s.core.up ==> (id in Settled(s.core) <==> a != []))
            && (a != [] ==> l != [] && l[0] == a[0] && a[0].state == Pending)
  {
    var s := RunFrom(INIT, acts);
    Reachable(acts);
    LogIsSubsequence(s.hist, id);
    LogKeepsFirstRecord(s.hist, id);
    if s.core.up {
      SettledIsReplay(s);
    }
  }

  // The filled quantity is the sum of the accepted fill deltas and of one booked in flight; it
  // stays within the total, and an order that is not in flight is FILLED once it reaches it.
  lemma {:induction false} FillsAreConserved(acts: seq<Action>, id: string)
    requires LegalFrom(INIT, acts)
    ensures var s := RunFrom(INIT, acts);
            s.core.up && id in s.core.orders ==>
              var o := s.core.orders[id];
              var inFlight := if id in s.core.flights then FillDelta(s.core.flights[id]) else 0;
              && o.cumQty == FilledBy(Events(s.hist), id) + inFlight
              && 0 <= o.cumQty <= o.totalQty
              && (id !in s.core.flights ==> OrderOk(o))
  {
    var s := RunFrom(INIT, acts);
    Reachable(acts);
    if s.core.up && id in s.core.orders {
      var m := Replay(Events(s.hist));
      assert TracksOne(s.core, m, id);
      DisciplinedOrders(Events(s.hist));
      ReplayCountsFills(Events(s.hist), id);
    }
  }

  // In the log nothing follows an order's terminal record, and an order has one PENDING record.
  lemma {:induction false} LogIsDisciplined(acts: seq<Action>, i: nat, j: nat)
    requires LegalFrom(INIT, acts)
    requires i < j < |RunFrom(INIT, acts).core.log|
    ensures var log := RunFrom(INIT, acts).core.log;
            log[i].id == log[j].id ==> !Terminal(log[i].state) && log[j].state != Pending
  {
    var s := RunFrom(INIT, acts);
    Reachable(acts);
    LogLags(s.hist);
    if s.core.log[i].id == s.core.log[j].id {
      TerminalIsLast(s.core.log, i, j);
    }
  }

  // ----- degraded mode

  // Neither an operator nor a restart lifts the degraded mode.
  predicate KeepsDegraded(a: Action) {
    a != DoSetDegraded(false) && a != DoRestart
  }

  predicate StaysDegraded(acts: seq<Action>) {
    forall a | a in acts :: KeepsDegraded(a)
  }

  ghost predicate RiskyInFlight(c: Core) {
    exists id :: id in c.flights && id in c.orders && Risky(c.flights[id].state)
  }

  predicate ReadOnlySince(c: Core, d: Core) {
    && c.log <= d.log
    && (forall i | |c.log| <= i < |d.log| :: !Risky(d.log[i].state))
    && d.orders.Keys <= c.orders.Keys
  }

  lemma {:induction false} DegradedStep(s: Sys, a: Action)
    requires Inv(s) && s.core.degraded && !RiskyInFlight(s.core) && KeepsDegraded(a)
    ensures var t := Step(s, a);
            t.core.degraded && !RiskyInFlight(t.core) && ReadOnlySince(s.core, t.core)
  {
    match a
    case DoEnd(id, ok) =>
      if s.core.up && id in s.core.flights && id in s.core.orders {
        assert !Risky(s.core.flights[id].state);
        forall k | k in s.core.flights - {id}
          ensures k in s.core.orders ==> !Risky(s.core.flights[k].state)
        {
        }
      }
    case DoBegin(id, target, delta, corr) =>
      forall k | k in Step(s, a).core.flights && k != id
        ensures k in s.core.flights
      {
      }
    case _ =>
  }

  lemma {:induction false} DegradedRun(s: Sys, acts: seq<Action>)
    requires Inv(s) && LegalFrom(s, acts) && StaysDegraded(acts)
    requires s.core.degraded && !RiskyInFlight(s.core)
    ensures var t := RunFrom(s, acts);
            t.core.degraded && !RiskyInFlight(t.core) && ReadOnlySince(s.core, t.core)
  {
    if acts != [] {
      var init, a := acts[..|acts| - 1], acts[|acts| - 1];
      assert a in acts;
      DegradedRun(s, init);
      RunKeeps(s, init);
      DegradedStep(RunFrom(s, init), a);
    }
  }

  ghost predicate ReadOnlyForever(s: Sys) {
    forall acts | StaysDegraded(acts) && LegalFrom(s, acts) :: ReadOnlySince(s.core, RunFrom(s, acts).core)
  }

  // Degraded mode keeps PENDING and SUBMITTED records out of the log exactly when no caller had
  // one in flight: past its check of the flag, before its append.
  lemma {:induction false} DegradedIsReadOnlyIff(s: Sys)
    requires Inv(s) && s.core.up && s.core.degraded
    ensures ReadOnlyForever(s) <==> !RiskyInFlight(s.core)
  {
    if RiskyInFlight(s.core) {
      var id :| id in s.core.flights && id in s.core.orders && Risky(s.core.flights[id].state);
      var acts := [DoEnd(id, true)];
      RunOne(s, DoEnd(id, true));
      var t := RunFrom(s, acts);
      assert t.core.log[|s.core.log|] == s.core.flights[id];
      assert !ReadOnlySince(s.core, t.core);
    } else {
      forall acts | StaysDegraded(acts) && LegalFrom(s, acts)
        ensures ReadOnlySince(s.core, RunFrom(s, acts).core)
      {
        DegradedRun(s, acts);
      }
    }
  }

  lemma {:induction false} RunOne(s: Sys, a: Action)
    ensures RunFrom(s, [a]) == Step(s, a)
    ensures LegalFrom(s, [a]) <==> Legal(s, a)
  {
    assert [a][..0] == [];
    assert RunFrom(s, [a][..0]) == s;
  }

  lemma {:induction false} RunSnoc(s: Sys, acts: seq<Action>, a: Action)
    ensures RunFrom(s, acts + [a]) == Step(RunFrom(s, acts), a)
    ensures LegalFrom(s, acts + [a]) <==> LegalFrom(s, acts) && Legal(RunFrom(s, acts), a)
  {
    assert (acts + [a])[..|acts|] == acts;
  }

  // Such a state is reachable: a pause that comes between a submit's check and its append.
  lemma {:induction false} PauseDuringSubmit(r: Request)
    requires 0.0 < r.quantity < 2147483648.0
    ensures var acts := [DoSubmit(r), DoSetDegraded(true)]; var s := RunFrom(INIT, acts);
            && LegalFrom(INIT, acts)
            && s.core.up && s.core.degraded && RiskyInFlight(s.core)
            && !ReadOnlyForever(s)
  {
    var acts := [DoSubmit(r), DoSetDegraded(true)];
    RunOne(INIT, DoSubmit(r));
    RunSnoc(INIT, [DoSubmit(r)], DoSetDegraded(true));
    assert acts == [DoSubmit(r)] + [DoSetDegraded(true)];
    var s := RunFrom(INIT, acts);
    assert r.id in s.core.flights && s.core.flights[r.id].state == Pending;
    Reachable(acts);
    DegradedIsReadOnlyIff(s);
  }

  // ----- races of cancels and fills

  predicate Closing(st: Status) {
    st == PendingCancel || st == Canceled || st == Filled
  }

  // d still has order id; a closing order has stayed closing, a terminal one is as it was.
  predicate StaysClosing(c: Core, d: Core, id: string)
    requires id in c.orders
  {
    && (Closing(c.orders[id].state) ==> id in d.orders && Closing(d.orders[id].state))
    && (Terminal(c.orders[id].state) ==> id in d.orders && d.orders[id] == c.orders[id])
  }

  lemma {:induction false} CancelRaceStep(s: Sys, a: Action, id: string)
    requires Inv(s) && id in s.core.orders && a != DoRestart
    ensures StaysClosing(s.core, Step(s, a).core, id)
  {
    match a
    case DoEnd(k, ok) =>
      if s.core.up && k == id {
        assert TracksOne(s.core, Replay(Events(s.hist)), id);
      }
    case DoBegin(k, target, delta, corr) =>
      assert k == id && Terminal(s.core.orders[id].state) ==> Check(s.core, k, target, delta) != Accepted;
    case _ =>
  }

  // From an accepted cancel on, whoever interferes, the order ends CANCELED or FILLED; and a
  // terminal order never changes again before a restart.
  lemma {:induction false} CancelRace(s: Sys, acts: seq<Action>, id: string)
    requires Inv(s) && LegalFrom(s, acts) && DoRestart !in acts
    requires id in s.core.orders && Closing(s.core.orders[id].state)
    ensures StaysClosing(s.core, RunFrom(s, acts).core, id)
  {
    if acts != [] {
      var init, a := acts[..|acts| - 1], acts[|acts| - 1];
      CancelRace(s, init, id);
      RunKeeps(s, init);
      assert a in acts;
      CancelRaceStep(RunFrom(s, init), a, id);
    }
  }

  // A cancel caller's second transition, whatever ran since its first was accepted, succeeds
  // unless the order went to FILLED or another caller has canceled it or is about to close it.
  lemma {:induction false} SecondHalfOfCancel(s: Sys, id: string, corr: string)
    requires Inv(s) && s.core.up && id in s.core.orders && Closing(s.core.orders[id].state)
    ensures var c := s.core; var v := Check(c, id, Canceled, 0);
            && (v == Accepted <==> c.orders[id].state == PendingCancel && id !in c.flights)
            && (v == Accepted ==> Begin(c, id, Canceled, 0, corr).flights[id].state == Canceled)
            && (v != Accepted ==>
                  || Terminal(c.orders[id].state)
                  || (id in c.flights && (c.flights[id].state == Canceled || c.flights[id].state == Filled)))
  {
    assert TracksOne(s.core, Replay(Events(s.hist)), id);
  }

  // ----- when FILLED means full

  predicate Full(o: Order) {
    o.state == Filled ==> o.cumQty == o.totalQty
  }

  // A report that says FILLED but does not bring the missing quantity.
  predicate ShortReport(o: Order, target: Status, delta: int) {
    target == Filled && o.cumQty + delta < o.totalQty
  }

  // An accepted report leaves a full order if and only if it is not a short FILLED report.
  lemma {:induction false} FilledIsFullIff(c: Core, id: string, target: Status, delta: int, corr: string, ok: bool)
    requires c.up && id in c.orders && OrderOk(c.orders[id])
    requires 0 <= delta && c.orders[id].cumQty + delta <= MAX_INT32
    requires Check(c, id, target, delta) == Accepted
    ensures var d := End(Begin(c, id, target, delta, corr), id, ok);
            id in d.orders && (Full(d.orders[id]) <==> !ShortReport(c.orders[id], target, delta))
  {
  }

  // After a crash, an order recovered as FILLED whose live order was full is full again if and
  // only if none of its fills was lost.
  lemma {:induction false} RecoveredFilledIsFullIff(acts: seq<Action>, id: string)
    requires LegalFrom(INIT, acts) && RunFrom(INIT, acts).core.up
    ensures var s := RunFrom(INIT, acts); var r := Restarted(s).core.orders;
            id in r && r[id].state == Filled && id in Settled(s.core) && Full(Settled(s.core)[id]) ==>
              (Full(r[id]) <==> LostQty(s.hist, id) == 0)
  {
    RestartRecovers(acts);
    var l, m := Restarted(RunFrom(INIT, acts)).core.orders, Settled(RunFrom(INIT, acts).core);
    if id in l && l[id].state == Filled {
      assert LagsOne(l[id], m[id]);
    }
  }

  // No short FILLED report, and no restart once a record was lost.
  predicate Careful(s: Sys, a: Action) {
    match a
    case DoBegin(id, target, delta, _) => id in s.core.orders ==> !ShortReport(s.core.orders[id], target, delta)
    case DoRestart => s.core.up || AllLogged(s.hist)
    case _ => true
  }

  predicate CarefulFrom(s: Sys, acts: seq<Action>) {
    acts == [] ||
    (CarefulFrom(s, acts[..|acts| - 1]) && Careful(RunFrom(s, acts[..|acts| - 1]), acts[|acts| - 1]))
  }

  predicate FlightsFull(c: Core) {
    forall id | id in c.flights && id in c.orders ::
      c.flights[id].state == Filled ==> c.orders[id].cumQty == c.orders[id].totalQty
  }

  ghost predicate AllFull(s: Sys) {
    && (forall id | id in Replay(Events(s.hist)) :: Full(Replay(Events(s.hist))[id]))
    && (s.core.up ==> FlightsFull(s.core))
  }

  // The record in flight for an order leaves it full in the accepted history.
  lemma {:induction false} CommitIsFull(c: Core, m: Orders, id: string)
    requires Tracks(c, m) && AllOk(m) && FlightsFull(c) && id in c.flights && id in c.orders
    ensures c.flights[id].id == id && Full(ReplayEvent(m, c.flights[id])[id])
  {
    assert TracksOne(c, m, id);
  }

  lemma {:induction false} FlightsStayFull(c: Core, id: string, ok: bool)
    requires c.up && FlightsFull(c)
    ensures FlightsFull(End(c, id, ok))
  {
  }

  lemma {:induction false} CarefulEnd(s: Sys, id: string, ok: bool)
    requires Inv(s) && AllFull(s)
    ensures AllFull(Step(s, DoEnd(id, ok)))
  {
    if s.core.up {
      FlightsStayFull(s.core, id, ok);
      if id in s.core.flights && id in s.core.orders && (ok || !Risky(s.core.flights[id].state)) {
        DisciplinedOrders(Events(s.hist));
        CommitIsFull(s.core, Replay(Events(s.hist)), id);
        HistSnoc(s.hist, Entry(s.core.flights[id], ok));
      }
    }
  }

  lemma {:induction false} CarefulStep(s: Sys, a: Action)
    requires Inv(s) && Legal(s, a) && AllFull(s) && Careful(s, a)
    ensures AllFull(Step(s, a))
  {
    match a
    case DoEnd(id, ok) => CarefulEnd(s, id, ok);
    case DoBegin(id, target, delta, corr) =>
      if s.core.up && Check(s.core, id, target, delta) == Accepted {
        assert TracksOne(s.core, Replay(Events(s.hist)), id);
        DisciplinedOrders(Events(s.hist));
      }
    case DoRestart =>
      if !s.core.up {
        AllLoggedIsExact(s.hist);
        AsLoggedIsLog(s.core.log);
      }
    case _ =>
  }

  // Over every run in which venues send no short FILLED report and no restart follows a lost
  // record, FILLED means full.
  lemma {:induction false} CarefulRunsAreFull(acts: seq<Action>)
    requires LegalFrom(INIT, acts) && CarefulFrom(INIT, acts)
    ensures var s := RunFrom(INIT, acts);
            AllFull(s) && (s.core.up ==> forall id | id in Settled(s.core) :: Full(Settled(s.core)[id]))
  {
    if acts != [] {
      var init := acts[..|acts| - 1];
      CarefulRunsAreFull(init);
      Reachable(init);
      CarefulStep(RunFrom(INIT, init), acts[|acts| - 1]);
    }
    Reachable(acts);
    if RunFrom(INIT, acts).core.up {
      SettledIsReplay(RunFrom(INIT, acts));
    }
  }

  // The over-fill check, which compares after the addition, catches exactly the over-fills whose
  // sum still fits an int32.
  lemma {:induction false} OverFillCaughtIff(o: Order, target: Status, delta: int)
    requires OrderOk(o) && IsFill(target) && 0 <= delta <= MAX_INT32 && o.cumQty + delta > o.totalQty
    ensures Booked(o, target, delta) > o.totalQty <==> o.cumQty + delta <= MAX_INT32
  {
  }
}
