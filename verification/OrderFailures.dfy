/** Inputs and runs on which the order state machine falls short of what one might expect of it; the
    exact conditions are in OrderTheorems. */
module OrderFailures {
  import opened OrderLog
  import opened OrderMachine
  import opened OrderTheorems

  // A venue that reports FILLED for 60 of 100 leaves the order FILLED and short.
  lemma {:induction false} ShortReportIsAccepted()
    ensures var c := Core(true, map["a" := Order("AAPL", 1.0, 100, 0, Submitted, "x")], map[], false, []);
            && Check(c, "a", Filled, 60) == Accepted
            && Transition(c, "a", Filled, 60, "y", true).orders["a"] == Order("AAPL", 1.0, 100, 60, Filled, "y")
  {
  }

  // A wrapped counter passes the check: 60 filled of 100 and a report of the greatest int32.
  lemma {:induction false} WrappedReportIsAccepted()
    ensures var c := Core(true, map["a" := Order("AAPL", 1.0, 100, 60, PartiallyFilled, "x")], map[], false, []);
            && Check(c, "a", PartiallyFilled, MAX_INT32) == Accepted
            && Transition(c, "a", PartiallyFilled, MAX_INT32, "y", true).orders["a"].cumQty < 0
  {
  }

  // ----- two runs in which a record is lost

  // The two halves of a transition by a caller that runs alone.
  function Report(id: string, target: Status, delta: int, corr: string, ok: bool): seq<Action> {
    [DoBegin(id, target, delta, corr)] + [DoEnd(id, ok)]
  }

  function SubmitRun(r: Request): seq<Action> {
    [DoSubmit(r)] + [DoEnd(r.id, true)] + Report(r.id, Submitted, 0, r.corr, true)
  }

  function HistOf(h: seq<Entry>, ev: Event, ok: bool): seq<Entry> {
    if ok || !Risky(ev.state) then h + [Entry(ev, ok)] else h
  }

  // What a report leaves whose two halves run back to back.
  function After(s: Sys, id: string, target: Status, delta: int, corr: string, ok: bool): Sys
    requires Check(s.core, id, target, delta) == Accepted
  {
    Sys(Transition(s.core, id, target, delta, corr, ok),
        HistOf(s.hist, Record(s.core.orders[id], id, target, delta, corr), ok))
  }

  // After these steps from INIT, each of them legal, the system is s.
  predicate Reaches(acts: seq<Action>, s: Sys) {
    LegalFrom(INIT, acts) && RunFrom(INIT, acts) == s
  }

  lemma {:induction false} ReportRun(
      acts: seq<Action>, s: Sys, id: string, target: Status, delta: int, corr: string, ok: bool)
    requires Reaches(acts, s) && s.core.up && s.core.flights == map[] && 0 <= delta
    requires Check(s.core, id, target, delta) == Accepted && s.core.orders[id].cumQty + delta <= MAX_INT32
    ensures Reaches(acts + Report(id, target, delta, corr, ok), After(s, id, target, delta, corr, ok))
  {
    var a, b := DoBegin(id, target, delta, corr), DoEnd(id, ok);
    RunSnoc(INIT, acts, a);
    RunSnoc(INIT, acts + [a], b);
    assert acts + Report(id, target, delta, corr, ok) == acts + [a] + [b];
    TransitionIsTwoSteps(s.core, id, target, delta, corr, ok);
  }

  lemma {:induction false} LossSnoc(h: seq<Entry>, e: Entry, id: string)
    ensures LostQty(h + [e], id) == LostQty(h, id) + if e.ev.id == id && !e.logged then FillDelta(e.ev) else 0
  {
    assert (h + [e])[..|h|] == h;
  }

  // Order id is the only one, nothing is in flight, and lost of its fills is lost.
  predicate Solo(s: Sys, id: string, o: Order, lost: int) {
    && s.core.up && s.core.flights == map[] && s.core.orders == map[id := o]
    && LostQty(s.hist, id) == lost
  }

  // What a submit leaves that runs alone and whose records are both logged.
  function Opened(r: Request): Sys {
    Sys(Open(INIT.core, r, true), [Entry(Opening(r), true)])
  }

  function SubmittedSys(r: Request): Sys {
    After(Opened(r), r.id, Submitted, 0, r.corr, true)
  }

  lemma {:induction false} SubmitReaches(r: Request)
    requires 0.0 < r.quantity < 2147483648.0
    ensures Reaches(SubmitRun(r), SubmittedSys(r))
  {
    var first := [DoSubmit(r)] + [DoEnd(r.id, true)];
    RunOne(INIT, DoSubmit(r));
    RunSnoc(INIT, [DoSubmit(r)], DoEnd(r.id, true));
    OpenIsTwoSteps(INIT.core, r, true);
    ReportRun(first, Opened(r), r.id, Submitted, 0, r.corr, true);
  }

  lemma {:induction false} SubmitIsSolo(r: Request)
    ensures Solo(SubmittedSys(r), r.id, Fresh(r).(state := Submitted), 0)
    ensures AllLogged(SubmittedSys(r).hist)
  {
    var e, f := Entry(Opening(r), true), Entry(Record(Fresh(r), r.id, Submitted, 0, r.corr), true);
    LossSnoc([], e, r.id);
    LossSnoc([e], f, r.id);
    assert [] + [e] == [e];
  }

  predicate Admits(o: Order, target: Status, delta: int) {
    && IsValidTransition(o.state, target) && !Risky(target)
    && 0 <= delta && 0 <= o.cumQty && o.cumQty + delta <= MAX_INT32
    && (IsFill(target) ==> o.cumQty + delta <= o.totalQty)
  }

  lemma {:induction false} ReportIsSolo(
      s: Sys, id: string, o: Order, lost: int, target: Status, delta: int, corr: string, ok: bool)
    requires Solo(s, id, o, lost) && Admits(o, target, delta)
    ensures Check(s.core, id, target, delta) == Accepted
    ensures var t := After(s, id, target, delta, corr, ok);
            && Solo(t, id, Moved(o, target, delta, corr), lost + if ok || !IsFill(target) then 0 else delta)
            && t.hist == s.hist + [Entry(Record(o, id, target, delta, corr), ok)]
            && (!ok ==> t.core.log == s.core.log)
  {
    LossSnoc(s.hist, Entry(Record(o, id, target, delta, corr), ok), id);
    assert map[id := o][id := Moved(o, target, delta, corr)] == map[id := Moved(o, target, delta, corr)];
  }

  // One more report: the run goes on.
  lemma {:induction false} ReportReaches(
      acts: seq<Action>, s: Sys, id: string, o: Order, lost: int, target: Status, delta: int, corr: string, ok: bool)
    returns (next: seq<Action>, t: Sys)
    requires Reaches(acts, s) && Solo(s, id, o, lost) && Admits(o, target, delta)
    ensures Reaches(next, t)
    ensures Solo(t, id, Moved(o, target, delta, corr), lost + if ok || !IsFill(target) then 0 else delta)
    ensures t.hist == s.hist + [Entry(Record(o, id, target, delta, corr), ok)]
    ensures !ok ==> t.core.log == s.core.log
  {
    ReportIsSolo(s, id, o, lost, target, delta, corr, ok);
    ReportRun(acts, s, id, target, delta, corr, ok);
    next, t := acts + Report(id, target, delta, corr, ok), After(s, id, target, delta, corr, ok);
  }

  // ----- a partial fill whose append fails, and then the last fill of the order

  lemma {:induction false} LostFillReaches(acts: seq<Action>, s: Sys, id: string, o: Order, part: int, corr: string)
    returns (next: seq<Action>, t: Sys)
    requires Reaches(acts, s) && Solo(s, id, o, 0) && o.state == Submitted && o.cumQty == 0
    requires 0 < part < o.totalQty <= MAX_INT32
    ensures Reaches(next, t)
    ensures Solo(t, id, o.(cumQty := o.totalQty, state := Filled, corr := corr), part) && TerminalLogged(t.hist, id)
  {
    var rest := o.totalQty - part;
    var first, mid := ReportReaches(acts, s, id, o, 0, PartiallyFilled, part, corr, false);
    var p := Moved(o, PartiallyFilled, part, corr);
    next, t := ReportReaches(first, mid, id, p, part, Filled, rest, corr, true);
    assert Entry(Record(p, id, Filled, rest, corr), true) in t.hist;
  }

  lemma {:induction false} BackToTerminal(s: Sys, id: string, o: Order, lost: int)
    requires Inv(s) && Solo(s, id, o, lost) && TerminalLogged(s.hist, id)
    ensures var r := Restarted(s).core.orders;
            && id in r && r[id].state == o.state && r[id].totalQty == o.totalQty && r[id].cumQty == o.cumQty - lost
  {
    assert Settled(s.core) == s.core.orders;
    RestartOfOrder(s, id);
  }

  // There is a run that ends with a full order, which a crash and a restart bring back FILLED and
  // short by any part of it.
  lemma {:induction false} LostFillComesBackShort(r: Request, part: int, corr: string) returns (acts: seq<Action>)
    requires r.quantity < 2147483648.0 && 0 < part < Trunc(r.quantity)
    ensures var live, back := RunFrom(INIT, acts), Restarted(RunFrom(INIT, acts));
            && LegalFrom(INIT, acts) && live.core.up
            && live.core.orders == map[r.id := Fresh(r).(cumQty := Trunc(r.quantity), state := Filled, corr := corr)]
            && r.id in back.core.orders
            && back.core.orders[r.id].state == Filled
            && back.core.orders[r.id].cumQty == back.core.orders[r.id].totalQty - part
  {
    SubmitReaches(r);
    SubmitIsSolo(r);
    var t;
    acts, t := LostFillReaches(SubmitRun(r), SubmittedSys(r), r.id, Fresh(r).(state := Submitted), part, corr);
    Reachable(acts);
    BackToTerminal(t, r.id, Fresh(r).(cumQty := Trunc(r.quantity), state := Filled, corr := corr), part);
  }

  // ----- a cancel whose second append fails

  lemma {:induction false} LostCancelReaches(acts: seq<Action>, s: Sys, id: string, o: Order, corr: string)
    returns (first: seq<Action>, asked: Sys, next: seq<Action>, t: Sys)
    requires Reaches(acts, s) && Solo(s, id, o, 0) && o.state == Submitted && o.cumQty == 0 && AllLogged(s.hist)
    ensures Reaches(first, asked) && AllLogged(asked.hist)
    ensures Solo(asked, id, o.(state := PendingCancel, corr := corr), 0)
    ensures Reaches(next, t) && t.core.log == asked.core.log
    ensures Solo(t, id, o.(state := Canceled, corr := corr), 0)
  {
    first, asked := ReportReaches(acts, s, id, o, 0, PendingCancel, 0, corr, true);
    next, t := ReportReaches(first, asked, id, Moved(o, PendingCancel, 0, corr), 0, Canceled, 0, corr, false);
  }

  lemma {:induction false} BackToLogged(s: Sys, t: Sys)
    requires Inv(s) && s.core.up && s.core.flights == map[] && AllLogged(s.hist) && t.core.log == s.core.log
    ensures Restarted(t).core.orders == s.core.orders && Restarted(t).core.flights == map[]
  {
    SettledIsReplay(s);
    AllLoggedIsExact(s.hist);
    RestartReplays(t);
    assert Settled(s.core) == s.core.orders;
  }

  lemma {:induction false} FillsAgain(c: Core, id: string, o: Order)
    requires c.orders == map[id := o] && c.flights == map[]
    requires o.state == PendingCancel && o.cumQty == 0 && 0 <= o.totalQty <= MAX_INT32
    ensures Check(c, id, Filled, o.totalQty) == Accepted
  {
  }

  // There is a run that loses no fill and ends with a CANCELED order, which a crash and a restart
  // bring back PENDING_CANCEL: a fill of it is accepted again.
  lemma {:induction false} LostCancelComesBack(r: Request, corr: string) returns (acts: seq<Action>)
    requires 0.0 < r.quantity < 2147483648.0
    ensures var live, back := RunFrom(INIT, acts), Restarted(RunFrom(INIT, acts));
            && LegalFrom(INIT, acts) && live.core.up && LostQty(live.hist, r.id) == 0
            && live.core.orders == map[r.id := Fresh(r).(state := Canceled, corr := corr)]
            && back.core.orders == map[r.id := Fresh(r).(state := PendingCancel, corr := corr)]
            && Check(back.core, r.id, Filled, Trunc(r.quantity)) == Accepted
  {
    SubmitReaches(r);
    SubmitIsSolo(r);
    var first, asked, t;
    first, asked, acts, t :=
      LostCancelReaches(SubmitRun(r), SubmittedSys(r), r.id, Fresh(r).(state := Submitted), corr);
    Reachable(first);
    BackToLogged(asked, t);
    FillsAgain(Restarted(t).core, r.id, Fresh(r).(state := PendingCancel, corr := corr));
  }
}
