/** The order management classes: the log file, the registry of live orders and the server
    (cmd/ems/state/state_machine.go, cmd/ems/state/wal.go, cmd/ems/main.go).

    Each method is one caller running alone. OrderMachine shows that its effect is a composition
    of interleaved steps (OpenIsTwoSteps, TransitionIsTwoSteps), so what OrderTheorems proves of
    every interleaving covers these methods. Whether an append reaches the disk is a parameter. */
module Ems {
  import opened OrderLog
  import opened OrderMachine

  class FileWal {
    var log: seq<Event>

    constructor ()
      ensures log == []
    {
      log := [];
    }

    method Append(ev: Event, written: bool) returns (ok: bool)
      modifies this
      ensures ok == written && log == if written then old(log) + [ev] else old(log)
    {
      if written {
        log := log + [ev];
      }
      return written;
    }
  }

  datatype SubmitResult = Idempotent(runtime: Order) | Stored(runtime: Order) | SubmitRefused
  datatype TransitionResult = Done | Refused(why: Verdict) | WalFailed | Panic

  class StateMachine {
    var orders: Orders
    const wal: FileWal?
    var degraded: bool

    function LogOf(): seq<Event>
      reads wal
    {
      if wal == null then [] else wal.log
    }

    // The state machine between two calls, when no record is in flight.
    function View(): Core
      reads this, wal
    {
      Core(true, orders, map[], degraded, LogOf())
    }

    // This machine is in state c; without a log file, only the memory is.
    ghost predicate Is(c: Core)
      reads this, wal
    {
      && c.up && c.flights == map[]
      && orders == c.orders && degraded == c.degraded
      && (wal != null ==> wal.log == c.log)
    }

    constructor (wal: FileWal?)
      ensures this.wal == wal && View() == Core(true, map[], map[], false, LogOf())
    {
      this.wal := wal;
      orders, degraded := map[], false;
    }

    method SetDegraded(val: bool)
      modifies this`degraded
      ensures Is(old(View()).(degraded := val))
    {
      degraded := val;
    }

    method GetOrder(id: string) returns (found: bool, runtime: Order)
      ensures found <==> id in orders
      ensures found ==> runtime == orders[id]
    {
      if id !in orders {
        return false, Order("", 0.0, 0, 0, Unspecified, "");
      }
      return true, orders[id];
    }

    method SubmitOrder(r: Request, created: bool, sent: bool) returns (res: SubmitResult)
      modifies this, wal
      ensures var before := old(View());
              match res
              case Idempotent(runtime) => r.id in before.orders && runtime == before.orders[r.id] && Is(before)
              case Stored(runtime) =>
                && r.id !in before.orders && !before.degraded
                && (wal == null || (created && sent))
                && runtime == Fresh(r).(state := Submitted)
                && HasTerms(runtime, r) && runtime.corr == r.corr && runtime.cumQty == 0
                && Is(Transition(Open(before, r, true), r.id, Submitted, 0, r.corr, true))
              case SubmitRefused =>
                && r.id !in before.orders
                && (before.degraded || (wal != null && !(created && sent)))
                && Is(if before.degraded then before
                      else if !created then Open(before, r, false)
                      else Transition(Open(before, r, true), r.id, Submitted, 0, r.corr, false))
    {
      if r.id in orders {
        return Idempotent(orders[r.id]);
      }
      if degraded {
        return SubmitRefused;
      }
      TruncIsWholePart(r.quantity);
      orders := orders[r.id := Fresh(r)];
      if wal != null {
        var ok := wal.Append(Opening(r), created);
        if !ok {
          degraded := true;
          orders := orders - {r.id};
          return SubmitRefused;
        }
      }
      var moved := TransitionState(r.id, Submitted, 0, r.corr, sent);
      if moved != Done {
        return SubmitRefused;
      }
      return Stored(orders[r.id]);
    }

    // After a panic the process is gone; the log is as it was.
    method TransitionState(id: string, target: Status, delta: int, corr: string, written: bool)
      returns (res: TransitionResult)
      modifies this, wal
      ensures var before := old(View());
              var v := Check(before, id, target, delta);
              match res
              case Refused(why) => why == v && v != Accepted && v != OverFill && Is(before)
              case Panic => v == OverFill && LogOf() == before.log
              case WalFailed =>
                && v == Accepted && target == Submitted && wal != null && !written
                && Is(Transition(before, id, target, delta, corr, false))
              case Done =>
                && v == Accepted && (target == Submitted ==> written || wal == null)
                && Is(Transition(before, id, target, delta, corr, written || wal == null))
    {
      if id !in orders {
        return Refused(NotFound);
      }
      var runtime := orders[id];
      if !IsValidTransition(runtime.state, target) {
        return Refused(BadTransition);
      }
      if degraded && (target == Pending || target == Submitted) {
        return Refused(ReadOnly);
      }
      var nextState := target;
      if target == PartiallyFilled || target == Filled {
        runtime := runtime.(cumQty := AddInt32(runtime.cumQty, delta));
        if runtime.cumQty > runtime.totalQty {
          return Panic;
        }
        if runtime.cumQty == runtime.totalQty {
          nextState := Filled;
        }
      }
      if wal != null {
        var ok := wal.Append(Event(id, nextState, delta, corr, "", 0.0, 0), written);
        if !ok {
          degraded := true;
          if nextState == Pending || nextState == Submitted {
            return WalFailed;
          }
        }
      }
      orders := orders[id := runtime.(state := nextState, corr := corr)];
      return Done;
    }

    // Replays the log into the registry, which the server does on an empty one.
    method RecoverFromWal(readable: bool) returns (ok: bool)
      modifies this`orders
      ensures ok == (wal == null || readable)
      ensures orders == if ok && wal != null then ReplayOnto(old(orders), wal.log) else old(orders)
    {
      if wal == null {
        return true;
      }
      if !readable {
        return false;
      }
      var events := wal.log;
      for i := 0 to |events|
        invariant wal.log == events
        invariant orders == ReplayOnto(old(orders), events[..i])
      {
        var ev := events[i];
        assert events[..i + 1][..i] == events[..i];
        if ev.id !in orders {
          orders := orders[ev.id := Order(ev.symbol, ev.price, ev.totalQty, 0, ev.state, ev.corr)];
        } else {
          var runtime := orders[ev.id];
          if ev.state == PartiallyFilled || ev.state == Filled {
            runtime := runtime.(cumQty := AddInt32(runtime.cumQty, ev.delta));
          }
          orders := orders[ev.id := runtime.(state := ev.state, corr := ev.corr)];
        }
      }
      assert events[..|events|] == events;
      return true;
    }
  }

  // The reason strings of the answers; error texts are not told apart.
  datatype Reason =
    | SubmitDone | IdempotentRetry | EmsError
    | CancelDone | OrderNotFound | AlreadyTerminal | PendingCancelFailed | CanceledFailed

  datatype Response = Response(status: Status, reason: Reason)

  // Both transitions of a cancel, one after the other.
  function Cancelled(c: Core, id: string, corr: string, first: bool, second: bool): Core
    requires c.flights == map[] && Working(c, id)
  {
    LoneCancel(c, id, corr, first);
    Transition(Transition(c, id, PendingCancel, 0, corr, first), id, Canceled, 0, corr, second)
  }

  class EmsServer {
    const sm: StateMachine

    constructor (sm: StateMachine)
      ensures this.sm == sm
    {
      this.sm := sm;
    }

    method ForcePause()
      modifies sm`degraded
      ensures sm.Is(old(sm.View()).(degraded := true))
    {
      sm.SetDegraded(true);
    }

    // CANCELED is the answer to a cancel if and only if the order was still working.
    method CancelOrder(id: string, corr: string, first: bool, second: bool) returns (resp: Response)
      modifies sm, sm.wal
      ensures var before := old(sm.View());
              && (resp.reason == CancelDone <==> Working(before, id))
              && (Working(before, id) ==>
                    && resp.status == Canceled
                    && sm.Is(Cancelled(before, id, corr, first || sm.wal == null, second || sm.wal == null)))
              && (!Working(before, id) ==> sm.Is(before))
              && (resp.reason == AlreadyTerminal <==>
                    id in before.orders && Terminal(before.orders[id].state))
              && (resp.reason == OrderNotFound <==> id !in before.orders)
    {
      LoneCancel(sm.View(), id, corr, first || sm.wal == null);
      var found, runtime := sm.GetOrder(id);
      if !found {
        return Response(Rejected, OrderNotFound);
      }
      var currentState := runtime.state;
      if currentState == Filled || currentState == Canceled || currentState == Rejected {
        return Response(currentState, AlreadyTerminal);
      }
      var res := sm.TransitionState(id, PendingCancel, 0, corr, first);
      if res != Done {
        return Response(Rejected, PendingCancelFailed);
      }
      res := sm.TransitionState(id, Canceled, 0, corr, second);
      if res != Done {
        return Response(Rejected, CanceledFailed);
      }
      return Response(Canceled, CancelDone);
    }

    method SubmitOrder(r: Request, created: bool, sent: bool) returns (resp: Response)
      modifies sm, sm.wal
      ensures var before := old(sm.View());
              && (resp.reason == IdempotentRetry <==> r.id in before.orders)
              && (r.id in before.orders ==> resp.status == before.orders[r.id].state && sm.Is(before))
              && (resp.reason == SubmitDone <==>
                    && r.id !in before.orders && !before.degraded
                    && (sm.wal == null || (created && sent)))
              && (resp.reason == SubmitDone ==>
                    && resp.status == Submitted
                    && r.id in sm.orders && sm.orders - {r.id} == before.orders
                    && HasTerms(sm.orders[r.id], r) && sm.orders[r.id].state == Submitted
                    && sm.orders[r.id].corr == r.corr && sm.orders[r.id].cumQty == 0)
              && (resp.reason != SubmitDone && r.id !in before.orders ==> resp.status == Rejected)
    {
      var res := sm.SubmitOrder(r, created, sent);
      match res {
        case SubmitRefused => resp := Response(Rejected, EmsError);
        case Idempotent(runtime) => resp := Response(runtime.state, IdempotentRetry);
        case Stored(runtime) => resp := Response(Submitted, SubmitDone);
      }
    }
  }
}
