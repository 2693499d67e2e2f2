/** What the barrier promises over every sequence of bars, and exactly when it breaks its promise
    (src/alpha_engine/engine.py). Nothing is assumed of the subscription, of the bars, or of how
    often the strategy is registered. */
module BarrierTheorems {
  import opened Options
  import opened Barrier

  // ----- the times of the calls

  // The times of the calls, and of the one that is due for the bars that wait, strictly increase.
  predicate InOrder(slot: Slot) {
    Ordered(slot.calls) && (slot.time.Some? && slot.buffer != map[] ==> Before(slot.calls, slot.time.value))
  }

  lemma {:induction false} OkIsInOrder(subs: seq<string>, base: Bars, xs: seq<Input>, slot: Slot)
    requires SlotOk(subs, base, xs, slot)
    ensures InOrder(slot)
  {
    if Open(subs, xs, slot) {
    } else if Shut(subs, xs, slot) {
    }
  }

  lemma {:induction false} CallsOnlyGrow(calls: seq<Call>, more: seq<Call>)
    requires calls <= more && !Ordered(calls)
    ensures !Ordered(more)
  {
    var i, j :| 0 <= i < j < |calls| && calls[i].time >= calls[j].time;
    assert more[i].time >= more[j].time;
  }

  lemma {:induction false} DisorderedSnoc(calls: seq<Call>, c: Call)
    requires !Ordered(calls) || !Before(calls, c.time)
    ensures !Ordered(calls + [c])
  {
    var more := calls + [c];
    if !Ordered(calls) {
      CallsOnlyGrow(calls, more);
    } else {
      assert more[|calls| - 1].time >= more[|calls|].time;
    }
  }

  // Once out of order, the calls stay so.
  lemma {:induction false} DisorderStays(subs: seq<string>, slot: Slot, last: Bars, seen: nat, x: Input)
    requires !InOrder(slot)
    ensures !InOrder(Arrive(subs, slot, last, seen, x))
  {
    if x.symbol in subs {
      if slot.time == None || x.bar.time > slot.time.value {
        var flushed := Flushed(subs, slot, last, seen);
        if flushed != slot {
          DisorderedSnoc(slot.calls, flushed.calls[|slot.calls|]);
        }
        DisorderedStays(subs, flushed.(time := Some(x.bar.time), buffer := map[x.symbol := x.bar]), x.bar.time, seen);
      } else if x.bar.time == slot.time.value {
        var joined := slot.(buffer := slot.buffer[x.symbol := x.bar]);
        assert x.symbol in joined.buffer;
        DisorderedSnoc(slot.calls, Call(x.bar.time, joined.buffer, seen));
      }
    }
  }

  lemma {:induction false} DisorderedStays(subs: seq<string>, slot: Slot, time: int, seen: nat)
    requires !Ordered(slot.calls)
    ensures !InOrder(IfComplete(subs, slot, time, seen))
  {
    DisorderedSnoc(slot.calls, Call(time, slot.buffer, seen));
  }

  // An echo puts the barrier out of order: it opens the time that has been called.
  lemma {:induction false} EchoDisorders(
      subs: seq<string>, base: Bars, xs: seq<Input>, slot: Slot, x: Input, last: Bars, seen: nat)
    requires SlotOk(subs, base, xs, slot) && Echoes(subs, xs, x)
    ensures !InOrder(Arrive(subs, slot, last, seen, x))
  {
    if Open(subs, xs, slot) {
      OpenIsNotFull(subs, xs, slot);
    }
    assert Shut(subs, xs, slot);
    var joined := slot.(buffer := slot.buffer[x.symbol := x.bar]);
    assert x.symbol in joined.buffer;
    DisorderedSnoc(slot.calls, Call(x.bar.time, joined.buffer, seen));
  }

  lemma {:induction false} DisorderStaysRepeated(
      subs: seq<string>, slot: Slot, last: Bars, seen: nat, x: Input, k: nat, n: nat)
    requires k <= n && !InOrder(Repeated(subs, slot, last, seen, x, k))
    ensures !InOrder(Repeated(subs, slot, last, seen, x, n))
    decreases n
  {
    if k < n {
      DisorderStaysRepeated(subs, slot, last, seen, x, k, n - 1);
      DisorderStays(subs, Repeated(subs, slot, last, seen, x, n - 1), last, seen, x);
    }
  }

  lemma {:induction false} RepeatedDisorders(
      subs: seq<string>, base: Bars, xs: seq<Input>, slot: Slot, x: Input, n: nat)
    requires n >= 1 && SlotOk(subs, base, xs, slot)
    requires Echoes(subs, xs, x) || (n >= 2 && Echoes(subs, xs + [x], x))
    ensures !InOrder(Repeated(subs, slot, LastKnown(base, xs + [x]), |xs| + 1, x, n))
  {
    var last, seen := LastKnown(base, xs + [x]), |xs| + 1;
    var once := Arrive(subs, slot, last, seen, x);
    assert Repeated(subs, slot, last, seen, x, 1) == once;
    if Echoes(subs, xs, x) {
      EchoDisorders(subs, base, xs, slot, x, last, seen);
      DisorderStaysRepeated(subs, slot, last, seen, x, 1, n);
    } else {
      ArriveOk(subs, base, xs, slot, x);
      EchoDisorders(subs, base, xs + [x], once, x, last, seen);
      assert Repeated(subs, slot, last, seen, x, 2) == Arrive(subs, once, last, seen, x);
      DisorderStaysRepeated(subs, slot, last, seen, x, 2, n);
    }
  }

  lemma {:induction false} RunSnoc(subs: seq<string>, base: Bars, xs: seq<Input>, x: Input, n: nat)
    ensures Run(subs, base, xs + [x], n)
         == Repeated(subs, Run(subs, base, xs, n), LastKnown(base, xs + [x]), |xs| + 1, x, n)
  {
    assert (xs + [x])[..|xs|] == xs;
  }

  lemma {:induction false} DisorderRunsOn(subs: seq<string>, base: Bars, xs: seq<Input>, x: Input, n: nat)
    requires !InOrder(Run(subs, base, xs, n))
    ensures !InOrder(Run(subs, base, xs + [x], n))
  {
    RunSnoc(subs, base, xs, x, n);
    var slot, last := Run(subs, base, xs, n), LastKnown(base, xs + [x]);
    assert Repeated(subs, slot, last, |xs| + 1, x, 0) == slot;
    DisorderStaysRepeated(subs, slot, last, |xs| + 1, x, 0, n);
  }

  lemma {:induction false} EchoBreaksOrder(subs: seq<string>, base: Bars, xs: seq<Input>, n: nat)
    requires n >= 1 && HasEcho(subs, xs, n)
    ensures !InOrder(Run(subs, base, xs, n))
  {
    var init, x := xs[..|xs| - 1], xs[|xs| - 1];
    assert init + [x] == xs;
    EchoInit(subs, init, x, n);
    if HasEcho(subs, init, n) {
      EchoBreaksOrder(subs, base, init, n);
      DisorderRunsOn(subs, base, init, x, n);
    } else {
      RunOk(subs, base, init, n);
      RepeatedDisorders(subs, base, init, Run(subs, base, init, n), x, n);
      RunSnoc(subs, base, init, x, n);
    }
  }

  // For every subscription, sequence of bars and number of registrations, the times of the calls
  // strictly increase if and only if no bar echoes.
  lemma {:induction false} CallsInOrderIff(subs: seq<string>, base: Bars, xs: seq<Input>, n: nat)
    requires n >= 1
    ensures InOrder(Run(subs, base, xs, n)) <==> !HasEcho(subs, xs, n)
  {
    if HasEcho(subs, xs, n) {
      EchoBreaksOrder(subs, base, xs, n);
    } else {
      RunOk(subs, base, xs, n);
      OkIsInOrder(subs, base, xs, Run(subs, base, xs, n));
    }
  }

  // A strategy that is registered once has no echoes among bars of distinct symbols or times.
  lemma {:induction false} DistinctHasNoEcho(subs: seq<string>, xs: seq<Input>)
    requires Distinct(xs)
    ensures !HasEcho(subs, xs, 1)
  {
    forall i | 0 <= i < |xs|
      ensures !EchoesAt(subs, xs, i, 1)
    {
      assert Distinct(xs[..i] + [xs[i]]);
      NewIsNew(xs[..i], xs[i]);
    }
  }

  // ----- what the calls carry

  // A bar without volume that stands still at the last close of the symbol, or at 1.0 before any.
  predicate IsForwardFill(b: Bar, last: Bars, s: string) {
    && b.open == b.high == b.low == b.close && b.volume == 0.0
    && (s in last ==> b.close == last[s].close)
    && (s !in last ==> b.close == 1.0)
  }

  // Without echoes every call carries exactly the subscribed symbols, each with the bar that was
  // due at the time of the call, all of one time; and the times of the calls strictly increase.
  lemma {:induction false} CallsAreDue(subs: seq<string>, base: Bars, xs: seq<Input>, n: nat, i: nat)
    requires n >= 1 && !HasEcho(subs, xs, n) && i < |Run(subs, base, xs, n).calls|
    ensures var calls := Run(subs, base, xs, n).calls; var c := calls[i];
            && c.seen <= |xs|
            && (forall s :: s in c.bars <==> s in subs)
            && (forall s | s in subs :: c.bars[s].time == c.time && c.bars[s] == Due(base, xs[..c.seen], s, c.time))
            && (i > 0 ==> calls[i - 1].time < c.time)
            && (forall s | s in subs && Received(xs[..c.seen], s, c.time) == None ::
                  IsForwardFill(c.bars[s], LastKnown(base, xs[..c.seen]), s))
  {
    RunOk(subs, base, xs, n);
    var c := Run(subs, base, xs, n).calls[i];
    assert CallOk(subs, base, xs, c);
    forall s | s in subs
      ensures Due(base, xs[..c.seen], s, c.time).time == c.time
    {
      ReceivedWhich(xs[..c.seen], s, c.time);
    }
  }

  // ----- delivery

  predicate Delivered(c: Call, x: Input) {
    c.time == x.bar.time && x.symbol in c.bars && c.bars[x.symbol] == x.bar
  }

  predicate Waiting(slot: Slot, x: Input) {
    slot.time == Some(x.bar.time) && x.symbol in slot.buffer && slot.buffer[x.symbol] == x.bar
  }

  ghost predicate DeliveredOrWaiting(slot: Slot, x: Input) {
    Waiting(slot, x) || exists i :: 0 <= i < |slot.calls| && Delivered(slot.calls[i], x)
  }

  // The bar y is not replaced by x.
  predicate Spares(x: Input, y: Input) {
    x == y || x.symbol != y.symbol || x.bar.time != y.bar.time
  }

  lemma {:induction false} ArriveDelivers(subs: seq<string>, slot: Slot, last: Bars, seen: nat, x: Input, y: Input)
    requires DeliveredOrWaiting(slot, y) && Spares(x, y)
    ensures DeliveredOrWaiting(Arrive(subs, slot, last, seen, x), y)
  {
    var after := Arrive(subs, slot, last, seen, x);
    assert slot.calls <= after.calls;
    if Waiting(slot, y) {
      if !Waiting(after, y) {
        assert Delivered(after.calls[|slot.calls|], y);
      }
    } else {
      var i :| 0 <= i < |slot.calls| && Delivered(slot.calls[i], y);
      assert Delivered(after.calls[i], y);
    }
  }

  lemma {:induction false} RepeatedDelivers(
      subs: seq<string>, slot: Slot, last: Bars, seen: nat, x: Input, y: Input, n: nat)
    requires DeliveredOrWaiting(slot, y) && Spares(x, y)
    ensures DeliveredOrWaiting(Repeated(subs, slot, last, seen, x, n), y)
  {
    if n > 0 {
      RepeatedDelivers(subs, slot, last, seen, x, y, n - 1);
      ArriveDelivers(subs, Repeated(subs, slot, last, seen, x, n - 1), last, seen, x, y);
    }
  }

  lemma {:induction false} ArrivalIsTaken(subs: seq<string>, slot: Slot, last: Bars, seen: nat, x: Input, n: nat)
    requires x.symbol in subs && (slot.time == None || x.bar.time >= slot.time.value) && n >= 1
    ensures DeliveredOrWaiting(Repeated(subs, slot, last, seen, x, n), x)
  {
    if n == 1 {
      var after := Arrive(subs, slot, last, seen, x);
      assert Repeated(subs, slot, last, seen, x, 1) == after;
      if !Waiting(after, x) {
        assert Delivered(after.calls[|after.calls| - 1], x);
      }
    } else {
      ArrivalIsTaken(subs, slot, last, seen, x, n - 1);
      ArriveDelivers(subs, Repeated(subs, slot, last, seen, x, n - 1), last, seen, x, x);
    }
  }

  lemma {:induction false} RepeatedClock(subs: seq<string>, slot: Slot, last: Bars, seen: nat, x: Input, n: nat)
    requires n >= 1
    ensures Repeated(subs, slot, last, seen, x, n).time
         == if x.symbol in subs && (slot.time == None || x.bar.time > slot.time.value)
            then Some(x.bar.time) else slot.time
  {
    if n > 1 {
      RepeatedClock(subs, slot, last, seen, x, n - 1);
    } else {
      assert Repeated(subs, slot, last, seen, x, 1) == Arrive(subs, slot, last, seen, x);
    }
  }

  lemma {:induction false} RunClock(subs: seq<string>, base: Bars, xs: seq<Input>, n: nat)
    requires n >= 1
    ensures Run(subs, base, xs, n).time == Clock(subs, xs)
  {
    if xs != [] {
      var init := xs[..|xs| - 1];
      RunClock(subs, base, init, n);
      RepeatedClock(subs, Run(subs, base, init, n), LastKnown(base, xs), |xs|, xs[|xs| - 1], n);
    }
  }

  // Every timely bar that no later one replaces has been delivered or is still waiting, echoes
  // or not.
  lemma {:induction false} TimelyBarsAreDelivered(subs: seq<string>, base: Bars, xs: seq<Input>, n: nat, i: nat)
    requires n >= 1 && i < |xs| && Timely(subs, xs, i)
    requires forall j | i < j < |xs| :: Spares(xs[j], xs[i])
    ensures DeliveredOrWaiting(Run(subs, base, xs, n), xs[i])
  {
    var init, x := xs[..|xs| - 1], xs[|xs| - 1];
    var slot := Run(subs, base, init, n);
    RunClock(subs, base, init, n);
    if i == |xs| - 1 {
      ArrivalIsTaken(subs, slot, LastKnown(base, xs), |xs|, x, n);
    } else {
      assert init[..i] == xs[..i] && init[i] == xs[i];
      assert forall j | i < j < |init| :: init[j] == xs[j];
      TimelyBarsAreDelivered(subs, base, init, n, i);
      RepeatedDelivers(subs, slot, LastKnown(base, xs), |xs|, x, xs[i], n);
    }
  }

  // While the calls are in order, no bar is delivered in two calls, or is both delivered and
  // waiting.
  lemma {:induction false} DeliveredOnce(slot: Slot, x: Input, i: nat)
    requires InOrder(slot) && i < |slot.calls| && Delivered(slot.calls[i], x)
    ensures !Waiting(slot, x)
    ensures forall j | 0 <= j < |slot.calls| && j != i :: !Delivered(slot.calls[j], x)
  {
    var last := |slot.calls| - 1;
    assert slot.calls[i].time <= slot.calls[last].time;
    forall j | 0 <= j < |slot.calls| && j != i
      ensures slot.calls[j].time != slot.calls[i].time
    {
      assert Ordered(slot.calls);
    }
  }

  // ----- a strategy that is registered more than once

  // One bar of each symbol, all of time 0.
  function Round(subs: seq<string>): seq<Input> {
    if subs == [] then [] else Round(subs[..|subs| - 1]) + [Input(subs[|subs| - 1], Flat(0, 1.0))]
  }

  lemma {:induction false} RoundIs(subs: seq<string>)
    ensures |Round(subs)| == |subs|
    ensures forall i | 0 <= i < |subs| :: Round(subs)[i] == Input(subs[i], Flat(0, 1.0))
  {
    if subs != [] {
      RoundIs(subs[..|subs| - 1]);
    }
  }

  lemma {:induction false} RoundReceives(subs: seq<string>, all: seq<string>)
    requires forall s | s in subs :: s in all
    ensures Full(subs, Round(subs), 0)
    ensures Clock(all, Round(subs)) == if subs == [] then None else Some(0)
  {
    if subs != [] {
      var init, x := subs[..|subs| - 1], Input(subs[|subs| - 1], Flat(0, 1.0));
      RoundReceives(init, all);
      Snoc(all, Round(init), x);
      forall s | s in subs
        ensures Received(Round(subs), s, 0).Some?
      {
        assert s != x.symbol ==> s in init;
      }
    }
  }

  // A later bar: what waits is flushed, out of order.
  lemma {:induction false} FlushShowsDisorder(subs: seq<string>, slot: Slot, last: Bars, seen: nat, x: Input, n: nat)
    requires n >= 1 && !InOrder(slot) && slot.time.Some? && x.symbol in subs && x.bar.time > slot.time.value
    ensures !Ordered(Repeated(subs, slot, last, seen, x, n).calls)
  {
    if n == 1 {
      var flushed := Flushed(subs, slot, last, seen);
      assert Repeated(subs, slot, last, seen, x, 1) == Arrive(subs, slot, last, seen, x);
      if flushed != slot {
        DisorderedSnoc(slot.calls, flushed.calls[|slot.calls|]);
      }
      CallsOnlyGrow(flushed.calls, Arrive(subs, slot, last, seen, x).calls);
    } else {
      FlushShowsDisorder(subs, slot, last, seen, x, n - 1);
      var before := Repeated(subs, slot, last, seen, x, n - 1);
      CallsOnlyGrow(before.calls, Arrive(subs, before, last, seen, x).calls);
    }
  }

  // The last bar of a round completes it, so that serving it again echoes.
  lemma {:induction false} RoundEchoes(subs: seq<string>, n: nat)
    requires NoDuplicates(subs) && subs != [] && n >= 2
    ensures HasEcho(subs, Round(subs), n)
  {
    var round := Round(subs);
    var last := |round| - 1;
    RoundIs(subs);
    RoundReceives(subs, subs);
    assert round[..last + 1] == round;
    assert EchoesAt(subs, round, last, n);
  }

  lemma {:induction false} DistinctRoundThenLater(subs: seq<string>, x: Input)
    requires NoDuplicates(subs) && x.bar.time != 0
    ensures Distinct(Round(subs) + [x])
  {
    RoundIs(subs);
  }

  // Bars on which a strategy that is registered twice or more is called out of order: one of each
  // symbol, then a later one.
  lemma {:induction false} RoundThenLater(subs: seq<string>, base: Bars, n: nat) returns (xs: seq<Input>)
    requires NoDuplicates(subs) && subs != [] && n >= 2
    ensures Distinct(xs) && !Ordered(Run(subs, base, xs, n).calls)
  {
    var round, x := Round(subs), Input(subs[0], Flat(1, 1.0));
    xs := round + [x];
    DistinctRoundThenLater(subs, x);
    RoundEchoes(subs, n);
    EchoBreaksOrder(subs, base, round, n);
    RoundReceives(subs, subs);
    RunClock(subs, base, round, n);
    RunSnoc(subs, base, round, x, n);
    FlushShowsDisorder(subs, Run(subs, base, round, n), LastKnown(base, xs), |round| + 1, x, n);
  }

  // On bars of distinct symbols or times, a strategy is always called in order if and only if it
  // is registered once.
  lemma {:induction false} InOrderIffRegisteredOnce(subs: seq<string>, base: Bars, n: nat)
    requires NoDuplicates(subs) && subs != [] && n >= 1
    ensures (forall xs | Distinct(xs) :: Ordered(Run(subs, base, xs, n).calls)) <==> n == 1
  {
    if n == 1 {
      forall xs | Distinct(xs)
        ensures Ordered(Run(subs, base, xs, n).calls)
      {
        DistinctHasNoEcho(subs, xs);
        CallsInOrderIff(subs, base, xs, 1);
      }
    } else {
      var xs := RoundThenLater(subs, base, n);
    }
  }

  lemma {:induction false} TwiceIs(subs: seq<string>, slot: Slot, last: Bars, seen: nat, x: Input)
    ensures Repeated(subs, slot, last, seen, x, 2)
         == Arrive(subs, Arrive(subs, slot, last, seen, x), last, seen, x)
  {
    assert Repeated(subs, slot, last, seen, x, 1) == Arrive(subs, slot, last, seen, x);
  }

  // The second symbol completes its time, and, served again, opens it again.
  lemma {:induction false} CompletedAndReopened(p: string, q: string, last: Bars, a: Bar, b: Bar)
    requires p != q && a.time == b.time
    ensures Repeated([p, q], Slot(Some(a.time), map[p := a], []), last, 2, Input(q, b), 2)
         == Slot(Some(a.time), map[q := b], [Call(a.time, map[p := a, q := b], 2)])
  {
    var slot, c := Slot(Some(a.time), map[p := a], []), Call(a.time, map[p := a, q := b], 2);
    TwiceIs([p, q], slot, last, 2, Input(q, b));
    TwoEntries(p, q, a, b);
    assert Arrive([p, q], slot, last, 2, Input(q, b)) == Slot(Some(a.time), map[], [c]);
    OneEntry(q, b);
  }

  lemma {:induction false} OneEntry(q: string, b: Bar)
    ensures |map[q := b]| == 1
  {
    assert map[q := b].Keys == {q};
  }

  lemma {:induction false} TwoEntries(p: string, q: string, a: Bar, b: Bar)
    requires p != q
    ensures map[p := a][q := b] == map[p := a, q := b] && |map[p := a, q := b]| == 2
  {
    assert map[p := a, q := b].Keys == {p, q};
  }

  // A later bar flushes what waits for the time that has been called.
  lemma {:induction false} ReopenedIsFlushed(p: string, q: string, last: Bars, calls: seq<Call>, b: Bar, c: Bar)
    requires p != q && b.time < c.time && p in last && last[p] == c
    ensures Repeated([p, q], Slot(Some(b.time), map[q := b], calls), last, 3, Input(p, c), 2).calls
         == calls + [Call(b.time, map[p := Flat(b.time, c.close), q := b], 3)]
  {
    var slot := Slot(Some(b.time), map[q := b], calls);
    TwiceIs([p, q], slot, last, 3, Input(p, c));
    OneEntry(q, b);
    OneEntry(p, c);
    var filled := Filled([p, q], map[q := b], last, b.time);
    assert filled == map[p := Flat(b.time, c.close), q := b] by {
      assert p in [p, q] && q in [p, q];
    }
    var once := Arrive([p, q], slot, last, 3, Input(p, c));
    assert once == Slot(Some(c.time), map[p := c], calls + [Call(b.time, filled, 3)]);
  }

  // Two symbols, registered twice: the call of one time is followed by another of the same time,
  // which has a flat bar at a newer close in place of a bar that was delivered.
  lemma {:induction false} DeliveredBarIsReplaced(p: string, q: string, base: Bars, a: Bar, b: Bar, c: Bar)
    requires p != q && a.time == b.time < c.time
    ensures var xs := [Input(p, a)] + [Input(q, b)] + [Input(p, c)];
            Run([p, q], base, xs, 2).calls ==
              [Call(a.time, map[p := a, q := b], 2)] +
              [Call(a.time, map[p := Flat(a.time, c.close), q := b], 3)]
  {
    var subs, one := [p, q], [Input(p, a)];
    var two := one + [Input(q, b)];
    var three := two + [Input(p, c)];
    RunSnoc(subs, base, [], Input(p, a), 2);
    assert [] + [Input(p, a)] == one;
    TwiceIs(subs, EMPTY, LastKnown(base, one), 1, Input(p, a));
    OneEntry(p, a);
    assert Run(subs, base, one, 2) == Slot(Some(a.time), map[p := a], []);
    RunSnoc(subs, base, one, Input(q, b), 2);
    CompletedAndReopened(p, q, LastKnown(base, two), a, b);
    RunSnoc(subs, base, two, Input(p, c), 2);
    ReopenedIsFlushed(p, q, LastKnown(base, three), Run(subs, base, two, 2).calls, b, c);
  }
}
