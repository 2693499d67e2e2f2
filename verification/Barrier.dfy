/** The barrier that gathers the bars of one time for a strategy, with forward fill of the symbols
    that are missing when time moves on (src/alpha_engine/engine.py).

    Slot is what the orchestrator keeps for one strategy; Run feeds it the bars of all symbols in
    their order of arrival, from the registration of the strategy on. */
module Barrier {
  import opened Options

  datatype Bar = Bar(time: int, open: real, high: real, low: real, close: real, volume: real)
  datatype Input = Input(symbol: string, bar: Bar)

  type Bars = map<string, Bar>

  // A call of on_bar: the barrier's time, the bars handed over, and how many bars had arrived.
  datatype Call = Call(time: int, bars: Bars, seen: nat)

  datatype Slot = Slot(time: Option<int>, buffer: Bars, calls: seq<Call>)

  const EMPTY := Slot(None, map[], [])

  function Flat(time: int, price: real): Bar {
    Bar(time, price, price, price, price, 0.0)
  }

  function CloseOf(last: Bars, s: string): real {
    if s in last then last[s].close else 1.0
  }

  // The buffer with every missing subscribed symbol filled forward.
  function Filled(subs: seq<string>, buffer: Bars, last: Bars, time: int): Bars {
    map s | s in buffer.Keys + (set x | x in subs) :: if s in buffer then buffer[s] else Flat(time, CloseOf(last, s))
  }

  // One more symbol: filled forward if it is missing.
  lemma {:induction false} FilledSnoc(subs: seq<string>, s: string, buffer: Bars, last: Bars, time: int)
    ensures var bars := Filled(subs, buffer, last, time);
            Filled(subs + [s], buffer, last, time) ==
              if s in bars then bars else bars[s := Flat(time, CloseOf(last, s))]
  {
    assert forall x :: x in subs + [s] <==> x in subs || x == s;
  }

  function Triggered(slot: Slot, time: int, bars: Bars, seen: nat): Slot {
    slot.(buffer := map[], calls := slot.calls + [Call(time, bars, seen)])
  }

  // The flush of what is waiting, when time moves past it.
  function Flushed(subs: seq<string>, slot: Slot, last: Bars, seen: nat): Slot {
    if slot.time.Some? && |slot.buffer| > 0
    then Triggered(slot, slot.time.value, Filled(subs, slot.buffer, last, slot.time.value), seen)
    else slot
  }

  function IfComplete(subs: seq<string>, slot: Slot, time: int, seen: nat): Slot {
    if |slot.buffer| == |subs| then Triggered(slot, time, slot.buffer, seen) else slot
  }

  // One arriving bar, for one strategy; last already includes it.
  function Arrive(subs: seq<string>, slot: Slot, last: Bars, seen: nat, x: Input): Slot {
    if x.symbol !in subs then slot
    else if slot.time == None || x.bar.time > slot.time.value then
      var moved := Flushed(subs, slot, last, seen).(time := Some(x.bar.time), buffer := map[x.symbol := x.bar]);
      IfComplete(subs, moved, x.bar.time, seen)
    else if x.bar.time == slot.time.value then
      IfComplete(subs, slot.(buffer := slot.buffer[x.symbol := x.bar]), x.bar.time, seen)
    else slot
  }

  // The last bar of every symbol; base holds those of the time before the registration.
  function LastKnown(base: Bars, xs: seq<Input>): Bars {
    if xs == [] then base else LastKnown(base, xs[..|xs| - 1])[xs[|xs| - 1].symbol := xs[|xs| - 1].bar]
  }

  // The program serves a strategy as often as it is registered.
  function Repeated(subs: seq<string>, slot: Slot, last: Bars, seen: nat, x: Input, n: nat): Slot {
    if n == 0 then slot else Arrive(subs, Repeated(subs, slot, last, seen, x, n - 1), last, seen, x)
  }

  // All bars, for a strategy that is registered n times.
  function Run(subs: seq<string>, base: Bars, xs: seq<Input>, n: nat): Slot {
    if xs == [] then EMPTY
    else
      var slot := Run(subs, base, xs[..|xs| - 1], n);
      Repeated(subs, slot, LastKnown(base, xs), |xs|, xs[|xs| - 1], n)
  }

  // ----- the input as such

  predicate NoDuplicates(subs: seq<string>) {
    forall i, j | 0 <= i < j < |subs| :: subs[i] != subs[j]
  }

  predicate Distinct(xs: seq<Input>) {
    forall i, j | 0 <= i < j < |xs| :: xs[i].symbol != xs[j].symbol || xs[i].bar.time != xs[j].bar.time
  }

  // The greatest time of the subscribed bars so far.
  function Clock(subs: seq<string>, xs: seq<Input>): Option<int> {
    if xs == [] then None
    else
      var t, x := Clock(subs, xs[..|xs| - 1]), xs[|xs| - 1];
      if x.symbol in subs && (t == None || x.bar.time > t.value) then Some(x.bar.time) else t
  }

  // The bar of a symbol for a time, if it has arrived.
  function Received(xs: seq<Input>, s: string, time: int): Option<Bar> {
    if xs == [] then None
    else
      var x := xs[|xs| - 1];
      if x.symbol == s && x.bar.time == time then Some(x.bar) else Received(xs[..|xs| - 1], s, time)
  }

  // All subscribed symbols have a bar of this time.
  predicate Full(subs: seq<string>, xs: seq<Input>, time: int) {
    forall s | s in subs :: Received(xs, s, time).Some?
  }

  // A bar of the present time arrives when every symbol of that time has been received.
  predicate Echoes(subs: seq<string>, xs: seq<Input>, x: Input) {
    && NoDuplicates(subs) && x.symbol in subs
    && Clock(subs, xs) == Some(x.bar.time) && Full(subs, xs, x.bar.time)
  }

  // Bar i echoes on arrival, or, for a strategy that is registered more than once, when it is
  // served again.
  predicate EchoesAt(subs: seq<string>, xs: seq<Input>, i: int, n: nat)
    requires 0 <= i < |xs|
  {
    Echoes(subs, xs[..i], xs[i]) || (n >= 2 && Echoes(subs, xs[..i + 1], xs[i]))
  }

  ghost predicate HasEcho(subs: seq<string>, xs: seq<Input>, n: nat) {
    exists i :: 0 <= i < |xs| && EchoesAt(subs, xs, i, n)
  }

  // A subscribed bar that was not behind the barrier's clock when it arrived.
  predicate Timely(subs: seq<string>, xs: seq<Input>, i: nat)
    requires i < |xs|
  {
    && xs[i].symbol in subs
    && var t := Clock(subs, xs[..i]);
       t == None || xs[i].bar.time >= t.value
  }

  // What a call at a time has to carry for a symbol: its bar of that time if it has arrived, else
  // a flat bar without volume at the last close received, or at 1.0 before any.
  function Due(base: Bars, xs: seq<Input>, s: string, time: int): Bar {
    match Received(xs, s, time)
    case Some(bar) => bar
    case None => Flat(time, CloseOf(LastKnown(base, xs), s))
  }

  predicate CallOk(subs: seq<string>, base: Bars, xs: seq<Input>, c: Call) {
    && c.seen <= |xs|
    && c.bars == map s | s in subs :: Due(base, xs[..c.seen], s, c.time)
  }

  ghost predicate CallsOk(subs: seq<string>, base: Bars, xs: seq<Input>, calls: seq<Call>) {
    forall i | 0 <= i < |calls| :: CallOk(subs, base, xs, calls[i])
  }

  // ----- the invariant

  predicate Before(calls: seq<Call>, t: int) {
    calls != [] ==> calls[|calls| - 1].time < t
  }

  predicate Ordered(calls: seq<Call>) {
    forall i, j | 0 <= i < j < |calls| :: calls[i].time < calls[j].time
  }

  // The barrier is open: the bars of the present time are waiting, and they are not complete.
  ghost predicate Open(subs: seq<string>, xs: seq<Input>, slot: Slot) {
    && slot.time.Some?
    && Before(slot.calls, slot.time.value)
    && (forall s :: s in slot.buffer <==> s in subs && Received(xs, s, slot.time.value).Some?)
    && (forall s | s in slot.buffer :: Received(xs, s, slot.time.value) == Some(slot.buffer[s]))
    && (exists s :: s in slot.buffer)
    && |slot.buffer| != |subs|
  }

  // The barrier is closed: the last call was the complete one of the present time.
  ghost predicate Shut(subs: seq<string>, xs: seq<Input>, slot: Slot) {
    && slot.time.Some?
    && slot.buffer == map[]
    && slot.calls != [] && slot.calls[|slot.calls| - 1].time == slot.time.value
    && NoDuplicates(subs) && Full(subs, xs, slot.time.value)
  }

  ghost predicate SlotOk(subs: seq<string>, base: Bars, xs: seq<Input>, slot: Slot) {
    && slot.time == Clock(subs, xs)
    && Ordered(slot.calls)
    && CallsOk(subs, base, xs, slot.calls)
    && (slot == EMPTY || Open(subs, xs, slot) || Shut(subs, xs, slot))
  }

  lemma {:induction false} NothingAfterClock(subs: seq<string>, xs: seq<Input>, s: string, t: int)
    requires s in subs && (Clock(subs, xs) == None || Clock(subs, xs).value < t)
    ensures Received(xs, s, t) == None
  {
    if xs != [] {
      NothingAfterClock(subs, xs[..|xs| - 1], s, t);
    }
  }

  lemma {:induction false} ReceivedWhich(xs: seq<Input>, s: string, t: int)
    ensures Received(xs, s, t).Some? ==>
      exists i :: 0 <= i < |xs| && xs[i] == Input(s, Received(xs, s, t).value) && xs[i].bar.time == t
  {
    if xs != [] {
      var init := xs[..|xs| - 1];
      ReceivedWhich(init, s, t);
      if xs[|xs| - 1].symbol == s && xs[|xs| - 1].bar.time == t {
        assert xs[|xs| - 1] == Input(s, Received(xs, s, t).value);
      } else if Received(init, s, t).Some? {
        var i :| 0 <= i < |init| && init[i] == Input(s, Received(init, s, t).value) && init[i].bar.time == t;
        assert xs[i] == init[i];
      }
    }
  }

  // The bar received is the last one of its symbol and time, and none is missed.
  lemma {:induction false} ReceivedIsLast(xs: seq<Input>, s: string, t: int, i: nat)
    requires i < |xs| && xs[i].symbol == s && xs[i].bar.time == t
    ensures Received(xs, s, t).Some?
    ensures (forall j | i < j < |xs| :: xs[j].symbol != s || xs[j].bar.time != t) ==>
              Received(xs, s, t) == Some(xs[i].bar)
  {
    if i < |xs| - 1 {
      assert xs[..|xs| - 1][i] == xs[i];
      ReceivedIsLast(xs[..|xs| - 1], s, t, i);
      assert forall j | i < j < |xs| - 1 :: xs[..|xs| - 1][j] == xs[j];
    }
  }

  // Row i is the last one of symbol s.
  ghost predicate IsLastOf(xs: seq<Input>, s: string, i: int) {
    0 <= i < |xs| && xs[i].symbol == s && forall j | i < j < |xs| :: xs[j].symbol != s
  }

  lemma {:induction false} LastOfStands(xs: seq<Input>, x: Input, s: string, i: int)
    requires IsLastOf(xs, s, i) && x.symbol != s
    ensures IsLastOf(xs + [x], s, i)
  {
  }

  // The last known bar of a symbol is the last that arrived, or else that of the time before.
  lemma {:induction false} LastKnownIsLast(base: Bars, xs: seq<Input>, s: string)
    ensures (exists i :: IsLastOf(xs, s, i) && s in LastKnown(base, xs) && LastKnown(base, xs)[s] == xs[i].bar)
         || ((forall i | 0 <= i < |xs| :: xs[i].symbol != s)
             && (s in LastKnown(base, xs) <==> s in base)
             && (s in base ==> LastKnown(base, xs)[s] == base[s]))
  {
    if xs != [] {
      var init, x := xs[..|xs| - 1], xs[|xs| - 1];
      assert init + [x] == xs;
      LastKnownIsLast(base, init, s);
      if x.symbol == s {
        assert IsLastOf(xs, s, |xs| - 1);
      } else if i :| IsLastOf(init, s, i) && s in LastKnown(base, init) && LastKnown(base, init)[s] == init[i].bar {
        LastOfStands(init, x, s, i);
        assert xs[i] == init[i];
      }
    }
  }

  lemma {:induction false} NotReceived(xs: seq<Input>, s: string, t: int)
    requires forall i | 0 <= i < |xs| :: xs[i].symbol != s || xs[i].bar.time != t
    ensures Received(xs, s, t) == None
  {
    if xs != [] {
      NotReceived(xs[..|xs| - 1], s, t);
    }
  }

  // With distinct inputs a bar that arrives has not been received before.
  lemma {:induction false} NewIsNew(xs: seq<Input>, x: Input)
    requires Distinct(xs + [x])
    ensures Received(xs, x.symbol, x.bar.time) == None
  {
    var ys := xs + [x];
    forall i | 0 <= i < |xs|
      ensures xs[i].symbol != x.symbol || xs[i].bar.time != x.bar.time
    {
      assert ys[i] == xs[i] && ys[|xs|] == x;
    }
    NotReceived(xs, x.symbol, x.bar.time);
  }

  lemma {:induction false} Snoc(subs: seq<string>, xs: seq<Input>, x: Input)
    ensures Clock(subs, xs + [x])
         == if x.symbol in subs && (Clock(subs, xs) == None || x.bar.time > Clock(subs, xs).value)
            then Some(x.bar.time) else Clock(subs, xs)
    ensures forall s, t :: x.symbol == s && x.bar.time == t ==> Received(xs + [x], s, t) == Some(x.bar)
    ensures forall s, t :: x.symbol != s || x.bar.time != t ==> Received(xs + [x], s, t) == Received(xs, s, t)
  {
    assert (xs + [x])[..|xs|] == xs;
  }

  lemma {:induction false} CallsStand(subs: seq<string>, base: Bars, xs: seq<Input>, x: Input, c: Call)
    requires CallOk(subs, base, xs, c)
    ensures CallOk(subs, base, xs + [x], c)
  {
    assert (xs + [x])[..c.seen] == xs[..c.seen];
  }

  lemma {:induction false} CardOfSubs(subs: seq<string>)
    ensures |set s | s in subs| <= |subs|
    ensures |set s | s in subs| == |subs| <==> NoDuplicates(subs)
  {
    if subs != [] {
      var init, s := subs[..|subs| - 1], subs[|subs| - 1];
      CardOfSubs(init);
      assert (set x | x in subs) == (set x | x in init) + {s};
      NoDuplicatesSnoc(init, s);
      assert init + [s] == subs;
    }
  }

  lemma {:induction false} NoDuplicatesSnoc(init: seq<string>, s: string)
    ensures NoDuplicates(init + [s]) <==> NoDuplicates(init) && s !in init
  {
    var subs := init + [s];
    if NoDuplicates(subs) {
      forall i | 0 <= i < |init|
        ensures init[i] != s
      {
        assert subs[i] != subs[|init|];
      }
      forall i, j | 0 <= i < j < |init|
        ensures init[i] != init[j]
      {
        assert subs[i] != subs[j];
      }
    }
  }

  lemma {:induction false} SameSizeSameSet(a: set<string>, b: set<string>)
    requires a <= b
    ensures |a| <= |b| && (|a| == |b| <==> a == b)
  {
    assert b == a + (b - a);
    assert |b| == |a| + |b - a|;
  }

  // The buffer is as large as the subscription exactly when it holds every subscribed symbol and
  // the subscription names none of them twice.
  lemma {:induction false} CompleteIff(subs: seq<string>, buffer: Bars)
    requires forall s | s in buffer :: s in subs
    ensures |buffer| == |subs| <==> NoDuplicates(subs) && forall s | s in subs :: s in buffer
  {
    CardOfSubs(subs);
    SameSizeSameSet(buffer.Keys, set s | s in subs);
    assert |buffer| == |buffer.Keys|;
  }

  // Handing over a full buffer, or a filled one, gives every symbol its due bar.
  lemma {:induction false} CallIsDue(subs: seq<string>, base: Bars, xs: seq<Input>, buffer: Bars, t: int)
    requires forall s :: s in buffer <==> s in subs && Received(xs, s, t).Some?
    requires forall s | s in buffer :: Received(xs, s, t) == Some(buffer[s])
    ensures CallOk(subs, base, xs, Call(t, Filled(subs, buffer, LastKnown(base, xs), t), |xs|))
    ensures (forall s | s in subs :: s in buffer) ==> CallOk(subs, base, xs, Call(t, buffer, |xs|))
  {
    assert xs[..|xs|] == xs;
  }

  lemma {:induction false} OrderedSnoc(calls: seq<Call>, c: Call)
    requires Ordered(calls) && Before(calls, c.time)
    ensures Ordered(calls + [c])
  {
  }

  // The bars that wait at time t, of which x has just arrived, either stay or are handed over.
  lemma {:induction false} IfCompleteOk(subs: seq<string>, base: Bars, xs: seq<Input>, slot: Slot, t: int)
    requires slot.time == Some(t) && Clock(subs, xs) == Some(t)
    requires Ordered(slot.calls) && Before(slot.calls, t)
    requires CallsOk(subs, base, xs, slot.calls)
    requires forall s :: s in slot.buffer <==> s in subs && Received(xs, s, t).Some?
    requires forall s | s in slot.buffer :: Received(xs, s, t) == Some(slot.buffer[s])
    requires exists s :: s in slot.buffer
    ensures SlotOk(subs, base, xs, IfComplete(subs, slot, t, |xs|))
  {
    CompleteIff(subs, slot.buffer);
    CallIsDue(subs, base, xs, slot.buffer, t);
    OrderedSnoc(slot.calls, Call(t, slot.buffer, |xs|));
    if |slot.buffer| == |subs| {
      assert Shut(subs, xs, IfComplete(subs, slot, t, |xs|));
    } else {
      assert Open(subs, xs, slot);
    }
  }

  lemma {:induction false} CallsStandAll(subs: seq<string>, base: Bars, xs: seq<Input>, x: Input, calls: seq<Call>)
    requires CallsOk(subs, base, xs, calls)
    ensures CallsOk(subs, base, xs + [x], calls)
  {
    forall i | 0 <= i < |calls|
      ensures CallOk(subs, base, xs + [x], calls[i])
    {
      CallsStand(subs, base, xs, x, calls[i]);
    }
  }

  // A bar of another symbol, or one behind the clock, changes nothing for the strategy.
  lemma {:induction false} IgnoredOk(subs: seq<string>, base: Bars, xs: seq<Input>, slot: Slot, x: Input)
    requires SlotOk(subs, base, xs, slot)
    requires x.symbol !in subs || (slot.time.Some? && x.bar.time < slot.time.value)
    ensures SlotOk(subs, base, xs + [x], slot)
  {
    Snoc(subs, xs, x);
    CallsStandAll(subs, base, xs, x, slot.calls);
    if Open(subs, xs, slot) {
      assert Open(subs, xs + [x], slot);
    } else if Shut(subs, xs, slot) {
      assert Shut(subs, xs + [x], slot);
    }
  }

  lemma {:induction false} FlushIsDue(subs: seq<string>, base: Bars, xs: seq<Input>, slot: Slot, x: Input)
    requires Open(subs, xs, slot) && x.bar.time > slot.time.value
    ensures var t, ys := slot.time.value, xs + [x];
            CallOk(subs, base, ys, Call(t, Filled(subs, slot.buffer, LastKnown(base, ys), t), |ys|))
  {
    Snoc(subs, xs, x);
    CallIsDue(subs, base, xs + [x], slot.buffer, slot.time.value);
  }

  lemma {:induction false} CallsOkSnoc(subs: seq<string>, base: Bars, xs: seq<Input>, calls: seq<Call>, c: Call)
    requires CallsOk(subs, base, xs, calls) && CallOk(subs, base, xs, c)
    ensures CallsOk(subs, base, xs, calls + [c])
  {
  }

  lemma {:induction false} FlushOpenOk(subs: seq<string>, base: Bars, xs: seq<Input>, slot: Slot, x: Input)
    requires Open(subs, xs, slot) && Ordered(slot.calls) && CallsOk(subs, base, xs, slot.calls)
    requires x.bar.time > slot.time.value
    ensures var calls := Flushed(subs, slot, LastKnown(base, xs + [x]), |xs| + 1).calls;
            Ordered(calls) && Before(calls, x.bar.time) && CallsOk(subs, base, xs + [x], calls)
  {
    var t, ys := slot.time.value, xs + [x];
    var c := Call(t, Filled(subs, slot.buffer, LastKnown(base, ys), t), |ys|);
    CallsStandAll(subs, base, xs, x, slot.calls);
    FlushIsDue(subs, base, xs, slot, x);
    OrderedSnoc(slot.calls, c);
    CallsOkSnoc(subs, base, ys, slot.calls, c);
    assert slot.buffer != map[];
  }

  lemma {:induction false} FlushOk(subs: seq<string>, base: Bars, xs: seq<Input>, slot: Slot, x: Input)
    requires SlotOk(subs, base, xs, slot) && x.symbol in subs
    requires slot.time == None || x.bar.time > slot.time.value
    ensures var calls := Flushed(subs, slot, LastKnown(base, xs + [x]), |xs| + 1).calls;
            Ordered(calls) && Before(calls, x.bar.time) && CallsOk(subs, base, xs + [x], calls)
  {
    if Open(subs, xs, slot) {
      FlushOpenOk(subs, base, xs, slot, x);
    } else {
      assert slot.buffer == map[];
      CallsStandAll(subs, base, xs, x, slot.calls);
    }
  }

  // A bar ahead of the clock flushes what waits and opens the barrier for its own time.
  lemma {:induction false} AheadOk(subs: seq<string>, base: Bars, xs: seq<Input>, slot: Slot, x: Input)
    requires SlotOk(subs, base, xs, slot) && x.symbol in subs
    requires slot.time == None || x.bar.time > slot.time.value
    ensures SlotOk(subs, base, xs + [x], Arrive(subs, slot, LastKnown(base, xs + [x]), |xs| + 1, x))
  {
    var ys, t := xs + [x], x.bar.time;
    var flushed := Flushed(subs, slot, LastKnown(base, ys), |ys|);
    Snoc(subs, xs, x);
    FlushOk(subs, base, xs, slot, x);
    forall s | s in subs
      ensures Received(ys, s, t).Some? <==> s == x.symbol
    {
      NothingAfterClock(subs, xs, s, t);
    }
    var moved := flushed.(time := Some(t), buffer := map[x.symbol := x.bar]);
    assert x.symbol in moved.buffer;
    IfCompleteOk(subs, base, ys, moved, t);
  }

  // Where every symbol has been received, an open barrier would have been complete.
  lemma {:induction false} OpenIsNotFull(subs: seq<string>, xs: seq<Input>, slot: Slot)
    requires Open(subs, xs, slot) && NoDuplicates(subs)
    ensures !Full(subs, xs, slot.time.value)
  {
    CompleteIff(subs, slot.buffer);
  }

  // A bar of the present time joins those that wait, unless it echoes.
  lemma {:induction false} PresentOk(subs: seq<string>, base: Bars, xs: seq<Input>, slot: Slot, x: Input)
    requires !Echoes(subs, xs, x) && SlotOk(subs, base, xs, slot) && x.symbol in subs
    requires slot.time == Some(x.bar.time)
    ensures SlotOk(subs, base, xs + [x], Arrive(subs, slot, LastKnown(base, xs + [x]), |xs| + 1, x))
  {
    Snoc(subs, xs, x);
    assert Open(subs, xs, slot);
    CallsStandAll(subs, base, xs, x, slot.calls);
    var joined := slot.(buffer := slot.buffer[x.symbol := x.bar]);
    assert x.symbol in joined.buffer;
    IfCompleteOk(subs, base, xs + [x], joined, x.bar.time);
  }

  lemma {:induction false} ArriveOk(subs: seq<string>, base: Bars, xs: seq<Input>, slot: Slot, x: Input)
    requires !Echoes(subs, xs, x) && SlotOk(subs, base, xs, slot)
    ensures SlotOk(subs, base, xs + [x], Arrive(subs, slot, LastKnown(base, xs + [x]), |xs| + 1, x))
  {
    if x.symbol !in subs || (slot.time.Some? && x.bar.time < slot.time.value) {
      IgnoredOk(subs, base, xs, slot, x);
    } else if slot.time == Some(x.bar.time) {
      PresentOk(subs, base, xs, slot, x);
    } else {
      AheadOk(subs, base, xs, slot, x);
    }
  }

  // Serving the last bar once more changes nothing, unless it completed its time.
  lemma {:induction false} AgainIsNothing(
      subs: seq<string>, base: Bars, xs: seq<Input>, slot: Slot, x: Input, last: Bars, seen: nat)
    requires SlotOk(subs, base, xs + [x], slot) && !Echoes(subs, xs + [x], x)
    ensures Arrive(subs, slot, last, seen, x) == slot
  {
    Snoc(subs, xs, x);
    if x.symbol in subs && slot.time == Some(x.bar.time) {
      assert Open(subs, xs + [x], slot);
      assert slot.buffer[x.symbol := x.bar] == slot.buffer;
    }
  }

  lemma {:induction false} RepeatedOk(subs: seq<string>, base: Bars, xs: seq<Input>, slot: Slot, x: Input, n: nat)
    requires n >= 1 && SlotOk(subs, base, xs, slot)
    requires !Echoes(subs, xs, x) && (n >= 2 ==> !Echoes(subs, xs + [x], x))
    ensures SlotOk(subs, base, xs + [x], Repeated(subs, slot, LastKnown(base, xs + [x]), |xs| + 1, x, n))
  {
    var last, seen := LastKnown(base, xs + [x]), |xs| + 1;
    if n == 1 {
      assert Repeated(subs, slot, last, seen, x, 1) == Arrive(subs, slot, last, seen, x);
      ArriveOk(subs, base, xs, slot, x);
    } else {
      RepeatedOk(subs, base, xs, slot, x, n - 1);
      AgainIsNothing(subs, base, xs, Repeated(subs, slot, last, seen, x, n - 1), x, last, seen);
    }
  }

  lemma {:induction false} EchoInit(subs: seq<string>, xs: seq<Input>, x: Input, n: nat)
    ensures HasEcho(subs, xs + [x], n) <==>
              HasEcho(subs, xs, n) || Echoes(subs, xs, x) || (n >= 2 && Echoes(subs, xs + [x], x))
  {
    var ys := xs + [x];
    forall i | 0 <= i < |xs|
      ensures EchoesAt(subs, ys, i, n) <==> EchoesAt(subs, xs, i, n)
    {
      assert ys[..i] == xs[..i] && ys[..i + 1] == xs[..i + 1];
    }
    assert ys[..|xs|] == xs && ys[..|xs| + 1] == ys;
    assert EchoesAt(subs, ys, |xs|, n) <==> Echoes(subs, xs, x) || (n >= 2 && Echoes(subs, ys, x));
  }

  lemma {:induction false} RunOk(subs: seq<string>, base: Bars, xs: seq<Input>, n: nat)
    requires n >= 1 && !HasEcho(subs, xs, n)
    ensures SlotOk(subs, base, xs, Run(subs, base, xs, n))
  {
    if xs != [] {
      var init, x := xs[..|xs| - 1], xs[|xs| - 1];
      assert init + [x] == xs;
      EchoInit(subs, init, x, n);
      RunOk(subs, base, init, n);
      RepeatedOk(subs, base, init, Run(subs, base, init, n), x, n);
    }
  }
}
