/** The strategy orchestrator with its dictionaries updated per incoming bar
    (src/alpha_engine/engine.py). Strategies are known by a number. The dictionaries that the program
    keys by strategy (buffer and current time) are one dictionary of slots here; a slot also
    records what on_bar was given. */
module Orchestrator {
  import opened Options
  import opened Barrier

  function Occurs(ss: seq<nat>, s: nat): nat {
    if ss == [] then 0 else Occurs(ss[..|ss| - 1], s) + if ss[|ss| - 1] == s then 1 else 0
  }

  class StrategyOrchestrator {
    var strategies: seq<nat>
    var symbolsMap: map<nat, seq<string>>
    var slots: map<nat, Slot>
    var lastKnown: Bars
    // How many bars have arrived, and how many had when each strategy was registered.
    var received: nat
    var registeredAt: map<nat, nat>

    predicate Valid()
      reads this
    {
      forall s | s in strategies ::
        s in symbolsMap && s in slots && s in registeredAt && registeredAt[s] <= received
    }

    constructor ()
      ensures Valid() && strategies == [] && lastKnown == map[] && received == 0
    {
      strategies, symbolsMap, slots, lastKnown := [], map[], map[], map[];
      received, registeredAt := 0, map[];
    }

    // Registering a strategy again lists it twice and empties its barrier.
    method RegisterStrategy(s: nat, symbols: seq<string>)
      requires Valid()
      modifies this
      ensures Valid() && strategies == old(strategies) + [s] && symbolsMap == old(symbolsMap)[s := symbols]
      ensures slots == old(slots)[s := EMPTY] && lastKnown == old(lastKnown) && received == old(received)
      ensures registeredAt == old(registeredAt)[s := received]
    {
      strategies := strategies + [s];
      symbolsMap := symbolsMap[s := symbols];
      slots := slots[s := EMPTY];
      registeredAt := registeredAt[s := received];
    }

    // Every strategy takes a step of its own barrier, as often as it is registered.
    method OnIncomingBar(symbol: string, bar: Bar)
      requires Valid()
      modifies this
      ensures Valid() && strategies == old(strategies) && symbolsMap == old(symbolsMap)
      ensures registeredAt == old(registeredAt)
      ensures lastKnown == old(lastKnown)[symbol := bar] && received == old(received) + 1
      ensures forall s | s in strategies :: slots[s] == Served(s, old(slots)[s], Input(symbol, bar), strategies)
    {
      lastKnown := lastKnown[symbol := bar];
      received := received + 1;
      ghost var before := slots;
      for i := 0 to |strategies|
        invariant Valid() && strategies == old(strategies) && symbolsMap == old(symbolsMap)
        invariant registeredAt == old(registeredAt)
        invariant lastKnown == old(lastKnown)[symbol := bar] && received == old(received) + 1
        invariant forall s | s in strategies :: slots[s] == Served(s, before[s], Input(symbol, bar), strategies[..i])
      {
        Deliver(strategies[i], symbol, bar);
        assert strategies[..i + 1][..i] == strategies[..i];
      }
      assert strategies[..|strategies|] == strategies;
    }

    // The number of bars that have arrived since s was registered.
    function SeenBy(s: nat): nat
      requires s in registeredAt && registeredAt[s] <= received
      reads this
    {
      received - registeredAt[s]
    }

    // The barrier of s after one bar, for a list of strategies that are served.
    function Served(s: nat, slot: Slot, x: Input, served: seq<nat>): Slot
      requires s in symbolsMap && s in registeredAt && registeredAt[s] <= received
      reads this
    {
      Repeated(symbolsMap[s], slot, lastKnown, SeenBy(s), x, Occurs(served, s))
    }

    // The body of the loop over strategies.
    method Deliver(s: nat, symbol: string, bar: Bar)
      requires Valid() && s in strategies
      modifies this`slots
      ensures slots == old(slots)[s := Arrive(symbolsMap[s], old(slots)[s], lastKnown, SeenBy(s), Input(symbol, bar))]
    {
      var subscribed := symbolsMap[s];
      if symbol !in subscribed {
        return;
      }
      var time := slots[s].time;
      if time == None || bar.time > time.value {
        if time != None && |slots[s].buffer| > 0 {
          FlushBarrier(s);
        }
        slots := slots[s := slots[s].(time := Some(bar.time), buffer := map[symbol := bar])];
        assert slots[s] == Flushed(subscribed, old(slots)[s], lastKnown, SeenBy(s))
                             .(time := Some(bar.time), buffer := map[symbol := bar]);
      } else if bar.time == time.value {
        slots := slots[s := slots[s].(buffer := slots[s].buffer[symbol := bar])];
      } else {
        return;
      }
      TriggerIfComplete(s);
    }

    // The test at the end of the loop over strategies.
    method TriggerIfComplete(s: nat)
      requires Valid() && s in strategies && slots[s].time.Some?
      modifies this`slots
      ensures var slot := old(slots)[s];
              slots == old(slots)[s := IfComplete(symbolsMap[s], slot, slot.time.value, SeenBy(s))]
    {
      if |slots[s].buffer| == |symbolsMap[s]| {
        Trigger(s);
      }
    }

    // strategy.on_bar with the bars that wait.
    method Trigger(s: nat)
      requires s in slots && s in registeredAt && registeredAt[s] <= received && slots[s].time.Some?
      modifies this`slots
      ensures var slot := old(slots)[s];
              slots == old(slots)[s := Triggered(slot, slot.time.value, slot.buffer, SeenBy(s))]
    {
      var slot := slots[s];
      var call := Call(slot.time.value, slot.buffer, SeenBy(s));
      slots := slots[s := slot.(calls := slot.calls + [call], buffer := map[])];
    }

    method FlushBarrier(s: nat)
      requires Valid() && s in strategies && slots[s].time.Some? && |slots[s].buffer| > 0
      modifies this`slots
      ensures slots == old(slots)[s := Flushed(symbolsMap[s], old(slots)[s], lastKnown, SeenBy(s))]
    {
      var slot, subscribed := slots[s], symbolsMap[s];
      var time, bars := slot.time.value, slot.buffer;
      for i := 0 to |subscribed|
        invariant slots == old(slots)
        invariant bars == Filled(subscribed[..i], slot.buffer, lastKnown, time)
      {
        var symbol := subscribed[i];
        assert subscribed[..i + 1] == subscribed[..i] + [symbol];
        FilledSnoc(subscribed[..i], symbol, slot.buffer, lastKnown, time);
        if symbol !in bars {
          var lastClose := if symbol in lastKnown then lastKnown[symbol].close else 1.0;
          bars := bars[symbol := Bar(time, lastClose, lastClose, lastClose, lastClose, 0.0)];
        }
      }
      assert subscribed[..|subscribed|] == subscribed;
      slots := slots[s := slots[s].(buffer := bars)];
      Trigger(s);
    }

    // Bars fed to an orchestrator since the last registration of s: what holds of Run holds of it.
    method OnIncomingBars(s: nat, xs: seq<Input>)
      requires Valid() && s in strategies && slots[s] == EMPTY && registeredAt[s] == received
      modifies this
      ensures Valid() && s in strategies && symbolsMap == old(symbolsMap)
      ensures slots[s] == Run(symbolsMap[s], old(lastKnown), xs, Occurs(old(strategies), s))
    {
      ghost var past := lastKnown;
      for i := 0 to |xs|
        invariant Valid() && s in strategies && strategies == old(strategies) && symbolsMap == old(symbolsMap)
        invariant registeredAt == old(registeredAt)
        invariant slots[s] == Run(symbolsMap[s], past, xs[..i], Occurs(strategies, s))
        invariant lastKnown == LastKnown(past, xs[..i]) && SeenBy(s) == i
      {
        assert xs[..i + 1][..i] == xs[..i];
        OnIncomingBar(xs[i].symbol, xs[i].bar);
      }
      assert xs[..|xs|] == xs;
    }
  }
}
