/** The per-symbol aggregator with its two bars updated in place, and its output as the list of
    bars sent (cmd/bar_aggregator/main.go). */
module SymbolAggregator {
  import opened Options
  import opened BarAggregator

  class ActiveBar {
    var open: real
    var high: real
    var low: real
    var close: real
    var volume: real
    var startTime: int
    var lastTickTs: int

    function Value(): Bar
      reads this
    {
      Bar(open, high, low, close, volume, startTime, lastTickTs)
    }

    constructor (t: Tick)
      ensures Value() == Opened(t)
    {
      open, high, low, close := t.price, t.price, t.price, t.price;
      volume := t.size;
      startTime, lastTickTs := t.ts - t.ts % WINDOW, t.ts;
    }

    method Absorb(t: Tick)
      modifies this
      ensures Value() == Absorbed(old(Value()), t)
    {
      volume := volume + t.size;
      if t.price > high {
        high := t.price;
      }
      if t.price < low {
        low := t.price;
      }
      if t.ts >= lastTickTs {
        close := t.price;
        lastTickTs := t.ts;
      }
    }
  }

  class Aggregator {
    var currentBar: ActiveBar?
    var previousBar: ActiveBar?
    var sent: seq<Bar>
    ghost var repr: set<object>

    ghost predicate Valid()
      reads this, repr
    {
      && this in repr
      && (currentBar != null ==> currentBar in repr)
      && (previousBar != null ==> previousBar in repr && previousBar != currentBar)
    }

    ghost function Value(): Agg
      requires Valid()
      reads this, repr
    {
      Agg(if currentBar == null then None else Some(currentBar.Value()),
          if previousBar == null then None else Some(previousBar.Value()), sent)
    }

    constructor ()
      ensures Valid() && fresh(repr) && Value() == Run([])
    {
      currentBar, previousBar, sent := null, null, [];
      repr := {this};
    }

    method PublishBar(bar: ActiveBar)
      requires Valid() && bar in repr
      modifies this`sent
      ensures Valid() && sent == old(sent) + [bar.Value()]
    {
      sent := sent + [bar.Value()];
    }

    method ProcessTick(t: Tick)
      requires Valid()
      modifies repr
      ensures Valid() && fresh(repr - old(repr)) && Value() == Step(old(Value()), t)
    {
      var windowStart := t.ts - t.ts % WINDOW;
      if currentBar == null {
        currentBar := new ActiveBar(t);
        repr := repr + {currentBar};
        return;
      }
      if windowStart == currentBar.startTime {
        currentBar.Absorb(t);
        return;
      }
      if windowStart > currentBar.startTime {
        PublishBar(currentBar);
        previousBar := currentBar;
        currentBar := new ActiveBar(t);
        repr := repr + {currentBar};
        return;
      }
      if t.ts >= currentBar.startTime - WATERMARK && previousBar != null && windowStart == previousBar.startTime {
        previousBar.Absorb(t);
        PublishBar(previousBar);
      }
    }

    // Feeding a whole stream of ticks: what holds of Run holds of the objects.
    method ProcessTicks(ts: seq<Tick>)
      requires Valid() && Value() == Run([])
      modifies repr
      ensures Valid() && fresh(repr - old(repr)) && Value() == Run(ts)
    {
      for i := 0 to |ts|
        invariant Valid() && fresh(repr - old(repr)) && Value() == Run(ts[..i])
      {
        assert ts[..i + 1][..i] == ts[..i];
        ProcessTick(ts[i]);
      }
      assert ts[..|ts|] == ts;
    }
  }
}
