/** Aggregation of ticks into one-minute bars with a watermark for late ticks
    (cmd/bar_aggregator/main.go). Timestamps are milliseconds since the epoch. */
module BarAggregator {
  import opened Options
  import opened Finite

  const WINDOW := 60000
  const WATERMARK := 100

  datatype Tick = Tick(ts: nat, price: real, size: real)

  datatype Bar = Bar(
    open: real, high: real, low: real, close: real, volume: real, start: int, lastTs: int)

  // published lists every bar sent, including bars sent again after a late tick.
  datatype Agg = Agg(current: Option<Bar>, previous: Option<Bar>, published: seq<Bar>)

  function WindowOf(t: Tick): int {
    t.ts - t.ts % WINDOW
  }

  function Opened(t: Tick): Bar {
    Bar(t.price, t.price, t.price, t.price, t.size, WindowOf(t), t.ts)
  }

  function Absorbed(b: Bar, t: Tick): Bar {
    b.(volume := b.volume + t.size,
       high := if t.price > b.high then t.price else b.high,
       low := if t.price < b.low then t.price else b.low,
       close := if t.ts >= b.lastTs then t.price else b.close,
       lastTs := if t.ts >= b.lastTs then t.ts else b.lastTs)
  }

  function Step(a: Agg, t: Tick): Agg {
    match a.current
    case None => a.(current := Some(Opened(t)))
    case Some(cur) =>
      if WindowOf(t) == cur.start then a.(current := Some(Absorbed(cur, t)))
      else if WindowOf(t) > cur.start then Agg(Some(Opened(t)), Some(cur), a.published + [cur])
      else if t.ts >= cur.start - WATERMARK && a.previous.Some? && WindowOf(t) == a.previous.value.start then
        var late := Absorbed(a.previous.value, t);
        a.(previous := Some(late), published := a.published + [late])
      else a
  }

  function Run(ts: seq<Tick>): Agg {
    if ts == [] then Agg(None, None, []) else Step(Run(ts[..|ts| - 1]), ts[|ts| - 1])
  }

  // ----- the batch view of the input

  // fronts are the windows that get a bar: each one was ahead of all earlier ticks when it came.
  // taken holds the ticks that count for each of them, in order of arrival.
  datatype Batch = Batch(fronts: seq<int>, taken: map<int, seq<Tick>>)

  predicate IsFront(f: seq<int>, t: Tick) {
    f == [] || WindowOf(t) > f[|f| - 1]
  }

  // A tick counts in the front window or ahead of it, and within the watermark in the window
  // that had the bar before.
  predicate Accepts(f: seq<int>, t: Tick) {
    || IsFront(f, t)
    || WindowOf(t) == f[|f| - 1]
    || (|f| >= 2 && WindowOf(t) == f[|f| - 2] && t.ts >= f[|f| - 1] - WATERMARK)
  }

  function TicksOf(b: Batch, w: int): seq<Tick> {
    if w in b.taken then b.taken[w] else []
  }

  function Count(b: Batch, t: Tick): Batch {
    var w := WindowOf(t);
    Batch(if IsFront(b.fronts, t) then b.fronts + [w] else b.fronts,
          if Accepts(b.fronts, t) then b.taken[w := TicksOf(b, w) + [t]] else b.taken)
  }

  function Tally(ts: seq<Tick>): Batch {
    if ts == [] then Batch([], map[]) else Count(Tally(ts[..|ts| - 1]), ts[|ts| - 1])
  }

  function Fronts(ts: seq<Tick>): seq<int> { Tally(ts).fronts }
  function Taken(ts: seq<Tick>, w: int): seq<Tick> { TicksOf(Tally(ts), w) }

  function Sizes(ts: seq<Tick>): real {
    if ts == [] then 0.0 else Sizes(ts[..|ts| - 1]) + ts[|ts| - 1].size
  }

  function Discarded(ts: seq<Tick>): real {
    if ts == [] then 0.0
    else
      var init, t := ts[..|ts| - 1], ts[|ts| - 1];
      Discarded(init) + if Accepts(Fronts(init), t) then 0.0 else t.size
  }

  // The last arrived of the ticks with the greatest timestamp.
  predicate IsClosing(ts: seq<Tick>, k: int) {
    && 0 <= k < |ts|
    && (forall i | 0 <= i < |ts| :: ts[i].ts <= ts[k].ts)
    && (forall i | k < i < |ts| :: ts[i].ts < ts[k].ts)
  }

  // The bar is the open, high, low, close and volume of these ticks, all of its window.
  ghost predicate Summarizes(b: Bar, ts: seq<Tick>) {
    && ts != []
    && b.open == ts[0].price
    && (forall i | 0 <= i < |ts| :: b.low <= ts[i].price <= b.high && WindowOf(ts[i]) == b.start)
    && (exists i :: 0 <= i < |ts| && ts[i].price == b.high)
    && (exists i :: 0 <= i < |ts| && ts[i].price == b.low)
    && (exists k :: IsClosing(ts, k) && b.close == ts[k].price && b.lastTs == ts[k].ts)
    && b.volume == Sizes(ts)
  }

  lemma {:induction false} OpenedSummarizes(t: Tick)
    ensures Summarizes(Opened(t), [t])
  {
    assert IsClosing([t], 0);
    assert [t][..0] == [];
    assert Sizes([t][..0]) == 0.0;
  }

  lemma {:induction false} ClosingSnoc(ts: seq<Tick>, k: int, t: Tick)
    requires IsClosing(ts, k)
    ensures IsClosing(ts + [t], if t.ts >= ts[k].ts then |ts| else k)
  {
  }

  lemma {:induction false} ExtremesSnoc(b: Bar, ts: seq<Tick>, t: Tick)
    requires Summarizes(b, ts)
    ensures var us, c := ts + [t], Absorbed(b, t);
            && (exists i :: 0 <= i < |us| && us[i].price == c.high)
            && (exists i :: 0 <= i < |us| && us[i].price == c.low)
  {
    var us := ts + [t];
    var h :| 0 <= h < |ts| && ts[h].price == b.high;
    var l :| 0 <= l < |ts| && ts[l].price == b.low;
    assert us[h] == ts[h] && us[l] == ts[l] && us[|ts|] == t;
  }

  lemma {:induction false} AbsorbedSummarizes(b: Bar, ts: seq<Tick>, t: Tick)
    requires Summarizes(b, ts) && WindowOf(t) == b.start
    ensures Summarizes(Absorbed(b, t), ts + [t])
  {
    var us, c := ts + [t], Absorbed(b, t);
    assert us[..|ts|] == ts;
    ExtremesSnoc(b, ts, t);
    var k :| IsClosing(ts, k) && b.close == ts[k].price && b.lastTs == ts[k].ts;
    ClosingSnoc(ts, k, t);
    var k' := if t.ts >= b.lastTs then |ts| else k;
    assert c.close == us[k'].price && c.lastTs == us[k'].ts;
  }

  // The bar last published for each window.
  function Latest(out: seq<Bar>): map<int, Bar> {
    if out == [] then map[] else Latest(out[..|out| - 1])[out[|out| - 1].start := out[|out| - 1]]
  }

  function Volumes(bars: map<int, Bar>): map<int, real> {
    map w | w in bars :: bars[w].volume
  }

  // The volume last published, over all windows published so far.
  ghost function PublishedVolume(a: Agg): real {
    SumMap(Volumes(Latest(a.published)))
  }

  // ----- the streaming form refines the batch form

  function SummaryOf(ts: seq<Tick>): Bar
    requires ts != []
  {
    if |ts| == 1 then Opened(ts[0]) else Absorbed(SummaryOf(ts[..|ts| - 1]), ts[|ts| - 1])
  }

  lemma {:induction false} SummaryMeansSummarizes(ts: seq<Tick>, w: int)
    requires ts != [] && forall t | t in ts :: WindowOf(t) == w
    ensures Summarizes(SummaryOf(ts), ts) && SummaryOf(ts).start == w
  {
    if |ts| == 1 {
      assert ts == [ts[0]];
      OpenedSummarizes(ts[0]);
    } else {
      SummaryMeansSummarizes(ts[..|ts| - 1], w);
      AbsorbedSummarizes(SummaryOf(ts[..|ts| - 1]), ts[..|ts| - 1], ts[|ts| - 1]);
      assert ts[..|ts| - 1] + [ts[|ts| - 1]] == ts;
    }
  }

  lemma {:induction false} SummarySnoc(ts: seq<Tick>, t: Tick)
    ensures SummaryOf(ts + [t]) == if ts == [] then Opened(t) else Absorbed(SummaryOf(ts), t)
  {
    assert (ts + [t])[..|ts|] == ts;
  }

  ghost predicate BatchOk(b: Batch) {
    && (forall i, j | 0 <= i < j < |b.fronts| :: b.fronts[i] < b.fronts[j])
    && (forall w :: w in b.fronts <==> w in b.taken)
    && (forall w | w in b.taken :: b.taken[w] != [])
    && (forall w, t | w in b.taken && t in b.taken[w] :: WindowOf(t) == w)
  }

  lemma {:induction false} CountFrontOk(b: Batch, t: Tick)
    requires BatchOk(b) && IsFront(b.fronts, t)
    ensures BatchOk(Count(b, t))
  {
    var f, w := b.fronts, WindowOf(t);
    forall i | 0 <= i < |f|
      ensures f[i] < w
    {
      assert i < |f| - 1 ==> f[i] < f[|f| - 1];
    }
    assert w !in b.taken by { assert w !in f; }
    MembersSnoc(f, w);
  }

  lemma {:induction false} MembersSnoc(f: seq<int>, w: int)
    ensures forall v :: v in f + [w] <==> v in f || v == w
  {
  }

  lemma {:induction false} CountOldOk(b: Batch, t: Tick)
    requires BatchOk(b) && !IsFront(b.fronts, t) && Accepts(b.fronts, t)
    ensures WindowOf(t) in b.taken && BatchOk(Count(b, t))
  {
    var f, w := b.fronts, WindowOf(t);
    assert w in f by { assert w == f[|f| - 1] || w == f[|f| - 2]; }
  }

  lemma {:induction false} CountOk(b: Batch, t: Tick)
    requires BatchOk(b)
    ensures BatchOk(Count(b, t))
  {
    if IsFront(b.fronts, t) {
      CountFrontOk(b, t);
    } else if Accepts(b.fronts, t) {
      CountOldOk(b, t);
    }
  }

  lemma {:induction false} TallyOk(ts: seq<Tick>)
    ensures BatchOk(Tally(ts))
  {
    if ts != [] {
      TallyOk(ts[..|ts| - 1]);
      CountOk(Tally(ts[..|ts| - 1]), ts[|ts| - 1]);
    }
  }

  // The summary of the ticks that count for w, kept under w.
  predicate Holds(b: Batch, bar: Bar, w: int) {
    w in b.taken && b.taken[w] != [] && bar == SummaryOf(b.taken[w]) && bar.start == w
  }

  // What an aggregator with this much published owes to the batch b, whose front window is last.
  ghost predicate ClosedOk(latest: map<int, Bar>, b: Batch, last: int) {
    && (forall w :: w in latest <==> w in b.taken && w != last)
    && (forall w | w in latest :: Holds(b, latest[w], w))
  }

  // The aggregator holds or has published, for every window with a bar, the summary of the ticks
  // that count for it.
  ghost predicate Tracks(a: Agg, b: Batch) {
    var f := b.fronts;
    if f == [] then a == Agg(None, None, [])
    else
      && a.current.Some? && Holds(b, a.current.value, f[|f| - 1])
      && ClosedOk(Latest(a.published), b, f[|f| - 1])
      && (if |f| == 1 then a.previous == None
          else a.previous.Some? && Holds(b, a.previous.value, f[|f| - 2]))
  }

  lemma {:induction false} LatestSnoc(out: seq<Bar>, b: Bar)
    ensures Latest(out + [b]) == Latest(out)[b.start := b]
  {
    assert (out + [b])[..|out|] == out;
  }

  lemma {:induction false} HoldsElsewhere(b: Batch, t: Tick, bar: Bar, w: int)
    requires Holds(b, bar, w) && (w != WindowOf(t) || !Accepts(b.fronts, t))
    ensures Holds(Count(b, t), bar, w)
  {
  }

  lemma {:induction false} HoldsAbsorbed(b: Batch, t: Tick, bar: Bar)
    requires Holds(b, bar, WindowOf(t)) && Accepts(b.fronts, t)
    ensures Holds(Count(b, t), Absorbed(bar, t), WindowOf(t))
  {
    SummarySnoc(b.taken[WindowOf(t)], t);
  }

  lemma {:induction false} HoldsOpened(b: Batch, t: Tick)
    requires BatchOk(b) && IsFront(b.fronts, t)
    ensures Holds(Count(b, t), Opened(t), WindowOf(t))
  {
    assert WindowOf(t) !in b.taken;
    SummarySnoc([], t);
  }

  lemma {:induction false} FirstTick(b: Batch, t: Tick)
    requires BatchOk(b) && b.fronts == []
    ensures Tracks(Agg(Some(Opened(t)), None, []), Count(b, t))
  {
    HoldsOpened(b, t);
    assert forall w :: w in b.taken <==> w in b.fronts;
  }

  lemma {:induction false} ClosedElsewhere(latest: map<int, Bar>, b: Batch, t: Tick, last: int)
    requires ClosedOk(latest, b, last) && last in b.taken
    requires !Accepts(b.fronts, t) || WindowOf(t) == last
    ensures ClosedOk(latest, Count(b, t), last)
  {
    forall w | w in latest
      ensures Holds(Count(b, t), latest[w], w)
    {
      HoldsElsewhere(b, t, latest[w], w);
    }
  }

  lemma {:induction false} ClosedMore(latest: map<int, Bar>, b: Batch, t: Tick, bar: Bar, last: int)
    requires BatchOk(b) && ClosedOk(latest, b, last) && Holds(b, bar, last)
    requires IsFront(b.fronts, t) && WindowOf(t) != last
    ensures ClosedOk(latest[last := bar], Count(b, t), WindowOf(t))
  {
    assert WindowOf(t) !in b.taken;
    HoldsElsewhere(b, t, bar, last);
    forall w | w in latest
      ensures Holds(Count(b, t), latest[w], w)
    {
      HoldsElsewhere(b, t, latest[w], w);
    }
  }

  lemma {:induction false} ClosedAgain(latest: map<int, Bar>, b: Batch, t: Tick, bar: Bar, last: int)
    requires ClosedOk(latest, b, last) && Holds(b, bar, WindowOf(t))
    requires Accepts(b.fronts, t) && WindowOf(t) != last
    ensures ClosedOk(latest[WindowOf(t) := Absorbed(bar, t)], Count(b, t), last)
  {
    HoldsAbsorbed(b, t, bar);
    forall w | w in latest && w != WindowOf(t)
      ensures Holds(Count(b, t), latest[w], w)
    {
      HoldsElsewhere(b, t, latest[w], w);
    }
  }

  lemma {:induction false} AheadTracks(a: Agg, b: Batch, t: Tick)
    requires BatchOk(b) && Tracks(a, b) && b.fronts != [] && WindowOf(t) > b.fronts[|b.fronts| - 1]
    ensures Tracks(Step(a, t), Count(b, t))
  {
    var last, cur := b.fronts[|b.fronts| - 1], a.current.value;
    HoldsOpened(b, t);
    HoldsElsewhere(b, t, cur, last);
    LatestSnoc(a.published, cur);
    ClosedMore(Latest(a.published), b, t, cur, last);
  }

  // What a tick that adds nothing to the bar before the current one leaves of it.
  lemma {:induction false} PreviousStands(a: Agg, b: Batch, t: Tick)
    requires BatchOk(b) && Tracks(a, b) && |b.fronts| > 1
    requires WindowOf(t) == b.fronts[|b.fronts| - 1] || !Accepts(b.fronts, t)
    ensures Holds(Count(b, t), a.previous.value, b.fronts[|b.fronts| - 2])
  {
    assert b.fronts[|b.fronts| - 2] < b.fronts[|b.fronts| - 1];
    HoldsElsewhere(b, t, a.previous.value, b.fronts[|b.fronts| - 2]);
  }

  lemma {:induction false} PresentTracks(a: Agg, b: Batch, t: Tick)
    requires BatchOk(b) && Tracks(a, b) && b.fronts != [] && WindowOf(t) == b.fronts[|b.fronts| - 1]
    ensures Tracks(Step(a, t), Count(b, t))
  {
    HoldsAbsorbed(b, t, a.current.value);
    ClosedElsewhere(Latest(a.published), b, t, b.fronts[|b.fronts| - 1]);
    if |b.fronts| > 1 { PreviousStands(a, b, t); }
  }

  lemma {:induction false} LateTracks(a: Agg, b: Batch, t: Tick)
    requires BatchOk(b) && Tracks(a, b) && b.fronts != [] && WindowOf(t) < b.fronts[|b.fronts| - 1]
    requires Accepts(b.fronts, t)
    ensures Step(a, t) != a && Tracks(Step(a, t), Count(b, t))
  {
    var last, late := b.fronts[|b.fronts| - 1], Absorbed(a.previous.value, t);
    HoldsElsewhere(b, t, a.current.value, last);
    LatestSnoc(a.published, late);
    HoldsAbsorbed(b, t, a.previous.value);
    ClosedAgain(Latest(a.published), b, t, a.previous.value, last);
  }

  lemma {:induction false} DroppedTracks(a: Agg, b: Batch, t: Tick)
    requires BatchOk(b) && Tracks(a, b) && b.fronts != [] && !Accepts(b.fronts, t)
    ensures Step(a, t) == a && Tracks(a, Count(b, t))
  {
    HoldsElsewhere(b, t, a.current.value, b.fronts[|b.fronts| - 1]);
    ClosedElsewhere(Latest(a.published), b, t, b.fronts[|b.fronts| - 1]);
    if |b.fronts| > 1 { PreviousStands(a, b, t); }
  }

  lemma {:induction false} StepTracks(a: Agg, b: Batch, t: Tick)
    requires BatchOk(b) && Tracks(a, b)
    ensures Tracks(Step(a, t), Count(b, t))
  {
    var f, w := b.fronts, WindowOf(t);
    if f == [] {
      FirstTick(b, t);
    } else if w > f[|f| - 1] {
      AheadTracks(a, b, t);
    } else if w == f[|f| - 1] {
      PresentTracks(a, b, t);
    } else if Accepts(f, t) {
      LateTracks(a, b, t);
    } else {
      DroppedTracks(a, b, t);
    }
  }

  lemma {:induction false} RunTracks(ts: seq<Tick>)
    ensures Tracks(Run(ts), Tally(ts))
  {
    if ts != [] {
      RunTracks(ts[..|ts| - 1]);
      TallyOk(ts[..|ts| - 1]);
      StepTracks(Run(ts[..|ts| - 1]), Tally(ts[..|ts| - 1]), ts[|ts| - 1]);
    }
  }

  // At all times and for every window with a bar, the bar held, or else last published, is the
  // open, high, low, close and volume of exactly the ticks accepted for that window.
  lemma {:induction false} StreamIsBatch(ts: seq<Tick>, w: int)
    requires w in Fronts(ts)
    ensures var a, f := Run(ts), Fronts(ts);
            && a.current.Some?
            && (w == f[|f| - 1] ==> a.current.value.start == w && Summarizes(a.current.value, Taken(ts, w)))
            && (w != f[|f| - 1] ==>
                  && w in Latest(a.published) && Latest(a.published)[w].start == w
                  && Summarizes(Latest(a.published)[w], Taken(ts, w)))
            && (forall k :: k in Latest(a.published) <==> k in f && k != f[|f| - 1])
  {
    RunTracks(ts);
    TallyOk(ts);
    SummaryMeansSummarizes(Taken(ts, w), w);
  }

  // ----- late ticks

  lemma {:induction false} FrontsAreWindows(ts: seq<Tick>, i: nat)
    requires i < |Fronts(ts)|
    ensures Fronts(ts)[i] % WINDOW == 0
  {
    WindowBounds(ts[|ts| - 1]);
    if i < |Fronts(ts[..|ts| - 1])| {
      FrontsAreWindows(ts[..|ts| - 1], i);
    }
  }

  lemma {:induction false} WindowBounds(t: Tick)
    ensures WindowOf(t) % WINDOW == 0 && WindowOf(t) <= t.ts < WindowOf(t) + WINDOW
  {
  }

  lemma {:induction false} NoMultipleBetween(a: int, b: int)
    requires a % WINDOW == 0 && b % WINDOW == 0
    ensures !(a < b < a + WINDOW)
  {
  }

  lemma {:induction false} LateWindow(t: Tick, front: int)
    requires front % WINDOW == 0 && WindowOf(t) < front && t.ts >= front - WATERMARK
    ensures WindowOf(t) == front - WINDOW
  {
  }

  predicate WindowsInOrder(f: seq<int>) {
    && (forall i | 0 <= i < |f| :: f[i] % WINDOW == 0)
    && (forall i, j | 0 <= i < j < |f| :: f[i] < f[j])
  }

  lemma {:induction false} FrontsInOrder(ts: seq<Tick>)
    ensures WindowsInOrder(Fronts(ts))
  {
    TallyOk(ts);
    forall i | 0 <= i < |Fronts(ts)|
      ensures Fronts(ts)[i] % WINDOW == 0
    {
      FrontsAreWindows(ts, i);
    }
  }

  // The window right before the front one can only be the one before it in the list.
  lemma {:induction false} WindowBefore(f: seq<int>)
    requires WindowsInOrder(f) && f != []
    ensures f[|f| - 1] - WINDOW in f <==> |f| >= 2 && f[|f| - 2] == f[|f| - 1] - WINDOW
  {
    var last := f[|f| - 1];
    if last - WINDOW in f {
      var i :| 0 <= i < |f| && f[i] == last - WINDOW;
      NoMultipleBetween(f[i], f[|f| - 2]);
    }
  }

  lemma {:induction false} LateCountsIff(f: seq<int>, t: Tick)
    requires WindowsInOrder(f) && f != [] && WindowOf(t) < f[|f| - 1]
    ensures Accepts(f, t) <==> t.ts >= f[|f| - 1] - WATERMARK && |f| >= 2 && f[|f| - 2] == f[|f| - 1] - WINDOW
    ensures Accepts(f, t) ==> WindowOf(t) == f[|f| - 1] - WINDOW
  {
    if t.ts >= f[|f| - 1] - WATERMARK {
      LateWindow(t, f[|f| - 1]);
    }
  }

  lemma {:induction false} LateStepIsAccept(a: Agg, b: Batch, t: Tick)
    requires BatchOk(b) && Tracks(a, b) && b.fronts != [] && WindowOf(t) < b.fronts[|b.fronts| - 1]
    ensures Step(a, t) != a <==> Accepts(b.fronts, t)
  {
    if Accepts(b.fronts, t) {
      LateTracks(a, b, t);
    } else {
      DroppedTracks(a, b, t);
    }
  }

  lemma {:induction false} LateStepIff(a: Agg, b: Batch, t: Tick)
    requires BatchOk(b) && Tracks(a, b) && WindowsInOrder(b.fronts) && b.fronts != []
    requires WindowOf(t) < b.fronts[|b.fronts| - 1]
    ensures var start := a.current.value.start;
            && (Step(a, t) != a <==>
                  t.ts >= start - WATERMARK && a.previous.Some? && a.previous.value.start + WINDOW == start)
            && (a.previous.Some? && a.previous.value.start + WINDOW == start <==>
                  start - WINDOW in Latest(a.published))
            && (Step(a, t) != a ==> WindowOf(t) == start - WINDOW)
  {
    LateCountsIff(b.fronts, t);
    LateStepIsAccept(a, b, t);
    WindowBefore(b.fronts);
    assert a.current.value.start - WINDOW in Latest(a.published) <==> a.current.value.start - WINDOW in b.fronts;
  }

  // A late tick is taken in if and only if it is within the watermark and the bar before the
  // current one is that of the very window before, which is so if and only if that window has
  // been published at all. The tick then belongs to that bar.
  lemma {:induction false} LateAcceptedIff(ts: seq<Tick>, t: Tick)
    requires Run(ts).current.Some? && WindowOf(t) < Run(ts).current.value.start
    ensures var a := Run(ts); var start := a.current.value.start;
            && (Step(a, t) != a <==>
                  t.ts >= start - WATERMARK && a.previous.Some? && a.previous.value.start + WINDOW == start)
            && (a.previous.Some? && a.previous.value.start + WINDOW == start <==>
                  start - WINDOW in Latest(a.published))
            && (Step(a, t) != a ==> WindowOf(t) == start - WINDOW)
  {
    RunTracks(ts);
    TallyOk(ts);
    FrontsInOrder(ts);
    LateStepIff(Run(ts), Tally(ts), t);
  }

  // The greatest timestamp seen.
  function Newest(ts: seq<Tick>): int {
    if ts == [] then 0
    else
      var n, t := Newest(ts[..|ts| - 1]), ts[|ts| - 1];
      if t.ts > n then t.ts else n
  }

  lemma {:induction false} FrontIsReached(ts: seq<Tick>)
    ensures Fronts(ts) != [] ==> Fronts(ts)[|Fronts(ts)| - 1] <= Newest(ts)
    ensures ts != [] ==> Fronts(ts) != []
  {
    if ts != [] {
      FrontIsReached(ts[..|ts| - 1]);
      WindowBounds(ts[|ts| - 1]);
    }
  }

  lemma {:induction false} LateDropIff(a: Agg, b: Batch, t: Tick)
    requires BatchOk(b) && Tracks(a, b) && WindowsInOrder(b.fronts) && b.fronts != []
    requires WindowOf(t) < b.fronts[|b.fronts| - 1] <= t.ts + WATERMARK
    ensures Accepts(b.fronts, t) <==> WindowOf(t) in Latest(a.published)
    ensures Step(a, t) == a <==> WindowOf(t) !in Latest(a.published)
  {
    LateWindow(t, b.fronts[|b.fronts| - 1]);
    WindowBefore(b.fronts);
    LateCountsIff(b.fronts, t);
    LateStepIsAccept(a, b, t);
    assert WindowOf(t) in Latest(a.published) <==> WindowOf(t) in b.fronts;
  }

  // A tick no more than the watermark behind the newest one is discarded if and only if it is late
  // for a window that has not been published.
  lemma {:induction false} DiscardedIff(ts: seq<Tick>, t: Tick)
    requires ts != [] && t.ts >= Newest(ts) - WATERMARK
    ensures var a := Run(ts);
            && a.current.Some?
            && (!Accepts(Fronts(ts), t) <==>
                  WindowOf(t) < a.current.value.start && WindowOf(t) !in Latest(a.published))
            && (WindowOf(t) < a.current.value.start ==> (Step(a, t) == a <==> WindowOf(t) !in Latest(a.published)))
  {
    FrontIsReached(ts);
    RunTracks(ts);
    TallyOk(ts);
    FrontsInOrder(ts);
    if WindowOf(t) < Fronts(ts)[|Fronts(ts)| - 1] {
      LateDropIff(Run(ts), Tally(ts), t);
    }
  }

  // ----- conservation of size

  function VolumeHeld(a: Agg): real {
    match a.current case Some(b) => b.volume case None => 0.0
  }

  lemma {:induction false} StepConserves(a: Agg, b: Batch, t: Tick)
    requires BatchOk(b) && Tracks(a, b)
    ensures PublishedVolume(Step(a, t)) + VolumeHeld(Step(a, t))
         == PublishedVolume(a) + VolumeHeld(a) + if Accepts(b.fronts, t) then t.size else 0.0
  {
    var f, latest := b.fronts, Latest(a.published);
    if f != [] && WindowOf(t) > f[|f| - 1] {
      var bar := a.current.value;
      LatestSnoc(a.published, bar);
      VolumesUpdate(latest, bar.start, bar);
    } else if f != [] && WindowOf(t) < f[|f| - 1] && Accepts(f, t) {
      var bar := a.previous.value;
      assert bar.start in latest && Holds(b, latest[bar.start], bar.start);
      LatestSnoc(a.published, Absorbed(bar, t));
      VolumesUpdate(latest, bar.start, Absorbed(bar, t));
    }
  }

  lemma {:induction false} VolumesUpdate(bars: map<int, Bar>, w: int, bar: Bar)
    ensures SumMap(Volumes(bars[w := bar]))
         == SumMap(Volumes(bars)) + bar.volume - if w in bars then bars[w].volume else 0.0
  {
    assert Volumes(bars[w := bar]) == Volumes(bars)[w := bar.volume];
    SumMapUpdate(Volumes(bars), w, bar.volume);
    if w in bars {
      SumMapRemove(Volumes(bars), w);
    } else {
      assert Volumes(bars) - {w} == Volumes(bars);
    }
  }

  // The sizes fed in: the volume last published for each closed window, the volume of the
  // current bar, and the sizes of the discarded ticks.
  lemma {:induction false} SizesAreConserved(ts: seq<Tick>)
    ensures Sizes(ts) == PublishedVolume(Run(ts)) + VolumeHeld(Run(ts)) + Discarded(ts)
  {
    if ts == [] {
      assert Volumes(map[]) == map[];
    } else {
      var init, t := ts[..|ts| - 1], ts[|ts| - 1];
      SizesAreConserved(init);
      RunTracks(init);
      TallyOk(init);
      StepConserves(Run(init), Tally(init), t);
    }
  }

  // ----- chronological input

  predicate Chronological(ts: seq<Tick>) {
    forall i, j | 0 <= i < j < |ts| :: ts[i].ts <= ts[j].ts
  }

  function InWindow(ts: seq<Tick>, w: int): seq<Tick> {
    if ts == [] then []
    else InWindow(ts[..|ts| - 1], w) + if WindowOf(ts[|ts| - 1]) == w then [ts[|ts| - 1]] else []
  }

  // All bars in order: those published, then the current one.
  function Output(a: Agg): seq<Bar> {
    a.published + match a.current { case Some(b) => [b] case None => [] }
  }

  lemma {:induction false} WindowsAreMonotone(t: Tick, u: Tick)
    requires t.ts <= u.ts
    ensures WindowOf(t) <= WindowOf(u)
  {
  }

  // On chronological input nothing is late: the window of the last tick is the front one, and
  // every tick counts.
  lemma {:induction false} ChronologicalTakesAll(ts: seq<Tick>, w: int)
    requires Chronological(ts)
    ensures ts != [] ==> Fronts(ts) != [] && Fronts(ts)[|Fronts(ts)| - 1] == WindowOf(ts[|ts| - 1])
    ensures Taken(ts, w) == InWindow(ts, w)
  {
    if ts != [] {
      var init, t := ts[..|ts| - 1], ts[|ts| - 1];
      ChronologicalTakesAll(init, w);
      if init != [] {
        WindowsAreMonotone(init[|init| - 1], t);
      }
    }
  }

  // ... and each window is published once, when the next one starts.
  lemma {:induction false} ChronologicalPublishesInOrder(ts: seq<Tick>)
    requires Chronological(ts)
    ensures |Output(Run(ts))| == |Fronts(ts)|
    ensures forall i | 0 <= i < |Fronts(ts)| :: Output(Run(ts))[i].start == Fronts(ts)[i]
  {
    if ts != [] {
      var init, t := ts[..|ts| - 1], ts[|ts| - 1];
      ChronologicalPublishesInOrder(init);
      RunTracks(init);
      if init != [] {
        ChronologicalTakesAll(init, 0);
        WindowsAreMonotone(init[|init| - 1], t);
      }
    }
  }

  // On chronological input the published bars followed by the current one are the input grouped
  // by windows: one bar per window that occurs, in order, summarizing all ticks of the window.
  lemma {:induction false} ChronologicalIsGroupBy(ts: seq<Tick>, i: nat)
    requires Chronological(ts) && i < |Output(Run(ts))|
    ensures var bars := Output(Run(ts));
            && Summarizes(bars[i], InWindow(ts, bars[i].start))
            && (i > 0 ==> bars[i - 1].start < bars[i].start)
            && (forall t | t in ts :: exists j :: 0 <= j < |bars| && bars[j].start == WindowOf(t))
  {
    var a, f, bars := Run(ts), Fronts(ts), Output(Run(ts));
    ChronologicalPublishesInOrder(ts);
    ChronologicalTakesAll(ts, f[i]);
    TallyOk(ts);
    StreamIsBatch(ts, f[i]);
    if i < |f| - 1 {
      assert forall j | 0 <= j < |a.published| :: a.published[j] == bars[j];
      LatestOfDistinct(a.published, i);
    }
    forall t | t in ts
      ensures exists j :: 0 <= j < |bars| && bars[j].start == WindowOf(t)
    {
      ChronologicalTakesAll(ts, WindowOf(t));
      InWindowHas(ts, t);
      var j :| 0 <= j < |f| && f[j] == WindowOf(t);
      assert bars[j].start == f[j];
    }
  }

  lemma {:induction false} InWindowHas(ts: seq<Tick>, t: Tick)
    requires t in ts
    ensures t in InWindow(ts, WindowOf(t))
  {
    if ts[|ts| - 1] != t {
      InWindowHas(ts[..|ts| - 1], t);
    }
  }

  lemma {:induction false} LatestOfDistinct(out: seq<Bar>, i: nat)
    requires i < |out| && forall j | 0 <= j < |out| && j != i :: out[j].start != out[i].start
    ensures out[i].start in Latest(out) && Latest(out)[out[i].start] == out[i]
  {
    if i < |out| - 1 {
      var init := out[..|out| - 1];
      assert init[i] == out[i];
      LatestOfDistinct(init, i);
    }
  }
}
