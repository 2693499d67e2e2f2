/** The one-pass drawdown statistics of a NAV series (src/alpha_engine/analytics.py) against their
    definitions over all pairs of points and all runs of points. */
module Drawdown {
  import opened Options

  // The greatest value up to and including point j.
  function RunningMax(nav: seq<real>, j: int): real
    requires 0 <= j < |nav|
  {
    if j == 0 then nav[0]
    else if nav[j] >= RunningMax(nav, j - 1) then nav[j]
    else RunningMax(nav, j - 1)
  }

  // The relative loss from point i to point j.
  function Loss(nav: seq<real>, i: int, j: int): real
    requires 0 <= i < |nav| && 0 <= j < |nav| && nav[i] != 0.0
  {
    (nav[i] - nav[j]) / nav[i]
  }

  lemma {:induction false} RunningMaxIsMax(nav: seq<real>, i: int, j: int)
    requires 0 <= i <= j < |nav|
    ensures nav[i] <= RunningMax(nav, j) && RunningMax(nav, i) <= RunningMax(nav, j)
  {
    if i < j {
      RunningMaxIsMax(nav, i, j - 1);
    }
  }

  predicate Below(nav: seq<real>, j: int)
    requires 0 <= j < |nav|
  {
    nav[j] < RunningMax(nav, j)
  }

  // The loss from the running maximum; undefined below a maximum of zero.
  predicate Undefined(nav: seq<real>, j: int)
    requires 0 <= j < |nav|
  {
    Below(nav, j) && RunningMax(nav, j) == 0.0
  }

  function DrawdownAt(nav: seq<real>, j: int): real
    requires 0 <= j < |nav|
  {
    if !Below(nav, j) || Undefined(nav, j) then 0.0 else (RunningMax(nav, j) - nav[j]) / RunningMax(nav, j)
  }

  // All points from a up to b, without b, are below the running maximum.
  predicate UnderWater(nav: seq<real>, a: int, b: int)
    requires 0 <= a <= b <= |nav|
  {
    forall k | a <= k < b :: Below(nav, k)
  }

  // d is the length of the longest stretch below the running maximum among the first n points.
  ghost predicate LongestUnderWater(nav: seq<real>, n: int, d: int)
    requires 0 <= n <= |nav|
  {
    && (exists a, b :: 0 <= a <= b <= n && b - a == d && UnderWater(nav, a, b))
    && (forall a, b | 0 <= a <= b <= n :: UnderWater(nav, a, b) ==> b - a <= d)
  }

  datatype Worst = Worst(drawdown: real, peak: nat, trough: nat)

  // The deepest drawdown among the first n points: reached first at the trough, and measured from
  // the last point before it that stood at the running maximum.
  predicate DeepestOf(nav: seq<real>, n: int, w: Worst)
    requires 0 < n <= |nav|
  {
    && w.peak <= w.trough < n
    && nav[w.peak] == RunningMax(nav, w.trough)
    && w.drawdown == DrawdownAt(nav, w.trough)
    && (forall j | 0 <= j < n :: DrawdownAt(nav, j) <= w.drawdown)
    && (forall j | 0 <= j < w.trough :: DrawdownAt(nav, j) < w.drawdown)
    && (w.trough > 0 ==> forall j | w.peak < j <= w.trough :: Below(nav, j))
  }

  datatype Statistics = Statistics(worst: Worst, maxDuration: nat, series: seq<real>)

  ghost predicate IsScanOf(nav: seq<real>, s: Statistics)
    requires nav != []
  {
    && |s.series| == |nav| && (forall j | 0 <= j < |nav| :: s.series[j] == DrawdownAt(nav, j))
    && DeepestOf(nav, |nav|, s.worst)
    && LongestUnderWater(nav, |nav|, s.maxDuration)
  }

  // What the scan knows when it has passed the first i points.
  ghost predicate Scanned(nav: seq<real>, i: int, peak: int, run: int, s: Statistics)
    requires 0 < i <= |nav|
  {
    && 0 <= peak < i && nav[peak] == RunningMax(nav, i - 1) && (forall k | peak < k < i :: Below(nav, k))
    && 0 <= run <= s.maxDuration && PresentStretch(nav, i, run) && LongestUnderWater(nav, i, s.maxDuration)
    && |s.series| == i && (forall j | 0 <= j < i :: s.series[j] == DrawdownAt(nav, j))
    && DeepestOf(nav, i, s.worst) && s.worst.drawdown >= 0.0
  }

  lemma {:induction false} ScannedRises(nav: seq<real>, i: int, peak: int, run: int, s: Statistics)
    requires 0 < i < |nav| && Scanned(nav, i, peak, run, s) && nav[i] >= nav[peak]
    ensures Scanned(nav, i + 1, i, 0, s.(series := s.series + [0.0])) && !Undefined(nav, i)
  {
    LongestGrows(nav, i, s.maxDuration, run);
    DeepestGrows(nav, i, s.worst, i);
  }

  lemma {:induction false} ScannedFalls(nav: seq<real>, i: int, peak: int, run: int, s: Statistics, dd: real)
    requires 0 < i < |nav| && Scanned(nav, i, peak, run, s) && nav[i] < nav[peak] && nav[peak] != 0.0
    requires dd == (nav[peak] - nav[i]) / nav[peak]
    ensures var w := if dd > s.worst.drawdown then Worst(dd, peak, i) else s.worst;
            var longest := if run + 1 > s.maxDuration then run + 1 else s.maxDuration;
            Scanned(nav, i + 1, peak, run + 1, Statistics(w, longest, s.series + [dd])) && !Undefined(nav, i)
  {
    LongestGrows(nav, i, s.maxDuration, run);
    DeepestGrows(nav, i, s.worst, peak);
  }

  // None when the program fails on a division by zero.
  method Scan(nav: seq<real>) returns (s: Option<Statistics>)
    requires |nav| >= 2
    ensures s == None <==> exists j :: 0 <= j < |nav| && Undefined(nav, j)
    ensures s.Some? ==> IsScanOf(nav, s.value)
  {
    var peakNav, peakIdx := nav[0], 0;
    var w := Worst(0.0, 0, 0);
    var series := [0.0];
    var duration, maxDuration := 0, 0;
    assert UnderWater(nav, 0, 0);
    for i := 1 to |nav|
      invariant 0 <= peakIdx < i && nav[peakIdx] == peakNav
      invariant forall j | 0 <= j < i :: !Undefined(nav, j)
      invariant Scanned(nav, i, peakIdx, duration, Statistics(w, maxDuration, series))
    {
      var value := nav[i];
      var dd := 0.0;
      ghost var before, run := Statistics(w, maxDuration, series), duration;
      if value >= peakNav {
        ScannedRises(nav, i, peakIdx, run, before);
        peakNav, peakIdx, duration := value, i, 0;
      } else {
        duration := duration + 1;
        if duration > maxDuration {
          maxDuration := duration;
        }
        if peakNav == 0.0 {
          assert Undefined(nav, i);
          return None;
        }
        dd := (peakNav - value) / peakNav;
        ScannedFalls(nav, i, peakIdx, run, before, dd);
        if dd > w.drawdown {
          w := Worst(dd, peakIdx, i);
        }
      }
      series := series + [dd];
    }
    return Some(Statistics(w, maxDuration, series));
  }

  lemma {:induction false} DeepestGrows(nav: seq<real>, i: int, w: Worst, peak: nat)
    requires 0 < i < |nav| && DeepestOf(nav, i, w)
    requires peak <= i && nav[peak] == RunningMax(nav, i) && forall k | peak < k <= i :: Below(nav, k)
    ensures var dd := DrawdownAt(nav, i);
            DeepestOf(nav, i + 1, if dd > w.drawdown then Worst(dd, peak, i) else w)
  {
  }

  // The stretch below the running maximum that ends with point i - 1 has this length.
  predicate PresentStretch(nav: seq<real>, i: int, run: int)
    requires 0 <= i <= |nav|
  {
    && 0 <= run <= i && UnderWater(nav, i - run, i)
    && (run < i ==> !Below(nav, i - run - 1))
  }

  // One more point: the present stretch, and the longest one.
  lemma {:induction false} LongestGrows(nav: seq<real>, i: int, d: int, run: int)
    requires 0 <= i < |nav| && 0 <= d && LongestUnderWater(nav, i, d) && PresentStretch(nav, i, run)
    ensures var next := if Below(nav, i) then run + 1 else 0;
            PresentStretch(nav, i + 1, next) && LongestUnderWater(nav, i + 1, if next > d then next else d)
  {
    var next := if Below(nav, i) then run + 1 else 0;
    var m := if next > d then next else d;
    if next > d {
      assert UnderWater(nav, i + 1 - next, i + 1);
    } else {
      var a, b :| 0 <= a <= b <= i && b - a == d && UnderWater(nav, a, b);
      assert b <= i + 1;
    }
    forall a, b | 0 <= a <= b <= i + 1 && UnderWater(nav, a, b)
      ensures b - a <= m
    {
      assert next < i + 1 ==> !(a <= i - next < b);
    }
  }

  // The first point after the trough that is back at the value of the peak.
  method FindRecovery(nav: seq<real>, peak: nat, trough: nat) returns (r: Option<nat>)
    requires peak < |nav| && trough < |nav|
    ensures r.Some? ==> trough < r.value < |nav| && nav[r.value] >= nav[peak]
    ensures forall k | trough < k < (if r.Some? then r.value else |nav|) :: nav[k] < nav[peak]
  {
    for i := trough + 1 to |nav|
      invariant forall k | trough < k < i :: nav[k] < nav[peak]
    {
      if nav[i] >= nav[peak] {
        return Some(i);
      }
    }
    return None;
  }

  datatype Details = Details(
    maxDrawdown: real, maxDuration: nat, peakTs: Option<int>, troughTs: Option<int>,
    recoveryTs: Option<int>, series: seq<real>)

  function TimeAt(timestamps: seq<int>, i: Option<nat>): Option<int> {
    if i.Some? && i.value < |timestamps| then Some(timestamps[i.value]) else None
  }

  // A point has the timestamp of its number, if there are that many; what is not there has none.
  predicate IsTimeOf(timestamps: seq<int>, point: Option<nat>, time: Option<int>) {
    && (time.Some? <==> point.Some? && point.value < |timestamps|)
    && (time.Some? ==> timestamps[point.value] == time.value)
  }

  predicate IsRecovery(nav: seq<real>, w: Worst, r: Option<nat>)
    requires w.peak < |nav| && w.trough < |nav|
  {
    && (r.Some? ==> w.trough < r.value < |nav| && nav[r.value] >= nav[w.peak])
    && (forall k | w.trough < k < (if r.Some? then r.value else |nav|) :: nav[k] < nav[w.peak])
  }

  ghost predicate DetailsOf(timestamps: seq<int>, nav: seq<real>, d: Details, s: Statistics, r: Option<nat>)
    requires nav != []
  {
    && IsScanOf(nav, s) && IsRecovery(nav, s.worst, r)
    && d.maxDrawdown == s.worst.drawdown && d.maxDuration == s.maxDuration && d.series == s.series
    && IsTimeOf(timestamps, Some(s.worst.peak), d.peakTs)
    && IsTimeOf(timestamps, Some(s.worst.trough), d.troughTs)
    && IsTimeOf(timestamps, r, d.recoveryTs)
  }

  // The details, unless the series falls below a maximum of zero, which it cannot do when it
  // starts positive.
  method ComputeDrawdownDetails(timestamps: seq<int>, nav: seq<real>) returns (d: Option<Details>)
    ensures d == None <==> exists j :: 0 <= j < |nav| && Undefined(nav, j)
    ensures |nav| < 2 ==> d == Some(Details(0.0, 0, None, None, None, seq(|nav|, _ => 0.0)))
    ensures |nav| >= 2 && d.Some? ==> exists s, r :: DetailsOf(timestamps, nav, d.value, s, r)
  {
    if |nav| < 2 {
      return Some(Details(0.0, 0, None, None, None, seq(|nav|, _ => 0.0)));
    }
    var s := Scan(nav);
    if s == None {
      return None;
    }
    var w := s.value.worst;
    var r := FindRecovery(nav, w.peak, w.trough);
    assert IsRecovery(nav, w, r);
    d := Some(Details(
      w.drawdown, s.value.maxDuration, TimeAt(timestamps, Some(w.peak)), TimeAt(timestamps, Some(w.trough)),
      TimeAt(timestamps, r), s.value.series));
    assert DetailsOf(timestamps, nav, d.value, s.value, r);
  }

  // Division by zero needs a series that starts at zero or below.
  lemma {:induction false} PositiveStartIsDefined(nav: seq<real>, j: int)
    requires 0 <= j < |nav| && nav[0] > 0.0
    ensures !Undefined(nav, j)
  {
    RunningMaxIsMax(nav, 0, j);
  }

  // A series that starts at zero and goes below it divides by zero at once.
  lemma {:induction false} ZeroStartIsUndefined(nav: seq<real>)
    requires |nav| >= 2 && nav[0] == 0.0 && nav[1] < 0.0
    ensures Undefined(nav, 1)
  {
    assert RunningMax(nav, 1) == RunningMax(nav, 0) == 0.0;
  }

  lemma {:induction false} LossAsQuotient(x: real, z: real)
    requires x > 0.0
    ensures (x - z) / x == 1.0 - z / x
  {
    var q := z / x;
    assert q * x == z;
    assert (1.0 - q) * x == x - z;
    QuotientIs(x - z, x, 1.0 - q);
  }

  lemma {:induction false} QuotientIs(p: real, x: real, q: real)
    requires x > 0.0 && q * x == p
    ensures p / x == q
  {
  }

  lemma {:induction false} LargerBaseSmallerQuotient(x: real, m: real, z: real)
    requires 0.0 < x <= m && z >= 0.0
    ensures z / m <= z / x
  {
    var p, q := z / m, z / x;
    assert p * m == z && q * x == z;
    assert p >= 0.0;
    assert p * (m - x) >= 0.0;
    assert p * x <= q * x;
  }

  lemma {:induction false} SmallerBaseSmallerLoss(x: real, m: real, z: real)
    requires 0.0 < x <= m && z >= 0.0
    ensures (x - z) / x <= (m - z) / m
  {
    LossAsQuotient(x, z);
    LossAsQuotient(m, z);
    LargerBaseSmallerQuotient(x, m, z);
  }

  lemma {:induction false} LossAtMaximum(nav: seq<real>, j: int)
    requires 0 <= j < |nav| && RunningMax(nav, j) > 0.0
    ensures nav[j] <= RunningMax(nav, j)
    ensures DrawdownAt(nav, j) == (RunningMax(nav, j) - nav[j]) / RunningMax(nav, j)
  {
    RunningMaxIsMax(nav, j, j);
    if !Below(nav, j) { QuotientIs(0.0, RunningMax(nav, j), 0.0); }
  }

  // On a series that starts positive and never goes negative, the reported drawdown is the
  // greatest loss between any earlier and any later point, and its peak and trough attain it.
  lemma {:induction false} DeepestIsGreatestLoss(nav: seq<real>, w: Worst)
    requires |nav| > 0 && nav[0] > 0.0 && (forall i | 0 <= i < |nav| :: nav[i] >= 0.0)
    requires DeepestOf(nav, |nav|, w)
    ensures nav[w.peak] > 0.0 && w.drawdown == Loss(nav, w.peak, w.trough)
    ensures forall i, j | 0 <= i <= j < |nav| && nav[i] > 0.0 :: Loss(nav, i, j) <= w.drawdown
  {
    RunningMaxIsMax(nav, 0, w.trough);
    LossAtMaximum(nav, w.trough);
    forall i, j | 0 <= i <= j < |nav| && nav[i] > 0.0
      ensures Loss(nav, i, j) <= w.drawdown
    {
      RunningMaxIsMax(nav, i, j);
      SmallerBaseSmallerLoss(nav[i], RunningMax(nav, j), nav[j]);
      LossAtMaximum(nav, j);
      assert DrawdownAt(nav, j) <= w.drawdown;
    }
  }
}
