/** Backward adjustment of prices and volumes for splits and dividends
    (src/alpha_engine/data/adjuster.py). */
module Adjuster {

  datatype Row = Row(close: real, volume: real, dividend: real, split: real)

  // What the split of a bar does to all earlier prices.
  function SplitMultiplier(r: Row): real {
    if r.split > 0.0 then 1.0 / r.split else 1.0
  }

  // What the dividend of a bar does to all earlier prices, given the close before it.
  function DividendMultiplier(previous: Row, r: Row): real {
    if r.dividend > 0.0 && previous.close > 0.0 then
      var x := 1.0 - r.dividend / previous.close;
      if x > 0.0 then x else 0.0
    else 1.0
  }

  // What bar k does to all earlier prices.
  function Multiplier(rows: seq<Row>, k: int): real
    requires 0 < k < |rows|
  {
    SplitMultiplier(rows[k]) * DividendMultiplier(rows[k - 1], rows[k])
  }

  // The multipliers of the second bar, the third and so on.
  function Multipliers(rows: seq<Row>): seq<real>
    requires rows != []
  {
    seq(|rows| - 1, k requires 0 <= k < |rows| - 1 => Multiplier(rows, k + 1))
  }

  function SplitMultipliers(rows: seq<Row>): seq<real>
    requires rows != []
  {
    seq(|rows| - 1, k requires 0 <= k < |rows| - 1 => SplitMultiplier(rows[k + 1]))
  }

  // The product from element i on.
  function Product(xs: seq<real>, i: int): real
    requires 0 <= i <= |xs|
    decreases |xs| - i
  {
    if i == |xs| then 1.0 else xs[i] * Product(xs, i + 1)
  }

  // The factor of a bar: the product of all later multipliers.
  function Factor(rows: seq<Row>, i: int): real
    requires 0 <= i < |rows|
  {
    Product(Multipliers(rows), i)
  }

  function SplitFactor(rows: seq<Row>, i: int): real
    requires 0 <= i < |rows|
  {
    Product(SplitMultipliers(rows), i)
  }

  lemma {:induction false} ProductStep(xs: seq<real>, i: int, m: real, rest: real, x: real)
    requires 0 <= i < |xs| && m == xs[i] && rest == Product(xs, i + 1) && x == Product(xs, i)
    ensures x == m * rest == rest * m
  {
  }

  // A bar has the factor of the next bar, times what the next bar does to earlier prices.
  lemma {:induction false} FactorStep(rows: seq<Row>, i: int, m: real, next: real, x: real)
    requires 0 <= i < |rows| - 1 && m == Multiplier(rows, i + 1) && next == Factor(rows, i + 1) && x == Factor(rows, i)
    ensures x == m * next == next * m
  {
    ProductStep(Multipliers(rows), i, m, next, x);
  }

  lemma {:induction false} SplitFactorStep(rows: seq<Row>, i: int, m: real, next: real, x: real)
    requires 0 <= i < |rows| - 1 && m == SplitMultiplier(rows[i + 1])
    requires next == SplitFactor(rows, i + 1) && x == SplitFactor(rows, i)
    ensures x == m * next == next * m
  {
    ProductStep(SplitMultipliers(rows), i, m, next, x);
  }

  method ComputeAdjustmentFactors(rows: seq<Row>) returns (adj: array<real>, splitAdj: array<real>)
    ensures adj.Length == splitAdj.Length == |rows|
    ensures forall i | 0 <= i < |rows| :: adj[i] == Factor(rows, i) && splitAdj[i] == SplitFactor(rows, i)
  {
    var n := |rows|;
    adj := new real[n](_ => 1.0);
    splitAdj := new real[n](_ => 1.0);
    if n == 0 {
      return;
    }
    var currentAdj, currentSplitAdj := 1.0, 1.0;
    var i := n - 2;
    while i >= 0
      invariant -1 <= i <= n - 2
      invariant currentAdj == Factor(rows, i + 1) && currentSplitAdj == SplitFactor(rows, i + 1)
      invariant forall k | i < k < n :: adj[k] == Factor(rows, k) && splitAdj[k] == SplitFactor(rows, k)
    {
      var splitMultiplier := SplitMultiplier(rows[i + 1]);
      var divMultiplier := DividendMultiplier(rows[i], rows[i + 1]);
      SplitFactorStep(rows, i, splitMultiplier, currentSplitAdj, SplitFactor(rows, i));
      FactorStep(rows, i, splitMultiplier * divMultiplier, currentAdj, Factor(rows, i));
      currentSplitAdj := currentSplitAdj * splitMultiplier;
      currentAdj := currentAdj * (splitMultiplier * divMultiplier);
      splitAdj[i] := currentSplitAdj;
      adj[i] := currentAdj;
      i := i - 1;
    }
  }

  // ----- appending newer bars

  lemma {:induction false} Associate(x: real, y: real, z: real)
    ensures x * (y * z) == (x * y) * z
  {
  }

  // Two sequences of which one goes on where the other ends.
  lemma {:induction false} ProductSplits(xs: seq<real>, zs: seq<real>, i: int)
    requires xs <= zs && 0 <= i <= |xs|
    ensures Product(zs, i) == Product(xs, i) * Product(zs, |xs|)
    decreases |xs| - i
  {
    if i < |xs| {
      ProductSplits(xs, zs, i + 1);
      Associate(xs[i], Product(xs, i + 1), Product(zs, |xs|));
    }
  }

  lemma {:induction false} ProductGrows(xs: seq<real>, zs: seq<real>, i: int, x: real, c: real, z: real)
    requires xs <= zs && 0 <= i <= |xs|
    requires x == Product(xs, i) && c == Product(zs, |xs|) && z == Product(zs, i)
    ensures z == x * c
  {
    ProductSplits(xs, zs, i);
  }

  lemma {:induction false} MultipliersGrow(rows: seq<Row>, all: seq<Row>)
    requires rows != [] && rows <= all
    ensures Multipliers(rows) <= Multipliers(all) && SplitMultipliers(rows) <= SplitMultipliers(all)
  {
    forall k | 0 <= k < |rows| - 1
      ensures Multipliers(all)[k] == Multipliers(rows)[k]
      ensures SplitMultipliers(all)[k] == SplitMultipliers(rows)[k]
    {
      assert all[k] == rows[k] && all[k + 1] == rows[k + 1];
    }
  }

  // Newer bars rescale the factors of all older bars by one and the same number c: the factor that
  // the last of the older bars now has. The factor x of any older bar becomes z.
  lemma {:induction false} AppendingRescales(rows: seq<Row>, all: seq<Row>, i: int, x: real, c: real, z: real)
    requires 0 <= i < |rows| && rows <= all
    requires x == Factor(rows, i) && c == Factor(all, |rows| - 1) && z == Factor(all, i)
    ensures z == x * c
  {
    MultipliersGrow(rows, all);
    ProductGrows(Multipliers(rows), Multipliers(all), i, x, c, z);
  }

  lemma {:induction false} AppendingRescalesSplits(rows: seq<Row>, all: seq<Row>, i: int, x: real, c: real, z: real)
    requires 0 <= i < |rows| && rows <= all
    requires x == SplitFactor(rows, i) && c == SplitFactor(all, |rows| - 1) && z == SplitFactor(all, i)
    ensures z == x * c
  {
    MultipliersGrow(rows, all);
    ProductGrows(SplitMultipliers(rows), SplitMultipliers(all), i, x, c, z);
  }

  function AdjustedClose(rows: seq<Row>, i: int): real
    requires 0 <= i < |rows|
  {
    rows[i].close * Factor(rows, i)
  }

  // An adjusted price x of the first rows that all of them turn into x'.
  ghost predicate Rescaled(rows: seq<Row>, all: seq<Row>, i: int, x: real, x': real)
    requires 0 <= i < |rows| <= |all|
  {
    x == AdjustedClose(rows, i) && x' == AdjustedClose(all, i)
  }

  lemma {:induction false} RescaledBy(rows: seq<Row>, all: seq<Row>, i: int, x: real, x': real, c: real)
    requires rows <= all && 0 <= i < |rows| && Rescaled(rows, all, i, x, x') && c == Factor(all, |rows| - 1)
    ensures x' == x * c
  {
    AppendingRescales(rows, all, i, Factor(rows, i), c, Factor(all, i));
    Associate(rows[i].close, Factor(rows, i), c);
  }

  // So any two older adjusted prices stand in the ratio in which they stood before.
  lemma {:induction false} RatiosStand(
      rows: seq<Row>, all: seq<Row>, i: int, j: int, x: real, x': real, y: real, y': real)
    requires rows <= all && 0 <= i < |rows| && 0 <= j < |rows|
    requires Rescaled(rows, all, i, x, x') && Rescaled(rows, all, j, y, y')
    ensures x' * y == x * y'
  {
    var c := Factor(all, |rows| - 1);
    RescaledBy(rows, all, i, x, x', c);
    RescaledBy(rows, all, j, y, y', c);
    CrossMultiply(x, y, c, x', y');
  }

  lemma {:induction false} CrossMultiply(x: real, y: real, c: real, x': real, y': real)
    requires x' == x * c && y' == y * c
    ensures x' * y == x * y'
  {
  }

  // ----- splits alone keep the traded value

  lemma {:induction false} SplitFactorIsPositive(rows: seq<Row>, i: int)
    requires 0 <= i < |rows|
    ensures SplitFactor(rows, i) > 0.0
    decreases |rows| - i
  {
    if i < |rows| - 1 {
      var m, next := SplitMultiplier(rows[i + 1]), SplitFactor(rows, i + 1);
      SplitFactorIsPositive(rows, i + 1);
      SplitFactorStep(rows, i, m, next, SplitFactor(rows, i));
      assert m > 0.0;
    }
  }

  lemma {:induction false} WithoutDividends(rows: seq<Row>, i: int)
    requires 0 <= i < |rows| && forall k | i < k < |rows| :: rows[k].dividend <= 0.0
    ensures Factor(rows, i) == SplitFactor(rows, i)
    decreases |rows| - i
  {
    if i < |rows| - 1 {
      var m, next := SplitMultiplier(rows[i + 1]), SplitFactor(rows, i + 1);
      WithoutDividends(rows, i + 1);
      assert DividendMultiplier(rows[i], rows[i + 1]) == 1.0;
      SplitFactorStep(rows, i, m, next, SplitFactor(rows, i));
      FactorStep(rows, i, m, next, Factor(rows, i));
    }
  }

  function AdjustedVolume(rows: seq<Row>, i: int): real
    requires 0 <= i < |rows|
  {
    SplitFactorIsPositive(rows, i);
    rows[i].volume / SplitFactor(rows, i)
  }

  // With no later dividend, adjusted price times adjusted volume is raw price times raw volume.
  lemma {:induction false} TradedValueStands(rows: seq<Row>, i: int)
    requires 0 <= i < |rows| && forall k | i < k < |rows| :: rows[k].dividend <= 0.0
    ensures AdjustedClose(rows, i) * AdjustedVolume(rows, i) == rows[i].close * rows[i].volume
  {
    SplitFactorIsPositive(rows, i);
    WithoutDividends(rows, i);
    var f := SplitFactor(rows, i);
    assert AdjustedVolume(rows, i) * f == rows[i].volume;
    Regroup(rows[i].close, f, AdjustedVolume(rows, i));
  }

  lemma {:induction false} Regroup(p: real, f: real, v: real)
    ensures (p * f) * v == p * (v * f)
  {
  }

  // ----- what the adjustment is for: prices go on where they were

  // How many shares bar k makes of one, and what it pays on a share.
  function NewShares(rows: seq<Row>, k: int): real
    requires 0 < k < |rows|
  {
    if rows[k].split > 0.0 then rows[k].split else 1.0
  }

  function PaidOut(rows: seq<Row>, k: int): real
    requires 0 < k < |rows|
  {
    if rows[k].dividend > 0.0 && rows[k - 1].close > 0.0 then rows[k].dividend else 0.0
  }

  lemma {:induction false} StepUndoes(previous: Row, r: Row, n: real, d: real, split: real, div: real)
    requires n == if r.split > 0.0 then r.split else 1.0
    requires d == if r.dividend > 0.0 && previous.close > 0.0 then r.dividend else 0.0
    requires split == SplitMultiplier(r) && div == DividendMultiplier(previous, r)
    ensures n > 0.0 && split * n == 1.0
    ensures d <= previous.close || d == 0.0 ==> previous.close * div == previous.close - d
    ensures d > 0.0 && d >= previous.close ==> div == 0.0
  {
    if r.dividend > 0.0 && previous.close > 0.0 {
      var q := r.dividend / previous.close;
      assert q * previous.close == r.dividend;
      assert previous.close * (1.0 - q) == previous.close - r.dividend;
      if d >= previous.close { RatioAtLeastOne(q, previous.close, d); }
      if d <= previous.close { RatioAtMostOne(q, previous.close, d); }
    }
  }

  lemma {:induction false} RatioAtLeastOne(q: real, x: real, d: real)
    requires x > 0.0 && q * x == d && d >= x
    ensures q >= 1.0
  {
    assert (q - 1.0) * x >= 0.0;
    SignOfFactor(q - 1.0, x);
  }

  lemma {:induction false} RatioAtMostOne(q: real, x: real, d: real)
    requires x > 0.0 && q * x == d && d <= x
    ensures q <= 1.0
  {
    assert (1.0 - q) * x >= 0.0;
    SignOfFactor(1.0 - q, x);
  }

  lemma {:induction false} SignOfFactor(p: real, x: real)
    requires x > 0.0
    ensures p * x >= 0.0 <==> p >= 0.0
  {
  }

  // n new shares at this close are worth what one old share was, less the payment d: x is then the
  // adjusted close of the older bar, y of the newer.
  lemma {:induction false} Continues(
      close: real, previous: real, n: real, d: real, split: real, div: real, next: real, m: real)
    requires split * n == 1.0 && previous * div == previous - d && m == split * div
    requires close * n == previous - d
    ensures previous * (m * next) == close * next
  {
    assert previous * m == split * (previous * div);
    assert split * (close * n) == close * (split * n);
    assert previous * m == close;
    Associate(previous, m, next);
  }

  // When a bar only splits the shares and pays its dividend, the adjusted price does not move: if n
  // new shares at the close are worth the previous close less the dividend, the adjusted closes of
  // both bars are equal.
  lemma {:induction false} AdjustedPriceContinues(rows: seq<Row>, i: int)
    requires 0 <= i < |rows| - 1
    requires PaidOut(rows, i + 1) == 0.0 || PaidOut(rows, i + 1) <= rows[i].close
    requires rows[i + 1].close * NewShares(rows, i + 1) == rows[i].close - PaidOut(rows, i + 1)
    ensures AdjustedClose(rows, i) == AdjustedClose(rows, i + 1)
  {
    var n, d := NewShares(rows, i + 1), PaidOut(rows, i + 1);
    var split, div := SplitMultiplier(rows[i + 1]), DividendMultiplier(rows[i], rows[i + 1]);
    var m, next := Multiplier(rows, i + 1), Factor(rows, i + 1);
    StepUndoes(rows[i], rows[i + 1], n, d, split, div);
    FactorStep(rows, i, m, next, Factor(rows, i));
    Continues(rows[i + 1].close, rows[i].close, n, d, split, div, next, m);
  }

  // Adjusted volumes count new shares.
  lemma {:induction false} AdjustedVolumeContinues(rows: seq<Row>, i: int, v: real, w: real)
    requires 0 <= i < |rows| - 1 && v == AdjustedVolume(rows, i) && w == AdjustedVolume(rows, i + 1)
    requires rows[i].volume * NewShares(rows, i + 1) == rows[i + 1].volume
    ensures v == w
  {
    var n, split, next := NewShares(rows, i + 1), SplitMultiplier(rows[i + 1]), SplitFactor(rows, i + 1);
    SplitFactorIsPositive(rows, i);
    SplitFactorIsPositive(rows, i + 1);
    StepUndoes(rows[i], rows[i + 1], n, PaidOut(rows, i + 1), split, DividendMultiplier(rows[i], rows[i + 1]));
    SplitFactorStep(rows, i, split, next, SplitFactor(rows, i));
    VolumesAgree(rows[i].volume, rows[i + 1].volume, n, split, next, SplitFactor(rows, i), v, w);
  }

  lemma {:induction false} VolumesAgree(
      old': real, new': real, n: real, split: real, next: real, f: real, v: real, w: real)
    requires split * n == 1.0 && f == split * next && next > 0.0
    requires old' * n == new' && v * f == old' && w * next == new'
    ensures v == w
  {
    assert v * f * n == new';
    assert v * (split * next) * n == (v * next) * (split * n);
    assert v * next == w * next;
    assert (v - w) * next == 0.0;
  }

  // A dividend of the whole previous close or more leaves nothing of older prices.
  lemma {:induction false} WholeDividendLeavesNothing(rows: seq<Row>, i: int, k: int)
    requires 0 <= i <= k < |rows| - 1
    requires rows[k].close > 0.0 && rows[k + 1].dividend >= rows[k].close
    ensures Factor(rows, i) == 0.0
    decreases k - i
  {
    var m, next := Multiplier(rows, i + 1), Factor(rows, i + 1);
    FactorStep(rows, i, m, next, Factor(rows, i));
    if i == k {
      var split, div := SplitMultiplier(rows[k + 1]), DividendMultiplier(rows[k], rows[k + 1]);
      StepUndoes(rows[k], rows[k + 1], NewShares(rows, k + 1), PaidOut(rows, k + 1), split, div);
      assert m == 0.0;
    } else {
      WholeDividendLeavesNothing(rows, i + 1, k);
    }
  }

  // The newest bar is not adjusted.
  lemma {:induction false} NewestStands(rows: seq<Row>)
    requires rows != []
    ensures AdjustedClose(rows, |rows| - 1) == rows[|rows| - 1].close
    ensures AdjustedVolume(rows, |rows| - 1) == rows[|rows| - 1].volume
  {
    assert SplitFactor(rows, |rows| - 1) == 1.0;
  }
}
