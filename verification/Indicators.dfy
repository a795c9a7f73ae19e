// Technical indicators over exact decimals. Each loop is proved equal to its recurrence, and each recurrence
// is bounded by its inputs.

module Indicators {
  import opened Options
  import opened Rounding
  import opened Candles

  // ----- averages

  function Sum(values: seq<real>): real {
    if values == [] then 0.0 else Sum(values[..|values| - 1]) + values[|values| - 1]
  }

  /** Python's `sum`. */
  method Total(values: seq<real>) returns (total: real)
    ensures total == Sum(values)
  {
    total := 0.0;
    for i := 0 to |values|
      invariant total == Sum(values[..i])
    {
      assert values[..i + 1][..i] == values[..i];
      total := total + values[i];
    }
    assert values[..|values|] == values;
  }

  ghost predicate Between(values: seq<real>, low: real, high: real) {
    forall i :: 0 <= i < |values| ==> low <= values[i] <= high
  }

  lemma ScaleOrder(x: real, y: real, k: real)
    requires x <= y && 0.0 <= k
    ensures x * k <= y * k
  {
  }

  lemma SplitProduct(x: real, p: real, q: real)
    requires p == q + 1.0
    ensures x * p == x * q + x
  {
  }

  lemma {:induction false} SumBetween(values: seq<real>, low: real, high: real)
    requires Between(values, low, high)
    ensures low * |values| as real <= Sum(values) <= high * |values| as real
  {
    if values == [] {
    } else {
      var n := |values| - 1;
      SumBetween(values[..n], low, high);
      SplitProduct(low, |values| as real, n as real);
      SplitProduct(high, |values| as real, n as real);
    }
  }

  lemma ScaleStrict(x: real, y: real, k: real)
    requires x < y && 0.0 < k
    ensures x * k < y * k
  {
  }

  lemma QuotientBetween(total: real, low: real, high: real, n: real)
    requires 0.0 < n && low * n <= total <= high * n
    ensures low <= total / n <= high
  {
    var q := total / n;
    assert q * n == total;
    if q < low {
      ScaleStrict(q, low, n);
    }
    if q > high {
      ScaleStrict(high, q, n);
    }
  }

  /** The same with the products named. */
  lemma QuotientBetweenProducts(total: real, low: real, high: real, n: real, lowTimes: real, highTimes: real)
    requires 0.0 < n && lowTimes == low * n && highTimes == high * n && lowTimes <= total <= highTimes
    ensures low <= total / n <= high
  {
    QuotientBetween(total, low, high, n);
  }

  function Mean(values: seq<real>): real
    requires values != []
  {
    Sum(values) / |values| as real
  }

  lemma MeanBetween(values: seq<real>, low: real, high: real)
    requires values != [] && Between(values, low, high)
    ensures low <= Mean(values) <= high
  {
    SumBetween(values, low, high);
    QuotientBetween(Sum(values), low, high, |values| as real);
  }

  // ----- EMA

  function EmaStep(current: real, value: real, multiplier: real): real {
    (value - current) * multiplier + current
  }

  function EmaOver(seed: real, values: seq<real>, multiplier: real): real {
    if values == [] then seed
    else EmaStep(EmaOver(seed, values[..|values| - 1], multiplier), values[|values| - 1], multiplier)
  }

  function EmaRaw(values: seq<real>, period: nat): real
    requires 1 <= period <= |values|
  {
    EmaOver(Mean(values[..period]), values[period..], 2.0 / (period + 1) as real)
  }

  /** Nothing until there are `period` values. */
  function EmaValue(values: seq<real>, period: int): Option<real> {
    if period < 1 || |values| < period then None else Some(Q4(EmaRaw(values, period)))
  }

  method Ema(values: seq<real>, period: int) returns (r: Option<real>)
    ensures r == EmaValue(values, period)
  {
    if period < 1 || |values| < period {
      return None;
    }
    var total := Total(values[..period]);
    var current := total / period as real;
    var multiplier := 2.0 / (period + 1) as real;
    var rest := values[period..];
    ghost var seed := current;
    for i := 0 to |rest|
      invariant current == EmaOver(seed, rest[..i], multiplier)
    {
      assert rest[..i + 1][..i] == rest[..i];
      current := (rest[i] - current) * multiplier + current;
    }
    assert rest[..|rest|] == rest;
    r := Some(Q4(current));
  }

  lemma PartOf(whole: real, m: real, part: real)
    requires 0.0 <= whole && 0.0 <= m <= 1.0 && part == whole * m
    ensures 0.0 <= part <= whole
  {
    ScaleOrder(0.0, m, whole);
    ScaleOrder(m, 1.0, whole);
  }

  lemma BlendBetween(a: real, b: real, m: real, low: real, high: real)
    requires low <= a <= high && low <= b <= high && 0.0 <= m <= 1.0
    ensures low <= EmaStep(a, b, m) <= high
  {
    var part := (b - a) * m;
    if a <= b {
      PartOf(b - a, m, part);
    } else {
      PartOf(a - b, m, -part);
    }
  }

  lemma {:induction false} EmaOverBetween(seed: real, values: seq<real>, m: real, low: real, high: real)
    requires low <= seed <= high && Between(values, low, high) && 0.0 <= m <= 1.0
    ensures low <= EmaOver(seed, values, m) <= high
  {
    if values != [] {
      var n := |values| - 1;
      EmaOverBetween(seed, values[..n], m, low, high);
      BlendBetween(EmaOver(seed, values[..n], m), values[n], m, low, high);
    }
  }

  lemma MultiplierInRange(period: nat)
    requires period >= 1
    ensures 0.0 <= 2.0 / (period + 1) as real <= 1.0
  {
    var d := (period + 1) as real;
    QuotientBetween(2.0, 0.0, 1.0, d);
  }

  /** The published EMA lies between the rounded least and greatest input. */
  lemma EmaIsBounded(values: seq<real>, period: nat, low: real, high: real)
    requires 1 <= period <= |values| && Between(values, low, high)
    ensures Q4(low) <= EmaValue(values, period).value <= Q4(high)
  {
    MeanBetween(values[..period], low, high);
    MultiplierInRange(period);
    EmaOverBetween(Mean(values[..period]), values[period..], 2.0 / (period + 1) as real, low, high);
    Q4MonotoneWithHalfUnitError(low, EmaRaw(values, period));
    Q4MonotoneWithHalfUnitError(EmaRaw(values, period), high);
  }

  // ----- Wilder smoothing

  function WilderStep(average: real, value: real, period: nat): real
    requires period >= 1
  {
    (average * (period - 1) as real + value) / period as real
  }

  function WilderOver(seed: real, values: seq<real>, period: nat): real
    requires period >= 1
  {
    if values == [] then seed
    else WilderStep(WilderOver(seed, values[..|values| - 1], period), values[|values| - 1], period)
  }

  function Wilder(values: seq<real>, period: nat): real
    requires 1 <= period <= |values|
  {
    WilderOver(Sum(values[..period]) / period as real, values[period..], period)
  }

  lemma WilderStepBetween(average: real, value: real, period: nat, low: real, high: real)
    requires period >= 1 && low <= average <= high && low <= value <= high
    ensures low <= WilderStep(average, value, period) <= high
  {
    var p, q := period as real, (period - 1) as real;
    var lq, hq, aq := low * q, high * q, average * q;
    ScaleOrder(low, average, q);
    ScaleOrder(average, high, q);
    SplitProduct(low, p, q);
    SplitProduct(high, p, q);
    QuotientBetweenProducts(aq + value, low, high, p, lq + low, hq + high);
  }

  lemma {:induction false} WilderOverBetween(seed: real, values: seq<real>, period: nat, low: real, high: real)
    requires period >= 1 && low <= seed <= high && Between(values, low, high)
    ensures low <= WilderOver(seed, values, period) <= high
  {
    if values != [] {
      var n := |values| - 1;
      WilderOverBetween(seed, values[..n], period, low, high);
      WilderStepBetween(WilderOver(seed, values[..n], period), values[n], period, low, high);
    }
  }

  lemma WilderBetween(values: seq<real>, period: nat, low: real, high: real)
    requires 1 <= period <= |values| && Between(values, low, high)
    ensures low <= Wilder(values, period) <= high
  {
    MeanBetween(values[..period], low, high);
    WilderOverBetween(Mean(values[..period]), values[period..], period, low, high);
  }

  // ----- RSI

  function Gain(change: real): real {
    if change > 0.0 then change else 0.0
  }

  /** How far the price rose, or fell, from `previous` to `current`. */
  function Move(previous: real, current: real, rising: bool): real {
    Gain(if rising then current - previous else previous - current)
  }

  /** Gains, or losses, between consecutive closes. */
  function Moves(closes: seq<real>, rising: bool): seq<real> {
    if |closes| < 2 then []
    else
      var n := |closes| - 1;
      Moves(closes[..n], rising) + [Move(closes[n - 1], closes[n], rising)]
  }

  lemma {:induction false} MovesShape(closes: seq<real>, rising: bool)
    requires closes != []
    ensures |Moves(closes, rising)| == |closes| - 1
    ensures forall i {:trigger Moves(closes, rising)[i]} :: 0 <= i < |closes| - 1 ==>
      Moves(closes, rising)[i] == Move(closes[i], closes[i + 1], rising)
  {
    if |closes| >= 2 {
      hide Move;
      MovesShape(closes[..|closes| - 1], rising);
    }
  }

  function RsiFrom(averageGain: real, averageLoss: real): real {
    if averageLoss == 0.0 || 1.0 + averageGain / averageLoss == 0.0 then 100.0
    else 100.0 - 100.0 / (1.0 + averageGain / averageLoss)
  }

  function RsiOf(averageGain: real, averageLoss: real): real {
    if averageLoss == 0.0 then 100.0 else Q4(RsiFrom(averageGain, averageLoss))
  }

  function AverageMove(closes: seq<real>, period: nat, rising: bool): real
    requires 1 <= period < |closes|
  {
    MovesShape(closes, rising);
    Wilder(Moves(closes, rising), period)
  }

  /** The first loop of the source: gains and losses over the first `period` changes. */
  method SeedMoves(closes: seq<real>, period: nat) returns (averageGain: real, averageLoss: real)
    requires 1 <= period < |closes|
    ensures |Moves(closes, true)| == |Moves(closes, false)| == |closes| - 1
    ensures averageGain == Sum(Moves(closes, true)[..period]) / period as real
    ensures averageLoss == Sum(Moves(closes, false)[..period]) / period as real
  {
    hide Moves, Gain, Sum;
    MovesShape(closes, true);
    MovesShape(closes, false);
    ghost var rises, falls := Moves(closes, true), Moves(closes, false);
    var gains: seq<real>, losses: seq<real> := [], [];
    for i := 0 to period
      invariant gains == rises[..i] && losses == falls[..i]
    {
      var change := closes[i + 1] - closes[i];
      assert rises[i] == Gain(change) && falls[i] == Gain(-change);
      gains := gains + [Gain(change)];
      losses := losses + [Gain(-change)];
    }
    var totalGain := Total(gains);
    var totalLoss := Total(losses);
    averageGain, averageLoss := totalGain / period as real, totalLoss / period as real;
  }

  lemma WilderOverStep(seed: real, values: seq<real>, k: nat, period: nat)
    requires period >= 1 && k < |values|
    ensures WilderOver(seed, values[..k + 1], period)
         == WilderStep(WilderOver(seed, values[..k], period), values[k], period)
  {
    assert values[..k + 1][..k] == values[..k];
  }

  lemma MoveAfterSeed(closes: seq<real>, rising: bool, period: nat, k: nat)
    requires period + k + 1 < |closes|
    ensures |Moves(closes, rising)| == |closes| - 1
    ensures Moves(closes, rising)[period..][k] == Move(closes[period + k], closes[period + k + 1], rising)
  {
    MovesShape(closes, rising);
  }

  /** The second loop: Wilder smoothing of gains and losses side by side. */
  method SmoothMoves(closes: seq<real>, period: nat, seedGain: real, seedLoss: real)
    returns (averageGain: real, averageLoss: real)
    requires 1 <= period < |closes|
    requires |Moves(closes, true)| == |Moves(closes, false)| == |closes| - 1
    ensures averageGain == WilderOver(seedGain, Moves(closes, true)[period..], period)
    ensures averageLoss == WilderOver(seedLoss, Moves(closes, false)[period..], period)
  {
    hide WilderOver, WilderStep, Moves, Gain;
    averageGain, averageLoss := seedGain, seedLoss;
    ghost var ups, downs := Moves(closes, true)[period..], Moves(closes, false)[period..];
    WilderOverNothing(seedGain, ups[..0], period);
    WilderOverNothing(seedLoss, downs[..0], period);
    for i := period to |closes| - 1
      invariant averageGain == WilderOver(seedGain, ups[..i - period], period)
      invariant averageLoss == WilderOver(seedLoss, downs[..i - period], period)
    {
      var change := closes[i + 1] - closes[i];
      MoveAfterSeed(closes, true, period, i - period);
      MoveAfterSeed(closes, false, period, i - period);
      WilderOverStep(seedGain, ups, i - period, period);
      WilderOverStep(seedLoss, downs, i - period, period);
      averageGain := WilderStep(averageGain, Gain(change), period);
      averageLoss := WilderStep(averageLoss, Gain(-change), period);
    }
    assert ups[..|ups|] == ups && downs[..|downs|] == downs;
  }

  lemma WilderOverNothing(seed: real, values: seq<real>, period: nat)
    requires period >= 1 && values == []
    ensures WilderOver(seed, values, period) == seed
  {
  }

  method AverageMoves(closes: seq<real>, period: nat) returns (averageGain: real, averageLoss: real)
    requires 1 <= period < |closes|
    ensures averageGain == AverageMove(closes, period, true)
    ensures averageLoss == AverageMove(closes, period, false)
  {
    hide WilderOver, Moves, Sum;
    averageGain, averageLoss := SeedMoves(closes, period);
    averageGain, averageLoss := SmoothMoves(closes, period, averageGain, averageLoss);
  }

  function RsiValue(closes: seq<real>, period: nat): Option<real>
    requires period >= 1
  {
    if |closes| < period + 1 then None
    else Some(RsiOf(AverageMove(closes, period, true), AverageMove(closes, period, false)))
  }

  method RsiWilder(closes: seq<real>, period: nat) returns (r: Option<real>)
    requires period >= 1
    ensures r == RsiValue(closes, period)
  {
    if |closes| < period + 1 {
      return None;
    }
    var averageGain, averageLoss := AverageMoves(closes, period);
    hide AverageMove, Q4;
    if averageLoss == 0.0 {
      return Some(100.0);
    }
    GainsAreNotNegative(closes, period);
    RatioNotNegative(averageGain, averageLoss);
    var rs := averageGain / averageLoss;
    r := Some(Q4(100.0 - 100.0 / (1.0 + rs)));
  }

  lemma RatioNotNegative(a: real, b: real)
    requires 0.0 <= a && 0.0 < b
    ensures 0.0 <= a / b
  {
  }

  lemma {:induction false} GreatestOf(values: seq<real>) returns (high: real)
    requires forall i :: 0 <= i < |values| ==> 0.0 <= values[i]
    ensures 0.0 <= high && Between(values, 0.0, high)
  {
    if values == [] {
      high := 0.0;
    } else {
      high := GreatestOf(values[..|values| - 1]);
      if values[|values| - 1] > high {
        high := values[|values| - 1];
      }
    }
  }

  lemma GainsAreNotNegative(closes: seq<real>, period: nat)
    requires 1 <= period < |closes|
    ensures 0.0 <= AverageMove(closes, period, true) && 0.0 <= AverageMove(closes, period, false)
  {
    AverageMoveNotNegative(closes, period, true);
    AverageMoveNotNegative(closes, period, false);
  }

  lemma AverageMoveNotNegative(closes: seq<real>, period: nat, rising: bool)
    requires 1 <= period < |closes|
    ensures 0.0 <= AverageMove(closes, period, rising)
  {
    hide Wilder, Moves;
    MovesShape(closes, rising);
    var moves := Moves(closes, rising);
    forall i | 0 <= i < |moves| ensures 0.0 <= moves[i] {
      assert moves[i] == Move(closes[i], closes[i + 1], rising);
    }
    var high := GreatestOf(moves);
    WilderBetween(moves, period, 0.0, high);
  }

  lemma RsiFromInRange(gain: real, loss: real)
    requires 0.0 <= gain && 0.0 < loss
    ensures 0.0 <= RsiFrom(gain, loss) <= 100.0
  {
    RatioNotNegative(gain, loss);
    var d := 1.0 + gain / loss;
    assert 1.0 <= d;
    ScaleOrder(1.0, d, 100.0);
    QuotientBetween(100.0, 0.0, 100.0, d);
  }

  /** RSI stays within [0, 100] for every history and period. */
  lemma RsiIsBounded(closes: seq<real>, period: nat)
    requires 1 <= period < |closes|
    ensures 0.0 <= RsiValue(closes, period).value <= 100.0
  {
    var gain, loss := AverageMove(closes, period, true), AverageMove(closes, period, false);
    GainsAreNotNegative(closes, period);
    if loss != 0.0 {
      RsiFromInRange(gain, loss);
      Q4MonotoneWithHalfUnitError(0.0, RsiFrom(gain, loss));
      Q4MonotoneWithHalfUnitError(RsiFrom(gain, loss), 100.0);
      assert HalfUp(0.0) == 0 && HalfUp(1000000.0) == 1000000;
    }
  }

  function Negated(closes: seq<real>): seq<real> {
    seq(|closes|, i requires 0 <= i < |closes| => -closes[i])
  }

  lemma MovesMirror(closes: seq<real>, rising: bool)
    requires closes != []
    ensures Moves(Negated(closes), rising) == Moves(closes, !rising)
  {
    hide Moves;
    var mirror := Negated(closes);
    MovesShape(closes, !rising);
    MovesShape(mirror, rising);
  }

  /** Mirroring the prices swaps average gains and losses, so, whenever there was any movement both ways, the
      unrounded RSI of the mirror image is the complement to 100. */
  lemma RsiMirrors(closes: seq<real>, period: nat)
    requires 1 <= period < |closes|
    ensures AverageMove(Negated(closes), period, true) == AverageMove(closes, period, false)
    ensures AverageMove(Negated(closes), period, false) == AverageMove(closes, period, true)
    ensures var gain, loss := AverageMove(closes, period, true), AverageMove(closes, period, false);
      gain > 0.0 && loss > 0.0 ==> RsiFrom(loss, gain) == 100.0 - RsiFrom(gain, loss)
  {
    hide Wilder, RsiFrom;
    MovesMirror(closes, true);
    MovesMirror(closes, false);
    var gain, loss := AverageMove(closes, period, true), AverageMove(closes, period, false);
    if gain > 0.0 && loss > 0.0 {
      Complement(gain, loss);
    }
  }

  lemma ShareOfTotal(a: real, b: real)
    requires 0.0 < a && 0.0 < b
    ensures 1.0 + a / b > 0.0 && 100.0 / (1.0 + a / b) == 100.0 * b / (a + b)
  {
    var r := a / b;
    assert r * b == a;
    assert (1.0 + r) * b == a + b;
    var x := 100.0 / (1.0 + r);
    assert x * (1.0 + r) == 100.0;
    assert x * (a + b) == x * ((1.0 + r) * b) == (x * (1.0 + r)) * b == 100.0 * b;
  }

  lemma Complement(a: real, b: real)
    requires 0.0 < a && 0.0 < b
    ensures RsiFrom(b, a) == 100.0 - RsiFrom(a, b)
  {
    ShareOfTotal(a, b);
    ShareOfTotal(b, a);
    assert 100.0 * b / (a + b) + 100.0 * a / (b + a) == 100.0 * (a + b) / (a + b);
  }

  // ----- ATR

  function Abs(x: real): real { if x < 0.0 then -x else x }

  function Larger(a: real, b: real): real { if a < b then b else a }

  function TrueRange(previous: Candle, current: Candle): real {
    Larger(Larger(current.high - current.low, Abs(current.high - previous.close)), Abs(current.low - previous.close))
  }

  function TrueRanges(bars: seq<Candle>): (ranges: seq<real>)
    ensures |ranges| == if bars == [] then 0 else |bars| - 1
  {
    if |bars| < 2 then []
    else
      var n := |bars| - 1;
      TrueRanges(bars[..n]) + [TrueRange(bars[n - 1], bars[n])]
  }

  method SmoothRanges(ranges: seq<real>, period: nat) returns (current: real)
    requires 1 <= period <= |ranges|
    ensures current == Wilder(ranges, period)
  {
    var total := Total(ranges[..period]);
    current := total / period as real;
    ghost var seed := current;
    var rest := ranges[period..];
    for i := 0 to |rest|
      invariant current == WilderOver(seed, rest[..i], period)
    {
      hide WilderOver, WilderStep;
      WilderOverStep(seed, rest, i, period);
      current := WilderStep(current, rest[i], period);
    }
    assert rest[..|rest|] == rest;
  }

  function AtrValue(bars: seq<Candle>, period: nat): Option<real>
    requires period >= 1
  {
    if |bars| < period + 1 then None else Some(Q4(Wilder(TrueRanges(bars), period)))
  }

  method AtrWilder(bars: seq<Candle>, period: nat) returns (r: Option<real>)
    requires period >= 1
    ensures r == AtrValue(bars, period)
  {
    if |bars| < period + 1 {
      return None;
    }
    var ranges: seq<real> := [];
    for i := 1 to |bars|
      invariant ranges == TrueRanges(bars[..i])
    {
      assert bars[..i + 1][..i] == bars[..i];
      ranges := ranges + [TrueRange(bars[i - 1], bars[i])];
    }
    assert bars[..|bars|] == bars;
    var current := SmoothRanges(ranges, period);
    r := Some(Q4(current));
  }

  lemma {:induction false} TrueRangesNotNegative(bars: seq<Candle>)
    requires AllWellFormed(bars)
    ensures forall i :: 0 <= i < |TrueRanges(bars)| ==> 0.0 <= TrueRanges(bars)[i]
  {
    if |bars| >= 2 {
      TrueRangesNotNegative(bars[..|bars| - 1]);
    }
  }

  /** The published ATR lies between zero and the rounded greatest true range. */
  lemma AtrIsBounded(bars: seq<Candle>, period: nat, high: real)
    requires AllWellFormed(bars) && 1 <= period < |bars|
    requires forall i :: 0 <= i < |TrueRanges(bars)| ==> TrueRanges(bars)[i] <= high
    ensures 0.0 <= AtrValue(bars, period).value <= Q4(high)
  {
    TrueRangesNotNegative(bars);
    WilderBetween(TrueRanges(bars), period, 0.0, high);
    Q4MonotoneWithHalfUnitError(0.0, Wilder(TrueRanges(bars), period));
    Q4MonotoneWithHalfUnitError(Wilder(TrueRanges(bars), period), high);
    assert HalfUp(0.0) == 0;
  }

  // ----- VWAP

  function TypicalPrice(c: Candle): real {
    (c.high + c.low + c.close) / 3.0
  }

  function Weighted(bars: seq<Candle>): real {
    if bars == [] then 0.0
    else
      var last := bars[|bars| - 1];
      Weighted(bars[..|bars| - 1]) + TypicalPrice(last) * last.volume as real
  }

  function VwapRaw(bars: seq<Candle>): real
    requires TotalVolume(bars) > 0
  {
    Weighted(bars) / TotalVolume(bars) as real
  }

  function Vwap(bars: seq<Candle>): Option<real> {
    if bars == [] || TotalVolume(bars) <= 0 then None else Some(Q4(VwapRaw(bars)))
  }

  ghost predicate InBand(weighted: real, total: int, low: real, high: real) {
    low * total as real <= weighted <= high * total as real
  }

  lemma WeightedStep(total: int, weighted: real, price: real, volume: int, product: real, low: real, high: real)
    requires InBand(weighted, total, low, high)
    requires low <= price <= high && 0 <= volume && product == price * volume as real
    ensures InBand(weighted + product, total + volume, low, high)
  {
    var t, v := total as real, volume as real;
    ScaleOrder(low, price, v);
    ScaleOrder(price, high, v);
    assert (total + volume) as real == t + v;
    assert low * (t + v) == low * t + low * v;
    assert high * (t + v) == high * t + high * v;
  }

  lemma TypicalPriceBetween(bar: Candle, low: real, high: real)
    requires WellFormed(bar) && low <= bar.low && bar.high <= high
    ensures low <= TypicalPrice(bar) <= high
  {
  }

  lemma WeightedUnfolds(bars: seq<Candle>, product: real)
    requires bars != []
    requires product == TypicalPrice(bars[|bars| - 1]) * bars[|bars| - 1].volume as real
    ensures Weighted(bars) == Weighted(bars[..|bars| - 1]) + product
    ensures TotalVolume(bars) == TotalVolume(bars[..|bars| - 1]) + bars[|bars| - 1].volume
  {
    hide TypicalPrice;
  }

  lemma {:induction false} WeightedBetween(bars: seq<Candle>, low: real, high: real)
    requires AllWellFormed(bars)
    requires forall i :: 0 <= i < |bars| ==> low <= bars[i].low && bars[i].high <= high
    ensures 0 <= TotalVolume(bars)
    ensures InBand(Weighted(bars), TotalVolume(bars), low, high)
  {
    if bars != [] {
      hide TypicalPrice, Weighted, TotalVolume, InBand;
      var n := |bars| - 1;
      var last := bars[n];
      var price := TypicalPrice(last);
      var product := price * last.volume as real;
      WeightedBetween(bars[..n], low, high);
      TypicalPriceBetween(last, low, high);
      WeightedUnfolds(bars, product);
      WeightedStep(TotalVolume(bars[..n]), Weighted(bars[..n]), price, last.volume, product, low, high);
    }
  }

  /** The published VWAP lies between the rounded lowest low and the rounded highest high. */
  lemma VwapIsBounded(bars: seq<Candle>, low: real, high: real)
    requires AllWellFormed(bars) && Vwap(bars).Some?
    requires forall i :: 0 <= i < |bars| ==> low <= bars[i].low && bars[i].high <= high
    ensures Q4(low) <= Vwap(bars).value <= Q4(high)
  {
    hide Weighted, TotalVolume, Q4;
    WeightedBetween(bars, low, high);
    var total := TotalVolume(bars) as real;
    QuotientBetween(Weighted(bars), low, high, total);
    Q4MonotoneWithHalfUnitError(low, Weighted(bars) / total);
    Q4MonotoneWithHalfUnitError(Weighted(bars) / total, high);
  }

  // ----- ratios

  /** Current volume over the average of the `period` candles before it. */
  function VolumeRatio(bars: seq<Candle>, period: nat): Option<real>
    requires period >= 1
  {
    if |bars| < period + 1 then None
    else
      var average := TotalVolume(bars[|bars| - period - 1..|bars| - 1]) as real / period as real;
      if average <= 0.0 then None else Some(Q4(bars[|bars| - 1].volume as real / average))
  }

  function PercentMove(previous: real, current: real): Option<real> {
    if previous == 0.0 then None else Some((current - previous) / previous * 100.0)
  }

  /** The latest percentage move minus the benchmark's. */
  function RelativeMove(bars: seq<Candle>, benchmark: seq<Candle>): Option<real> {
    if |bars| < 2 || |benchmark| < 2 then None
    else
      var own := PercentMove(bars[|bars| - 2].close, bars[|bars| - 1].close);
      var index := PercentMove(benchmark[|benchmark| - 2].close, benchmark[|benchmark| - 1].close);
      if own.None? || index.None? then None else Some(Q4(own.value - index.value))
  }

  datatype Quote = Quote(bid: Option<real>, ask: Option<real>)

  function SpreadPercent(quote: Option<Quote>): Option<real> {
    if quote.None? || quote.value.bid.None? || quote.value.ask.None? then None
    else
      var bid, ask := quote.value.bid.value, quote.value.ask.value;
      var mid := (bid + ask) / 2.0;
      if mid <= 0.0 || ask < bid then None else Some(Q4((ask - bid) / mid * 100.0))
  }

  /** A published spread is never negative; it is 200 at most when the bid is not negative. */
  lemma SpreadInRange(quote: Option<Quote>)
    requires SpreadPercent(quote).Some?
    ensures 0.0 <= SpreadPercent(quote).value
    ensures quote.value.bid.value >= 0.0 ==> SpreadPercent(quote).value <= 200.0
  {
    var bid, ask := quote.value.bid.value, quote.value.ask.value;
    var mid := (bid + ask) / 2.0;
    var share := (ask - bid) / mid;
    QuotientBetween(ask - bid, 0.0, if bid >= 0.0 then 2.0 else share, mid);
    ScaleOrder(0.0, share, 100.0);
    Q4MonotoneWithHalfUnitError(0.0, share * 100.0);
    if bid >= 0.0 {
      Q4MonotoneWithHalfUnitError(share * 100.0, 200.0);
    }
    assert HalfUp(0.0) == 0 && HalfUp(2000000.0) == 2000000;
  }
}
