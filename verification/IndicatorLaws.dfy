// The indicators stated without their own loops: what the first value is, what one more value does to it, and when
// there is a value at all.

module IndicatorLaws {
  import opened Options
  import opened Rounding
  import opened Candles
  import opened Indicators

  // ----- sums

  lemma OneMore<T>(values: seq<T>, x: T)
    ensures (values + [x])[..|values|] == values
  {
  }

  lemma VolumeOfOneMore(bars: seq<Candle>, bar: Candle)
    ensures TotalVolume([]) == 0 && TotalVolume(bars + [bar]) == TotalVolume(bars) + bar.volume
  {
    OneMore(bars, bar);
  }

  // ----- EMA

  lemma EmaStepLaw(old_: real, x: real, p: real, m: real)
    requires m * (p + 1.0) == 2.0
    ensures (p + 1.0) * EmaStep(old_, x, m) == 2.0 * x + (p - 1.0) * old_
  {
    var d := x - old_;
    assert (p + 1.0) * (d * m) == d * (m * (p + 1.0)) == 2.0 * d;
    assert (p + 1.0) * old_ == p * old_ + old_ && (p - 1.0) * old_ == p * old_ - old_;
  }

  lemma EmaAppends(values: seq<real>, period: nat, x: real)
    requires 1 <= period <= |values|
    ensures EmaRaw(values + [x], period) == EmaStep(EmaRaw(values, period), x, 2.0 / (period + 1) as real)
  {
    hide EmaStep;
    var more := values + [x];
    assert more[..period] == values[..period] && more[period..] == values[period..] + [x];
    OneMore(values[period..], x);
  }

  /** EMA, BY RECURRENCE. The first average is the mean of the first `period` values; every further value counts twice
      against `period - 1` parts of the average before it, out of `period + 1`. */
  lemma EmaRecurrence(values: seq<real>, period: nat, x: real)
    requires 1 <= period <= |values|
    ensures |values| == period ==> EmaRaw(values, period) * period as real == Sum(values)
    ensures (period + 1) as real * EmaRaw(values + [x], period)
         == 2.0 * x + (period - 1) as real * EmaRaw(values, period)
  {
    hide EmaRaw;
    EmaAppends(values, period, x);
    EmaStepLaw(EmaRaw(values, period), x, period as real, 2.0 / (period + 1) as real);
    if |values| == period {
      EmaSeed(values);
    }
  }

  lemma EmaSeed(values: seq<real>)
    requires values != []
    ensures EmaRaw(values, |values|) * |values| as real == Sum(values)
  {
    assert values[..|values|] == values && values[|values|..] == [];
  }

  // ----- Wilder smoothing

  lemma WilderStepLaw(average: real, x: real, period: nat)
    requires period >= 1
    ensures period as real * WilderStep(average, x, period) == (period - 1) as real * average + x
  {
  }

  lemma WilderAppends(values: seq<real>, period: nat, x: real)
    requires 1 <= period <= |values|
    ensures Wilder(values + [x], period) == WilderStep(Wilder(values, period), x, period)
  {
    hide WilderStep;
    var more := values + [x];
    assert more[..period] == values[..period] && more[period..] == values[period..] + [x];
    OneMore(values[period..], x);
  }

  /** WILDER, BY RECURRENCE: the mean of the first `period` values, then one part of `period` for each new value. */
  lemma WilderRecurrence(values: seq<real>, period: nat, x: real)
    requires 1 <= period <= |values|
    ensures |values| == period ==> Wilder(values, period) * period as real == Sum(values)
    ensures period as real * Wilder(values + [x], period) == (period - 1) as real * Wilder(values, period) + x
  {
    hide WilderStep, Wilder, Sum;
    WilderAppends(values, period, x);
    WilderStepLaw(Wilder(values, period), x, period);
    if |values| == period {
      WilderSeed(values);
    }
  }

  lemma WilderSeed(values: seq<real>)
    requires values != []
    ensures Wilder(values, |values|) * |values| as real == Sum(values)
  {
    assert values[..|values|] == values && values[|values|..] == [];
    assert WilderOver(Sum(values) / |values| as real, [], |values|) == Sum(values) / |values| as real;
  }

  // ----- RSI

  lemma MovesAppend(closes: seq<real>, x: real, rising: bool)
    requires closes != []
    ensures Moves(closes + [x], rising) == Moves(closes, rising) + [Move(closes[|closes| - 1], x, rising)]
  {
    OneMore(closes, x);
  }

  /** AVERAGE GAIN AND LOSS, BY RECURRENCE. The first average is the mean of the rises, or falls, of the first `period`
      changes; every further close adds one part of `period` of its own rise, or fall, or nothing. */
  lemma AverageMoveRecurrence(closes: seq<real>, period: nat, x: real, rising: bool)
    requires 1 <= period < |closes|
    ensures |Moves(closes, rising)| == |closes| - 1
    ensures forall i {:trigger Moves(closes, rising)[i]} :: 0 <= i < |closes| - 1 ==>
      var change := closes[i + 1] - closes[i];
      Moves(closes, rising)[i]
      == if rising && change > 0.0 then change else if !rising && change < 0.0 then -change else 0.0
    ensures |closes| == period + 1 ==>
      AverageMove(closes, period, rising) * period as real == Sum(Moves(closes, rising))
    ensures var change := x - closes[|closes| - 1];
      period as real * AverageMove(closes + [x], period, rising)
      == (period - 1) as real * AverageMove(closes, period, rising)
         + (if rising && change > 0.0 then change else if !rising && change < 0.0 then -change else 0.0)
  {
    hide Wilder, Sum, Moves;
    MovesShape(closes, rising);
    MovesShape(closes + [x], rising);
    MovesAppend(closes, x, rising);
    WilderRecurrence(Moves(closes, rising), period, Move(closes[|closes| - 1], x, rising));
  }

  lemma RsiFromShares(gain: real, loss: real)
    requires 0.0 <= gain && 0.0 < loss
    ensures RsiFrom(gain, loss) == 100.0 * gain / (gain + loss)
  {
    if gain == 0.0 {
      assert gain / loss == 0.0;
    } else {
      ShareOfTotal(gain, loss);
      assert 100.0 * gain / (gain + loss) + 100.0 * loss / (gain + loss) == 100.0 * (gain + loss) / (gain + loss);
    }
  }

  /** RSI is the share of gains, out of 100; all of it when nothing fell. */
  lemma RsiIsShareOfGains(closes: seq<real>, period: nat)
    requires period >= 1
    ensures RsiValue(closes, period).Some? <==> period < |closes|
    ensures period < |closes| ==>
      0.0 <= AverageMove(closes, period, true) && 0.0 <= AverageMove(closes, period, false)
    ensures period < |closes| ==>
      var gain, loss := AverageMove(closes, period, true), AverageMove(closes, period, false);
      RsiValue(closes, period) == Some(if loss == 0.0 then 100.0 else Q4(100.0 * gain / (gain + loss)))
  {
    hide AverageMove, RsiFrom, Q4;
    if period < |closes| {
      GainsAreNotNegative(closes, period);
      var gain, loss := AverageMove(closes, period, true), AverageMove(closes, period, false);
      if loss != 0.0 {
        RsiFromShares(gain, loss);
      }
    }
  }

  // ----- ATR

  /** The true range is the least number no smaller than the bar's own range and than the distances of its high and its
      low from the close before; for a well-formed bar, the width of the bar stretched to that close. */
  lemma TrueRangeIsWidest(previous: Candle, current: Candle)
    ensures var t := TrueRange(previous, current);
      && t >= current.high - current.low
      && t >= current.high - previous.close && t >= previous.close - current.high
      && t >= current.low - previous.close && t >= previous.close - current.low
      && t in {current.high - current.low, current.high - previous.close, previous.close - current.high,
               current.low - previous.close, previous.close - current.low}
    ensures WellFormed(current) ==>
      TrueRange(previous, current)
      == (if current.high < previous.close then previous.close else current.high)
         - (if previous.close < current.low then previous.close else current.low)
  {
  }

  lemma {:induction false} RangeAt(bars: seq<Candle>, i: nat)
    requires i + 1 < |bars|
    ensures TrueRanges(bars)[i] == TrueRange(bars[i], bars[i + 1])
  {
    hide TrueRange;
    if i + 2 < |bars| {
      RangeAt(bars[..|bars| - 1], i);
    }
  }

  lemma RangesAppend(bars: seq<Candle>, bar: Candle)
    requires bars != []
    ensures TrueRanges(bars + [bar]) == TrueRanges(bars) + [TrueRange(bars[|bars| - 1], bar)]
  {
    OneMore(bars, bar);
  }

  /** ATR, BY RECURRENCE, over the true ranges of consecutive bars; published to four places. */
  lemma AtrRecurrence(bars: seq<Candle>, period: nat, bar: Candle)
    requires 1 <= period < |bars|
    ensures forall i :: 0 <= i < |bars| - 1 ==> TrueRanges(bars)[i] == TrueRange(bars[i], bars[i + 1])
    ensures |bars| == period + 1 ==> Wilder(TrueRanges(bars), period) * period as real == Sum(TrueRanges(bars))
    ensures period as real * Wilder(TrueRanges(bars + [bar]), period)
         == (period - 1) as real * Wilder(TrueRanges(bars), period) + TrueRange(bars[|bars| - 1], bar)
    ensures AtrValue(bars, period) == Some(Q4(Wilder(TrueRanges(bars), period)))
  {
    hide Wilder, TrueRange, Q4, Sum, TrueRanges;
    forall i | 0 <= i < |bars| - 1 ensures TrueRanges(bars)[i] == TrueRange(bars[i], bars[i + 1]) {
      RangeAt(bars, i);
    }
    RangesAppend(bars, bar);
    WilderRecurrence(TrueRanges(bars), period, TrueRange(bars[|bars| - 1], bar));
  }

  // ----- VWAP

  lemma WeightedOfOneMore(bars: seq<Candle>, bar: Candle, product: real)
    requires product == (bar.high + bar.low + bar.close) / 3.0 * bar.volume as real
    ensures Weighted([]) == 0.0 && Weighted(bars + [bar]) == Weighted(bars) + product
  {
    OneMore(bars, bar);
  }

  lemma QuotientTimes(w: real, v: real)
    requires v > 0.0
    ensures w / v * v == w
  {
  }

  /** VWAP, BY RECURRENCE. One bar alone has the mean of its high, low and close; a bar joins with the weight of its
      volume, so that price times volume adds up. */
  lemma VwapRecurrence(bars: seq<Candle>, bar: Candle)
    requires bar.volume >= 0 && TotalVolume(bars + [bar]) > 0
    ensures TotalVolume(bars + [bar]) == TotalVolume(bars) + bar.volume
    ensures bars == [] ==> VwapRaw(bars + [bar]) * 3.0 == bar.high + bar.low + bar.close
    ensures TotalVolume(bars) > 0 ==>
      VwapRaw(bars + [bar]) * TotalVolume(bars + [bar]) as real
      == VwapRaw(bars) * TotalVolume(bars) as real + (bar.high + bar.low + bar.close) / 3.0 * bar.volume as real
  {
    hide Weighted, TotalVolume;
    var more := bars + [bar];
    var product := (bar.high + bar.low + bar.close) / 3.0 * bar.volume as real;
    VolumeOfOneMore(bars, bar);
    WeightedOfOneMore(bars, bar, product);
    QuotientTimes(Weighted(more), TotalVolume(more) as real);
    if TotalVolume(bars) > 0 {
      QuotientTimes(Weighted(bars), TotalVolume(bars) as real);
    }
    if bars == [] {
      OneBar(VwapRaw(more), (bar.high + bar.low + bar.close) / 3.0, bar.volume as real);
    }
  }

  lemma OneBar(raw: real, typical: real, volume: real)
    requires volume > 0.0 && raw * volume == typical * volume
    ensures raw == typical
  {
    assert (raw - typical) * volume == 0.0;
  }

  // ----- what is published

  /** Averages are published to four places: an EMA from `period` values on, an average range from `period + 1` bars
      on, VWAP as soon as anything was traded. */
  lemma AveragesArePublished(values: seq<real>, bars: seq<Candle>, period: nat)
    requires period >= 1
    ensures EmaValue(values, period) == if |values| < period then None else Some(Q4(EmaRaw(values, period)))
    ensures AtrValue(bars, period) == if |bars| <= period then None else Some(Q4(Wilder(TrueRanges(bars), period)))
    ensures Vwap(bars) == if TotalVolume(bars) <= 0 then None else Some(Q4(VwapRaw(bars)))
  {
  }

  // ----- ratios

  lemma RatioOfRatio(latest: real, sum: real, period: real) returns (ratio: real)
    requires sum > 0.0 && period > 0.0
    ensures sum / period > 0.0 && ratio == latest / (sum / period) && ratio * sum == period * latest
  {
    var average := sum / period;
    QuotientTimes(sum, period);
    if average <= 0.0 {
      NotPositive(average, period);
    }
    ratio := latest / average;
    QuotientTimes(latest, average);
    assert ratio * sum == ratio * (average * period) == (ratio * average) * period;
  }

  lemma NotPositive(a: real, p: real)
    requires a <= 0.0 && p > 0.0
    ensures a * p <= 0.0
  {
  }

  lemma QuotientIs(a: real, b: real, q: real)
    requires b != 0.0 && q * b == a
    ensures a / b == q
  {
  }

  lemma NoRatio(sum: real, period: real)
    requires sum <= 0.0 && period > 0.0
    ensures sum / period <= 0.0
  {
    NotPositive(sum, 1.0 / period);
    QuotientIs(sum, period, sum * (1.0 / period));
  }

  /** The volume ratio compares `period` times the latest volume with the volume of the `period` bars before it. */
  lemma VolumeRatioComparesVolumes(bars: seq<Candle>, period: nat) returns (ratio: real)
    requires period >= 1
    ensures |bars| <= period ==> VolumeRatio(bars, period).None?
    ensures |bars| > period ==>
      var n := |bars| - 1;
      var before := TotalVolume(bars[n - period..n]);
      && (before <= 0 ==> VolumeRatio(bars, period).None?)
      && (before > 0 ==>
            && VolumeRatio(bars, period) == Some(Q4(ratio))
            && ratio * before as real == period as real * bars[n].volume as real)
  {
    hide TotalVolume, Q4;
    ratio := 0.0;
    if |bars| > period {
      var n := |bars| - 1;
      assert bars[|bars| - period - 1..|bars| - 1] == bars[n - period..n];
      var before := TotalVolume(bars[n - period..n]);
      if before > 0 {
        ratio := RatioOfRatio(bars[n].volume as real, before as real, period as real);
      } else {
        NoRatio(before as real, period as real);
      }
    }
  }

  lemma PercentAsRatio(previous: real, current: real)
    requires previous != 0.0
    ensures (current - previous) / previous * 100.0 == 100.0 * (current / previous) - 100.0
  {
    var r := current / previous;
    assert r * previous == current;
    QuotientIs(current - previous, previous, r - 1.0);
  }

  /** The relative move is a hundred times the difference of the two closing ratios. */
  lemma RelativeMoveComparesRatios(bars: seq<Candle>, benchmark: seq<Candle>)
    ensures |bars| < 2 || |benchmark| < 2 ==> RelativeMove(bars, benchmark).None?
    ensures |bars| >= 2 && |benchmark| >= 2 ==>
      var a, b := bars[|bars| - 2].close, bars[|bars| - 1].close;
      var c, d := benchmark[|benchmark| - 2].close, benchmark[|benchmark| - 1].close;
      RelativeMove(bars, benchmark)
      == if a == 0.0 || c == 0.0 then None else Some(Q4(100.0 * (b / a) - 100.0 * (d / c)))
  {
    hide Q4;
    if |bars| >= 2 && |benchmark| >= 2 {
      var a, b := bars[|bars| - 2].close, bars[|bars| - 1].close;
      var c, d := benchmark[|benchmark| - 2].close, benchmark[|benchmark| - 1].close;
      if a != 0.0 && c != 0.0 {
        PercentAsRatio(a, b);
        PercentAsRatio(c, d);
      }
    }
  }

  /** The spread is 200 times the difference of ask and bid over their sum. */
  lemma SpreadComparesSides(quote: Option<Quote>)
    ensures quote.None? || quote.value.bid.None? || quote.value.ask.None? ==> SpreadPercent(quote).None?
    ensures quote.Some? && quote.value.bid.Some? && quote.value.ask.Some? ==>
      var bid, ask := quote.value.bid.value, quote.value.ask.value;
      SpreadPercent(quote)
      == if bid + ask > 0.0 && ask >= bid then Some(Q4(200.0 * (ask - bid) / (ask + bid))) else None
  {
    hide Q4;
    if quote.Some? && quote.value.bid.Some? && quote.value.ask.Some? {
      var bid, ask := quote.value.bid.value, quote.value.ask.value;
      if bid + ask > 0.0 {
        HalfDivides(ask - bid, ask + bid);
      }
    }
  }

  lemma HalfDivides(a: real, s: real)
    requires s > 0.0
    ensures a / (s / 2.0) * 100.0 == 200.0 * a / s
  {
    var q := a / (s / 2.0);
    QuotientTimes(a, s / 2.0);
    assert q * s == 2.0 * a;
    assert q * 100.0 * s == 200.0 * a;
  }
}
