// What an evaluation says, written on the candles and the indicators themselves: every reason in its place, and the
// comparisons of each strategy.

module StrategyLaws {
  import opened Options
  import opened MarketClock
  import opened Rounding
  import opened Collections
  import opened Candles
  import opened Indicators
  import opened Sessions
  import opened Strategies
  import Text

  // ----- opening range and prior day

  /** The opening range, by the clock: the candles of the last candle's date from 09:15 until so many minutes later. */
  lemma OpeningBarsByClock(bars: seq<Candle>, minutes: int)
    requires bars != []
    ensures forall c ::
      c in OpeningBars(bars, minutes)
      <==> (&& c in bars
            && IstDate(c.startedAt) == IstDate(bars[|bars| - 1].startedAt)
            && TimeOfDay(9, 15) <= IstTime(c.startedAt) < TimeOfDay(9, 15) + minutes * MINUTE)
  {
    hide IstDate, IstTime;
    var date := IstDate(bars[|bars| - 1].startedAt);
    FilterMembers(bar => InOpeningRange(bar, date, minutes), bars);
    forall c ensures 0 <= MinutesSinceOpen(c) < minutes
      <==> TimeOfDay(9, 15) <= IstTime(c.startedAt) < TimeOfDay(9, 15) + minutes * MINUTE
    {
      WholeMinutesFit(IstTime(c.startedAt), minutes);
    }
  }

  lemma WholeMinutesFit(time: int, minutes: int)
    ensures 0 <= time / MINUTE - 555 < minutes <==> TimeOfDay(9, 15) <= time < TimeOfDay(9, 15) + minutes * MINUTE
  {
  }

  /** The greatest high and the least low of some candles. */
  ghost predicate IsHighLow(bars: seq<Candle>, high: Option<real>, low: Option<real>) {
    && (high.Some? <==> bars != []) && (low.Some? <==> bars != [])
    && (bars != [] ==>
          && (forall c :: c in bars ==> low.value <= c.low && c.high <= high.value)
          && (exists c :: c in bars && c.high == high.value)
          && (exists c :: c in bars && c.low == low.value))
  }

  lemma HighLowIsExtreme(bars: seq<Candle>)
    ensures IsHighLow(bars, HighLow(bars).0, HighLow(bars).1)
  {
    if bars != [] {
      var high, low := HighestHigh(bars), LowestLow(bars);
      var i :| 0 <= i < |bars| && bars[i].high == high;
      var j :| 0 <= j < |bars| && bars[j].low == low;
      assert bars[i] in bars && bars[j] in bars;
      forall c | c in bars ensures low <= c.low && c.high <= high {
        var k :| 0 <= k < |bars| && bars[k] == c;
      }
    }
  }

  /** The previous day's high and low are those of the prior session, as long as the current session has a candle. */
  lemma PreviousDayIsPriorSession(bars: seq<Candle>)
    requires bars != []
    ensures var previous := PreviousDayHighLow(PriorSession(bars) + CurrentSession(bars));
      if CurrentSession(bars) == [] then previous == (None, None)
      else previous == HighLow(PriorSession(bars))
  {
    hide IsRegular, Filter, CurrentDate, TrailingBars, LatestDateBefore, IstDate, HighLow, CurrentSession, PriorSession;
    var prior, current := PriorSession(bars), CurrentSession(bars);
    PriorSessionIsDateBefore(bars);
    CurrentSessionIsLatestDate(bars);
    if current != [] {
      assert current[|current| - 1] in current;
      PriorBefore(prior, current, CurrentDate(bars));
    } else if prior != [] {
      NothingBefore(prior);
      assert prior + current == prior;
    }
  }

  lemma PriorBefore(prior: seq<Candle>, current: seq<Candle>, today: int)
    requires current != [] && forall c :: c in current ==> OnDate(c, today)
    requires prior != [] ==>
      IstDate(prior[0].startedAt) < today && forall c :: c in prior ==> OnDate(c, IstDate(prior[0].startedAt))
    ensures PreviousDayHighLow(prior + current) == HighLow(prior)
  {
    hide HighLow, Filter, LatestDateBefore, IstDate;
    var all := prior + current;
    assert current[|current| - 1] in current && all[|all| - 1] == current[|current| - 1];
    LatestDateIsLatest(all, today);
    forall i | 0 <= i < |all| ensures all[i] in prior || all[i] in current {
    }
    if prior == [] {
      assert HighLow(prior) == (None, None) by {
        NoHighLow();
      }
    } else {
      var date := IstDate(prior[0].startedAt);
      assert prior[0] in prior && all[0] == prior[0];
      FilterConcatenates(bar => OnDate(bar, date), prior, current);
      FilterEverything(bar => OnDate(bar, date), prior);
      FilterNothing(bar => OnDate(bar, date), current);
      assert LatestDateBefore(all, today) == Some(date);
      var found := Filter(bar => OnDate(bar, date), all);
      assert found == prior + [] == prior;
      assert PreviousDayHighLow(all) == HighLow(found);
    }
  }

  lemma NoHighLow()
    ensures HighLow([]) == (None, None)
  {
  }

  lemma NothingBefore(prior: seq<Candle>)
    requires prior != [] && forall c :: c in prior ==> OnDate(c, IstDate(prior[0].startedAt))
    ensures PreviousDayHighLow(prior) == (None, None)
  {
    hide HighLow, IstDate, LatestDateBefore;
    assert prior[|prior| - 1] in prior;
    LatestDateIsLatest(prior, IstDate(prior[|prior| - 1].startedAt));
    forall i | 0 <= i < |prior| ensures OnDate(prior[i], IstDate(prior[0].startedAt)) {
      assert prior[i] in prior;
    }
  }

  // ----- an evaluation, written on the candles

  function When(applies: bool, reason: Veto): seq<Veto> {
    if applies then [reason] else []
  }

  /** The latest bar closes above the opening range and above VWAP, with the fast average above the slow one, on enough
      volume. */
  predicate BreaksOut(r: Request)
    requires r.bars != []
  {
    var close := r.bars[|r.bars| - 1].close;
    var trailing, session := TrailingBars(r.bars), CurrentSession(r.bars);
    var high, vwap := OpeningRange(session, r.config.openingRangeMinutes).0, Vwap(session);
    var fast, slow := EmaValue(Closes(trailing), 9), EmaValue(Closes(trailing), 20);
    var ratio := VolumeRatio(trailing, 20);
    && high.Some? && vwap.Some? && fast.Some? && slow.Some? && ratio.Some?
    && high.value < close && vwap.value < close && slow.value < fast.value
    && r.config.minVolumeRatio <= ratio.value
  }

  /** The bar before closed at or below VWAP, the latest closes above VWAP and above the high of the bar before,
      with the fast average not below the slow one, on enough volume. */
  predicate PullsBack(r: Request)
    requires r.bars != []
  {
    var n := |r.bars|;
    var trailing, session := TrailingBars(r.bars), CurrentSession(r.bars);
    var vwap, ratio := Vwap(session), VolumeRatio(trailing, 20);
    var fast, slow := EmaValue(Closes(trailing), 9), EmaValue(Closes(trailing), 20);
    && n >= 2 && vwap.Some? && fast.Some? && slow.Some? && ratio.Some?
    && r.bars[n - 2].close <= vwap.value && vwap.value < r.bars[n - 1].close
    && r.bars[n - 2].high < r.bars[n - 1].close
    && slow.value <= fast.value
    && r.config.minVolumeRatio <= ratio.value
  }

  /** Fifty regular candles, volume in the current session, and volume in the twenty candles before the latest. */
  predicate EnoughHistory(bars: seq<Candle>) {
    var trailing := TrailingBars(bars);
    var n := |trailing|;
    && n >= 50
    && TotalVolume(CurrentSession(bars)) > 0
    && TotalVolume(trailing[n - 21..n - 1]) > 0
  }

  lemma NoAverageVolume(sum: int)
    ensures sum as real / 20.0 <= 0.0 <==> sum <= 0
  {
  }

  /** Exactly when every required indicator has a value. */
  lemma HistoryIsEnough(
    bars: seq<Candle>, benchmark: seq<Candle>, quote: Option<Quote>, minutes: int, timeframe: string)
    ensures Quality(bars, Snapshot(bars, benchmark, quote, minutes), quote, minutes, timeframe).historyComplete
      <==> EnoughHistory(bars)
  {
    hide TrailingBars, CurrentSession, PriorSession, OpeningRange, PreviousDayHighLow, RelativeMove, SpreadPercent;
    hide ContinuityOk, OpeningRangeComplete, CompleteThroughLatest, SessionStartAvailable, TotalVolume, Q4;
    hide EmaRaw, AverageMove, Wilder, RsiOf, VwapRaw, TrueRanges, Closes;
    var trailing := TrailingBars(bars);
    var n := |trailing|;
    assert |Closes(trailing)| == n;
    if TotalVolume(CurrentSession(bars)) > 0 {
      SomeVolume(CurrentSession(bars));
    }
    if n >= 50 {
      assert trailing[n - 20 - 1..n - 1] == trailing[n - 21..n - 1];
      NoAverageVolume(TotalVolume(trailing[n - 21..n - 1]));
    }
  }

  lemma SomeVolume(bars: seq<Candle>)
    requires TotalVolume(bars) > 0
    ensures bars != []
  {
  }

  lemma StrategyConditions(r: Request)
    requires r.bars != []
    ensures ConditionHolds(ScanOf(r)) <==> if r.strategy == OpeningRangeBreakoutLong then BreaksOut(r) else PullsBack(r)
  {
    hide TrailingBars, CurrentSession, PriorSession, OpeningRange, PreviousDayHighLow, RelativeMove, SpreadPercent;
    hide Quality, EmaValue, RsiValue, AtrValue, Vwap, VolumeRatio, Closes;
  }

  lemma QualityReasons(r: Request)
    requires r.bars != []
    ensures var scan, session := ScanOf(r), CurrentSession(r.bars);
      && (Triggers(MissingHistory, scan) <==> !EnoughHistory(r.bars))
      && (Triggers(DataQualityFailure, scan) <==> !ContinuityOk(session, r.timeframe))
      && (Triggers(IncompleteSessionContext, scan)
          <==> if r.strategy == OpeningRangeBreakoutLong
               then !OpeningRangeComplete(session, r.config.openingRangeMinutes, r.timeframe)
               else !CompleteThroughLatest(session, r.timeframe))
  {
    hide TrailingBars, CurrentSession, PriorSession, EnoughHistory, Snapshot, ConditionHolds;
    hide ContinuityOk, OpeningRangeComplete, CompleteThroughLatest, SessionStartAvailable;
    HistoryIsEnough(r.bars, r.benchmark, r.quote, r.config.openingRangeMinutes, r.timeframe);
  }

  lemma OtherReasons(r: Request)
    requires r.bars != []
    ensures var scan, spread := ScanOf(r), SpreadPercent(r.quote);
      && (Triggers(UnsupportedSymbol, scan) <==> !("NSE:" <= r.symbol))
      && (Triggers(StaleQuoteOrData, scan) <==> r.isStale)
      && (Triggers(OutsideConfiguredTimeWindow, scan)
          <==> IstTime(r.bars[|r.bars| - 1].startedAt) > TimeOfDay(14, 30))
      && (Triggers(BenchmarkDataMissingWhenRequired, scan)
          <==> r.config.benchmarkSymbol.Some? && r.config.benchmarkSymbol.value != ""
               && RelativeMove(TrailingBars(r.bars), TrailingBars(r.benchmark)).None?)
      && (Triggers(SpreadUnavailableWhenRequired, scan) <==> SpreadDemanded(r) && spread.None?)
      && (Triggers(SpreadTooWide, scan) <==> spread.Some? && r.config.maxSpreadPercent < spread.value)
  {
    hide TrailingBars, CurrentSession, PriorSession, OpeningRange, PreviousDayHighLow, RelativeMove, SpreadPercent;
    hide Quality, EmaValue, RsiValue, AtrValue, Vwap, VolumeRatio, Closes, ConditionHolds, IstTime;
  }

  /** The strategy is the one watched for live eligibility, and it is not merely shadowed. */
  predicate SpreadDemanded(r: Request) {
    r.config.requireSpreadForFutureLive && r.config.futureLiveEligible == Some(r.strategy)
    && Text.Upper(r.config.observationMode) != "SHADOW"
  }

  lemma WhenNothing(first: seq<Veto>)
    ensures [] + first == first
  {
  }

  lemma WhenStep(k: nat, veto: Veto, scan: Scan)
    requires k < 9 && HARD_VETOES[k] == veto
    ensures Upto(k + 1, scan) == Upto(k, scan) + When(Triggers(veto, scan), veto)
  {
    UptoStep(k, veto, scan);
  }

  lemma WhenLast(scan: Scan)
    ensures Triggered(ALL_VETOES, scan)
         == Triggered(HARD_VETOES, scan) + When(Triggers(InvalidIndicatorState, scan), InvalidIndicatorState)
  {
    hide Triggered;
    ConditionIsLast(scan);
    ConditionTriggers(scan);
  }

  lemma TriggeredInOrder(scan: Scan)
    ensures Triggered(ALL_VETOES, scan)
         == When(Triggers(UnsupportedSymbol, scan), UnsupportedSymbol)
            + When(Triggers(MissingHistory, scan), MissingHistory)
            + When(Triggers(DataQualityFailure, scan), DataQualityFailure)
            + When(Triggers(IncompleteSessionContext, scan), IncompleteSessionContext)
            + When(Triggers(StaleQuoteOrData, scan), StaleQuoteOrData)
            + When(Triggers(OutsideConfiguredTimeWindow, scan), OutsideConfiguredTimeWindow)
            + When(Triggers(BenchmarkDataMissingWhenRequired, scan), BenchmarkDataMissingWhenRequired)
            + When(Triggers(SpreadUnavailableWhenRequired, scan), SpreadUnavailableWhenRequired)
            + When(Triggers(SpreadTooWide, scan), SpreadTooWide)
            + When(Triggers(InvalidIndicatorState, scan), InvalidIndicatorState)
  {
    hide Triggers, Triggered, Upto, When;
    UptoEnds(scan);
    WhenNothing(When(Triggers(UnsupportedSymbol, scan), UnsupportedSymbol));
    WhenStep(0, UnsupportedSymbol, scan);
    WhenStep(1, MissingHistory, scan);
    WhenStep(2, DataQualityFailure, scan);
    WhenStep(3, IncompleteSessionContext, scan);
    WhenStep(4, StaleQuoteOrData, scan);
    WhenStep(5, OutsideConfiguredTimeWindow, scan);
    WhenStep(6, BenchmarkDataMissingWhenRequired, scan);
    WhenStep(7, SpreadUnavailableWhenRequired, scan);
    WhenStep(8, SpreadTooWide, scan);
    WhenLast(scan);
  }

  lemma ConditionTriggers(scan: Scan)
    ensures Triggers(InvalidIndicatorState, scan) <==> !ConditionHolds(scan)
  {
    hide ConditionHolds;
  }

  /** EVERY REASON, in its place: what an evaluation reports, written on the candles, the indicators and the request. */
  lemma EvaluationSaysWhy(r: Request)
    requires r.bars != []
    ensures var e, session, spread := Evaluate(r), CurrentSession(r.bars), SpreadPercent(r.quote);
      var breakout := r.strategy == OpeningRangeBreakoutLong;
      && e.vetoes
         == When(!("NSE:" <= r.symbol), UnsupportedSymbol)
            + When(!EnoughHistory(r.bars), MissingHistory)
            + When(!ContinuityOk(session, r.timeframe), DataQualityFailure)
            + When(if breakout then !OpeningRangeComplete(session, r.config.openingRangeMinutes, r.timeframe)
                   else !CompleteThroughLatest(session, r.timeframe), IncompleteSessionContext)
            + When(r.isStale, StaleQuoteOrData)
            + When(IstTime(r.bars[|r.bars| - 1].startedAt) > TimeOfDay(14, 30), OutsideConfiguredTimeWindow)
            + When(r.config.benchmarkSymbol.Some? && r.config.benchmarkSymbol.value != ""
                   && RelativeMove(TrailingBars(r.bars), TrailingBars(r.benchmark)).None?,
                   BenchmarkDataMissingWhenRequired)
            + When(SpreadDemanded(r) && spread.None?, SpreadUnavailableWhenRequired)
            + When(spread.Some? && r.config.maxSpreadPercent < spread.value, SpreadTooWide)
            + When(if breakout then !BreaksOut(r) else !PullsBack(r), InvalidIndicatorState)
      && (e.status == CANDIDATE <==> e.vetoes == [])
      && e.signalTime == r.bars[|r.bars| - 1].startedAt && e.instrumentId == r.instrumentId
  {
    hide Triggers, Triggered, ConditionHolds, BreaksOut, PullsBack, EnoughHistory, ContinuityOk, OpeningRangeComplete;
    hide CompleteThroughLatest, CurrentSession, TrailingBars, RelativeMove, SpreadPercent, SpreadDemanded, IstTime;
    hide ScanOf, KeyOf, When;
    TriggeredInOrder(ScanOf(r));
    QualityReasons(r);
    OtherReasons(r);
    StrategyConditions(r);
    ConditionTriggers(ScanOf(r));
  }

  /** WHEN A BAR IS A CANDIDATE, strategy by strategy: no hard veto, and the comparisons hold. */
  lemma CandidateIffConditionsHold(r: Request)
    requires r.bars != []
    ensures Evaluate(r).status == CANDIDATE
      <==> (forall v: Veto :: v in HARD_VETOES ==> v !in Evaluate(r).vetoes)
           && if r.strategy == OpeningRangeBreakoutLong then BreaksOut(r) else PullsBack(r)
  {
    hide BreaksOut, PullsBack, Triggers, ScanOf, ConditionHolds;
    CandidateIffNothingTriggers(r);
    StrategyConditions(r);
    ConditionTriggers(ScanOf(r));
    forall v: Veto ensures v in HARD_VETOES || v == InvalidIndicatorState {
      EveryVetoListed(v);
      var k :| 0 <= k < |ALL_VETOES| && ALL_VETOES[k] == v;
      assert k < |HARD_VETOES| ==> HARD_VETOES[k] == v;
    }
  }

  /** The indicators reported with an evaluation: averages and history over the regular candles, VWAP and opening range
      over the current session, the previous day over the prior session. */
  lemma EvaluationReportsIndicators(r: Request)
    requires r.bars != []
    ensures var i, trailing, session := Evaluate(r).indicators, TrailingBars(r.bars), CurrentSession(r.bars);
      var closes := Closes(trailing);
      && |closes| == |trailing| && (forall k :: 0 <= k < |closes| ==> closes[k] == trailing[k].close)
      && i.relativeIndexMove == RelativeMove(trailing, TrailingBars(r.benchmark))
      && i.ema9 == EmaValue(closes, 9) && i.ema20 == EmaValue(closes, 20) && i.ema50 == EmaValue(closes, 50)
      && i.rsi14 == RsiValue(closes, 14) && i.atr14 == AtrValue(trailing, 14) && i.vwap == Vwap(session)
      && i.volumeRatio == VolumeRatio(trailing, 20) && i.spreadPercent == SpreadPercent(r.quote)
      && IsHighLow(OpeningBars(session, r.config.openingRangeMinutes), i.openingRangeHigh, i.openingRangeLow)
      && (session != [] ==> IsHighLow(PriorSession(r.bars), i.previousDayHigh, i.previousDayLow))
    ensures var q, session := Evaluate(r).quality, CurrentSession(r.bars);
      && (q.quoteFresh <==> r.quote.Some?) && (q.spreadAvailable <==> SpreadPercent(r.quote).Some?)
      && (q.sessionStartAvailable <==> session != [] && IstTime(session[0].startedAt) == TimeOfDay(9, 15))
  {
    hide CurrentSession, TrailingBars, RelativeMove, SpreadPercent, EmaValue, RsiValue, AtrValue, Vwap, VolumeRatio;
    hide PriorSession, PreviousDayHighLow, OpeningBars, IsHighLow, HighLow, Triggered, KeyOf, ContinuityOk;
    hide OpeningRangeComplete, CompleteThroughLatest, IstTime;
    HighLowIsExtreme(OpeningBars(CurrentSession(r.bars), r.config.openingRangeMinutes));
    PreviousDayIsPriorSession(r.bars);
    HighLowIsExtreme(PriorSession(r.bars));
  }

  /** Two evaluations share a key iff they are of one symbol, timeframe, strategy and bar start, in one run, where
      no run, an empty one and "live" are the same. */
  lemma KeysAgreeIff(a: Request, b: Request)
    requires a.bars != [] && b.bars != []
    ensures KeyOf(a) == KeyOf(b)
      <==> (&& a.symbol == b.symbol && a.timeframe == b.timeframe && a.strategy == b.strategy
            && a.bars[|a.bars| - 1].startedAt == b.bars[|b.bars| - 1].startedAt
            && (a.replayRunId == b.replayRunId
                || (a.replayRunId in {None, Some(""), Some("live")}
                    && b.replayRunId in {None, Some(""), Some("live")})))
  {
  }
}
