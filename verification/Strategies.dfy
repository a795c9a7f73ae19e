// The two scanner strategies: feature snapshot, hard vetoes, and when a bar becomes a candidate.

module Strategies {
  import opened Options
  import opened MarketClock
  import opened Collections
  import opened Ordering
  import opened Candles
  import opened Indicators
  import opened Sessions
  import Text

  datatype Strategy = OpeningRangeBreakoutLong | VwapPullbackContinuationLong

  datatype ScannerConfig = ScannerConfig(
    strategies: seq<Strategy>,
    observationMode: string,
    futureLiveEligible: Option<Strategy>,
    openingRangeMinutes: int,
    minVolumeRatio: real,
    maxSpreadPercent: real,
    requireSpreadForFutureLive: bool,
    benchmarkSymbol: Option<string>)

  datatype IndicatorSnapshot = IndicatorSnapshot(
    ema9: Option<real>,
    ema20: Option<real>,
    ema50: Option<real>,
    rsi14: Option<real>,
    atr14: Option<real>,
    vwap: Option<real>,
    openingRangeHigh: Option<real>,
    openingRangeLow: Option<real>,
    previousDayHigh: Option<real>,
    previousDayLow: Option<real>,
    volumeRatio: Option<real>,
    relativeIndexMove: Option<real>,
    spreadPercent: Option<real>)

  datatype DataQuality = DataQuality(
    historyComplete: bool,
    quoteFresh: bool,
    spreadAvailable: bool,
    continuityOk: bool,
    sessionStartAvailable: bool,
    openingRangeComplete: bool,
    completeThroughLatest: bool)

  datatype Veto =
    | UnsupportedSymbol
    | MissingHistory
    | DataQualityFailure
    | IncompleteSessionContext
    | StaleQuoteOrData
    | OutsideConfiguredTimeWindow
    | BenchmarkDataMissingWhenRequired
    | SpreadUnavailableWhenRequired
    | SpreadTooWide
    | InvalidIndicatorState

  /** 14:30 IST. */
  const ENTRY_END: int := 52_200_000_000

  function Closes(bars: seq<Candle>): (closes: seq<real>)
    ensures |closes| == |bars|
  {
    seq(|bars|, i requires 0 <= i < |bars| => bars[i].close)
  }

  function Snapshot(bars: seq<Candle>, benchmark: seq<Candle>, quote: Option<Quote>, minutes: int): IndicatorSnapshot {
    var trailing, current := TrailingBars(bars), CurrentSession(bars);
    var closes := Closes(trailing);
    var opening := OpeningRange(current, minutes);
    var previous := PreviousDayHighLow(PriorSession(bars) + current);
    IndicatorSnapshot(
      EmaValue(closes, 9), EmaValue(closes, 20), EmaValue(closes, 50), RsiValue(closes, 14),
      AtrValue(trailing, 14), Vwap(current), opening.0, opening.1, previous.0, previous.1,
      VolumeRatio(trailing, 20), RelativeMove(trailing, TrailingBars(benchmark)), SpreadPercent(quote))
  }

  function Quality(
    bars: seq<Candle>, indicators: IndicatorSnapshot, quote: Option<Quote>, minutes: int, timeframe: string): DataQuality
  {
    var current := CurrentSession(bars);
    DataQuality(
      indicators.ema9.Some? && indicators.ema20.Some? && indicators.ema50.Some? && indicators.rsi14.Some?
      && indicators.atr14.Some? && indicators.vwap.Some? && indicators.volumeRatio.Some?,
      quote.Some?,
      indicators.spreadPercent.Some?,
      ContinuityOk(current, timeframe),
      SessionStartAvailable(current),
      OpeningRangeComplete(current, minutes, timeframe),
      CompleteThroughLatest(current, timeframe))
  }

  // ----- vetoes

  datatype Scan = Scan(
    strategy: Strategy,
    symbol: string,
    bars: seq<Candle>,
    indicators: IndicatorSnapshot,
    quality: DataQuality,
    config: ScannerConfig,
    isStale: bool)

  predicate WideSpread(scan: Scan) {
    scan.indicators.spreadPercent.Some? && scan.indicators.spreadPercent.value > scan.config.maxSpreadPercent
  }

  predicate SpreadRequiredNow(scan: Scan) {
    && scan.config.futureLiveEligible == Some(scan.strategy)
    && scan.config.requireSpreadForFutureLive
    && Text.Upper(scan.config.observationMode) != "SHADOW"
  }

  predicate NeedsBenchmark(config: ScannerConfig) {
    config.benchmarkSymbol.Some? && config.benchmarkSymbol.value != ""
  }

  /** The rule set of a strategy, on the latest bar. */
  predicate ConditionHolds(scan: Scan) {
    scan.bars != [] &&
    var latest, i := scan.bars[|scan.bars| - 1], scan.indicators;
    match scan.strategy
    case OpeningRangeBreakoutLong =>
      && i.openingRangeHigh.Some? && latest.close > i.openingRangeHigh.value
      && i.ema9.Some? && i.ema20.Some? && i.ema9.value > i.ema20.value
      && i.vwap.Some? && latest.close > i.vwap.value
      && i.volumeRatio.Some? && i.volumeRatio.value >= scan.config.minVolumeRatio
    case VwapPullbackContinuationLong =>
      && |scan.bars| >= 2
      && var previous := scan.bars[|scan.bars| - 2];
      && i.vwap.Some? && i.ema9.Some? && i.ema20.Some?
      && i.ema9.value >= i.ema20.value
      && previous.close <= i.vwap.value < latest.close
      && latest.close > previous.high
      && i.volumeRatio.Some? && i.volumeRatio.value >= scan.config.minVolumeRatio
  }

  /** What each reason means. */
  predicate Triggers(veto: Veto, scan: Scan) {
    match veto
    case UnsupportedSymbol => !Text.StartsWith(scan.symbol, "NSE:")
    case MissingHistory => !scan.quality.historyComplete
    case DataQualityFailure => !scan.quality.continuityOk
    case IncompleteSessionContext =>
      (match scan.strategy
       case OpeningRangeBreakoutLong => !scan.quality.openingRangeComplete
       case VwapPullbackContinuationLong => !scan.quality.completeThroughLatest)
    case StaleQuoteOrData => scan.isStale
    case OutsideConfiguredTimeWindow => scan.bars != [] && IstTime(scan.bars[|scan.bars| - 1].startedAt) > ENTRY_END
    case BenchmarkDataMissingWhenRequired =>
      NeedsBenchmark(scan.config) && scan.indicators.relativeIndexMove.None?
    case SpreadUnavailableWhenRequired => SpreadRequiredNow(scan) && scan.indicators.spreadPercent.None?
    case SpreadTooWide => WideSpread(scan)
    case InvalidIndicatorState => !ConditionHolds(scan)
  }

  const HARD_VETOES: seq<Veto> :=
    [UnsupportedSymbol, MissingHistory, DataQualityFailure, IncompleteSessionContext, StaleQuoteOrData,
     OutsideConfiguredTimeWindow, BenchmarkDataMissingWhenRequired, SpreadUnavailableWhenRequired, SpreadTooWide]

  const ALL_VETOES: seq<Veto> := HARD_VETOES + [InvalidIndicatorState]

  /** The reasons among `vetoes` that apply, in that order. */
  function Triggered(vetoes: seq<Veto>, scan: Scan): seq<Veto> {
    Filter(v => Triggers(v, scan), vetoes)
  }

  lemma TriggeredGrows(vetoes: seq<Veto>, k: nat, scan: Scan)
    requires k < |vetoes|
    ensures Triggered(vetoes[..k + 1], scan)
         == Triggered(vetoes[..k], scan) + (if Triggers(vetoes[k], scan) then [vetoes[k]] else [])
  {
    assert vetoes[..k + 1][..k] == vetoes[..k];
  }

  /** The first `k` hard vetoes, where they apply. */
  ghost function Upto(k: nat, scan: Scan): seq<Veto>
    requires k <= 9
  {
    Triggered(HARD_VETOES[..k], scan)
  }

  lemma UptoStep(k: nat, veto: Veto, scan: Scan)
    requires k < 9 && HARD_VETOES[k] == veto
    ensures Upto(k + 1, scan) == Upto(k, scan) + (if Triggers(veto, scan) then [veto] else [])
  {
    TriggeredGrows(HARD_VETOES, k, scan);
  }

  lemma UptoEnds(scan: Scan)
    ensures Upto(0, scan) == [] && Upto(9, scan) == Triggered(HARD_VETOES, scan)
  {
    assert HARD_VETOES[..9] == HARD_VETOES;
  }

  /** Appends every hard veto that applies; a wide spread may be appended twice before duplicates go. */
  method HardVetoes(scan: Scan) returns (reasons: seq<Veto>)
    ensures reasons == Triggered(HARD_VETOES, scan)
  {
    hide Triggered, Upto, Filter, IstTime, SpreadRequiredNow, WideSpread, FirstOccurrences;
    UptoEnds(scan);
    var vetoes: seq<Veto> := [];
    UptoStep(0, UnsupportedSymbol, scan);
    if !Text.StartsWith(scan.symbol, "NSE:") {
      vetoes := vetoes + [UnsupportedSymbol];
    }
    UptoStep(1, MissingHistory, scan);
    if !scan.quality.historyComplete {
      vetoes := vetoes + [MissingHistory];
    }
    UptoStep(2, DataQualityFailure, scan);
    if !scan.quality.continuityOk {
      vetoes := vetoes + [DataQualityFailure];
    }
    vetoes := ContextVetoes(scan, vetoes);
    UptoStep(6, BenchmarkDataMissingWhenRequired, scan);
    if NeedsBenchmark(scan.config) && scan.indicators.relativeIndexMove.None? {
      vetoes := vetoes + [BenchmarkDataMissingWhenRequired];
    }
    vetoes := SpreadVetoes(scan, vetoes);
    HardVetoesAreUnique(scan);
    FirstOccurrencesOfUnique(Upto(9, scan));
    if vetoes != Upto(9, scan) {
      RepeatedLast(Upto(9, scan), SpreadTooWide);
    }
    reasons := Unique(vetoes);
  }

  /** Session, staleness and time-window reasons. */
  method ContextVetoes(scan: Scan, vetoes: seq<Veto>) returns (r: seq<Veto>)
    requires vetoes == Upto(3, scan)
    ensures r == Upto(6, scan)
  {
    hide Triggered, Upto, Filter, IstTime;
    r := vetoes;
    UptoStep(3, IncompleteSessionContext, scan);
    if scan.strategy == VwapPullbackContinuationLong {
      if !scan.quality.completeThroughLatest {
        r := r + [IncompleteSessionContext];
      }
    }
    if scan.strategy == OpeningRangeBreakoutLong {
      if !scan.quality.openingRangeComplete {
        r := r + [IncompleteSessionContext];
      }
    }
    UptoStep(4, StaleQuoteOrData, scan);
    if scan.isStale {
      r := r + [StaleQuoteOrData];
    }
    UptoStep(5, OutsideConfiguredTimeWindow, scan);
    if scan.bars != [] && IstTime(scan.bars[|scan.bars| - 1].startedAt) > ENTRY_END {
      r := r + [OutsideConfiguredTimeWindow];
    }
  }

  method SpreadVetoes(scan: Scan, vetoes: seq<Veto>) returns (r: seq<Veto>)
    requires vetoes == Upto(7, scan)
    ensures r == Upto(9, scan) || r == Upto(9, scan) + [SpreadTooWide]
    ensures r != Upto(9, scan) ==> Upto(9, scan) != [] && Upto(9, scan)[|Upto(9, scan)| - 1] == SpreadTooWide
  {
    hide Triggered, Upto, Filter;
    r := vetoes;
    UptoStep(7, SpreadUnavailableWhenRequired, scan);
    UptoStep(8, SpreadTooWide, scan);
    if SpreadRequiredNow(scan) {
      if scan.indicators.spreadPercent.None? {
        r := r + [SpreadUnavailableWhenRequired];
      } else if scan.indicators.spreadPercent.value > scan.config.maxSpreadPercent {
        r := r + [SpreadTooWide];
      }
    }
    if WideSpread(scan) {
      r := r + [SpreadTooWide];
    }
  }

  lemma HardVetoesAreUnique(scan: Scan)
    ensures NoDuplicates(Triggered(HARD_VETOES, scan))
  {
    FilterKeepsUnique(v => Triggers(v, scan), HARD_VETOES);
  }

  // ----- evaluation

  datatype Status = CANDIDATE | REJECTED_SIGNAL

  /** One signal per run, symbol, timeframe, strategy and bar. */
  datatype SignalKey = SignalKey(run: string, symbol: string, timeframe: string, strategy: Strategy, barStart: Instant)

  datatype Evaluation = Evaluation(
    instrumentId: int,
    key: SignalKey,
    status: Status,
    signalTime: Instant,
    vetoes: seq<Veto>,
    indicators: IndicatorSnapshot,
    quality: DataQuality)

  /** Everything one evaluation looks at. */
  datatype Request = Request(
    strategy: Strategy,
    instrumentId: int,
    symbol: string,
    timeframe: string,
    bars: seq<Candle>,
    config: ScannerConfig,
    benchmark: seq<Candle>,
    quote: Option<Quote>,
    replayRunId: Option<string>,
    isStale: bool)

  function ScanOf(r: Request): (scan: Scan)
    ensures scan.bars == r.bars
  {
    var indicators := Snapshot(r.bars, r.benchmark, r.quote, r.config.openingRangeMinutes);
    Scan(r.strategy, r.symbol, r.bars, indicators,
         Quality(r.bars, indicators, r.quote, r.config.openingRangeMinutes, r.timeframe), r.config, r.isStale)
  }

  function KeyOf(r: Request): SignalKey
    requires r.bars != []
  {
    var run := if r.replayRunId.None? || r.replayRunId.value == "" then "live" else r.replayRunId.value;
    SignalKey(run, r.symbol, r.timeframe, r.strategy, r.bars[|r.bars| - 1].startedAt)
  }

  function Evaluate(r: Request): Evaluation
    requires r.bars != []
  {
    var scan := ScanOf(r);
    var vetoes := Triggered(ALL_VETOES, scan);
    Evaluation(r.instrumentId, KeyOf(r), if vetoes == [] then CANDIDATE else REJECTED_SIGNAL,
               r.bars[|r.bars| - 1].startedAt, vetoes, scan.indicators, scan.quality)
  }

  /** Vetoes first, then the strategy's own condition; any veto rejects. */
  method EvaluateStrategy(r: Request) returns (e: Evaluation)
    requires r.bars != []
    ensures e == Evaluate(r)
  {
    hide ScanOf, Triggered, Filter, ConditionHolds, KeyOf, FirstOccurrences;
    var scan := ScanOf(r);
    var vetoes := HardVetoes(scan);
    if !ConditionHolds(scan) {
      vetoes := vetoes + [InvalidIndicatorState];
    }
    ConditionIsLast(scan);
    assert vetoes == Triggered(ALL_VETOES, scan);
    var status := if vetoes == [] then CANDIDATE else REJECTED_SIGNAL;
    AllVetoesAreUnique(scan);
    FirstOccurrencesOfUnique(vetoes);
    var final := Unique(vetoes);
    e := Evaluation(r.instrumentId, KeyOf(r), status, r.bars[|r.bars| - 1].startedAt, final,
                    scan.indicators, scan.quality);
  }

  lemma ConditionIsLast(scan: Scan)
    ensures Triggered(ALL_VETOES, scan)
         == Triggered(HARD_VETOES, scan) + (if ConditionHolds(scan) then [] else [InvalidIndicatorState])
  {
    hide Triggered, ConditionHolds;
    assert ALL_VETOES[..9] == HARD_VETOES && ALL_VETOES[..10] == ALL_VETOES;
    TriggeredGrows(ALL_VETOES, 9, scan);
  }

  lemma AllVetoesAreUnique(scan: Scan)
    ensures NoDuplicates(Triggered(ALL_VETOES, scan))
  {
    FilterKeepsUnique(v => Triggers(v, scan), ALL_VETOES);
  }

  /** A bar is a candidate exactly when no reason applies; otherwise the reasons given are, once each, exactly
      the ones that apply. */
  lemma CandidateIffNothingTriggers(r: Request)
    requires r.bars != []
    ensures Evaluate(r).status == CANDIDATE <==> forall v: Veto :: !Triggers(v, ScanOf(r))
    ensures forall v: Veto :: v in Evaluate(r).vetoes <==> Triggers(v, ScanOf(r))
    ensures NoDuplicates(Evaluate(r).vetoes)
  {
    hide ScanOf, Triggers;
    var scan := ScanOf(r);
    AllVetoesAreUnique(scan);
    FilterMembers(v => Triggers(v, scan), ALL_VETOES);
    forall v: Veto ensures v in ALL_VETOES {
      EveryVetoListed(v);
    }
    var vetoes := Triggered(ALL_VETOES, scan);
    assert forall v: Veto :: v in vetoes <==> Triggers(v, scan);
    if vetoes != [] {
      assert vetoes[0] in vetoes;
    }
  }

  lemma EveryVetoListed(v: Veto)
    ensures v in ALL_VETOES
  {
    assert ALL_VETOES[0] == UnsupportedSymbol && ALL_VETOES[1] == MissingHistory && ALL_VETOES[2] == DataQualityFailure;
    assert ALL_VETOES[3] == IncompleteSessionContext && ALL_VETOES[4] == StaleQuoteOrData;
    assert ALL_VETOES[5] == OutsideConfiguredTimeWindow && ALL_VETOES[6] == BenchmarkDataMissingWhenRequired;
    assert ALL_VETOES[7] == SpreadUnavailableWhenRequired && ALL_VETOES[8] == SpreadTooWide;
    assert ALL_VETOES[9] == InvalidIndicatorState;
  }

  // ----- what a candidate guarantees

  /** The veto facts behind a breakout candidate. */
  lemma BreakoutFacts(r: Request)
    requires r.strategy == OpeningRangeBreakoutLong && r.bars != []
    requires Evaluate(r).status == CANDIDATE
    ensures var session, latest := CurrentSession(r.bars), r.bars[|r.bars| - 1];
      var high := OpeningRange(session, r.config.openingRangeMinutes).0;
      && OpeningRangeComplete(session, r.config.openingRangeMinutes, r.timeframe)
      && IstTime(latest.startedAt) <= ENTRY_END
      && high.Some? && latest.close > high.value
  {
    hide Evaluate, CurrentSession, PriorSession, TrailingBars, OpeningRange, OpeningRangeComplete, IstTime;
    hide EmaValue, RsiValue, AtrValue, Vwap, PreviousDayHighLow, VolumeRatio, RelativeMove, SpreadPercent, ContinuityOk;
    hide CompleteThroughLatest, SessionStartAvailable, KeyOf;
    var scan := ScanOf(r);
    CandidateIffNothingTriggers(r);
    assert !Triggers(IncompleteSessionContext, scan) && !Triggers(OutsideConfiguredTimeWindow, scan);
    assert !Triggers(InvalidIndicatorState, scan);
  }

  lemma PullbackFacts(r: Request)
    requires r.strategy == VwapPullbackContinuationLong && r.bars != []
    requires Evaluate(r).status == CANDIDATE
    ensures var session, latest := CurrentSession(r.bars), r.bars[|r.bars| - 1];
      && CompleteThroughLatest(session, r.timeframe)
      && IstTime(latest.startedAt) <= ENTRY_END
      && EmaValue(Closes(TrailingBars(r.bars)), 50).Some?
  {
    hide Evaluate, CurrentSession, PriorSession, TrailingBars, OpeningRange, OpeningRangeComplete, IstTime;
    hide EmaValue, RsiValue, AtrValue, Vwap, PreviousDayHighLow, VolumeRatio, RelativeMove, SpreadPercent, ContinuityOk;
    hide CompleteThroughLatest, SessionStartAvailable, KeyOf, Closes;
    var scan := ScanOf(r);
    CandidateIffNothingTriggers(r);
    assert !Triggers(IncompleteSessionContext, scan) && !Triggers(OutsideConfiguredTimeWindow, scan);
    assert !Triggers(MissingHistory, scan);
  }

  lemma LatestDate(bars: seq<Candle>)
    requires bars != [] && SortedBy(StartsNoLater, bars)
    ensures IstDate(bars[|bars| - 1].startedAt) == CurrentDate(bars)
  {
    hide IstDate;
    SortOfSorted(StartsNoLater, bars);
  }

  lemma LatestIsInSession(bars: seq<Candle>)
    requires bars != [] && SortedBy(StartsNoLater, bars) && CurrentSession(bars) != []
    ensures var session, latest := CurrentSession(bars), bars[|bars| - 1];
      && session[|session| - 1].startedAt == latest.startedAt
      && latest in session && IsRegular(latest)
      && IstDate(session[|session| - 1].startedAt) == IstDate(latest.startedAt)
  {
    hide Filter, IsRegular, CurrentSession, CurrentDate, IstDate;
    LatestDate(bars);
    CurrentSessionIsLatestDate(bars);
    var session, latest := CurrentSession(bars), bars[|bars| - 1];
    var last := session[|session| - 1];
    assert session[0] in session && last in session && latest in bars;
    LaterSameDayIsRegular(bars, session[0], latest);
    assert latest in session;
    MaximaStartTogether(bars, session);
  }

  lemma MaximaStartTogether(bars: seq<Candle>, session: seq<Candle>)
    requires bars != [] && session != []
    requires SortedBy(StartsNoLater, bars) && SortedBy(StartsNoLater, session)
    requires bars[|bars| - 1] in session && session[|session| - 1] in bars
    ensures session[|session| - 1].startedAt == bars[|bars| - 1].startedAt
  {
    var last, latest := session[|session| - 1], bars[|bars| - 1];
    var i :| 0 <= i < |session| && session[i] == latest;
    var j :| 0 <= j < |bars| && bars[j] == last;
    assert i == |session| - 1 || StartsNoLater(session[i], last);
    assert j == |bars| - 1 || StartsNoLater(bars[j], latest);
  }

  lemma LaterSameDayIsRegular(bars: seq<Candle>, early: Candle, late: Candle)
    requires SortedBy(StartsNoLater, bars) && bars != [] && late == bars[|bars| - 1]
    requires early in bars && IsRegular(early) && IstDate(early.startedAt) == IstDate(late.startedAt)
    ensures IsRegular(late)
  {
    var i :| 0 <= i < |bars| && bars[i] == early;
    assert i == |bars| - 1 || StartsNoLater(bars[i], late);
  }

  /** A well-formed latest bar of an opening-range-breakout candidate starts after the opening range and no
      later than 14:30. */
  lemma BreakoutCandidateWindow(r: Request)
    requires r.strategy == OpeningRangeBreakoutLong && r.bars != []
    requires SortedBy(StartsNoLater, r.bars) && WellFormed(r.bars[|r.bars| - 1])
    requires Evaluate(r).status == CANDIDATE
    ensures var latest := r.bars[|r.bars| - 1];
      NSE_OPEN + r.config.openingRangeMinutes * MINUTE <= IstTime(latest.startedAt) <= ENTRY_END
  {
    hide Evaluate, CurrentSession, IstTime, MinuteByMinute, OpeningBars;
    var session, latest := CurrentSession(r.bars), r.bars[|r.bars| - 1];
    var minutes := r.config.openingRangeMinutes;
    BreakoutFacts(r);
    if IstTime(latest.startedAt) < NSE_OPEN + minutes * MINUTE {
      LatestWouldBeInside(r.bars, minutes);
      HighCoversMember(OpeningBars(session, minutes), latest);
    }
  }

  lemma HighCoversMember(bars: seq<Candle>, bar: Candle)
    requires bar in bars
    ensures HighLow(bars).0.Some? && bar.high <= HighLow(bars).0.value
  {
    var i :| 0 <= i < |bars| && bars[i] == bar;
  }

  lemma LatestWouldBeInside(bars: seq<Candle>, minutes: int)
    requires bars != [] && SortedBy(StartsNoLater, bars) && CurrentSession(bars) != []
    requires IstTime(bars[|bars| - 1].startedAt) < NSE_OPEN + minutes * MINUTE
    ensures bars[|bars| - 1] in OpeningBars(CurrentSession(bars), minutes)
  {
    hide IstDate, IstTime, Filter, CurrentSession, MinutesSinceOpen;
    var session, latest := CurrentSession(bars), bars[|bars| - 1];
    LatestIsInSession(bars);
    var date := IstDate(session[|session| - 1].startedAt);
    FilterMembers(bar => InOpeningRange(bar, date, minutes), session);
    InsideMinutes(latest, minutes);
    assert InOpeningRange(latest, date, minutes);
  }

  lemma InsideMinutes(bar: Candle, minutes: int)
    requires NSE_OPEN <= IstTime(bar.startedAt) < NSE_OPEN + minutes * MINUTE
    ensures 0 <= MinutesSinceOpen(bar) < minutes
  {
  }

  /** With distinct whole-minute starts a breakout candidate closes above the high of every opening minute. */
  lemma BreakoutBeatsOpeningMinutes(r: Request)
    requires r.strategy == OpeningRangeBreakoutLong && r.bars != [] && r.timeframe == ONE_MINUTE
    requires Evaluate(r).status == CANDIDATE
    requires DistinctStarts(CurrentSession(r.bars)) && OnWholeMinutes(CurrentSession(r.bars))
    ensures var session, minutes := CurrentSession(r.bars), r.config.openingRangeMinutes;
      && 1 <= minutes <= |session|
      && forall i :: 0 <= i < minutes ==>
        && session[i].startedAt == session[0].startedAt + i * MINUTE
        && session[i].high < r.bars[|r.bars| - 1].close
  {
    hide Evaluate, CurrentSession, CurrentDate, IstDate, IstTime, OpeningBars;
    var session, minutes := CurrentSession(r.bars), r.config.openingRangeMinutes;
    BreakoutFacts(r);
    CurrentSessionSameDate(r.bars);
    CurrentSessionIsLatestDate(r.bars);
    OpeningRangeOnWholeMinutes(session, minutes);
    forall i | 0 <= i < minutes ensures session[i].high < r.bars[|r.bars| - 1].close {
      assert session[..minutes][i].high <= HighestHigh(session[..minutes]);
    }
  }

  /** A pullback candidate has every minute of its session, from 09:15 through the latest bar and no later
      than 14:30, and enough history for the slowest average. */
  lemma PullbackCandidateIsComplete(r: Request)
    requires r.strategy == VwapPullbackContinuationLong && r.bars != [] && r.timeframe == ONE_MINUTE
    requires SortedBy(StartsNoLater, r.bars)
    requires Evaluate(r).status == CANDIDATE
    ensures var session := CurrentSession(r.bars);
      && IstTime(r.bars[|r.bars| - 1].startedAt) == NSE_OPEN + (|session| - 1) * MINUTE
      && (forall i :: 0 <= i < |session| ==> session[i].startedAt == session[0].startedAt + i * MINUTE)
      && 1 <= |session| <= 316
    ensures |TrailingBars(r.bars)| >= 50
  {
    hide Evaluate, CurrentSession, IstDate, IstTime, TrailingBars, EmaRaw;
    var session := CurrentSession(r.bars);
    PullbackFacts(r);
    CurrentSessionSameDate(r.bars);
    CompleteSessionCountsMinutes(session);
    LatestIsInSession(r.bars);
  }
}
