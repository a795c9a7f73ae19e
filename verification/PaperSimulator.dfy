// Paper instructions and the simulated life of a long limit order over completed candles.

module PaperTypes {
  import opened Options
  import opened MarketClock

  datatype PaperMode = OFF | SHADOW | PAPER | LIVE

  datatype ExitReason =
    | NO_FILL | STOP_HIT | TARGET_HIT | TIME_EXIT | FORCE_FLAT | DATA_ENDED
    | INVALID_SIGNAL_CONTEXT | DUPLICATE_SIGNAL | MODE_DISABLED | LIVE_NOT_IMPLEMENTED

  datatype EntryStatus = NotCreated | EntryFilled | EntryNoFill

  datatype PaperConfig = PaperConfig(
    enabled: bool,
    mode: PaperMode,
    maxTradesPerDay: int,
    defaultQuantity: int,
    entryBufferPct: real,
    stopPct: real,
    targetRMultiple: real,
    forceFlatTime: int,
    estimatedCostPerTrade: real)

  /** The feature snapshot stored with a signal, as far as the paper engine looks into it. */
  datatype Features =
    | NoFeatures
    | Features(signalStatus: Option<string>, vetoFree: bool, hasIndicators: bool, hasDataQuality: bool)

  datatype PaperSignal = PaperSignal(
    id: int,
    signalKey: string,
    symbol: string,
    strategyName: string,
    signalStatus: string,
    signalTime: Instant,
    direction: string,
    vetoReasons: seq<string>,
    features: Features)

  datatype PaperInstruction = PaperInstruction(
    signalId: int,
    signalKey: string,
    symbol: string,
    strategyName: string,
    signalTime: Instant,
    entry: real,
    stop: real,
    target: real,
    quantity: int,
    maxRisk: real,
    mode: PaperMode,
    estimatedCosts: real)

  datatype Outcome = Outcome(
    signalId: int,
    signalKey: string,
    symbol: string,
    strategyName: string,
    mode: PaperMode,
    entryStatus: EntryStatus,
    entryReferencePrice: Option<real>,
    entryFillTime: Option<Instant>,
    entryFillPrice: Option<real>,
    quantity: int,
    stop: Option<real>,
    target: Option<real>,
    exitTime: Option<Instant>,
    exitPrice: Option<real>,
    exitReason: ExitReason,
    gross: real,
    costs: real,
    net: real,
    rejectionReason: Option<string>,
    tradeCreated: bool)

  function RejectedOutcome(signal: PaperSignal, config: PaperConfig, reason: ExitReason, why: string): Outcome {
    Outcome(
      signal.id, signal.signalKey, signal.symbol, signal.strategyName, config.mode,
      NotCreated, None, None, None, 0, None, None, None, None, reason,
      0.0, 0.0, 0.0, Some(why), false)
  }

  function NoFillOutcome(i: PaperInstruction): Outcome {
    Outcome(
      i.signalId, i.signalKey, i.symbol, i.strategyName, i.mode,
      EntryNoFill, Some(i.entry), None, None, i.quantity, Some(i.stop), Some(i.target), None, None, NO_FILL,
      0.0, 0.0, 0.0, None, false)
  }

  function CompletedOutcome(
    i: PaperInstruction, filledAt: Instant, exitTime: Option<Instant>, exitPrice: Option<real>, reason: ExitReason)
    : Outcome
  {
    var costs := if exitPrice.Some? then i.estimatedCosts else 0.0;
    var gross := if exitPrice.Some? then (exitPrice.value - i.entry) * i.quantity as real else 0.0;
    Outcome(
      i.signalId, i.signalKey, i.symbol, i.strategyName, i.mode,
      EntryFilled, Some(i.entry), Some(filledAt), Some(i.entry), i.quantity, Some(i.stop), Some(i.target),
      exitTime, exitPrice, reason, gross, costs, gross - costs, None, true)
  }
}

module PaperSimulator {
  import opened Options
  import opened MarketClock
  import opened Rounding
  import opened Collections
  import opened Ordering
  import opened Candles
  import opened PaperTypes

  // ----- instructions

  /** Why a signal cannot be papered at all, checked in the source's order. */
  function SignalDefect(signal: PaperSignal): Option<string> {
    if signal.signalStatus != "CANDIDATE" then Some("signal_is_not_candidate")
    else if signal.direction != "LONG" then Some("signal_direction_not_long")
    else if signal.vetoReasons != [] then Some("candidate_has_veto_reasons")
    else if signal.features.NoFeatures? then Some("missing_signal_features")
    else if signal.features.signalStatus != Some("CANDIDATE") then Some("feature_snapshot_not_candidate")
    else if !signal.features.vetoFree then Some("feature_snapshot_has_veto_reasons")
    else if !signal.features.hasIndicators then Some("missing_indicator_snapshot")
    else if !signal.features.hasDataQuality then Some("missing_data_quality_snapshot")
    else None
  }

  function StartsAt(t: Instant): Candle -> bool {
    (c: Candle) => c.startedAt == t
  }

  function BuildInstruction(signal: PaperSignal, candles: seq<Candle>, config: PaperConfig)
    : Result<PaperInstruction, Outcome>
  {
    var defect := SignalDefect(signal);
    var found := FirstIndex(StartsAt(signal.signalTime), candles);
    var priced :=
      if defect.Some? then Err(defect.value)
      else if found.None? then Err("signal_candle_unavailable")
      else PriceInstruction(signal, candles[found.value].close, config);
    match priced
    case Ok(instruction) => Ok(instruction)
    case Err(why) => Err(RejectedOutcome(signal, config, INVALID_SIGNAL_CONTEXT, why))
  }

  function ExactEntry(close: real, config: PaperConfig): real {
    close * (1.0 + config.entryBufferPct / 100.0)
  }

  function ExactStop(entry: real, config: PaperConfig): real {
    entry * (1.0 - config.stopPct / 100.0)
  }

  function ExactTarget(entry: real, unitRisk: real, config: PaperConfig): real {
    entry + config.targetRMultiple * unitRisk
  }

  /** A price kept to six places. */
  function Priced(exact: real): (price: real)
    ensures OnGrid(price)
    ensures -0.0000005 <= price - exact <= 0.0000005
  {
    Q6OnGrid(exact);
    Q6(exact)
  }

  lemma RiskIsExact(entry: real, stop: real, quantity: nat, risk: real)
    requires OnGrid(entry) && OnGrid(stop)
    requires risk == (entry - stop) * quantity as real
    ensures Q6(risk) == risk
  {
    GridDifference(entry, stop);
    GridMultiple(entry - stop, quantity, risk);
    GridIsFixed(risk);
  }

  /** The planned risk, rounded to six places as the source does. */
  function PlannedRisk(entry: real, stop: real, quantity: nat): (risk: real)
    requires OnGrid(entry) && OnGrid(stop)
    ensures risk == (entry - stop) * quantity as real
  {
    RiskIsExact(entry, stop, quantity, (entry - stop) * quantity as real);
    Q6((entry - stop) * quantity as real)
  }

  function PriceInstruction(signal: PaperSignal, close: real, config: PaperConfig): Result<PaperInstruction, string> {
    var entry := Priced(ExactEntry(close, config));
    var stop := Priced(ExactStop(entry, config));
    var unitRisk := entry - stop;
    if entry <= 0.0 || stop <= 0.0 || unitRisk <= 0.0 then Err("invalid_entry_stop_context")
    else if config.defaultQuantity < 1 then Err("invalid_paper_quantity")
    else
      var target := Priced(ExactTarget(entry, unitRisk, config));
      if target <= entry then Err("invalid_target_context")
      else Ok(PaperInstruction(
        signal.id, signal.signalKey, signal.symbol, signal.strategyName, signal.signalTime,
        entry, stop, target, config.defaultQuantity,
        PlannedRisk(entry, stop, config.defaultQuantity), config.mode, config.estimatedCostPerTrade))
  }

  /** Prices in order, a whole positive quantity, and the planned risk without rounding loss. */
  ghost predicate Sound(i: PaperInstruction) {
    && 0.0 < i.stop < i.entry < i.target
    && 1 <= i.quantity
    && i.maxRisk == (i.entry - i.stop) * i.quantity as real
    && OnGrid(i.entry) && OnGrid(i.stop) && OnGrid(i.target)
  }

  /** Every instruction handed out is sound; rounding the risk to six places changes nothing. */
  lemma InstructionsAreSound(signal: PaperSignal, candles: seq<Candle>, config: PaperConfig)
    requires BuildInstruction(signal, candles, config).Ok?
    ensures Sound(BuildInstruction(signal, candles, config).value)
    ensures SignalDefect(signal).None? && exists c :: c in candles && c.startedAt == signal.signalTime
  {
    hide OnGrid, Priced, ExactEntry, ExactStop, ExactTarget, PlannedRisk, SignalDefect;
    var found := FirstIndex(StartsAt(signal.signalTime), candles);
    assert candles[found.value] in candles;
  }

  ghost predicate Near(price: real, exact: real) {
    -0.0000005 <= price - exact <= 0.0000005
  }

  /** The first candle that starts at the signal's time. */
  ghost predicate IsSignalCandle(c: Candle, signal: PaperSignal, candles: seq<Candle>) {
    exists k :: 0 <= k < |candles| && candles[k] == c && c.startedAt == signal.signalTime
      && forall j :: 0 <= j < k ==> candles[j].startedAt != signal.signalTime
  }

  /** An instruction is priced from the signal's own candle: the exact entry is the candle's close raised by the buffer
      percentage, the exact stop the entry lowered by its percentage, the exact target the entry raised by the multiple
      of what lies between entry and stop. Each price is the exact one rounded half up to six places, so within half a
      millionth of it. The rest comes from the signal and the settings. */
  lemma InstructionPricesFollowConfig(signal: PaperSignal, candles: seq<Candle>, config: PaperConfig)
    returns (c: Candle, entry: real, stop: real, target: real)
    requires BuildInstruction(signal, candles, config).Ok?
    ensures IsSignalCandle(c, signal, candles)
    ensures var i := BuildInstruction(signal, candles, config).value;
      && entry == c.close * (1.0 + config.entryBufferPct / 100.0) && i.entry == Q6(entry) && Near(i.entry, entry)
      && stop == i.entry * (1.0 - config.stopPct / 100.0) && i.stop == Q6(stop) && Near(i.stop, stop)
      && target == i.entry + config.targetRMultiple * (i.entry - i.stop) && i.target == Q6(target)
      && Near(i.target, target)
    ensures var i := BuildInstruction(signal, candles, config).value;
      && i.quantity == config.defaultQuantity && i.mode == config.mode
      && i.estimatedCosts == config.estimatedCostPerTrade
      && i.signalId == signal.id && i.signalKey == signal.signalKey && i.symbol == signal.symbol
      && i.strategyName == signal.strategyName && i.signalTime == signal.signalTime
  {
    hide OnGrid, PlannedRisk, SignalDefect, Q6, Priced, ExactEntry, ExactStop, ExactTarget, Near;
    c := SignalCandle(signal, candles);
    var i := BuildInstruction(signal, candles, config).value;
    entry, stop := ExactEntry(c.close, config), ExactStop(i.entry, config);
    target := ExactTarget(i.entry, i.entry - i.stop, config);
    EntryExactly(c.close, config);
    StopExactly(i.entry, config);
    TargetExactly(i.entry, i.entry - i.stop, config);
    PricedIs(entry);
    PricedIs(stop);
    PricedIs(target);
  }

  lemma PricedIs(exact: real)
    ensures Priced(exact) == Q6(exact) && Near(Q6(exact), exact)
  {
  }

  lemma EntryExactly(close: real, config: PaperConfig)
    ensures ExactEntry(close, config) == close * (1.0 + config.entryBufferPct / 100.0)
  {
  }

  lemma StopExactly(entry: real, config: PaperConfig)
    ensures ExactStop(entry, config) == entry * (1.0 - config.stopPct / 100.0)
  {
  }

  lemma TargetExactly(entry: real, risk: real, config: PaperConfig)
    ensures ExactTarget(entry, risk, config) == entry + config.targetRMultiple * risk
  {
  }

  lemma SignalCandle(signal: PaperSignal, candles: seq<Candle>) returns (c: Candle)
    requires FirstIndex(StartsAt(signal.signalTime), candles).Some?
    ensures c == candles[FirstIndex(StartsAt(signal.signalTime), candles).value]
    ensures IsSignalCandle(c, signal, candles)
  {
    FirstIndexIsFirst(StartsAt(signal.signalTime), candles);
    c := candles[FirstIndex(StartsAt(signal.signalTime), candles).value];
  }

  // ----- simulation

  predicate AtOrAfterForceFlat(c: Candle, config: PaperConfig) {
    IstTime(c.startedAt) >= config.forceFlatTime
  }

  predicate IsLaterToday(c: Candle, signalTime: Instant) {
    IstDate(c.startedAt) == IstDate(signalTime) && c.startedAt > signalTime
  }

  predicate Fills(c: Candle, i: PaperInstruction, config: PaperConfig) {
    !AtOrAfterForceFlat(c, config) && c.low <= i.entry <= c.high
  }

  predicate Triggers(c: Candle, i: PaperInstruction, config: PaperConfig) {
    AtOrAfterForceFlat(c, config) || c.low <= i.stop || c.high >= i.target
  }

  function LaterToday(signalTime: Instant): Candle -> bool {
    (c: Candle) => IsLaterToday(c, signalTime)
  }

  function Filling(i: PaperInstruction, config: PaperConfig): Candle -> bool {
    (c: Candle) => Fills(c, i, config)
  }

  function After(t: Instant): Candle -> bool {
    (c: Candle) => c.startedAt > t
  }

  function Triggering(i: PaperInstruction, config: PaperConfig): Candle -> bool {
    (c: Candle) => Triggers(c, i, config)
  }

  /** How a triggering bar closes the trade: force-flat first, then stop, then target. */
  function CloseAt(i: PaperInstruction, config: PaperConfig, filledAt: Instant, c: Candle): Outcome {
    if AtOrAfterForceFlat(c, config) then
      CompletedOutcome(i, filledAt, Some(c.startedAt), Some(c.close), FORCE_FLAT)
    else if c.low <= i.stop then CompletedOutcome(i, filledAt, Some(c.startedAt), Some(i.stop), STOP_HIT)
    else CompletedOutcome(i, filledAt, Some(c.startedAt), Some(i.target), TARGET_HIT)
  }

  function ExitOver(i: PaperInstruction, config: PaperConfig, filledAt: Instant, exits: seq<Candle>): Outcome {
    if exits == [] then CompletedOutcome(i, filledAt, None, None, DATA_ENDED)
    else
      var hit := FirstIndex(Triggering(i, config), exits);
      if hit.Some? then CloseAt(i, config, filledAt, exits[hit.value])
      else
        var last := exits[|exits| - 1];
        CompletedOutcome(i, filledAt, Some(last.startedAt), Some(last.close), TIME_EXIT)
  }

  function SimulatedOver(i: PaperInstruction, config: PaperConfig, future: seq<Candle>): Outcome {
    var entry := FirstIndex(Filling(i, config), future);
    if entry.None? then NoFillOutcome(i)
    else
      var filledAt := future[entry.value].startedAt;
      ExitOver(i, config, filledAt, Filter(After(filledAt), future))
  }

  function FutureOf(i: PaperInstruction, candles: seq<Candle>): seq<Candle> {
    Filter(LaterToday(i.signalTime), ByStart(candles))
  }

  function Simulated(i: PaperInstruction, candles: seq<Candle>, config: PaperConfig): Outcome {
    SimulatedOver(i, config, FutureOf(i, candles))
  }

  /** The exit loop. */
  method ScanExits(i: PaperInstruction, config: PaperConfig, filledAt: Instant, exits: seq<Candle>)
    returns (outcome: Outcome)
    ensures outcome == ExitOver(i, config, filledAt, exits)
  {
    if exits == [] {
      return CompletedOutcome(i, filledAt, None, None, DATA_ENDED);
    }
    var lastEligible: Option<Candle> := None;
    for k := 0 to |exits|
      invariant forall j :: 0 <= j < k ==> !Triggering(i, config)(exits[j])
      invariant lastEligible == if k == 0 then None else Some(exits[k - 1])
    {
      var c := exits[k];
      if Triggers(c, i, config) {
        FirstIndexUnique(Triggering(i, config), exits, k);
      }
      if AtOrAfterForceFlat(c, config) {
        return CompletedOutcome(i, filledAt, Some(c.startedAt), Some(c.close), FORCE_FLAT);
      }
      if c.low <= i.stop {
        return CompletedOutcome(i, filledAt, Some(c.startedAt), Some(i.stop), STOP_HIT);
      }
      if c.high >= i.target {
        return CompletedOutcome(i, filledAt, Some(c.startedAt), Some(i.target), TARGET_HIT);
      }
      lastEligible := Some(c);
    }
    FirstIndexIsFirst(Triggering(i, config), exits);
    // The list is not empty here, so the source's last return, another DATA_ENDED, is never taken.
    var last := lastEligible.value;
    outcome := CompletedOutcome(i, filledAt, Some(last.startedAt), Some(last.close), TIME_EXIT);
  }

  /** The scan as the source performs it. */
  method Simulate(i: PaperInstruction, candles: seq<Candle>, config: PaperConfig) returns (outcome: Outcome)
    ensures outcome == Simulated(i, candles, config)
  {
    var ordered := ByStart(candles);
    var future := Filter(LaterToday(i.signalTime), ordered);
    var entry := FirstIndex(Filling(i, config), future);
    if entry.None? {
      return NoFillOutcome(i);
    }
    var filledAt := future[entry.value].startedAt;
    outcome := ScanExits(i, config, filledAt, Filter(After(filledAt), future));
  }

  // ----- what the outcome means, in terms of the candles given

  ghost predicate NoneBetween(
    p: Candle -> bool, candles: seq<Candle>, i: PaperInstruction, after: Instant, before: Instant)
  {
    forall c :: c in candles && IsLaterToday(c, i.signalTime) && after < c.startedAt < before ==> !p(c)
  }

  /** The trade was opened by the earliest later bar of the day that can fill. */
  ghost predicate EntersFirst(i: PaperInstruction, candles: seq<Candle>, config: PaperConfig, filledAt: Instant) {
    && (exists c :: c in candles && IsLaterToday(c, i.signalTime) && Fills(c, i, config) && c.startedAt == filledAt)
    && NoneBetween(Filling(i, config), candles, i, i.signalTime, filledAt)
  }

  /** ... and closed by the earliest bar after it that triggers an exit, with the source's priority; or at
      the day's latest bar when none does; or left open when no bar follows. */
  ghost predicate ExitsFirst(
    i: PaperInstruction, candles: seq<Candle>, config: PaperConfig, filledAt: Instant, o: Outcome)
  {
    if o.exitReason == DATA_ENDED then
      && o == CompletedOutcome(i, filledAt, None, None, DATA_ENDED)
      && forall c :: c in candles && IsLaterToday(c, i.signalTime) ==> c.startedAt <= filledAt
    else
      exists c ::
        && c in candles && IsLaterToday(c, i.signalTime) && filledAt < c.startedAt
        && NoneBetween(Triggering(i, config), candles, i, filledAt, c.startedAt)
        && (if o.exitReason == TIME_EXIT then
              && o == CompletedOutcome(i, filledAt, Some(c.startedAt), Some(c.close), TIME_EXIT)
              && !Triggers(c, i, config)
              && forall d :: d in candles && IsLaterToday(d, i.signalTime) ==>
                   d.startedAt <= c.startedAt && (d.startedAt > filledAt ==> !Triggers(d, i, config))
            else Triggers(c, i, config) && o == CloseAt(i, config, filledAt, c))
  }

  lemma FutureMembers(i: PaperInstruction, candles: seq<Candle>)
    ensures SortedBy(StartsNoLater, FutureOf(i, candles))
    ensures forall c :: c in FutureOf(i, candles) <==> c in candles && IsLaterToday(c, i.signalTime)
  {
    ByStartSorts(candles);
    FilterKeepsSorted(StartsNoLater, LaterToday(i.signalTime), ByStart(candles));
    FilterMembers(LaterToday(i.signalTime), ByStart(candles));
  }

  lemma FirstIsEarliest(p: Candle -> bool, s: seq<Candle>)
    requires SortedBy(StartsNoLater, s)
    ensures FirstIndex(p, s).Some? ==>
      var first := s[FirstIndex(p, s).value]; forall c :: c in s && c.startedAt < first.startedAt ==> !p(c)
    ensures FirstIndex(p, s).None? ==> forall c :: c in s ==> !p(c)
  {
    FirstIndexIsFirst(p, s);
    if FirstIndex(p, s).Some? {
      var f := FirstIndex(p, s).value;
      forall c | c in s && c.startedAt < s[f].startedAt ensures !p(c) {
        var k :| 0 <= k < |s| && s[k] == c;
        assert k < f || k == f || StartsNoLater(s[f], s[k]);
      }
    }
  }

  lemma ExitOverIsFirst(
    i: PaperInstruction, candles: seq<Candle>, config: PaperConfig, filledAt: Instant, exits: seq<Candle>)
    requires SortedBy(StartsNoLater, exits)
    requires forall c :: c in exits <==> c in candles && IsLaterToday(c, i.signalTime) && filledAt < c.startedAt
    ensures ExitsFirst(i, candles, config, filledAt, ExitOver(i, config, filledAt, exits))
  {
    if exits == [] {
      forall c | c in candles && IsLaterToday(c, i.signalTime) ensures c.startedAt <= filledAt {
        assert c !in exits;
      }
    } else {
      FirstIsEarliest(Triggering(i, config), exits);
      var hit := FirstIndex(Triggering(i, config), exits);
      var c := if hit.Some? then exits[hit.value] else exits[|exits| - 1];
      assert c in exits;
      if hit.None? {
        forall d | d in exits ensures d.startedAt <= c.startedAt {
          var k :| 0 <= k < |exits| && exits[k] == d;
          assert k == |exits| - 1 || StartsNoLater(exits[k], c);
        }
      }
    }
  }

  ghost predicate Lifecycle(i: PaperInstruction, candles: seq<Candle>, config: PaperConfig, o: Outcome) {
    if o.tradeCreated then
      && o.entryFillTime.Some?
      && EntersFirst(i, candles, config, o.entryFillTime.value)
      && ExitsFirst(i, candles, config, o.entryFillTime.value, o)
    else
      && o == NoFillOutcome(i)
      && forall c :: c in candles && IsLaterToday(c, i.signalTime) ==> !Fills(c, i, config)
  }

  /** Every exit keeps the entry. */
  lemma ExitKeepsEntry(i: PaperInstruction, config: PaperConfig, filledAt: Instant, exits: seq<Candle>)
    ensures var o := ExitOver(i, config, filledAt, exits);
      o.tradeCreated && o.entryFillTime == Some(filledAt) && o.entryFillPrice == Some(i.entry) && o.exitReason != NO_FILL
  {
  }

  lemma SimulatedOverFollowsFirsts(
    i: PaperInstruction, candles: seq<Candle>, config: PaperConfig, future: seq<Candle>)
    requires SortedBy(StartsNoLater, future)
    requires forall c :: c in future <==> c in candles && IsLaterToday(c, i.signalTime)
    ensures Lifecycle(i, candles, config, SimulatedOver(i, config, future))
  {
    FirstIsEarliest(Filling(i, config), future);
    var entry := FirstIndex(Filling(i, config), future);
    if entry.Some? {
      var filledAt := future[entry.value].startedAt;
      var exits := Filter(After(filledAt), future);
      assert EntersFirst(i, candles, config, filledAt) by {
        assert future[entry.value] in future;
      }
      FilterKeepsSorted(StartsNoLater, After(filledAt), future);
      FilterMembers(After(filledAt), future);
      ExitOverIsFirst(i, candles, config, filledAt, exits);
      ExitKeepsEntry(i, config, filledAt, exits);
    }
  }

  /** FIRST TRIGGER. What a simulation reports, read off the given candles in any order. */
  lemma SimulationFollowsFirsts(i: PaperInstruction, candles: seq<Candle>, config: PaperConfig)
    ensures Lifecycle(i, candles, config, Simulated(i, candles, config))
  {
    FutureMembers(i, candles);
    SimulatedOverFollowsFirsts(i, candles, config, FutureOf(i, candles));
  }

  lemma NoFillMeansNothingFills(i: PaperInstruction, candles: seq<Candle>, config: PaperConfig)
    ensures Simulated(i, candles, config).exitReason == NO_FILL
        <==> forall c :: c in candles && IsLaterToday(c, i.signalTime) ==> !Fills(c, i, config)
    ensures Simulated(i, candles, config).exitReason == NO_FILL ==> Simulated(i, candles, config) == NoFillOutcome(i)
  {
    var future := FutureOf(i, candles);
    FutureMembers(i, candles);
    FirstIsEarliest(Filling(i, config), future);
    var entry := FirstIndex(Filling(i, config), future);
    if entry.Some? {
      var filledAt := future[entry.value].startedAt;
      assert future[entry.value] in future;
      ExitKeepsEntry(i, config, filledAt, Filter(After(filledAt), future));
    }
  }

  // ----- no lookahead

  lemma FutureExtends(i: PaperInstruction, candles: seq<Candle>, more: seq<Candle>)
    requires AllLater(candles, more)
    ensures FutureOf(i, candles + more) == FutureOf(i, candles) + FutureOf(i, more)
    ensures AllLater(FutureOf(i, candles), FutureOf(i, more))
  {
    ByStartExtends(candles, more);
    FilterConcatenates(LaterToday(i.signalTime), ByStart(candles), ByStart(more));
    FutureMembers(i, candles);
    FutureMembers(i, more);
  }

  lemma ExitExtends(
    i: PaperInstruction, config: PaperConfig, filledAt: Instant, exits: seq<Candle>, later: seq<Candle>)
    requires ExitOver(i, config, filledAt, exits).exitReason in {STOP_HIT, TARGET_HIT, FORCE_FLAT}
    ensures ExitOver(i, config, filledAt, exits + later) == ExitOver(i, config, filledAt, exits)
  {
    FirstIndexExtends(Triggering(i, config), exits, later);
  }

  lemma SimulatedOverExtends(i: PaperInstruction, config: PaperConfig, a: seq<Candle>, b: seq<Candle>)
    ensures var o, o' := SimulatedOver(i, config, a), SimulatedOver(i, config, a + b);
      && (o.exitReason in {STOP_HIT, TARGET_HIT, FORCE_FLAT} ==> o' == o)
      && (o.tradeCreated ==>
            o'.tradeCreated && o'.entryFillTime == o.entryFillTime && o'.entryFillPrice == o.entryFillPrice)
  {
    var entry := FirstIndex(Filling(i, config), a);
    if entry.Some? {
      FirstIndexExtends(Filling(i, config), a, b);
      var filledAt := a[entry.value].startedAt;
      var exits, later := Filter(After(filledAt), a), Filter(After(filledAt), b);
      FilterConcatenates(After(filledAt), a, b);
      ExitKeepsEntry(i, config, filledAt, exits);
      ExitKeepsEntry(i, config, filledAt, exits + later);
      if ExitOver(i, config, filledAt, exits).exitReason in {STOP_HIT, TARGET_HIT, FORCE_FLAT} {
        ExitExtends(i, config, filledAt, exits, later);
      }
    }
  }

  /** NO LOOKAHEAD. Strictly later candles never change a stop, target or force-flat exit, nor when and at
      what price a filled trade was entered. */
  lemma LaterCandlesChangeNothing(
    i: PaperInstruction, candles: seq<Candle>, more: seq<Candle>, config: PaperConfig)
    requires AllLater(candles, more)
    ensures var o, o' := Simulated(i, candles, config), Simulated(i, candles + more, config);
      && (o.exitReason in {STOP_HIT, TARGET_HIT, FORCE_FLAT} ==> o' == o)
      && (o.tradeCreated ==>
            o'.tradeCreated && o'.entryFillTime == o.entryFillTime && o'.entryFillPrice == o.entryFillPrice)
  {
    FutureExtends(i, candles, more);
    SimulatedOverExtends(i, config, FutureOf(i, candles), FutureOf(i, more));
  }

  /** A missed entry is final once a bar of that day at or after the force-flat time has been seen. */
  lemma NoFillIsFinalAfterForceFlat(
    i: PaperInstruction, candles: seq<Candle>, more: seq<Candle>, config: PaperConfig)
    requires AllLater(candles, more)
    requires Simulated(i, candles, config).exitReason == NO_FILL
    requires exists c :: c in candles && IsLaterToday(c, i.signalTime) && AtOrAfterForceFlat(c, config)
    ensures Simulated(i, candles + more, config) == NoFillOutcome(i)
  {
    NoFillMeansNothingFills(i, candles, config);
    NoFillMeansNothingFills(i, candles + more, config);
    var seen :| seen in candles && IsLaterToday(seen, i.signalTime) && AtOrAfterForceFlat(seen, config);
    forall c | c in candles + more && IsLaterToday(c, i.signalTime) ensures !Fills(c, i, config) {
      if c in more {
        assert seen.startedAt < c.startedAt;
      }
    }
  }

  /** With distinct start times the order in which candles are supplied is irrelevant. */
  lemma CandleOrderIsIrrelevant(i: PaperInstruction, a: seq<Candle>, b: seq<Candle>, config: PaperConfig)
    requires multiset(a) == multiset(b) && DistinctStarts(a)
    ensures Simulated(i, a, config) == Simulated(i, b, config)
  {
    ByStartIgnoresArrangement(a, b);
  }

  // ----- profit and loss

  lemma ProductsCompare(loss: real, risk: real, quantity: real)
    requires 0.0 < quantity
    ensures loss * quantity < -(risk * quantity) <==> loss < -risk
    ensures loss * quantity == -(risk * quantity) <==> loss == -risk
  {
    var sum := loss + risk;
    assert loss * quantity + risk * quantity == sum * quantity;
    if sum < 0.0 {
      assert sum * quantity < 0.0;
    } else if sum > 0.0 {
      assert sum * quantity > 0.0;
    }
  }

  /** Comparing a gross result with the planned risk compares the exit with the stop. */
  lemma LossComparesPrices(entry: real, stop: real, exit: real, quantity: real, gross: real, risk: real)
    requires 0.0 < quantity && gross == (exit - entry) * quantity && risk == (entry - stop) * quantity
    ensures gross < -risk <==> exit < stop
    ensures gross == -risk <==> exit == stop
  {
    ProductsCompare(exit - entry, entry - stop, quantity);
  }

  /** Where a closed trade's gross comes from, and how far below the stop it can be. */
  ghost predicate LossExplained(i: PaperInstruction, o: Outcome) {
    if o.exitPrice.None? then o.exitReason == DATA_ENDED && o.gross == 0.0
    else
      && o.gross == (o.exitPrice.value - i.entry) * i.quantity as real
      && (o.exitPrice.value < i.stop ==> o.exitReason == FORCE_FLAT)
      && (o.exitReason == STOP_HIT ==> o.exitPrice.value == i.stop)
      && (o.exitPrice.value == i.stop ==> o.exitReason in {STOP_HIT, FORCE_FLAT})
  }

  lemma CloseLoss(i: PaperInstruction, config: PaperConfig, filledAt: Instant, c: Candle)
    requires i.stop < i.target && Triggers(c, i, config)
    ensures LossExplained(i, CloseAt(i, config, filledAt, c))
  {
    hide AtOrAfterForceFlat;
  }

  lemma TimeExitLoss(i: PaperInstruction, filledAt: Instant, c: Candle)
    requires WellFormed(c) && c.low > i.stop
    ensures LossExplained(i, CompletedOutcome(i, filledAt, Some(c.startedAt), Some(c.close), TIME_EXIT))
  {
  }

  lemma ExitLoss(i: PaperInstruction, config: PaperConfig, filledAt: Instant, exits: seq<Candle>)
    requires Sound(i) && AllWellFormed(exits)
    ensures LossExplained(i, ExitOver(i, config, filledAt, exits))
  {
    hide AtOrAfterForceFlat, CloseAt, LossExplained, CompletedOutcome, FirstIndex, OnGrid;
    FirstIndexIsFirst(Triggering(i, config), exits);
    var hit := FirstIndex(Triggering(i, config), exits);
    if exits == [] {
      NoExitLoss(i, filledAt);
    } else if hit.Some? {
      CloseLoss(i, config, filledAt, exits[hit.value]);
    } else {
      var last := exits[|exits| - 1];
      assert !Triggering(i, config)(last);
      TimeExitLoss(i, filledAt, last);
    }
  }

  lemma NoExitLoss(i: PaperInstruction, filledAt: Instant)
    ensures LossExplained(i, CompletedOutcome(i, filledAt, None, None, DATA_ENDED))
  {
  }

  ghost predicate LossBounded(i: PaperInstruction, o: Outcome) {
    && (o.gross < -i.maxRisk <==> o.exitReason == FORCE_FLAT && o.exitPrice.Some? && o.exitPrice.value < i.stop)
    && (o.gross == -i.maxRisk <==>
          o.exitReason == STOP_HIT
          || (o.exitReason == FORCE_FLAT && o.exitPrice.Some? && o.exitPrice.value == i.stop))
  }

  lemma ExitLossBounded(i: PaperInstruction, config: PaperConfig, filledAt: Instant, exits: seq<Candle>)
    requires Sound(i) && AllWellFormed(exits)
    ensures LossBounded(i, ExitOver(i, config, filledAt, exits))
  {
    hide ExitOver, OnGrid;
    ExitLoss(i, config, filledAt, exits);
    var o := ExitOver(i, config, filledAt, exits);
    var exit := if o.exitPrice.Some? then o.exitPrice.value else i.entry;
    LossComparesPrices(i.entry, i.stop, exit, i.quantity as real, o.gross, i.maxRisk);
  }

  /** LOSS BOUND. A trade loses more than its planned risk exactly when it was forced flat at a close below
      the stop; the planned risk is lost exactly only by a stop or by such a close at the stop itself. */
  lemma LossIsBoundedByPlannedRisk(i: PaperInstruction, candles: seq<Candle>, config: PaperConfig)
    requires Sound(i) && AllWellFormed(candles)
    ensures LossBounded(i, Simulated(i, candles, config))
  {
    var future := FutureOf(i, candles);
    FutureMembers(i, candles);
    var entry := FirstIndex(Filling(i, config), future);
    if entry.Some? {
      var filledAt := future[entry.value].startedAt;
      var exits := Filter(After(filledAt), future);
      FilterMembers(After(filledAt), future);
      forall k | 0 <= k < |exits| ensures WellFormed(exits[k]) {
        assert exits[k] in candles;
      }
      ExitLossBounded(i, config, filledAt, exits);
    } else {
      LossComparesPrices(i.entry, i.stop, i.entry, i.quantity as real, 0.0, i.maxRisk);
    }
  }

  /** The earliest later bar of the day that fills the entry. */
  ghost predicate FirstFill(i: PaperInstruction, candles: seq<Candle>, config: PaperConfig, f: Candle) {
    && f in candles && IsLaterToday(f, i.signalTime) && Fills(f, i, config)
    && NoneBetween(Filling(i, config), candles, i, i.signalTime, f.startedAt)
  }

  /** The earliest bar of the day after `at` that triggers an exit. */
  ghost predicate FirstTrigger(
    i: PaperInstruction, candles: seq<Candle>, config: PaperConfig, at: Instant, c: Candle)
  {
    && c in candles && IsLaterToday(c, i.signalTime) && at < c.startedAt && Triggers(c, i, config)
    && NoneBetween(Triggering(i, config), candles, i, at, c.startedAt)
  }

  lemma FirstsStartTogether(
    p: Candle -> bool, candles: seq<Candle>, i: PaperInstruction, after: Instant, a: Candle, b: Candle)
    requires a in candles && IsLaterToday(a, i.signalTime) && after < a.startedAt && p(a)
    requires b in candles && IsLaterToday(b, i.signalTime) && after < b.startedAt && p(b)
    requires NoneBetween(p, candles, i, after, a.startedAt) && NoneBetween(p, candles, i, after, b.startedAt)
    ensures a.startedAt == b.startedAt
  {
  }

  lemma SameStartSameCandle(candles: seq<Candle>, a: Candle, b: Candle)
    requires DistinctStarts(candles) && a in candles && b in candles && a.startedAt == b.startedAt
    ensures a == b
  {
    var i :| 0 <= i < |candles| && candles[i] == a;
    var j :| 0 <= j < |candles| && candles[j] == b;
    assert i == j;
  }

  /** The first filling bar and the first triggering bar after it fix the outcome. */
  lemma FirstsDecide(i: PaperInstruction, candles: seq<Candle>, config: PaperConfig, f: Candle, c: Candle)
    requires DistinctStarts(candles)
    requires FirstFill(i, candles, config, f) && FirstTrigger(i, candles, config, f.startedAt, c)
    ensures Simulated(i, candles, config) == CloseAt(i, config, f.startedAt, c)
  {
    hide Simulated, Fills, Triggers, CloseAt, CompletedOutcome, IsLaterToday, DistinctStarts;
    var o := Simulated(i, candles, config);
    SimulationFollowsFirsts(i, candles, config);
    LaterMeansAfter(f, i.signalTime);
    var filledAt := o.entryFillTime.value;
    var f2 :| f2 in candles && IsLaterToday(f2, i.signalTime) && Fills(f2, i, config) && f2.startedAt == filledAt;
    LaterMeansAfter(f2, i.signalTime);
    FirstsStartTogether(Filling(i, config), candles, i, i.signalTime, f, f2);
    var c2 :| c2 in candles && IsLaterToday(c2, i.signalTime) && filledAt < c2.startedAt && Triggers(c2, i, config)
      && NoneBetween(Triggering(i, config), candles, i, filledAt, c2.startedAt)
      && o == CloseAt(i, config, filledAt, c2);
    FirstsStartTogether(Triggering(i, config), candles, i, filledAt, c, c2);
    SameStartSameCandle(candles, c, c2);
  }

  lemma LaterMeansAfter(c: Candle, t: Instant)
    requires IsLaterToday(c, t)
    ensures t < c.startedAt
  {
  }

  /** A trade that reports a force-flat or stop exit was closed at the first trigger after the first fill. */
  lemma ClosedAtFirsts(i: PaperInstruction, candles: seq<Candle>, config: PaperConfig) returns (f: Candle, c: Candle)
    requires Simulated(i, candles, config).exitReason in {FORCE_FLAT, STOP_HIT}
    ensures FirstFill(i, candles, config, f) && FirstTrigger(i, candles, config, f.startedAt, c)
    ensures Simulated(i, candles, config) == CloseAt(i, config, f.startedAt, c)
  {
    hide Simulated, Fills, Triggers, CloseAt, CompletedOutcome, IsLaterToday;
    var o := Simulated(i, candles, config);
    SimulationFollowsFirsts(i, candles, config);
    NoFillReason(i);
    var filledAt := o.entryFillTime.value;
    f :| f in candles && IsLaterToday(f, i.signalTime) && Fills(f, i, config) && f.startedAt == filledAt;
    c :| c in candles && IsLaterToday(c, i.signalTime) && filledAt < c.startedAt && Triggers(c, i, config)
      && NoneBetween(Triggering(i, config), candles, i, filledAt, c.startedAt)
      && o == CloseAt(i, config, filledAt, c);
  }

  lemma NoFillReason(i: PaperInstruction)
    ensures NoFillOutcome(i).exitReason == NO_FILL
  {
  }

  lemma CloseReason(i: PaperInstruction, config: PaperConfig, filledAt: Instant, c: Candle)
    ensures var o := CloseAt(i, config, filledAt, c);
      && o.exitPrice.Some?
      && (o.exitReason == FORCE_FLAT <==> AtOrAfterForceFlat(c, config))
      && (o.exitReason == FORCE_FLAT ==> o.exitPrice.value == c.close)
      && (o.exitReason == STOP_HIT <==> !AtOrAfterForceFlat(c, config) && c.low <= i.stop)
  {
    hide AtOrAfterForceFlat;
  }

  /** LOSS, EXACTLY, read off the candles. A trade loses more than its planned risk if and only if the first bar that
      triggers an exit after the first bar that fills the entry is at or after force-flat and closes below the stop. */
  lemma LossExceedsPlannedIff(i: PaperInstruction, candles: seq<Candle>, config: PaperConfig)
    requires Sound(i) && AllWellFormed(candles) && DistinctStarts(candles)
    ensures Simulated(i, candles, config).gross < -i.maxRisk
      <==> exists f, c ::
        && FirstFill(i, candles, config, f) && FirstTrigger(i, candles, config, f.startedAt, c)
        && AtOrAfterForceFlat(c, config) && c.close < i.stop
  {
    hide Simulated, FirstFill, FirstTrigger, AtOrAfterForceFlat, CloseAt, Sound, DistinctStarts;
    var o := Simulated(i, candles, config);
    LossIsBoundedByPlannedRisk(i, candles, config);
    if o.gross < -i.maxRisk {
      var f, c := ClosedAtFirsts(i, candles, config);
      CloseReason(i, config, f.startedAt, c);
    }
    forall f, c |
      && FirstFill(i, candles, config, f) && FirstTrigger(i, candles, config, f.startedAt, c)
      && AtOrAfterForceFlat(c, config) && c.close < i.stop
      ensures o.gross < -i.maxRisk
    {
      FirstsDecide(i, candles, config, f, c);
      CloseReason(i, config, f.startedAt, c);
    }
  }

  /** Exactly the planned risk is lost if and only if that bar stops the trade, or force-flats it at the stop. */
  lemma LossEqualsPlannedIff(i: PaperInstruction, candles: seq<Candle>, config: PaperConfig)
    requires Sound(i) && AllWellFormed(candles) && DistinctStarts(candles)
    ensures Simulated(i, candles, config).gross == -i.maxRisk
      <==> exists f, c ::
        && FirstFill(i, candles, config, f) && FirstTrigger(i, candles, config, f.startedAt, c)
        && (if AtOrAfterForceFlat(c, config) then c.close == i.stop else c.low <= i.stop)
  {
    hide Simulated, FirstFill, FirstTrigger, AtOrAfterForceFlat, CloseAt, Sound, DistinctStarts;
    var o := Simulated(i, candles, config);
    LossIsBoundedByPlannedRisk(i, candles, config);
    if o.gross == -i.maxRisk {
      var f, c := ClosedAtFirsts(i, candles, config);
      CloseReason(i, config, f.startedAt, c);
    }
    forall f, c |
      && FirstFill(i, candles, config, f) && FirstTrigger(i, candles, config, f.startedAt, c)
      && (if AtOrAfterForceFlat(c, config) then c.close == i.stop else c.low <= i.stop)
      ensures o.gross == -i.maxRisk
    {
      FirstsDecide(i, candles, config, f, c);
      CloseReason(i, config, f.startedAt, c);
    }
  }

  lemma OnlyLaterBar(fill: Candle, last: Candle)
    requires fill.startedAt < last.startedAt
    ensures Filter(After(fill.startedAt), [fill, last]) == [last]
  {
    FilterConcatenates(After(fill.startedAt), [fill], [last]);
    FilterNothing(After(fill.startedAt), [fill]);
    FilterEverything(After(fill.startedAt), [last]);
    assert [fill] + [last] == [fill, last] && [] + [last] == [last];
  }

  lemma OneBarExit(i: PaperInstruction, config: PaperConfig, filledAt: Instant, last: Candle)
    requires Triggers(last, i, config)
    ensures ExitOver(i, config, filledAt, [last]) == CloseAt(i, config, filledAt, last)
  {
    FirstIndexUnique(Triggering(i, config), [last], 0);
  }

  lemma TwoBarsOver(i: PaperInstruction, config: PaperConfig, fill: Candle, last: Candle)
    requires fill.startedAt < last.startedAt
    requires Fills(fill, i, config) && AtOrAfterForceFlat(last, config)
    ensures SimulatedOver(i, config, [fill, last]) == CloseAt(i, config, fill.startedAt, last)
  {
    FirstIndexUnique(Filling(i, config), [fill, last], 0);
    OnlyLaterBar(fill, last);
    OneBarExit(i, config, fill.startedAt, last);
  }

  lemma TwoBars(i: PaperInstruction, config: PaperConfig, fill: Candle, last: Candle)
    requires fill.startedAt < last.startedAt
    requires IsLaterToday(fill, i.signalTime) && IsLaterToday(last, i.signalTime)
    requires Fills(fill, i, config) && AtOrAfterForceFlat(last, config)
    ensures Simulated(i, [fill, last], config) == CloseAt(i, config, fill.startedAt, last)
  {
    SortOfSorted(StartsNoLater, [fill, last]);
    FilterEverything(LaterToday(i.signalTime), [fill, last]);
    TwoBarsOver(i, config, fill, last);
  }

  /** A time of the signal's own day. */
  lemma TimeOfSameDay(t: Instant, time: int)
    requires 0 <= time < DAY
    ensures var u := t - IstTime(t) + time;
      IstDate(u) == IstDate(t) && IstTime(u) == time
  {
    var u := t - IstTime(t) + time;
    assert u + 19_800_000_000 == IstDate(t) * DAY + time;
  }

  lemma TimesOrderInstants(t: Instant, u: Instant)
    requires IstDate(t) == IstDate(u)
    ensures t < u <==> IstTime(t) < IstTime(u)
  {
  }

  ghost predicate AllPositive(candles: seq<Candle>) {
    forall k :: 0 <= k < |candles| ==> candles[k].low > 0.0
  }

  ghost predicate Overloses(i: PaperInstruction, candles: seq<Candle>, config: PaperConfig) {
    && AllWellFormed(candles) && AllPositive(candles)
    && Simulated(i, candles, config).gross < -i.maxRisk
  }

  lemma OverlosingNeedsTime(i: PaperInstruction, candles: seq<Candle>, config: PaperConfig)
    requires Sound(i) && Overloses(i, candles, config)
    ensures IstTime(i.signalTime) + 1 < config.forceFlatTime < DAY
  {
    hide Simulated, Sound, CloseAt, IstTime, IstDate;
    LossIsBoundedByPlannedRisk(i, candles, config);
    var f, c := ClosedAtFirsts(i, candles, config);
    CloseReason(i, config, f.startedAt, c);
    TimesOrderInstants(i.signalTime, f.startedAt);
  }

  lemma TimeAllowsOverlosing(i: PaperInstruction, config: PaperConfig) returns (candles: seq<Candle>)
    requires Sound(i) && IstTime(i.signalTime) + 1 < config.forceFlatTime < DAY
    ensures Overloses(i, candles, config)
  {
    hide Simulated, OnGrid, IstTime, IstDate;
    var t := i.signalTime;
    TimeOfSameDay(t, IstTime(t) + 1);
    TimeOfSameDay(t, config.forceFlatTime);
    var low := i.stop / 2.0;
    var fill := Candle(1, "1minute", t + 1, i.entry, i.entry, i.entry, i.entry, 1);
    var last := Candle(1, "1minute", t - IstTime(t) + config.forceFlatTime, low, low, low, low, 1);
    candles := [fill, last];
    TwoBars(i, config, fill, last);
    LossComparesPrices(i.entry, i.stop, low, i.quantity as real, (low - i.entry) * i.quantity as real, i.maxRisk);
  }

  /** Force-flat really can lose more: for a sound instruction there are candles with positive prices on which it does
      if and only if the day leaves room for a fill between the signal and the force-flat time. */
  lemma ForceFlatCanExceedPlannedRisk(i: PaperInstruction, config: PaperConfig)
    requires Sound(i)
    ensures (exists candles :: Overloses(i, candles, config))
      <==> IstTime(i.signalTime) + 1 < config.forceFlatTime < DAY
  {
    hide Overloses, Sound, IstTime;
    if exists candles :: Overloses(i, candles, config) {
      var candles :| Overloses(i, candles, config);
      OverlosingNeedsTime(i, candles, config);
    }
    if IstTime(i.signalTime) + 1 < config.forceFlatTime < DAY {
      var candles := TimeAllowsOverlosing(i, config);
    }
  }
}
