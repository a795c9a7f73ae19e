// What the paper engine does, written on signals, candles, settings and rows: when a signal is papered, how a trade is
// read off the candles, what a replay decides about a signal, and what is written for it.

module PaperLaws {
  import opened Options
  import opened MarketClock
  import opened Rounding
  import opened Collections
  import opened Ordering
  import opened Candles
  import opened PaperTypes
  import opened PaperSimulator
  import opened PaperLedger
  import opened PaperReplay
  import opened PaperEvaluation
  import opened PaperEngine

  // ----- instructions

  /** What can be wrong with a signal, in the order it is checked. */
  function Defects(signal: PaperSignal): seq<(bool, string)> {
    var f := signal.features;
    [(signal.signalStatus != "CANDIDATE", "signal_is_not_candidate"),
     (signal.direction != "LONG", "signal_direction_not_long"),
     (signal.vetoReasons != [], "candidate_has_veto_reasons"),
     (f == NoFeatures, "missing_signal_features"),
     (f.Features? && f.signalStatus != Some("CANDIDATE"), "feature_snapshot_not_candidate"),
     (f.Features? && !f.vetoFree, "feature_snapshot_has_veto_reasons"),
     (f.Features? && !f.hasIndicators, "missing_indicator_snapshot"),
     (f.Features? && !f.hasDataQuality, "missing_data_quality_snapshot")]
  }

  /** The first of them is the reason. */
  lemma DefectIsFirst(signal: PaperSignal)
    ensures SignalDefect(signal) == FirstHolding(Defects(signal))
  {
    hide FirstHolding;
    var defects := Defects(signal);
    if defects[0].0 {
      FirstHoldingAt(defects, 0);
    } else if defects[1].0 {
      FirstHoldingAt(defects, 1);
    } else if defects[2].0 {
      FirstHoldingAt(defects, 2);
    } else if defects[3].0 {
      FirstHoldingAt(defects, 3);
    } else if defects[4].0 {
      FirstHoldingAt(defects, 4);
    } else if defects[5].0 {
      FirstHoldingAt(defects, 5);
    } else if defects[6].0 {
      FirstHoldingAt(defects, 6);
    } else if defects[7].0 {
      FirstHoldingAt(defects, 7);
    } else {
      NoneHolds(defects);
    }
  }

  /** What can be wrong with the prices of a signal candle that was found. */
  function PriceProblems(close: real, config: PaperConfig): seq<(bool, string)> {
    var entry := Priced(ExactEntry(close, config));
    var stop := Priced(ExactStop(entry, config));
    var target := Priced(ExactTarget(entry, entry - stop, config));
    [(!(0.0 < stop < entry), "invalid_entry_stop_context"),
     (config.defaultQuantity < 1, "invalid_paper_quantity"),
     (target <= entry, "invalid_target_context")]
  }

  lemma PricedIffNoProblem(signal: PaperSignal, close: real, config: PaperConfig)
    ensures var r := PriceInstruction(signal, close, config);
      FirstHolding(PriceProblems(close, config)) == if r.Ok? then None else Some(r.error)
  {
    hide FirstHolding, Priced, ExactEntry, ExactStop, ExactTarget, PlannedRisk, OnGrid;
    var problems := PriceProblems(close, config);
    if problems[0].0 {
      FirstHoldingAt(problems, 0);
    } else if problems[1].0 {
      FirstHoldingAt(problems, 1);
    } else if problems[2].0 {
      FirstHoldingAt(problems, 2);
    } else {
      NoneHolds(problems);
    }
  }

  /** WHEN A SIGNAL IS PAPERED. It is, unless the signal has a defect, its own candle is missing, or the prices of that
      candle have a problem; then the first such reason is reported as an invalid context, with nothing entered. */
  lemma PaperedIffNothingIsWrong(signal: PaperSignal, candles: seq<Candle>, config: PaperConfig)
    ensures var built := BuildInstruction(signal, candles, config);
      var found := FirstIndex(StartsAt(signal.signalTime), candles);
      var why :=
        if FirstHolding(Defects(signal)).Some? then FirstHolding(Defects(signal))
        else if found.None? then Some("signal_candle_unavailable")
        else FirstHolding(PriceProblems(candles[found.value].close, config));
      && (found.None? <==> forall c :: c in candles ==> c.startedAt != signal.signalTime)
      && (built.Ok? <==> why.None?)
      && (built.Err? ==>
            && built.error.rejectionReason == why && IsRefusal(built.error, signal, config, INVALID_SIGNAL_CONTEXT))
  {
    hide SignalDefect, Defects, PriceProblems, FirstHolding, PriceInstruction;
    DefectIsFirst(signal);
    FirstIndexIsFirst(StartsAt(signal.signalTime), candles);
    var found := FirstIndex(StartsAt(signal.signalTime), candles);
    if found.Some? {
      PricedIffNoProblem(signal, candles[found.value].close, config);
    }
  }

  /** An outcome that only says no: nothing entered, nothing priced, no amount. */
  ghost predicate IsRefusal(o: Outcome, s: PaperSignal, config: PaperConfig, reason: ExitReason) {
    && o.signalId == s.id && o.signalKey == s.signalKey && o.symbol == s.symbol && o.strategyName == s.strategyName
    && o.mode == config.mode && o.entryStatus == NotCreated && o.exitReason == reason && !o.tradeCreated
    && o.quantity == 0 && o.gross == 0.0 && o.costs == 0.0 && o.net == 0.0
    && o.entryReferencePrice == o.entryFillPrice == o.stop == o.target == o.exitPrice == None
    && o.entryFillTime == o.exitTime == None
  }

  // ----- a trade, read off the candles

  /** A candle of the signal's day after the signal. */
  ghost predicate Later(c: Candle, i: PaperInstruction, candles: seq<Candle>) {
    c in candles && IstDate(c.startedAt) == IstDate(i.signalTime) && i.signalTime < c.startedAt
  }

  /** It can fill the entry: before force-flat, with the entry price within its range. */
  predicate CanFill(c: Candle, i: PaperInstruction, config: PaperConfig) {
    IstTime(c.startedAt) < config.forceFlatTime && c.low <= i.entry && i.entry <= c.high
  }

  /** It ends a trade: force-flat is due, or its range reaches the stop or the target. */
  predicate CanEnd(c: Candle, i: PaperInstruction, config: PaperConfig) {
    config.forceFlatTime <= IstTime(c.startedAt) || c.low <= i.stop || i.target <= c.high
  }

  /** The reason and the price at which a candle ends a trade, in order of priority. */
  function EndsWith(c: Candle, i: PaperInstruction, config: PaperConfig): (ExitReason, real) {
    if config.forceFlatTime <= IstTime(c.startedAt) then (FORCE_FLAT, c.close)
    else if c.low <= i.stop then (STOP_HIT, i.stop)
    else (TARGET_HIT, i.target)
  }

  ghost predicate NoneEndsBetween(
    i: PaperInstruction, candles: seq<Candle>, config: PaperConfig, after: Instant, before: Instant)
  {
    forall c :: Later(c, i, candles) && after < c.startedAt < before ==> !CanEnd(c, i, config)
  }

  /** How the trade ended: by the earliest candle that can end one after the fill; at the close of the day's last candle
      when none can; or not at all when no candle follows. */
  ghost predicate EndedAsSeen(
    i: PaperInstruction, candles: seq<Candle>, config: PaperConfig, fill: Instant, o: Outcome)
  {
    match o.exitReason
    case DATA_ENDED =>
      o.exitTime.None? && o.exitPrice.None? && forall c :: Later(c, i, candles) ==> c.startedAt <= fill
    case TIME_EXIT =>
      exists c ::
        && Later(c, i, candles) && fill < c.startedAt
        && o.exitTime == Some(c.startedAt) && o.exitPrice == Some(c.close)
        && (forall d :: Later(d, i, candles) ==>
              d.startedAt <= c.startedAt && (fill < d.startedAt ==> !CanEnd(d, i, config)))
    case _ =>
      exists c ::
        && Later(c, i, candles) && fill < c.startedAt && CanEnd(c, i, config)
        && NoneEndsBetween(i, candles, config, fill, c.startedAt)
        && o.exitTime == Some(c.startedAt)
        && (o.exitReason, o.exitPrice) == (EndsWith(c, i, config).0, Some(EndsWith(c, i, config).1))
  }

  /** What an outcome repeats of its instruction. */
  ghost predicate CarriesInstruction(i: PaperInstruction, o: Outcome) {
    && o.signalId == i.signalId && o.signalKey == i.signalKey && o.symbol == i.symbol
    && o.strategyName == i.strategyName && o.mode == i.mode && o.quantity == i.quantity
    && o.entryReferencePrice == Some(i.entry) && o.stop == Some(i.stop) && o.target == Some(i.target)
    && o.rejectionReason.None?
  }

  /** Gross is the price difference times the quantity, the cost is charged once a trade is closed, and net is what is
      left. */
  ghost predicate Settles(i: PaperInstruction, o: Outcome) {
    && o.gross == (if o.exitPrice.Some? then (o.exitPrice.value - i.entry) * i.quantity as real else 0.0)
    && o.costs == (if o.exitPrice.Some? then i.estimatedCosts else 0.0)
    && o.net == o.gross - o.costs
  }

  lemma CompletedSettles(
    i: PaperInstruction, at: Instant, time: Option<Instant>, price: Option<real>, reason: ExitReason)
    ensures var o := CompletedOutcome(i, at, time, price, reason);
      && Settles(i, o) && CarriesInstruction(i, o)
      && o.entryStatus == EntryFilled && o.tradeCreated
      && o.entryFillTime == Some(at) && o.entryFillPrice == Some(i.entry)
      && o.exitTime == time && o.exitPrice == price && o.exitReason == reason
  {
  }

  lemma SameTests(c: Candle, i: PaperInstruction, config: PaperConfig, candles: seq<Candle>)
    ensures Fills(c, i, config) <==> CanFill(c, i, config)
    ensures Triggers(c, i, config) <==> CanEnd(c, i, config)
    ensures c in candles && IsLaterToday(c, i.signalTime) <==> Later(c, i, candles)
  {
    hide IstTime, IstDate;
  }

  lemma CloseAtEnds(i: PaperInstruction, config: PaperConfig, at: Instant, c: Candle)
    ensures var (reason, price) := EndsWith(c, i, config);
      CloseAt(i, config, at, c) == CompletedOutcome(i, at, Some(c.startedAt), Some(price), reason)
  {
    hide IstTime, CompletedOutcome;
  }

  lemma ExitIsSeen(i: PaperInstruction, candles: seq<Candle>, config: PaperConfig, fill: Instant, o: Outcome)
    requires ExitsFirst(i, candles, config, fill, o)
    ensures EndedAsSeen(i, candles, config, fill, o) && Settles(i, o) && CarriesInstruction(i, o)
    ensures o.entryStatus == EntryFilled && o.entryFillPrice == Some(i.entry) && o.entryFillTime == Some(fill)
  {
    hide IstTime, IstDate, Fills, Triggers, IsLaterToday, CanFill, CanEnd, CloseAt, CompletedOutcome, Settles;
    hide CarriesInstruction, Later;
    forall c
      ensures Triggers(c, i, config) <==> CanEnd(c, i, config)
      ensures c in candles && IsLaterToday(c, i.signalTime) <==> Later(c, i, candles)
    {
      SameTests(c, i, config, candles);
    }
    if o.exitReason == DATA_ENDED {
      CompletedSettles(i, fill, None, None, DATA_ENDED);
    } else {
      var c :|
        && c in candles && IsLaterToday(c, i.signalTime) && fill < c.startedAt
        && NoneBetween(Triggering(i, config), candles, i, fill, c.startedAt)
        && (if o.exitReason == TIME_EXIT then
              && o == CompletedOutcome(i, fill, Some(c.startedAt), Some(c.close), TIME_EXIT)
              && !Triggers(c, i, config)
              && forall d :: d in candles && IsLaterToday(d, i.signalTime) ==>
                   d.startedAt <= c.startedAt && (d.startedAt > fill ==> !Triggers(d, i, config))
            else Triggers(c, i, config) && o == CloseAt(i, config, fill, c));
      CompletedSettles(i, fill, Some(c.startedAt), Some(c.close), TIME_EXIT);
      CloseAtEnds(i, config, fill, c);
      var end := EndsWith(c, i, config);
      CompletedSettles(i, fill, Some(c.startedAt), Some(end.1), end.0);
      assert NoneEndsBetween(i, candles, config, fill, c.startedAt);
    }
  }

  /** A TRADE, READ OFF THE CANDLES in any order. A trade is created iff some later candle of the day can fill the
      entry, then at the earliest such candle, and it ends as seen after it; otherwise nothing is entered. */
  lemma TradeIsReadOffCandles(i: PaperInstruction, candles: seq<Candle>, config: PaperConfig)
    ensures var o := Simulated(i, candles, config);
      && CarriesInstruction(i, o) && Settles(i, o)
      && (o.tradeCreated <==> exists c :: Later(c, i, candles) && CanFill(c, i, config))
      && (o.tradeCreated ==>
            && o.entryStatus == EntryFilled && o.entryFillPrice == Some(i.entry)
            && (exists f ::
                  && Later(f, i, candles) && CanFill(f, i, config) && o.entryFillTime == Some(f.startedAt)
                  && (forall c :: Later(c, i, candles) && c.startedAt < f.startedAt ==> !CanFill(c, i, config))
                  && EndedAsSeen(i, candles, config, f.startedAt, o)))
      && (!o.tradeCreated ==>
            && o.entryStatus == EntryNoFill && o.exitReason == NO_FILL
            && o.entryFillTime == o.exitTime == None && o.entryFillPrice == o.exitPrice == None)
  {
    hide IstTime, IstDate, Fills, Triggers, IsLaterToday, CanFill, CanEnd, Simulated, ExitsFirst, EndedAsSeen, Later;
    SimulationFollowsFirsts(i, candles, config);
    var o := Simulated(i, candles, config);
    forall c
      ensures Fills(c, i, config) <==> CanFill(c, i, config)
      ensures c in candles && IsLaterToday(c, i.signalTime) <==> Later(c, i, candles)
    {
      SameTests(c, i, config, candles);
    }
    if o.tradeCreated {
      var at := o.entryFillTime.value;
      ExitIsSeen(i, candles, config, at, o);
      var f :| f in candles && IsLaterToday(f, i.signalTime) && Fills(f, i, config) && f.startedAt == at;
      forall c | Later(c, i, candles) && c.startedAt < f.startedAt ensures !CanFill(c, i, config) {
        LaterIsAfter(c, i, candles);
      }
    }
  }

  lemma LaterIsAfter(c: Candle, i: PaperInstruction, candles: seq<Candle>)
    requires Later(c, i, candles)
    ensures i.signalTime < c.startedAt
  {
  }

  // ----- what a replay decides

  lemma {:induction false} CountDayIsNumber(trades: seq<Trade>, ids: set<int>)
    ensures CountDay(trades, ids) == |set k | 0 <= k < |trades| && trades[k].signalId in ids|
  {
    var all := set k | 0 <= k < |trades| && trades[k].signalId in ids;
    if trades != [] {
      var n := |trades| - 1;
      CountDayIsNumber(trades[..n], ids);
      var front := set k | 0 <= k < n && trades[..n][k].signalId in ids;
      assert all == if trades[n].signalId in ids then front + {n} else front;
    }
  }

  /** ONE SIGNAL. A signal with a trade is refused as a duplicate; otherwise, on a day that already has as many
      trades as the cap, or under a cap below one, it is refused as capped; otherwise it gets what the engine makes
      of it. What is decided is what is written. */
  lemma ReplayDecides(env: Env, l: Ledger, s: PaperSignal)
    ensures var (after, o) := StepReplay(env, l, s);
      var cap := env.config.maxTradesPerDay;
      var sameDay := set t | t in env.signals && IstDate(t.signalTime) == IstDate(s.signalTime) :: t.id;
      var trades := |set k | 0 <= k < |l.trades| && l.trades[k].signalId in sameDay|;
      && Record(l, s.id, o) == Ok(after)
      && (if exists k :: 0 <= k < |l.trades| && l.trades[k].signalId == s.id then
            IsRefusal(o, s, env.config, DUPLICATE_SIGNAL) && o.rejectionReason == Some("duplicate_signal")
          else if cap < 1 then
            IsRefusal(o, s, env.config, MODE_DISABLED) && o.rejectionReason == Some("paper_max_trades_per_day_invalid")
          else if cap <= trades then
            IsRefusal(o, s, env.config, MODE_DISABLED) && o.rejectionReason == Some("paper_max_trades_per_day_reached")
          else o == env.evaluate(s))
  {
    hide IstDate, CountDay, Written;
    CountDayIsNumber(l.trades, DayIds(env.signals, IstDate(s.signalTime)));
  }

  // ----- what is loaded

  /** A signal is simulated on its symbol's one-minute candles from its own time to the end asked for, by default
      23:59 IST of its day, in time order; one is left out only when a hundred thousand no later ones are loaded. */
  lemma CandlesAreOfTheDay(inputs: Inputs, s: PaperSignal)
    ensures var end := DefaultReplayEnd(s.signalTime);
      IstDate(end) == IstDate(s.signalTime) && IstTime(end) == 23 * 60 * MINUTE + 59 * MINUTE
    ensures var end := if inputs.end.Some? then inputs.end.value else DefaultReplayEnd(s.signalTime);
      var stored := if s.symbol in inputs.candlesBySymbol then inputs.candlesBySymbol[s.symbol] else [];
      var loaded := CandlesFor(inputs, s);
      && SortedBy(StartsNoLater, loaded) && |loaded| <= 100_000
      && (forall c :: c in loaded ==> c in stored && c.timeframe == "1minute" && s.signalTime <= c.startedAt <= end)
      && (forall c ::
            c in stored && c.timeframe == "1minute" && s.signalTime <= c.startedAt <= end && c !in loaded ==>
              |loaded| == 100_000 && forall d :: d in loaded ==> d.startedAt <= c.startedAt)
  {
    hide DefaultReplayEnd, InWindow, Filter, Sort, Take;
    EndOfDay(s.signalTime);
    var end := if inputs.end.Some? then inputs.end.value else DefaultReplayEnd(s.signalTime);
    var stored := if s.symbol in inputs.candlesBySymbol then inputs.candlesBySymbol[s.symbol] else [];
    FilterMembers(InWindow(s.signalTime, end), stored);
    ByStartSorts(Filter(InWindow(s.signalTime, end), stored));
    FirstCandles(ByStart(Filter(InWindow(s.signalTime, end), stored)), 100_000);
    forall c
      ensures InWindow(s.signalTime, end)(c) <==> c.timeframe == "1minute" && s.signalTime <= c.startedAt <= end
    {
      InWindowMeans(s.signalTime, end, c);
    }
  }

  lemma FirstCandles(sorted: seq<Candle>, limit: nat)
    requires SortedBy(StartsNoLater, sorted)
    ensures var taken := Take(sorted, limit);
      && SortedBy(StartsNoLater, taken) && |taken| <= limit
      && (forall c :: c in taken ==> c in sorted)
      && (forall c :: c in sorted && c !in taken ==>
            |taken| == limit && forall d :: d in taken ==> d.startedAt <= c.startedAt)
  {
    var taken := Take(sorted, limit);
    forall c | c in sorted && c !in taken ensures |taken| == limit {
      SplitByTake(sorted, limit, c);
    }
    forall c, d | c in sorted && c !in taken && d in taken ensures d.startedAt <= c.startedAt {
      SplitByTake(sorted, limit, c);
      var i :| 0 <= i < |taken| && taken[i] == d;
      var j :| limit <= j < |sorted| && sorted[j] == c;
      assert StartsNoLater(sorted[i], sorted[j]);
    }
  }

  lemma InWindowMeans(start: Instant, end: Instant, c: Candle)
    ensures InWindow(start, end)(c) <==> c.timeframe == "1minute" && start <= c.startedAt <= end
  {
  }

  lemma EndOfDay(t: Instant)
    ensures IstDate(DefaultReplayEnd(t)) == IstDate(t)
    ensures IstTime(DefaultReplayEnd(t)) == 23 * 60 * MINUTE + 59 * MINUTE
  {
  }

  /** A replay is refused in live mode whatever else is set, then when papering is disabled, then in any mode but
      paper. */
  lemma RefusedUnlessPapering(config: PaperConfig)
    ensures ReplayRefusal(config)
         == FirstHolding([(config.mode == LIVE, LiveModeNotImplemented), (!config.enabled, PaperDisabled),
                          (config.mode != PAPER, PaperModeDisabled)])
  {
    var problems := [(config.mode == LIVE, LiveModeNotImplemented), (!config.enabled, PaperDisabled),
                     (config.mode != PAPER, PaperModeDisabled)];
    hide FirstHolding;
    if problems[0].0 {
      FirstHoldingAt(problems, 0);
    } else if problems[1].0 {
      FirstHoldingAt(problems, 1);
    } else if problems[2].0 {
      FirstHoldingAt(problems, 2);
    } else {
      NoneHolds(problems);
    }
  }

  // ----- what is written

  /** A journal row repeats the outcome, its amounts written with six places. */
  lemma RowRepeatsOutcome(o: Outcome)
    ensures var row := RowOf(o);
      && row.signalId == o.signalId && row.simulated && row.entryStatus == o.entryStatus
      && row.exitReason == o.exitReason && row.rejectionReason == o.rejectionReason
      && row.gross == Money(o.gross) && row.costs == Money(o.costs) && row.net == Money(o.net)
  {
  }

  /** A missed fill leaves one unfilled BUY at the reference price, its event and a journal row. */
  lemma MissedFillIsWritten(l: Ledger, id: int, o: Outcome)
    requires o.entryStatus == EntryNoFill && !o.tradeCreated
    ensures var n := |l.orders| + 1;
      Record(l, id, o)
      == Ok(Ledger(
              l.orders + [Order(n, id, BUY, o.quantity, o.entryReferencePrice, PAPER_ENTRY_NO_FILL)],
              l.events + [OrderEvent(n, PAPER_ENTRY_NO_FILL)], l.trades, l.journal + [RowOf(o)]))
  {
    EventsAreWritten(l, id, o);
    var entry, exit := EntryOrders(l, id, o), ExitOrders(l, id, o);
    assert exit == [] && l.trades + [] == l.trades && l.orders + (entry + exit) == l.orders + entry;
    assert EventsOf(entry + exit) == [OrderEvent(|l.orders| + 1, PAPER_ENTRY_NO_FILL)];
  }

  /** A trade leaves a filled BUY at the reference price, a SELL at the exit price once it is closed, an event for each,
      a trade on both, and a journal row. */
  lemma TradeIsWritten(l: Ledger, id: int, o: Outcome)
    requires o.entryStatus == EntryFilled && o.tradeCreated && !HasTrade(l, id)
    ensures var n, closed := |l.orders| + 1, o.exitPrice.Some?;
      Record(l, id, o)
      == Ok(Ledger(
              l.orders + [Order(n, id, BUY, o.quantity, o.entryReferencePrice, PAPER_ENTRY_FILLED)]
              + (if closed then [Order(n + 1, id, SELL, o.quantity, o.exitPrice, PAPER_EXIT_FILLED)] else []),
              l.events + [OrderEvent(n, PAPER_ENTRY_FILLED)]
              + (if closed then [OrderEvent(n + 1, PAPER_EXIT_FILLED)] else []),
              l.trades + [Trade(|l.trades| + 1, id, n, if closed then Some(n + 1) else None, o.quantity,
                                o.entryFillPrice, o.exitPrice, o.exitReason, o.gross, o.costs, o.net)],
              l.journal + [RowOf(o)]))
  {
    EventsAreWritten(l, id, o);
    var entry, exit := EntryOrders(l, id, o), ExitOrders(l, id, o);
    assert l.orders + (entry + exit) == l.orders + entry + exit;
    var first := [OrderEvent(|l.orders| + 1, PAPER_ENTRY_FILLED)];
    var second := if exit == [] then [] else [OrderEvent(|l.orders| + 2, PAPER_EXIT_FILLED)];
    assert EventsOf(entry + exit) == first + second;
    assert l.events + (first + second) == l.events + first + second;
  }
}
