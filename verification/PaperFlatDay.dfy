// A day on which the price never moves: every long signal of its first minute fills, and is forced flat at break-even.
// An input on which promises can be tried out.

module PaperFlatDay {
  import opened Options
  import opened MarketClock
  import opened Rounding
  import opened Collections
  import opened Ordering
  import opened Candles
  import opened PaperTypes
  import opened PaperSimulator
  import opened PaperEvaluation

  function FlatConfig(maxTrades: int, cost: real): PaperConfig {
    PaperConfig(true, PAPER, maxTrades, 1, 0.0, 1.0, 2.0, TimeOfDay(15, 10), cost)
  }

  function LongSignal(id: nat): PaperSignal {
    PaperSignal(id, seq(id, _ => 'k'), "NSE:ABC", "opening_range_breakout_long", "CANDIDATE", 0, "LONG", [],
                Features(Some("CANDIDATE"), true, true, true))
  }

  /** The signals 1 to `n`. */
  function LongSignals(n: nat): (signals: seq<PaperSignal>)
    ensures |signals| == n && forall i :: 0 <= i < n ==> signals[i] == LongSignal(i + 1)
  {
    seq(n, i requires 0 <= i < n => LongSignal(i + 1))
  }

  function FlatCandle(at: Instant): Candle {
    Candle(1, "1minute", at, 100.0, 100.0, 100.0, 100.0, 1)
  }

  const FLAT_DAY: seq<Candle> := [FlatCandle(0), FlatCandle(60_000_000), FlatCandle(34_800_000_000)]

  function FlatInputs(maxTrades: int, n: nat, cost: real): Inputs {
    Inputs(FlatConfig(maxTrades, cost), LongSignals(n), map["NSE:ABC" := FLAT_DAY], None)
  }

  lemma FlatDayInWindow(c: Candle)
    requires c in FLAT_DAY
    ensures InWindow(0, DefaultReplayEnd(0))(c)
  {
    assert DefaultReplayEnd(0) == 66_540_000_000;
  }

  lemma FlatDayIsLoaded(maxTrades: int, n: nat, cost: real, id: nat)
    ensures CandlesFor(FlatInputs(maxTrades, n, cost), LongSignal(id)) == FLAT_DAY
  {
    hide InWindow, DefaultReplayEnd, Sort, Filter, LongSignals;
    forall c | c in FLAT_DAY ensures InWindow(0, DefaultReplayEnd(0))(c) {
      FlatDayInWindow(c);
    }
    FilterEverything(InWindow(0, DefaultReplayEnd(0)), FLAT_DAY);
    SortOfSorted(StartsNoLater, FLAT_DAY);
  }

  lemma PricedOnGrid(x: real, units: int)
    requires IsUnits(x, units)
    ensures Priced(x) == x
  {
    GridIsFixed(x);
  }

  lemma FlatPrices(config: PaperConfig)
    requires config.entryBufferPct == 0.0 && config.stopPct == 1.0 && config.targetRMultiple == 2.0
    ensures Priced(ExactEntry(100.0, config)) == 100.0
    ensures Priced(ExactStop(100.0, config)) == 99.0
    ensures Priced(ExactTarget(100.0, 1.0, config)) == 102.0
  {
    hide Priced;
    PricedOnGrid(100.0, 100000000);
    PricedOnGrid(99.0, 99000000);
    PricedOnGrid(102.0, 102000000);
    assert ExactEntry(100.0, config) == 100.0 && ExactStop(100.0, config) == 99.0;
    assert ExactTarget(100.0, 1.0, config) == 102.0;
  }

  ghost predicate IsFlatInstruction(i: PaperInstruction) {
    i.entry == 100.0 && i.stop == 99.0 && i.target == 102.0 && i.signalTime == 0
  }

  lemma FlatInstruction(maxTrades: int, cost: real, id: nat)
    ensures var built := BuildInstruction(LongSignal(id), FLAT_DAY, FlatConfig(maxTrades, cost));
      built.Ok? && IsFlatInstruction(built.value)
  {
    hide Priced, ExactEntry, ExactStop, ExactTarget, PlannedRisk, OnGrid, FirstIndex;
    FlatPrices(FlatConfig(maxTrades, cost));
    FirstIndexUnique(StartsAt(0), FLAT_DAY, 0);
    assert SignalDefect(LongSignal(id)).None?;
    assert PriceInstruction(LongSignal(id), 100.0, FlatConfig(maxTrades, cost)).Ok?;
  }

  lemma FlatFuture(i: PaperInstruction)
    requires IsFlatInstruction(i)
    ensures FutureOf(i, FLAT_DAY) == FLAT_DAY[1..]
  {
    hide Filter, Sort;
    var front, rest := FLAT_DAY[..1], FLAT_DAY[1..];
    SortOfSorted(StartsNoLater, FLAT_DAY);
    FilterNothing(LaterToday(0), front);
    FilterEverything(LaterToday(0), rest);
    FilterConcatenates(LaterToday(0), front, rest);
    assert front + rest == FLAT_DAY;
  }

  lemma FlatBars(i: PaperInstruction, config: PaperConfig)
    requires IsFlatInstruction(i) && config.forceFlatTime == TimeOfDay(15, 10)
    ensures Fills(FLAT_DAY[1], i, config) && AtOrAfterForceFlat(FLAT_DAY[2], config)
  {
  }

  /** Every long signal fills and is forced flat where it entered. */
  lemma FlatDayCloses(maxTrades: int, n: nat, cost: real, id: nat)
    ensures var o := Evaluate(FlatInputs(maxTrades, n, cost), LongSignal(id));
      o.tradeCreated && o.exitPrice == Some(100.0)
  {
    hide BuildInstruction, CandlesFor, FutureOf, SimulatedOver, Fills, AtOrAfterForceFlat, IsFlatInstruction,
      LongSignals, LongSignal;
    FlatDayIsLoaded(maxTrades, n, cost, id);
    FlatInstruction(maxTrades, cost, id);
    var config := FlatConfig(maxTrades, cost);
    var i := BuildInstruction(LongSignal(id), FLAT_DAY, config).value;
    FlatFuture(i);
    FlatBars(i, config);
    assert FLAT_DAY[1..] == [FLAT_DAY[1], FLAT_DAY[2]];
    TwoBarsOver(i, config, FLAT_DAY[1], FLAT_DAY[2]);
  }
}
