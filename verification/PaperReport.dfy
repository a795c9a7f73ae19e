// Summaries of a replay and reports over the journal, and how they reconcile with the ledger.

module PaperSummary {
  import opened PaperTypes
  import opened PaperLedger
  import opened PaperReplay

  datatype Kind = Rejection | Missed | Traded

  function KindOf(o: Outcome): Kind {
    if o.rejectionReason.Some? then Rejection else if o.exitReason == NO_FILL then Missed else Traded
  }

  function CountKind(outcomes: seq<Outcome>, kind: Kind): nat {
    if outcomes == [] then 0
    else CountKind(outcomes[..|outcomes| - 1], kind) + (if KindOf(outcomes[|outcomes| - 1]) == kind then 1 else 0)
  }

  /** `sum(1 for outcome in outcomes if outcome.rejection_reason)` and its siblings. */
  method SummaryCounts(outcomes: seq<Outcome>)
    returns (entryAttempts: nat, noFills: nat, tradesCreated: nat, rejections: nat)
    requires forall k :: 0 <= k < |outcomes| ==> WellShaped(outcomes[k])
    ensures rejections == CountKind(outcomes, Rejection)
    ensures noFills == CountKind(outcomes, Missed)
    ensures tradesCreated == CountKind(outcomes, Traded)
    ensures entryAttempts == noFills + tradesCreated
  {
    entryAttempts, noFills, tradesCreated, rejections := 0, 0, 0, 0;
    for k := 0 to |outcomes|
      invariant rejections == CountKind(outcomes[..k], Rejection)
      invariant noFills == CountKind(outcomes[..k], Missed)
      invariant tradesCreated == CountKind(outcomes[..k], Traded)
      invariant entryAttempts == noFills + tradesCreated
    {
      assert outcomes[..k + 1][..k] == outcomes[..k];
      var o := outcomes[k];
      assert WellShaped(o);
      if HasEntryAttempt(o) { entryAttempts := entryAttempts + 1; }
      if o.exitReason == NO_FILL { noFills := noFills + 1; }
      if o.tradeCreated { tradesCreated := tradesCreated + 1; }
      if o.rejectionReason.Some? { rejections := rejections + 1; }
    }
    assert outcomes[..|outcomes|] == outcomes;
  }

  lemma {:induction false} KindsPartition(outcomes: seq<Outcome>)
    ensures CountKind(outcomes, Rejection) + CountKind(outcomes, Missed) + CountKind(outcomes, Traded) == |outcomes|
  {
    if outcomes != [] {
      KindsPartition(outcomes[..|outcomes| - 1]);
    }
  }

  /** Every loaded signal is exactly one rejection, missed fill or trade, and the replay adds exactly as many
      trades to the ledger as it reports. */
  lemma {:induction false} SummaryMatchesLedger(env: Env, l: Ledger, sigs: seq<PaperSignal>)
    requires Shaped(env) && Balanced(l)
    ensures var (after, outcomes) := Replay(env, l, sigs);
      && CountKind(outcomes, Rejection) + CountKind(outcomes, Missed) + CountKind(outcomes, Traded) == |sigs|
      && |after.trades| == |l.trades| + CountKind(outcomes, Traded)
  {
    ReplayKeepsBooks(env, l, sigs);
    KindsPartition(Replay(env, l, sigs).1);
    TradesAddUp(env, l, sigs);
  }

  lemma {:induction false} TradesAddUp(env: Env, l: Ledger, sigs: seq<PaperSignal>)
    requires Shaped(env)
    ensures |Replay(env, l, sigs).0.trades| == |l.trades| + CountKind(Replay(env, l, sigs).1, Traded)
  {
    if sigs != [] {
      var n := |sigs| - 1;
      TradesAddUp(env, l, sigs[..n]);
      var (before, outcomes) := Replay(env, l, sigs[..n]);
      DecideShape(env, before, sigs[n]);
      var o := Decide(env, before, sigs[n]);
      assert (outcomes + [o])[..|outcomes|] == outcomes;
    }
  }
}

/** Journal, trades and prices on the six-place grid: when the books reconcile to the last digit. */
module PaperReconciliation {
  import opened Options
  import opened MarketClock
  import opened Rounding
  import opened Collections
  import opened Candles
  import opened PaperTypes
  import opened PaperSimulator
  import opened PaperLedger
  import opened PaperReplay
  import opened PaperEvaluation
  import opened PaperFlatDay

  datatype Amounts = Amounts(gross: real, costs: real, net: real)

  function Plus(a: Amounts, b: Amounts): Amounts {
    Amounts(a.gross + b.gross, a.costs + b.costs, a.net + b.net)
  }

  const ZERO := Amounts(0.0, 0.0, 0.0)

  function SumRows(rows: seq<JournalRow>): Amounts {
    if rows == [] then ZERO
    else
      var last := rows[|rows| - 1];
      Plus(SumRows(rows[..|rows| - 1]), Amounts(last.gross, last.costs, last.net))
  }

  function SumTrades(trades: seq<Trade>): Amounts {
    if trades == [] then ZERO
    else
      var last := trades[|trades| - 1];
      Plus(SumTrades(trades[..|trades| - 1]), Amounts(last.gross, last.costs, last.net))
  }

  ghost predicate OnGrids(a: Amounts) {
    OnGrid(a.gross) && OnGrid(a.costs) && OnGrid(a.net)
  }

  function AmountsOf(o: Outcome): Amounts {
    Amounts(o.gross, o.costs, o.net)
  }

  /** As written with six places. */
  function Published(a: Amounts): Amounts {
    Amounts(Money(a.gross), Money(a.costs), Money(a.net))
  }

  lemma ZeroOnGrid()
    ensures OnGrid(0.0)
  {
    assert IsUnits(0.0, 0);
  }

  lemma MoneyOnGrid(x: real)
    ensures OnGrid(Money(x))
  {
    assert IsUnits(Money(x), HalfEven(x * 1000000.0));
  }

  /** Writing an amount with six places changes it unless it is on the grid. */
  lemma MoneyFixesExactlyGrid(x: real)
    ensures Money(x) == x <==> OnGrid(x)
  {
    if OnGrid(x) {
      GridIsFixed(x);
    }
    MoneyOnGrid(x);
  }

  lemma PublishedFixesExactlyGrid(a: Amounts)
    ensures Published(a) == a <==> OnGrids(a)
  {
    hide Money, OnGrid;
    MoneyFixesExactlyGrid(a.gross);
    MoneyFixesExactlyGrid(a.costs);
    MoneyFixesExactlyGrid(a.net);
  }

  // ----- one write

  ghost predicate Consistent(l: Ledger) {
    && SumRows(l.journal) == SumTrades(l.trades)
    && SumRows(l.journal).net == SumRows(l.journal).gross - SumRows(l.journal).costs
  }

  lemma SumsAppend(l: Ledger, o: Outcome, id: int)
    requires WellShaped(o)
    ensures SumRows(l.journal + [RowOf(o)]) == Plus(SumRows(l.journal), Published(AmountsOf(o)))
    ensures SumTrades(l.trades + NewTrades(l, id, o))
         == if o.tradeCreated then Plus(SumTrades(l.trades), AmountsOf(o)) else SumTrades(l.trades)
  {
    hide Money;
    assert (l.journal + [RowOf(o)])[..|l.journal|] == l.journal;
    var more := NewTrades(l, id, o);
    if o.tradeCreated {
      assert (l.trades + more)[..|l.trades|] == l.trades;
    } else {
      assert l.trades + more == l.trades;
    }
  }

  lemma NoTradeIsZero(o: Outcome)
    requires WellShaped(o) && !o.tradeCreated
    ensures AmountsOf(o) == ZERO && OnGrids(ZERO) && Published(ZERO) == ZERO
  {
    ZeroOnGrid();
    PublishedFixesExactlyGrid(ZERO);
  }

  lemma SumsOfWrite(rows: Amounts, trades: Amounts, written: Amounts, exact: Amounts)
    requires rows == trades && rows.net == rows.gross - rows.costs && exact.net == exact.gross - exact.costs
    ensures written == exact <==>
      && Plus(rows, written) == Plus(trades, exact)
      && Plus(rows, written).net == Plus(rows, written).gross - Plus(rows, written).costs
  {
  }

  /** A write keeps a reconciled ledger reconciled exactly when its amounts are on the six-place grid. */
  lemma WriteReconcilesIff(l: Ledger, id: int, o: Outcome)
    requires Consistent(l) && WellShaped(o)
    ensures Consistent(Written(l, id, o)) <==> OnGrids(AmountsOf(o))
  {
    hide Money, OnGrids, SumRows, SumTrades, Published, Plus;
    SumsAppend(l, o, id);
    PublishedFixesExactlyGrid(AmountsOf(o));
    if o.tradeCreated {
      SumsOfWrite(SumRows(l.journal), SumTrades(l.trades), Published(AmountsOf(o)), AmountsOf(o));
    } else {
      NoTradeIsZero(o);
      SumsOfWrite(SumRows(l.journal), SumTrades(l.trades), ZERO, ZERO);
      PlusZero(SumTrades(l.trades));
    }
    WrittenParts(l, id, o);
  }

  lemma PlusZero(a: Amounts)
    ensures Plus(a, ZERO) == a
  {
  }

  lemma WrittenParts(l: Ledger, id: int, o: Outcome)
    ensures Written(l, id, o).journal == l.journal + [RowOf(o)]
    ensures Written(l, id, o).trades == l.trades + NewTrades(l, id, o)
  {
  }

  // ----- what the engine writes

  lemma GrossOnGrid(exit: real, entry: real, quantity: nat, gross: real)
    requires OnGrid(exit) && OnGrid(entry)
    requires gross == (exit - entry) * quantity as real
    ensures OnGrid(gross)
  {
    GridDifference(exit, entry);
    GridMultiple(exit - entry, quantity, gross);
  }

  /** With prices on the grid, a closed trade is on the grid exactly when its cost is. */
  ghost predicate GridFollowsCost(o: Outcome, cost: real) {
    && (OnGrids(AmountsOf(o)) <==> o.exitPrice.None? || OnGrid(cost))
    && o.costs == (if o.exitPrice.Some? then cost else 0.0)
    && (o.exitPrice.Some? ==> o.tradeCreated)
  }

  lemma CompletedFollowsCost(
    i: PaperInstruction, filledAt: Instant, exitTime: Option<Instant>, exitPrice: Option<real>, why: ExitReason)
    requires OnGrid(i.entry) && 1 <= i.quantity
    requires exitPrice.Some? ==> OnGrid(exitPrice.value)
    ensures GridFollowsCost(CompletedOutcome(i, filledAt, exitTime, exitPrice, why), i.estimatedCosts)
  {
    hide OnGrid;
    var o := CompletedOutcome(i, filledAt, exitTime, exitPrice, why);
    ZeroOnGrid();
    if exitPrice.Some? {
      GrossOnGrid(exitPrice.value, i.entry, i.quantity, o.gross);
    }
    if OnGrid(o.costs) {
      GridDifference(o.gross, o.costs);
    }
  }

  ghost predicate ClosesOnGrid(candles: seq<Candle>) {
    forall c :: c in candles ==> OnGrid(c.close)
  }

  lemma CloseFollowsCost(i: PaperInstruction, config: PaperConfig, filledAt: Instant, c: Candle)
    requires PaperSimulator.Sound(i) && OnGrid(c.close)
    ensures GridFollowsCost(CloseAt(i, config, filledAt, c), i.estimatedCosts)
  {
    hide OnGrid, GridFollowsCost, CompletedOutcome;
    CompletedFollowsCost(i, filledAt, Some(c.startedAt), Some(c.close), FORCE_FLAT);
    CompletedFollowsCost(i, filledAt, Some(c.startedAt), Some(i.stop), STOP_HIT);
    CompletedFollowsCost(i, filledAt, Some(c.startedAt), Some(i.target), TARGET_HIT);
  }

  lemma SimulatedFollowsCost(i: PaperInstruction, candles: seq<Candle>, config: PaperConfig)
    requires PaperSimulator.Sound(i) && ClosesOnGrid(candles)
    ensures GridFollowsCost(Simulated(i, candles, config), i.estimatedCosts)
  {
    hide Simulated, OnGrid, CompletedOutcome, Triggers, GridFollowsCost;
    var o := Simulated(i, candles, config);
    SimulationFollowsFirsts(i, candles, config);
    if o.tradeCreated {
      var at := o.entryFillTime.value;
      if o.exitReason == DATA_ENDED {
        CompletedFollowsCost(i, at, None, None, DATA_ENDED);
      } else if o.exitReason == TIME_EXIT {
        var c :| c in candles && o == CompletedOutcome(i, at, Some(c.startedAt), Some(c.close), TIME_EXIT);
        CompletedFollowsCost(i, at, Some(c.startedAt), Some(c.close), TIME_EXIT);
      } else {
        var c :| c in candles && o == CloseAt(i, config, at, c);
        CloseFollowsCost(i, config, at, c);
      }
    } else {
      NoFillFollowsCost(i);
    }
  }

  lemma NoFillFollowsCost(i: PaperInstruction)
    ensures GridFollowsCost(NoFillOutcome(i), i.estimatedCosts)
  {
    ZeroOnGrid();
  }

  lemma RejectionFollowsCost(s: PaperSignal, config: PaperConfig, reason: ExitReason, why: string, cost: real)
    ensures GridFollowsCost(RejectedOutcome(s, config, reason, why), cost)
  {
    ZeroOnGrid();
  }

  lemma LoadedAreStored(inputs: Inputs, s: PaperSignal)
    ensures forall c :: c in CandlesFor(inputs, s) ==>
      s.symbol in inputs.candlesBySymbol && c in inputs.candlesBySymbol[s.symbol]
  {
    var until := if inputs.end.Some? then inputs.end.value else DefaultReplayEnd(s.signalTime);
    var stored := if s.symbol in inputs.candlesBySymbol then inputs.candlesBySymbol[s.symbol] else [];
    FilterMembers(InWindow(s.signalTime, until), stored);
    ByStartSorts(Filter(InWindow(s.signalTime, until), stored));
  }

  /** Stored candles come from six-place columns. */
  ghost predicate SixPlaceCandles(inputs: Inputs) {
    forall symbol :: symbol in inputs.candlesBySymbol ==> ClosesOnGrid(inputs.candlesBySymbol[symbol])
  }

  /** On six-place candles an engine outcome is on the grid exactly when it closes no trade or the cost setting is on
      the grid. */
  lemma EvaluateFollowsCost(inputs: Inputs, s: PaperSignal)
    requires SixPlaceCandles(inputs)
    ensures GridFollowsCost(Evaluate(inputs, s), inputs.config.estimatedCostPerTrade)
  {
    hide OnGrid, Simulated, CandlesFor, GridFollowsCost, BuildInstruction, PaperSimulator.Sound;
    var candles := CandlesFor(inputs, s);
    LoadedAreStored(inputs, s);
    var built := BuildInstruction(s, candles, inputs.config);
    BuiltCarriesCost(s, candles, inputs.config);
    if built.Ok? {
      InstructionsAreSound(s, candles, inputs.config);
      SimulatedFollowsCost(built.value, candles, inputs.config);
    }
  }

  lemma BuiltCarriesCost(s: PaperSignal, candles: seq<Candle>, config: PaperConfig)
    ensures match BuildInstruction(s, candles, config)
            case Ok(i) => i.estimatedCosts == config.estimatedCostPerTrade
            case Err(o) => GridFollowsCost(o, config.estimatedCostPerTrade)
  {
    hide Priced, PlannedRisk, SignalDefect, FirstIndex, OnGrid, GridFollowsCost;
    match BuildInstruction(s, candles, config)
    case Ok(_) =>
    case Err(o) =>
      RejectionFollowsCost(s, config, INVALID_SIGNAL_CONTEXT, o.rejectionReason.value, config.estimatedCostPerTrade);
  }

  lemma DecideFollowsCost(inputs: Inputs, l: Ledger, s: PaperSignal)
    requires SixPlaceCandles(inputs)
    ensures GridFollowsCost(Decide(EnvOf(inputs), l, s), inputs.config.estimatedCostPerTrade)
    ensures WellShaped(Decide(EnvOf(inputs), l, s))
  {
    hide GridFollowsCost, HasTrade, CapReason, Evaluate, WellShaped, Shaped;
    var env, cost := EnvOf(inputs), inputs.config.estimatedCostPerTrade;
    EnvIsShaped(inputs);
    DecideShape(env, l, s);
    EvaluateFollowsCost(inputs, s);
    RejectionFollowsCost(s, env.config, DUPLICATE_SIGNAL, "duplicate_signal", cost);
    if CapReason(env, l, s).Some? {
      RejectionFollowsCost(s, env.config, MODE_DISABLED, CapReason(env, l, s).value, cost);
    }
  }

  // ----- a whole replay

  function ClosedCount(outcomes: seq<Outcome>): nat {
    if outcomes == [] then 0
    else ClosedCount(outcomes[..|outcomes| - 1]) + (if outcomes[|outcomes| - 1].exitPrice.Some? then 1 else 0)
  }

  lemma {:induction false} NothingClosed(outcomes: seq<Outcome>)
    ensures ClosedCount(outcomes) == 0 <==> forall k :: 0 <= k < |outcomes| ==> outcomes[k].exitPrice.None?
  {
    if outcomes != [] {
      NothingClosed(outcomes[..|outcomes| - 1]);
    }
  }

  /** How far the journal's costs run ahead of the trades' costs. */
  function Drift(l: Ledger): real {
    SumRows(l.journal).costs - SumTrades(l.trades).costs
  }

  lemma WriteDrifts(l: Ledger, id: int, o: Outcome, cost: real)
    requires WellShaped(o) && GridFollowsCost(o, cost)
    ensures Drift(Written(l, id, o)) == Drift(l) + (if o.exitPrice.Some? then Money(cost) - cost else 0.0)
  {
    hide OnGrid, SumRows, SumTrades, Money;
    SumsAppend(l, o, id);
    WrittenParts(l, id, o);
    ZeroOnGrid();
    MoneyFixesExactlyGrid(0.0);
  }

  lemma ReplayLast(env: Env, l: Ledger, sigs: seq<PaperSignal>)
    requires sigs != []
    ensures var (before, outcomes) := Replay(env, l, sigs[..|sigs| - 1]);
      var s := sigs[|sigs| - 1];
      var o := Decide(env, before, s);
      Replay(env, l, sigs) == (Written(before, s.id, o), outcomes + [o])
  {
    hide Written, Decide;
  }

  lemma ClosedAppend(outcomes: seq<Outcome>, o: Outcome)
    ensures ClosedCount(outcomes + [o]) == ClosedCount(outcomes) + (if o.exitPrice.Some? then 1 else 0)
  {
    assert (outcomes + [o])[..|outcomes|] == outcomes;
  }

  /** Each closed trade moves the two cost totals apart by the same amount. */
  lemma {:induction false} ReplayDrifts(inputs: Inputs, l: Ledger, sigs: seq<PaperSignal>, step: real, total: real)
    requires SixPlaceCandles(inputs)
    requires step == Money(inputs.config.estimatedCostPerTrade) - inputs.config.estimatedCostPerTrade
    requires total == step * ClosedCount(Replay(EnvOf(inputs), l, sigs).1) as real
    ensures Drift(Replay(EnvOf(inputs), l, sigs).0) == Drift(l) + total
  {
    hide Drift, Replay, SixPlaceCandles, Decide, Written, Money, ClosedCount, GridFollowsCost, WellShaped;
    var env := EnvOf(inputs);
    if sigs == [] {
      ReplayNothing(env, l, sigs);
    } else {
      var n := |sigs| - 1;
      var (before, outcomes) := Replay(env, l, sigs[..n]);
      var o := Decide(env, before, sigs[n]);
      ReplayLast(env, l, sigs);
      DecideFollowsCost(inputs, before, sigs[n]);
      ClosedAppend(outcomes, o);
      WriteDrifts(before, sigs[n].id, o, inputs.config.estimatedCostPerTrade);
      ReplayDrifts(inputs, l, sigs[..n], step, step * ClosedCount(outcomes) as real);
      OneMoreStep(step, ClosedCount(outcomes));
    }
  }

  lemma OneMoreStep(step: real, k: nat)
    ensures step * (k + 1) as real == step * k as real + step
  {
  }

  lemma ReplayNothing(env: Env, l: Ledger, sigs: seq<PaperSignal>)
    requires sigs == []
    ensures Replay(env, l, sigs) == (l, []) && ClosedCount(Replay(env, l, sigs).1) == 0
  {
  }

  lemma {:induction false} GridReplayReconciles(inputs: Inputs, l: Ledger, sigs: seq<PaperSignal>)
    requires SixPlaceCandles(inputs) && Consistent(l)
    requires OnGrid(inputs.config.estimatedCostPerTrade) || ClosedCount(Replay(EnvOf(inputs), l, sigs).1) == 0
    ensures Consistent(Replay(EnvOf(inputs), l, sigs).0)
  {
    hide Consistent, Replay, SixPlaceCandles, Decide, Written, ClosedCount, OnGrid, OnGrids, WellShaped;
    var env := EnvOf(inputs);
    if sigs == [] {
      ReplayNothing(env, l, sigs);
    } else {
      var n := |sigs| - 1;
      var (before, outcomes) := Replay(env, l, sigs[..n]);
      var o := Decide(env, before, sigs[n]);
      ReplayLast(env, l, sigs);
      ClosedAppend(outcomes, o);
      GridReplayReconciles(inputs, l, sigs[..n]);
      DecideFollowsCost(inputs, before, sigs[n]);
      WriteReconcilesIff(before, sigs[n].id, o);
    }
  }

  lemma NoDriftNoStep(step: real, k: nat, total: real)
    requires total == step * k as real && total == 0.0 && k > 0
    ensures step == 0.0
  {
  }

  /** RECONCILIATION, EXACTLY. On six-place candles a replay of a reconciled ledger ends reconciled to the last digit
      if and only if the cost setting is on the six-place grid or the replay closed no trade. */
  lemma ReplayReconcilesIff(inputs: Inputs, l: Ledger, sigs: seq<PaperSignal>)
    requires SixPlaceCandles(inputs) && Consistent(l)
    ensures var (after, outcomes) := Replay(EnvOf(inputs), l, sigs);
      Consistent(after)
      <==> (OnGrid(inputs.config.estimatedCostPerTrade)
            || forall k :: 0 <= k < |outcomes| ==> outcomes[k].exitPrice.None?)
  {
    hide Replay, SixPlaceCandles, SumRows, SumTrades, ClosedCount, OnGrid, Money;
    var cost := inputs.config.estimatedCostPerTrade;
    var (after, outcomes) := Replay(EnvOf(inputs), l, sigs);
    NothingClosed(outcomes);
    MoneyFixesExactlyGrid(cost);
    if OnGrid(cost) || ClosedCount(outcomes) == 0 {
      GridReplayReconciles(inputs, l, sigs);
    } else if Consistent(after) {
      var step := Money(cost) - cost;
      var total := step * ClosedCount(outcomes) as real;
      ReplayDrifts(inputs, l, sigs, step, total);
      NoDriftNoStep(step, ClosedCount(outcomes), total);
    }
  }

  // ----- a replay that does not reconcile

  const FLAT_INPUTS: Inputs := FlatInputs(5, 1, 0.0000005)

  lemma HalfUnitIsOffGrid()
    ensures !OnGrid(0.0000005)
  {
    MoneyFixesExactlyGrid(0.0000005);
    assert HalfEven(0.5) == 0;
  }

  lemma FlatPricesOnGrid()
    ensures SixPlaceCandles(FLAT_INPUTS)
  {
    assert IsUnits(100.0, 100000000);
  }

  /** Off the grid the promise fails: a signal replayed over a flat day closes a break-even trade, and with a cost of
      half a millionth, which the journal writes as zero, the ledger no longer reconciles. */
  lemma OffGridCostBreaksReconciliation()
    ensures !Consistent(Replay(EnvOf(FLAT_INPUTS), EMPTY, [LongSignal(1)]).0)
  {
    hide Evaluate, Consistent, Written, SixPlaceCandles, OnGrid;
    var env, s := EnvOf(FLAT_INPUTS), LongSignal(1);
    ReplayNothing(env, EMPTY, []);
    ReplayLast(env, EMPTY, [s]);
    assert [s][..0] == [];
    assert CountDay([], DayIds(env.signals, 0)) == 0;
    assert Decide(env, EMPTY, s) == Evaluate(FLAT_INPUTS, s);
    FlatDayCloses(5, 1, 0.0000005, 1);
    FlatPricesOnGrid();
    HalfUnitIsOffGrid();
    EmptyReconciles();
    ReplayReconcilesIff(FLAT_INPUTS, EMPTY, [s]);
    assert Replay(env, EMPTY, [s]).1[0].exitPrice.Some?;
  }

  lemma EmptyReconciles()
    ensures Consistent(EMPTY)
  {
  }
}

/** Journal reports. */
module PaperReport {
  import opened Options
  import opened Rounding
  import opened PaperTypes
  import opened PaperLedger
  import opened PaperReplay
  import opened PaperEvaluation
  import opened PaperReconciliation

  /** A journal payload as listed: the row and the verdict of the signal's latest model decision. */
  datatype Listed = Listed(row: JournalRow, verdict: Option<string>)

  datatype Report = Report(
    outcomes: nat, simulated: nat, entryAttempts: nat, noFills: nat, filledTrades: nat, rejections: nat,
    decisionCoverage: nat, verdictCounts: map<string, nat>, totals: Amounts, exitCounts: map<ExitReason, nat>)

  function Reversed<T>(s: seq<T>): seq<T> {
    if s == [] then [] else [s[|s| - 1]] + Reversed(s[..|s| - 1])
  }

  function VerdictOf(decisions: map<int, string>, signalId: int): Option<string> {
    if signalId in decisions then Some(decisions[signalId]) else None
  }

  function Attach(rows: seq<JournalRow>, decisions: map<int, string>): seq<Listed> {
    if rows == [] then []
    else
      var last := rows[|rows| - 1];
      Attach(rows[..|rows| - 1], decisions) + [Listed(last, VerdictOf(decisions, last.signalId))]
  }

  /** The most recent `limit` payloads, newest first. */
  function ListOutcomes(journal: seq<JournalRow>, decisions: map<int, string>, limit: nat): seq<Listed> {
    Attach(Reversed(if |journal| <= limit then journal else journal[|journal| - limit..]), decisions)
  }

  function RowsOf(listed: seq<Listed>): seq<JournalRow> {
    if listed == [] then [] else RowsOf(listed[..|listed| - 1]) + [listed[|listed| - 1].row]
  }

  function CountWhere(p: Listed -> bool, listed: seq<Listed>): nat {
    if listed == [] then 0
    else CountWhere(p, listed[..|listed| - 1]) + (if p(listed[|listed| - 1]) then 1 else 0)
  }

  function WithReason(reason: ExitReason): Listed -> bool {
    (x: Listed) => x.row.exitReason == reason
  }

  function WithStatus(status: EntryStatus): Listed -> bool {
    (x: Listed) => x.row.entryStatus == status
  }

  /** A decision without a verdict counts as unknown. */
  function WithVerdict(verdict: string): Listed -> bool {
    (x: Listed) => x.verdict.Some? && VerdictName(x.verdict.value) == verdict
  }

  function VerdictName(verdict: string): string {
    if verdict == "" then "UNKNOWN" else verdict
  }

  predicate IsRejected(x: Listed) {
    x.row.rejectionReason.Some?
  }

  predicate IsDecided(x: Listed) {
    x.verdict.Some?
  }

  predicate IsSimulated(x: Listed) {
    x.row.simulated
  }

  function Tally<K>(counts: map<K, nat>, key: K): nat {
    if key in counts then counts[key] else 0
  }

  function Counted<K>(counts: map<K, nat>, key: K): map<K, nat> {
    counts[key := Tally(counts, key) + 1]
  }

  /** One loop over the payloads, in the source's order of fields. */
  method BuildPaperReport(listed: seq<Listed>) returns (r: Report)
    ensures r.outcomes == |listed|
    ensures r.simulated == CountWhere(IsSimulated, listed)
    ensures r.noFills == CountWhere(WithStatus(EntryNoFill), listed)
    ensures r.filledTrades == CountWhere(WithStatus(EntryFilled), listed)
    ensures r.entryAttempts == r.noFills + r.filledTrades
    ensures r.rejections == CountWhere(IsRejected, listed)
    ensures r.decisionCoverage == CountWhere(IsDecided, listed)
    ensures forall verdict :: Tally(r.verdictCounts, verdict) == CountWhere(WithVerdict(verdict), listed)
    ensures r.totals == Published(SumRows(RowsOf(listed)))
    ensures forall reason :: Tally(r.exitCounts, reason) == CountWhere(WithReason(reason), listed)
  {
    hide Money, SumRows, RowsOf, CountWhere, Tally;
    var exitCounts: map<ExitReason, nat> := map[];
    var verdictCounts: map<string, nat> := map[];
    var totals := ZERO;
    var simulated, entryAttempts, noFills, filledTrades, rejections, coverage := 0, 0, 0, 0, 0, 0;
    NothingCounted(listed);
    NothingTallied(exitCounts);
    NothingTallied(verdictCounts);
    for k := 0 to |listed|
      invariant simulated == CountWhere(IsSimulated, listed[..k])
      invariant noFills == CountWhere(WithStatus(EntryNoFill), listed[..k])
      invariant filledTrades == CountWhere(WithStatus(EntryFilled), listed[..k])
      invariant entryAttempts == noFills + filledTrades
      invariant rejections == CountWhere(IsRejected, listed[..k])
      invariant coverage == CountWhere(IsDecided, listed[..k])
      invariant forall verdict :: Tally(verdictCounts, verdict) == CountWhere(WithVerdict(verdict), listed[..k])
      invariant totals == SumRows(RowsOf(listed[..k]))
      invariant forall reason :: Tally(exitCounts, reason) == CountWhere(WithReason(reason), listed[..k])
    {
      var row := listed[k].row;
      forall p: Listed -> bool
        ensures CountWhere(p, listed[..k + 1]) == CountWhere(p, listed[..k]) + (if p(listed[k]) then 1 else 0)
      {
        CountsOneMore(p, listed, k);
      }
      SumsOneMore(listed, k);
      CountedOneMore(exitCounts, row.exitReason);
      if row.simulated { simulated := simulated + 1; }
      exitCounts := Counted(exitCounts, row.exitReason);
      totals := Plus(totals, Amounts(row.gross, row.costs, row.net));
      if row.entryStatus != NotCreated { entryAttempts := entryAttempts + 1; }
      if row.entryStatus == EntryNoFill { noFills := noFills + 1; }
      if row.entryStatus == EntryFilled { filledTrades := filledTrades + 1; }
      if row.rejectionReason.Some? { rejections := rejections + 1; }
      if listed[k].verdict.Some? {
        coverage := coverage + 1;
        CountedOneMore(verdictCounts, VerdictName(listed[k].verdict.value));
        verdictCounts := Counted(verdictCounts, VerdictName(listed[k].verdict.value));
      }
    }
    assert listed[..|listed|] == listed;
    r := Report(
      |listed|, simulated, entryAttempts, noFills, filledTrades, rejections, coverage, verdictCounts,
      Published(totals), exitCounts);
  }

  lemma NothingCounted(listed: seq<Listed>)
    ensures forall p: Listed -> bool :: CountWhere(p, listed[..0]) == 0
    ensures SumRows(RowsOf(listed[..0])) == ZERO
  {
  }

  lemma NothingTallied<K>(counts: map<K, nat>)
    requires counts == map[]
    ensures forall key :: Tally(counts, key) == 0
  {
  }

  lemma CountedOneMore<K>(counts: map<K, nat>, key: K)
    ensures forall other ::
      Tally(Counted(counts, key), other) == (if other == key then Tally(counts, other) + 1 else Tally(counts, other))
  {
  }

  lemma CountsOneMore(p: Listed -> bool, listed: seq<Listed>, k: nat)
    requires k < |listed|
    ensures CountWhere(p, listed[..k + 1]) == CountWhere(p, listed[..k]) + (if p(listed[k]) then 1 else 0)
  {
    assert listed[..k + 1][..k] == listed[..k];
  }

  lemma SumsOneMore(listed: seq<Listed>, k: nat)
    requires k < |listed|
    ensures var row := listed[k].row;
      SumRows(RowsOf(listed[..k + 1])) == Plus(SumRows(RowsOf(listed[..k])), Amounts(row.gross, row.costs, row.net))
  {
    assert listed[..k + 1][..k] == listed[..k];
    var rows := RowsOf(listed[..k]);
    assert (rows + [listed[k].row])[..|rows|] == rows;
  }

  /** Every outcome has one exit reason: the counts of a report add up to its outcomes. */
  lemma {:induction false} ExitCountsCoverOutcomes(listed: seq<Listed>)
    ensures CountWhere(WithReason(NO_FILL), listed) + CountWhere(WithReason(STOP_HIT), listed)
          + CountWhere(WithReason(TARGET_HIT), listed) + CountWhere(WithReason(TIME_EXIT), listed)
          + CountWhere(WithReason(FORCE_FLAT), listed) + CountWhere(WithReason(DATA_ENDED), listed)
          + CountWhere(WithReason(INVALID_SIGNAL_CONTEXT), listed) + CountWhere(WithReason(DUPLICATE_SIGNAL), listed)
          + CountWhere(WithReason(MODE_DISABLED), listed) + CountWhere(WithReason(LIVE_NOT_IMPLEMENTED), listed)
         == |listed|
  {
    if listed != [] {
      ExitCountsCoverOutcomes(listed[..|listed| - 1]);
    }
  }

  // ----- totals

  lemma PlusAssociates(a: Amounts, b: Amounts, c: Amounts)
    ensures Plus(Plus(a, b), c) == Plus(a, Plus(b, c))
  {
  }

  lemma {:induction false} SumRowsAppend(a: seq<JournalRow>, b: seq<JournalRow>)
    ensures SumRows(a + b) == Plus(SumRows(a), SumRows(b))
  {
    if b == [] {
      assert a + b == a;
    } else {
      hide Plus;
      var n := |b| - 1;
      var last := Amounts(b[n].gross, b[n].costs, b[n].net);
      SumRowsAppend(a, b[..n]);
      assert (a + b)[..|a| + n] == a + b[..n];
      PlusAssociates(SumRows(a), SumRows(b[..n]), last);
    }
  }

  lemma PlusCommutes(a: Amounts, b: Amounts)
    ensures Plus(a, b) == Plus(b, a)
  {
  }

  lemma {:induction false} SumRowsReversed(rows: seq<JournalRow>)
    ensures SumRows(Reversed(rows)) == SumRows(rows)
  {
    if rows != [] {
      var n := |rows| - 1;
      SumRowsReversed(rows[..n]);
      SumRowsAppend([rows[n]], Reversed(rows[..n]));
      assert [rows[n]][..0] == [];
      PlusCommutes(SumRows([rows[n]]), SumRows(rows[..n]));
    }
  }

  lemma {:induction false} AttachKeepsRows(rows: seq<JournalRow>, decisions: map<int, string>)
    ensures RowsOf(Attach(rows, decisions)) == rows
  {
    if rows != [] {
      AttachKeepsRows(rows[..|rows| - 1], decisions);
      var before := Attach(rows[..|rows| - 1], decisions);
      assert Attach(rows, decisions)[..|before|] == before;
      assert rows == rows[..|rows| - 1] + [rows[|rows| - 1]];
    }
  }

  lemma {:induction false} ReversedLength<T>(values: seq<T>)
    ensures |Reversed(values)| == |values|
  {
    if values != [] {
      ReversedLength(values[..|values| - 1]);
    }
  }

  lemma {:induction false} AttachLength(rows: seq<JournalRow>, decisions: map<int, string>)
    ensures |Attach(rows, decisions)| == |rows|
  {
    if rows != [] {
      AttachLength(rows[..|rows| - 1], decisions);
    }
  }

  lemma ListedLength(journal: seq<JournalRow>, decisions: map<int, string>, limit: nat)
    ensures |ListOutcomes(journal, decisions, limit)| == if |journal| <= limit then |journal| else limit
  {
    var rows := if |journal| <= limit then journal else journal[|journal| - limit..];
    ReversedLength(rows);
    AttachLength(Reversed(rows), decisions);
  }

  /** Journal amounts as they are written. */
  ghost predicate SixPlaceJournal(journal: seq<JournalRow>) {
    forall i :: 0 <= i < |journal| ==> OnGrids(Amounts(journal[i].gross, journal[i].costs, journal[i].net))
  }

  lemma WritesSixPlaces(l: Ledger, id: int, o: Outcome)
    requires SixPlaceJournal(l.journal)
    ensures SixPlaceJournal(Written(l, id, o).journal)
  {
    hide Money, OnGrid;
    MoneyOnGrid(o.gross);
    MoneyOnGrid(o.costs);
    MoneyOnGrid(o.net);
    WrittenParts(l, id, o);
  }

  lemma {:induction false} ReplayWritesSixPlaces(env: Env, l: Ledger, sigs: seq<PaperSignal>)
    requires SixPlaceJournal(l.journal)
    ensures SixPlaceJournal(Replay(env, l, sigs).0.journal)
  {
    hide Written, Decide, SixPlaceJournal;
    if sigs != [] {
      var n := |sigs| - 1;
      ReplayWritesSixPlaces(env, l, sigs[..n]);
      ReplayLast(env, l, sigs);
      var before := Replay(env, l, sigs[..n]).0;
      WritesSixPlaces(before, sigs[n].id, Decide(env, before, sigs[n]));
    }
  }

  lemma PlusOnGrid(a: Amounts, b: Amounts)
    requires OnGrids(a) && OnGrids(b)
    ensures OnGrids(Plus(a, b))
  {
    hide OnGrid;
    GridSum(a.gross, b.gross);
    GridSum(a.costs, b.costs);
    GridSum(a.net, b.net);
  }

  lemma {:induction false} SumRowsOnGrid(rows: seq<JournalRow>)
    requires SixPlaceJournal(rows)
    ensures OnGrids(SumRows(rows))
  {
    if rows == [] {
      ZeroOnGrid();
    } else {
      hide OnGrids, Plus;
      var n := |rows| - 1;
      SumRowsOnGrid(rows[..n]);
      PlusOnGrid(SumRows(rows[..n]), Amounts(rows[n].gross, rows[n].costs, rows[n].net));
    }
  }

  /** `max(1, min(limit, 10_000))`. */
  function ReportLimit(limit: int): (bounded: nat)
    ensures 1 <= bounded <= 10_000
    ensures 1 <= limit <= 10_000 ==> bounded == limit
  {
    if limit < 1 then 1 else if limit > 10_000 then 10_000 else limit
  }

  /** The published totals over a six-place journal that fits are its exact sums: publishing rounds nothing. */
  lemma PublishedTotalsAreExact(journal: seq<JournalRow>, decisions: map<int, string>, limit: nat)
    requires SixPlaceJournal(journal) && |journal| <= limit
    ensures Published(SumRows(RowsOf(ListOutcomes(journal, decisions, limit)))) == SumRows(journal)
  {
    hide OnGrids, Published;
    AttachKeepsRows(Reversed(journal), decisions);
    SumRowsReversed(journal);
    SumRowsOnGrid(journal);
    PublishedFixesExactlyGrid(SumRows(journal));
  }

  /** What the published totals of a report promise: the trades' totals, and net equal to gross minus costs. */
  predicate ShowsLedger(totals: Amounts, trades: seq<Trade>) {
    totals == SumTrades(trades) && totals.net == totals.gross - totals.costs
  }

  /** REPORT EQUALS LEDGER, from stored candles to the published figures: after a replay on a reconciled six-place
      ledger, the report over the whole journal publishes exactly the trades' totals, with net equal to gross minus
      costs, if and only if the cost setting is on the six-place grid or the replay closed no trade. */
  lemma ReportShowsLedgerIff(
    inputs: Inputs, l: Ledger, sigs: seq<PaperSignal>, decisions: map<int, string>, limit: nat)
    requires SixPlaceCandles(inputs) && Consistent(l) && SixPlaceJournal(l.journal)
    requires |Replay(EnvOf(inputs), l, sigs).0.journal| <= limit
    ensures var (after, outcomes) := Replay(EnvOf(inputs), l, sigs);
      ShowsLedger(Published(SumRows(RowsOf(ListOutcomes(after.journal, decisions, limit)))), after.trades)
      <==> (OnGrid(inputs.config.estimatedCostPerTrade)
            || forall k :: 0 <= k < |outcomes| ==> outcomes[k].exitPrice.None?)
  {
    hide Replay, SixPlaceCandles, SixPlaceJournal, OnGrid, Published, ListOutcomes, RowsOf, SumRows, SumTrades;
    var after := Replay(EnvOf(inputs), l, sigs).0;
    ReplayReconcilesIff(inputs, l, sigs);
    ReplayWritesSixPlaces(EnvOf(inputs), l, sigs);
    PublishedTotalsAreExact(after.journal, decisions, limit);
  }
}
