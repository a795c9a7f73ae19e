// The in-memory paper repository and the service that replays signals against it.

module PaperEngine {
  import opened Options
  import opened MarketClock
  import opened Candles
  import opened PaperTypes
  import opened PaperSimulator
  import opened PaperLedger
  import opened PaperReplay
  import opened PaperEvaluation
  import PaperReconciliation
  import PaperReport

  class PaperRepository {
    const signals: seq<PaperSignal>
    const candlesBySymbol: map<string, seq<Candle>>
    var orders: seq<Order>
    var orderEvents: seq<OrderEvent>
    var trades: seq<Trade>
    var journal: seq<JournalRow>

    ghost function View(): Ledger
      reads this
    {
      Ledger(orders, orderEvents, trades, journal)
    }

    constructor (signals: seq<PaperSignal>, candlesBySymbol: map<string, seq<Candle>>)
      ensures View() == EMPTY
      ensures this.signals == signals && this.candlesBySymbol == candlesBySymbol
    {
      this.signals, this.candlesBySymbol := signals, candlesBySymbol;
      orders, orderEvents, trades, journal := [], [], [], [];
    }

    method PaperTradeExists(signalId: int) returns (exists_: bool)
      ensures exists_ == HasTrade(View(), signalId)
    {
      for i := 0 to |trades|
        invariant forall j :: 0 <= j < i ==> trades[j].signalId != signalId
      {
        if trades[i].signalId == signalId {
          return true;
        }
      }
      exists_ := false;
    }

    method CountPaperTradesForDay(signalTime: Instant) returns (count: nat)
      ensures count == CountDay(trades, DayIds(signals, IstDate(signalTime)))
    {
      var ids := DayIds(signals, IstDate(signalTime));
      count := 0;
      for i := 0 to |trades|
        invariant count == CountDay(trades[..i], ids)
      {
        assert trades[..i + 1][..i] == trades[..i];
        if trades[i].signalId in ids {
          count := count + 1;
        }
      }
      assert trades[..|trades|] == trades;
    }

    method AppendOrder(order: Order)
      modifies this`orders, this`orderEvents
      ensures orders == old(orders) + [order]
      ensures orderEvents == old(orderEvents) + [OrderEvent(order.id, order.status)]
    {
      orders := orders + [order];
      orderEvents := orderEvents + [OrderEvent(order.id, order.status)];
    }

    /** Writes the order attempt, the trade and the journal row of an outcome; a second trade for a signal
        is refused before anything is written. */
    method RecordPaperOutcome(signalId: int, outcome: Outcome) returns (r: Result<(), Duplicate>)
      modifies this
      ensures match Record(old(View()), signalId, outcome)
              case Ok(after) => r == Ok(()) && View() == after
              case Err(e) => r == Err(e) && View() == old(View())
    {
      if outcome.tradeCreated {
        var taken := PaperTradeExists(signalId);
        if taken {
          return Err(DuplicatePaperTrade);
        }
      }
      ghost var l := View();
      if HasEntryAttempt(outcome) {
        var entryOrderId := |orders| + 1;
        AppendOrder(Order(
          entryOrderId, signalId, BUY, outcome.quantity, outcome.entryReferencePrice, EntryOrderStatus(outcome)));
        if outcome.tradeCreated {
          var exitOrderId: Option<int> := None;
          if HasExit(outcome) {
            exitOrderId := Some(|orders| + 1);
            AppendOrder(Order(
              |orders| + 1, signalId, SELL, outcome.quantity, outcome.exitPrice, PAPER_EXIT_FILLED));
          }
          trades := trades + [Trade(
            |trades| + 1, signalId, entryOrderId, exitOrderId, outcome.quantity,
            outcome.entryFillPrice, outcome.exitPrice, outcome.exitReason,
            outcome.gross, outcome.costs, outcome.net)];
        }
      }
      journal := journal + [RowOf(outcome)];
      r := Ok(());
      EventsAreWritten(l, signalId, outcome);
    }
  }

  lemma EventsAreWritten(l: Ledger, signalId: int, o: Outcome)
    ensures var entry, exit := EntryOrders(l, signalId, o), ExitOrders(l, signalId, o);
      EventsOf(entry + exit)
      == (if entry == [] then [] else [OrderEvent(entry[0].id, entry[0].status)])
         + (if exit == [] then [] else [OrderEvent(exit[0].id, exit[0].status)])
  {
    var entry, exit := EntryOrders(l, signalId, o), ExitOrders(l, signalId, o);
    if entry != [] {
      assert entry[..0] == [];
      assert EventsOf(entry) == [OrderEvent(entry[0].id, entry[0].status)];
      if exit != [] {
        assert (entry + exit)[..1] == entry;
      } else {
        assert entry + exit == entry;
      }
    }
  }

  /** Why a replay is refused outright. */
  datatype Refusal = LiveModeNotImplemented | PaperDisabled | PaperModeDisabled

  function ReplayRefusal(config: PaperConfig): Option<Refusal> {
    if config.mode == LIVE then Some(LiveModeNotImplemented)
    else if !config.enabled then Some(PaperDisabled)
    else if config.mode in {OFF, SHADOW} then Some(PaperModeDisabled)
    else None
  }

  /** `max(1, min(limit, 500))`. */
  function BoundedLimit(limit: int): (bounded: nat)
    ensures 1 <= bounded <= 500
    ensures 1 <= limit <= 500 ==> bounded == limit
    ensures limit <= 0 ==> bounded == 1
    ensures limit > 500 ==> bounded == 500
  {
    if limit < 1 then 1 else if limit > 500 then 500 else limit
  }

  datatype Summary = Summary(signalsLoaded: nat, outcomes: seq<Outcome>)

  class PaperService {
    const config: PaperConfig
    const repository: PaperRepository

    constructor (config: PaperConfig, repository: PaperRepository)
      ensures this.config == config && this.repository == repository
    {
      this.config, this.repository := config, repository;
    }

    ghost function InputsFor(end: Option<Instant>): Inputs {
      Inputs(config, repository.signals, repository.candlesBySymbol, end)
    }

    method DuplicateOutcomeIfExists(signal: PaperSignal, ghost env: Env) returns (outcome: Option<Outcome>)
      requires env.config == config && env.signals == repository.signals
      modifies repository
      ensures outcome.Some? <==> HasTrade(old(repository.View()), signal.id)
      ensures outcome.None? ==> repository.View() == old(repository.View())
      ensures outcome.Some? ==>
        (repository.View(), outcome.value) == StepReplay(env, old(repository.View()), signal)
    {
      var exists_ := repository.PaperTradeExists(signal.id);
      if !exists_ {
        return None;
      }
      var rejected := RejectedOutcome(signal, config, DUPLICATE_SIGNAL, "duplicate_signal");
      var _ := repository.RecordPaperOutcome(signal.id, rejected);
      outcome := Some(rejected);
    }

    method DailyCapOutcomeIfReached(signal: PaperSignal, ghost env: Env) returns (outcome: Option<Outcome>)
      requires env.config == config && env.signals == repository.signals
      requires !HasTrade(repository.View(), signal.id)
      modifies repository
      ensures outcome.Some? <==> CapReason(env, old(repository.View()), signal).Some?
      ensures outcome.None? ==> repository.View() == old(repository.View())
      ensures outcome.Some? ==>
        (repository.View(), outcome.value) == StepReplay(env, old(repository.View()), signal)
    {
      var why := "paper_max_trades_per_day_invalid";
      if config.maxTradesPerDay >= 1 {
        var count := repository.CountPaperTradesForDay(signal.signalTime);
        if count < config.maxTradesPerDay {
          return None;
        }
        why := "paper_max_trades_per_day_reached";
      }
      var rejected := RejectedOutcome(signal, config, MODE_DISABLED, why);
      var _ := repository.RecordPaperOutcome(signal.id, rejected);
      outcome := Some(rejected);
    }

    /** The outcome of simulating a signal over the stored candles. */
    method EvaluateSignal(signal: PaperSignal, end: Option<Instant>) returns (outcome: Outcome)
      ensures outcome == Evaluate(InputsFor(end), signal)
    {
      var until := if end.Some? then end.value else DefaultReplayEnd(signal.signalTime);
      var candles := LoadedCandles(
        repository.candlesBySymbol, signal.symbol, signal.signalTime, until, CANDLE_LIMIT);
      match BuildInstruction(signal, candles, config) {
        case Ok(instruction) => outcome := Simulate(instruction, candles, config);
        case Err(rejection) => outcome := rejection;
      }
    }

    /** One signal: duplicate check, cap check, simulation, record. */
    method ReplaySignal(signal: PaperSignal, end: Option<Instant>) returns (outcome: Outcome)
      modifies repository
      ensures (repository.View(), outcome)
           == StepReplay(EnvOf(InputsFor(end)), old(repository.View()), signal)
    {
      ghost var env := EnvOf(InputsFor(end));
      ghost var l := repository.View();
      var duplicate := DuplicateOutcomeIfExists(signal, env);
      if duplicate.Some? {
        return duplicate.value;
      }
      var capped := DailyCapOutcomeIfReached(signal, env);
      if capped.Some? {
        return capped.value;
      }
      outcome := EvaluateSignal(signal, end);
      assert outcome == Decide(env, l, signal);
      var recorded := repository.RecordPaperOutcome(signal.id, outcome);
      // Without interruption since the duplicate check the store cannot refuse; the refusal and the
      // rejection it leads to are modelled where replays interleave.
      assert recorded.Ok?;
    }

    /** A whole replay, run without interruption, is the replay function on the loaded signals. */
    method RunReplay(symbol: Option<string>, start: Option<Instant>, end: Option<Instant>, limit: int)
      returns (r: Result<Summary, Refusal>)
      modifies repository
      ensures ReplayRefusal(config).Some? ==>
        r == Err(ReplayRefusal(config).value) && repository.View() == old(repository.View())
      ensures ReplayRefusal(config).None? ==>
        var sigs := Candidates(repository.signals, symbol, start, end, BoundedLimit(limit));
        && r.Ok? && r.value.signalsLoaded == |sigs|
        && (repository.View(), r.value.outcomes) == Replay(EnvOf(InputsFor(end)), old(repository.View()), sigs)
    {
      var refusal := ReplayRefusal(config);
      if refusal.Some? {
        return Err(refusal.value);
      }
      var sigs := Candidates(repository.signals, symbol, start, end, BoundedLimit(limit));
      var outcomes: seq<Outcome> := [];
      ghost var env := EnvOf(InputsFor(end));
      ghost var l := repository.View();
      for k := 0 to |sigs|
        invariant (repository.View(), outcomes) == Replay(env, l, sigs[..k])
      {
        var outcome := ReplaySignal(sigs[k], end);
        outcomes := outcomes + [outcome];
        ReplayPrefix(env, l, sigs, k);
      }
      assert sigs[..|sigs|] == sigs;
      r := Ok(Summary(|sigs|, outcomes));
    }

    /** The report of the journal. When the whole journal fits, its published totals are the ledger's, net equal to
        gross minus costs, exactly when the ledger reconciles. */
    method Report(decisions: map<int, string>, limit: int) returns (r: PaperReport.Report)
      ensures r.outcomes == if |repository.journal| <= PaperReport.ReportLimit(limit) then |repository.journal|
                            else PaperReport.ReportLimit(limit)
      ensures var whole := |repository.journal| <= PaperReport.ReportLimit(limit);
        whole && PaperReport.SixPlaceJournal(repository.journal) ==>
          (PaperReport.ShowsLedger(r.totals, repository.trades) <==> PaperReconciliation.Consistent(repository.View()))
    {
      hide PaperReconciliation.Published, PaperReconciliation.SumRows, PaperReconciliation.SumTrades;
      hide PaperReport.ListOutcomes, PaperReport.RowsOf, PaperReport.SixPlaceJournal;
      var bounded := PaperReport.ReportLimit(limit);
      PaperReport.ListedLength(repository.journal, decisions, bounded);
      r := PaperReport.BuildPaperReport(PaperReport.ListOutcomes(repository.journal, decisions, bounded));
      if PaperReport.SixPlaceJournal(repository.journal) && |repository.journal| <= bounded {
        PaperReport.PublishedTotalsAreExact(repository.journal, decisions, bounded);
      }
    }
  }
}
