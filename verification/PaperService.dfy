// The paper replay: which signals are loaded, what each one leads to, and what a whole replay leaves in the
// ledger.

module PaperReplay {
  import opened Options
  import opened MarketClock
  import opened Collections
  import opened Ordering
  import opened PaperTypes
  import opened PaperLedger

  /** Everything a replay reads and never writes; `evaluate` is what the engine makes of a signal that is
      neither a duplicate nor capped. */
  datatype Env = Env(config: PaperConfig, signals: seq<PaperSignal>, evaluate: PaperSignal -> Outcome)

  ghost predicate Shaped(env: Env) {
    forall s :: WellShaped(env.evaluate(s)) && env.evaluate(s).signalId == s.id
  }

  // ----- loading

  predicate StartsBefore(a: PaperSignal, b: PaperSignal) {
    a.signalTime < b.signalTime || (a.signalTime == b.signalTime && a.id <= b.id)
  }

  function Wanted(symbol: Option<string>, start: Option<Instant>, end: Option<Instant>): PaperSignal -> bool {
    (s: PaperSignal) =>
      && s.signalStatus == "CANDIDATE"
      && (symbol.Some? ==> s.symbol == symbol.value)
      && (start.Some? ==> s.signalTime >= start.value)
      && (end.Some? ==> s.signalTime <= end.value)
  }

  function Candidates(
    signals: seq<PaperSignal>, symbol: Option<string>, start: Option<Instant>, end: Option<Instant>, limit: nat)
    : seq<PaperSignal>
  {
    Take(Sort(StartsBefore, Filter(Wanted(symbol, start, end), signals)), limit)
  }

  // ----- one signal

  function DuplicateOutcome(env: Env, s: PaperSignal): Outcome {
    RejectedOutcome(s, env.config, DUPLICATE_SIGNAL, "duplicate_signal")
  }

  function DayIds(signals: seq<PaperSignal>, date: int): set<int> {
    set s | s in signals && IstDate(s.signalTime) == date :: s.id
  }

  function CountDay(trades: seq<Trade>, ids: set<int>): nat {
    if trades == [] then 0
    else CountDay(trades[..|trades| - 1], ids) + (if trades[|trades| - 1].signalId in ids then 1 else 0)
  }

  function DayCount(env: Env, l: Ledger, date: int): nat {
    CountDay(l.trades, DayIds(env.signals, date))
  }

  /** Why the daily cap stops a signal, if it does. */
  function CapReason(env: Env, l: Ledger, s: PaperSignal): Option<string> {
    if env.config.maxTradesPerDay < 1 then Some("paper_max_trades_per_day_invalid")
    else if DayCount(env, l, IstDate(s.signalTime)) < env.config.maxTradesPerDay then None
    else Some("paper_max_trades_per_day_reached")
  }

  /** The outcome a sequential replay reaches for `s` on ledger `l`. */
  function Decide(env: Env, l: Ledger, s: PaperSignal): Outcome {
    if HasTrade(l, s.id) then DuplicateOutcome(env, s)
    else if CapReason(env, l, s).Some? then
      RejectedOutcome(s, env.config, MODE_DISABLED, CapReason(env, l, s).value)
    else env.evaluate(s)
  }

  function StepReplay(env: Env, l: Ledger, s: PaperSignal): (Ledger, Outcome) {
    (Written(l, s.id, Decide(env, l, s)), Decide(env, l, s))
  }

  function Replay(env: Env, l: Ledger, sigs: seq<PaperSignal>): (Ledger, seq<Outcome>) {
    if sigs == [] then (l, [])
    else
      var (before, outcomes) := Replay(env, l, sigs[..|sigs| - 1]);
      var (after, outcome) := StepReplay(env, before, sigs[|sigs| - 1]);
      (after, outcomes + [outcome])
  }

  lemma DecideShape(env: Env, l: Ledger, s: PaperSignal)
    requires Shaped(env)
    ensures var o := Decide(env, l, s);
      && WellShaped(o) && o.signalId == s.id
      && (o.tradeCreated ==> o == env.evaluate(s) && !HasTrade(l, s.id) && CapReason(env, l, s).None?)
  {
    assert WellShaped(env.evaluate(s)) && env.evaluate(s).signalId == s.id;
  }

  // ----- every replay

  lemma ReplayPrefix(env: Env, l: Ledger, sigs: seq<PaperSignal>, k: nat)
    requires k < |sigs|
    ensures Replay(env, l, sigs[..k + 1]).0 == StepReplay(env, Replay(env, l, sigs[..k]).0, sigs[k]).0
    ensures Replay(env, l, sigs[..k + 1]).1
         == Replay(env, l, sigs[..k]).1 + [StepReplay(env, Replay(env, l, sigs[..k]).0, sigs[k]).1]
  {
    assert sigs[..k + 1][..k] == sigs[..k];
  }

  lemma StepKeepsBooks(env: Env, l: Ledger, s: PaperSignal)
    requires Shaped(env) && Balanced(l)
    ensures var (after, o) := StepReplay(env, l, s);
      && Balanced(after)
      && Record(l, s.id, o) == Ok(after)
      && after.journal == l.journal + [RowOf(o)]
      && WellShaped(o) && o.signalId == s.id
  {
    DecideShape(env, l, s);
    RecordKeepsBalance(l, s.id, Decide(env, l, s));
  }

  ghost predicate OneRowEach(l: Ledger, sigs: seq<PaperSignal>, after: Ledger, outcomes: seq<Outcome>) {
    && |outcomes| == |sigs|
    && |after.journal| == |l.journal| + |sigs|
    && after.journal[..|l.journal|] == l.journal
    && forall k :: 0 <= k < |sigs| ==>
         && WellShaped(outcomes[k]) && outcomes[k].signalId == sigs[k].id
         && after.journal[|l.journal| + k] == RowOf(outcomes[k])
  }

  lemma OneMoreRow(
    l: Ledger, sigs: seq<PaperSignal>, before: Ledger, outcomes: seq<Outcome>, after: Ledger, s: PaperSignal, o: Outcome)
    requires OneRowEach(l, sigs, before, outcomes)
    requires after.journal == before.journal + [RowOf(o)] && WellShaped(o) && o.signalId == s.id
    ensures OneRowEach(l, sigs + [s], after, outcomes + [o])
  {
  }

  ghost predicate BooksKept(l: Ledger, sigs: seq<PaperSignal>, r: (Ledger, seq<Outcome>)) {
    Balanced(r.0) && OneRowEach(l, sigs, r.0, r.1)
  }

  lemma BooksStep(env: Env, l: Ledger, sigs: seq<PaperSignal>, r: (Ledger, seq<Outcome>), s: PaperSignal)
    requires Shaped(env) && BooksKept(l, sigs, r)
    ensures var (after, o) := StepReplay(env, r.0, s); BooksKept(l, sigs + [s], (after, r.1 + [o]))
  {
    var (after, o) := StepReplay(env, r.0, s);
    StepKeepsBooks(env, r.0, s);
    OneMoreRow(l, sigs, r.0, r.1, after, s, o);
  }

  /** From a balanced ledger any sequential replay ends in a balanced ledger, never hits the duplicate guard
      of the store, and appends exactly one outcome and one journal row per signal, in order. */
  lemma {:induction false} ReplayKeepsBooks(env: Env, l: Ledger, sigs: seq<PaperSignal>)
    requires Shaped(env) && Balanced(l)
    ensures BooksKept(l, sigs, Replay(env, l, sigs))
  {
    hide Balanced, StepReplay, WellShaped, Shaped;
    if sigs != [] {
      var n := |sigs| - 1;
      ReplayKeepsBooks(env, l, sigs[..n]);
      BooksStep(env, l, sigs[..n], Replay(env, l, sigs[..n]), sigs[n]);
      assert sigs[..n] + [sigs[n]] == sigs;
    }
  }

  // ----- the daily cap

  ghost predicate UniqueIds(signals: seq<PaperSignal>) {
    forall i, j :: 0 <= i < j < |signals| ==> signals[i].id != signals[j].id
  }

  ghost predicate Within(sigs: seq<PaperSignal>, signals: seq<PaperSignal>) {
    forall s :: s in sigs ==> s in signals
  }

  predicate Fillable(env: Env, s: PaperSignal) {
    env.evaluate(s).tradeCreated
  }

  /** Fillable signals of a day among the first `k`. */
  function FillableBefore(env: Env, sigs: seq<PaperSignal>, k: nat, date: int): nat
    requires k <= |sigs|
  {
    if k == 0 then 0
    else
      FillableBefore(env, sigs, k - 1, date)
      + (if IstDate(sigs[k - 1].signalTime) == date && Fillable(env, sigs[k - 1]) then 1 else 0)
  }

  /** The k-th signal is among the first `maxTradesPerDay` fillable ones of its day. */
  predicate Earns(env: Env, sigs: seq<PaperSignal>, k: nat)
    requires k < |sigs|
  {
    && Fillable(env, sigs[k])
    && FillableBefore(env, sigs, k, IstDate(sigs[k].signalTime)) < env.config.maxTradesPerDay
  }

  function Capped(count: nat, cap: int): nat {
    if cap < 1 then 0 else if count < cap then count else cap
  }

  ghost predicate EarnersTraded(env: Env, sigs: seq<PaperSignal>, k: nat, l: Ledger)
    requires k <= |sigs|
  {
    forall j :: 0 <= j < k ==> (HasTrade(l, sigs[j].id) <==> Earns(env, sigs, j))
  }

  ghost predicate OnlyListTraded(sigs: seq<PaperSignal>, k: nat, l: Ledger)
    requires k <= |sigs|
  {
    forall id :: HasTrade(l, id) ==> exists j :: 0 <= j < k && sigs[j].id == id
  }

  ghost predicate DaysFilledToCap(env: Env, sigs: seq<PaperSignal>, k: nat, l: Ledger)
    requires k <= |sigs|
  {
    forall date :: DayCount(env, l, date)
      == Capped(FillableBefore(env, sigs, k, date), env.config.maxTradesPerDay)
  }

  /** A signal among the first `k` has a trade iff it earns one, nothing else has, and each day holds as
      many trades as it has fillable signals, up to the cap. */
  ghost predicate TradedGreedily(env: Env, sigs: seq<PaperSignal>, k: nat, l: Ledger)
    requires k <= |sigs|
  {
    EarnersTraded(env, sigs, k, l) && OnlyListTraded(sigs, k, l) && DaysFilledToCap(env, sigs, k, l)
  }

  lemma DayOfId(env: Env, s: PaperSignal, date: int)
    requires UniqueIds(env.signals) && s in env.signals
    ensures s.id in DayIds(env.signals, date) <==> IstDate(s.signalTime) == date
  {
    if s.id in DayIds(env.signals, date) {
      var t :| t in env.signals && IstDate(t.signalTime) == date && t.id == s.id;
      var i :| 0 <= i < |env.signals| && env.signals[i] == s;
      var j :| 0 <= j < |env.signals| && env.signals[j] == t;
      assert i == j;
    }
  }

  lemma DayCountStep(env: Env, l: Ledger, s: PaperSignal, o: Outcome, date: int)
    requires UniqueIds(env.signals) && s in env.signals && WellShaped(o)
    ensures DayCount(env, Written(l, s.id, o), date)
         == DayCount(env, l, date) + (if o.tradeCreated && IstDate(s.signalTime) == date then 1 else 0)
  {
    DayOfId(env, s, date);
    var trades := Written(l, s.id, o).trades;
    if o.tradeCreated {
      assert trades[..|trades| - 1] == l.trades;
    } else {
      assert trades == l.trades;
    }
  }

  lemma HasTradeStep(l: Ledger, id: int, o: Outcome, other: int)
    requires WellShaped(o)
    ensures HasTrade(Written(l, id, o), other) <==> HasTrade(l, other) || (o.tradeCreated && other == id)
  {
    var l' := Written(l, id, o);
    assert forall i :: 0 <= i < |l.trades| ==> l'.trades[i] == l.trades[i];
    if o.tradeCreated {
      assert l'.trades[|l.trades|].signalId == id;
    }
  }

  lemma DecideIsEarns(env: Env, sigs: seq<PaperSignal>, k: nat, l: Ledger)
    requires Shaped(env) && UniqueIds(sigs) && k < |sigs|
    requires TradedGreedily(env, sigs, k, l)
    ensures !HasTrade(l, sigs[k].id)
    ensures Decide(env, l, sigs[k]).tradeCreated <==> Earns(env, sigs, k)
  {
    DecideShape(env, l, sigs[k]);
    assert DayCount(env, l, IstDate(sigs[k].signalTime))
        == Capped(FillableBefore(env, sigs, k, IstDate(sigs[k].signalTime)), env.config.maxTradesPerDay);
  }

  lemma EarnersStep(env: Env, sigs: seq<PaperSignal>, k: nat, l: Ledger, o: Outcome)
    requires UniqueIds(sigs) && k < |sigs| && WellShaped(o)
    requires EarnersTraded(env, sigs, k, l)
    requires !HasTrade(l, sigs[k].id) && (o.tradeCreated <==> Earns(env, sigs, k))
    ensures EarnersTraded(env, sigs, k + 1, Written(l, sigs[k].id, o))
  {
    forall j | 0 <= j < k + 1
      ensures HasTrade(Written(l, sigs[k].id, o), sigs[j].id) <==> Earns(env, sigs, j)
    {
      HasTradeStep(l, sigs[k].id, o, sigs[j].id);
    }
  }

  lemma OnlyListStep(sigs: seq<PaperSignal>, k: nat, l: Ledger, o: Outcome)
    requires k < |sigs| && WellShaped(o)
    requires OnlyListTraded(sigs, k, l)
    ensures OnlyListTraded(sigs, k + 1, Written(l, sigs[k].id, o))
  {
    forall id | HasTrade(Written(l, sigs[k].id, o), id) ensures exists j :: 0 <= j < k + 1 && sigs[j].id == id {
      HasTradeStep(l, sigs[k].id, o, id);
      if HasTrade(l, id) {
        var j :| 0 <= j < k && sigs[j].id == id;
      } else {
        assert sigs[k].id == id;
      }
    }
  }

  lemma DaysStep(env: Env, sigs: seq<PaperSignal>, k: nat, l: Ledger, o: Outcome)
    requires UniqueIds(env.signals) && Within(sigs, env.signals) && k < |sigs| && WellShaped(o)
    requires DaysFilledToCap(env, sigs, k, l)
    requires o.tradeCreated <==> Earns(env, sigs, k)
    ensures DaysFilledToCap(env, sigs, k + 1, Written(l, sigs[k].id, o))
  {
    forall date
      ensures DayCount(env, Written(l, sigs[k].id, o), date)
           == Capped(FillableBefore(env, sigs, k + 1, date), env.config.maxTradesPerDay)
    {
      DayCountStep(env, l, sigs[k], o, date);
    }
  }

  lemma GreedyStep(env: Env, sigs: seq<PaperSignal>, k: nat, l: Ledger)
    requires Shaped(env) && UniqueIds(env.signals) && UniqueIds(sigs) && Within(sigs, env.signals) && k < |sigs|
    requires TradedGreedily(env, sigs, k, l)
    ensures TradedGreedily(env, sigs, k + 1, StepReplay(env, l, sigs[k]).0)
  {
    var o := Decide(env, l, sigs[k]);
    DecideShape(env, l, sigs[k]);
    DecideIsEarns(env, sigs, k, l);
    EarnersStep(env, sigs, k, l, o);
    OnlyListStep(sigs, k, l, o);
    DaysStep(env, sigs, k, l, o);
  }

  lemma NothingTradedYet(env: Env, sigs: seq<PaperSignal>)
    ensures TradedGreedily(env, sigs, 0, Replay(env, EMPTY, sigs[..0]).0)
  {
    assert Replay(env, EMPTY, sigs[..0]).0 == EMPTY;
  }

  /** GREEDY CAP. From an empty ledger a replay trades, on each IST day, exactly the first
      `maxTradesPerDay` fillable signals in replay order; rejections and missed fills use up nothing. */
  lemma {:induction false} ReplayTradesGreedily(env: Env, sigs: seq<PaperSignal>, k: nat)
    requires Shaped(env) && UniqueIds(env.signals) && UniqueIds(sigs) && Within(sigs, env.signals) && k <= |sigs|
    ensures TradedGreedily(env, sigs, k, Replay(env, EMPTY, sigs[..k]).0)
  {
    hide TradedGreedily, StepReplay, Replay;
    if k == 0 {
      NothingTradedYet(env, sigs);
    } else {
      ReplayTradesGreedily(env, sigs, k - 1);
      GreedyStep(env, sigs, k - 1, Replay(env, EMPTY, sigs[..k - 1]).0);
      ReplayPrefix(env, EMPTY, sigs, k - 1);
    }
  }

  // ----- replaying again

  /** A replay has nothing more to trade for the signal: it has its trade, its day is full, or it does not fill. */
  predicate Settled(env: Env, l: Ledger, s: PaperSignal) {
    HasTrade(l, s.id) || CapReason(env, l, s).Some? || !Fillable(env, s)
  }

  lemma {:induction false} CountDayGrows(trades: seq<Trade>, more: seq<Trade>, ids: set<int>)
    ensures CountDay(trades, ids) <= CountDay(trades + more, ids)
  {
    if more == [] {
      assert trades + more == trades;
    } else {
      CountDayGrows(trades, more[..|more| - 1], ids);
      assert (trades + more)[..|trades + more| - 1] == trades + more[..|more| - 1];
    }
  }

  lemma SettledStays(env: Env, l: Ledger, s: PaperSignal, id: int, o: Outcome)
    requires Settled(env, l, s)
    ensures Settled(env, Written(l, id, o), s)
  {
    hide DayIds, IstDate, Fillable;
    CountDayGrows(l.trades, NewTrades(l, id, o), DayIds(env.signals, IstDate(s.signalTime)));
    if HasTrade(l, s.id) {
      var k :| 0 <= k < |l.trades| && l.trades[k].signalId == s.id;
      assert Written(l, id, o).trades[k] == l.trades[k];
    }
  }

  lemma StepSettles(env: Env, l: Ledger, s: PaperSignal)
    requires Shaped(env)
    ensures Settled(env, StepReplay(env, l, s).0, s)
  {
    hide DayCount, CapReason;
    DecideShape(env, l, s);
    var o := Decide(env, l, s);
    HasTradeStep(l, s.id, o, s.id);
    if Settled(env, l, s) {
      SettledStays(env, l, s, s.id, o);
    }
  }

  ghost predicate AllSettled(env: Env, l: Ledger, sigs: seq<PaperSignal>) {
    forall k :: 0 <= k < |sigs| ==> Settled(env, l, sigs[k])
  }

  lemma NothingToSettle(env: Env, l: Ledger)
    ensures AllSettled(env, l, [])
  {
  }

  lemma OneMoreSettles(env: Env, l: Ledger, sigs: seq<PaperSignal>, s: PaperSignal)
    requires Shaped(env) && AllSettled(env, l, sigs)
    ensures AllSettled(env, StepReplay(env, l, s).0, sigs + [s])
  {
    hide Settled, Shaped, Decide, Written;
    StepSettles(env, l, s);
    forall k | 0 <= k < |sigs| ensures Settled(env, StepReplay(env, l, s).0, sigs[k]) {
      SettledStays(env, l, sigs[k], s.id, Decide(env, l, s));
    }
  }

  lemma {:induction false} PrefixSettles(env: Env, l: Ledger, sigs: seq<PaperSignal>, k: nat)
    requires Shaped(env) && k <= |sigs|
    ensures AllSettled(env, Replay(env, l, sigs[..k]).0, sigs[..k])
  {
    hide AllSettled, Shaped, StepReplay, Replay;
    if k == 0 {
      NothingToSettle(env, Replay(env, l, sigs[..k]).0);
    } else {
      var before := Replay(env, l, sigs[..k - 1]).0;
      PrefixSettles(env, l, sigs, k - 1);
      OneMoreSettles(env, before, sigs[..k - 1], sigs[k - 1]);
      ReplayPrefix(env, l, sigs, k - 1);
      assert sigs[..k] == sigs[..k - 1] + [sigs[k - 1]];
    }
  }

  lemma ReplaySettles(env: Env, l: Ledger, sigs: seq<PaperSignal>)
    requires Shaped(env)
    ensures AllSettled(env, Replay(env, l, sigs).0, sigs)
  {
    PrefixSettles(env, l, sigs, |sigs|);
    assert sigs[..|sigs|] == sigs;
  }

  lemma SettledWritesNoTrade(env: Env, l: Ledger, s: PaperSignal)
    requires Settled(env, l, s)
    ensures StepReplay(env, l, s).0.trades == l.trades
  {
    hide HasTrade, CapReason;
  }

  lemma OnlyTradesSettle(env: Env, l: Ledger, l': Ledger, s: PaperSignal)
    requires l.trades == l'.trades
    ensures Settled(env, l, s) <==> Settled(env, l', s)
  {
    assert HasTrade(l, s.id) <==> HasTrade(l', s.id);
  }

  lemma {:induction false} SettledReplayWritesNoTrade(env: Env, l: Ledger, sigs: seq<PaperSignal>)
    requires forall k :: 0 <= k < |sigs| ==> Settled(env, l, sigs[k])
    ensures Replay(env, l, sigs).0.trades == l.trades
  {
    if sigs != [] {
      hide Settled, Decide, Written;
      var n := |sigs| - 1;
      SettledReplayWritesNoTrade(env, l, sigs[..n]);
      var before := Replay(env, l, sigs[..n]).0;
      OnlyTradesSettle(env, l, before, sigs[n]);
      SettledWritesNoTrade(env, before, sigs[n]);
    }
  }

  /** Repeating a replay on the same inputs adds no trade, whatever the ledger was before. */
  lemma ReplayIsIdempotent(env: Env, l: Ledger, sigs: seq<PaperSignal>)
    requires Shaped(env)
    ensures var first := Replay(env, l, sigs).0; Replay(env, first, sigs).0.trades == first.trades
  {
    hide Replay, Settled, Shaped;
    ReplaySettles(env, l, sigs);
    SettledReplayWritesNoTrade(env, Replay(env, l, sigs).0, sigs);
  }

  // ----- the cap over any number of replays

  /** How many trades a day may hold; a setting below one allows none. */
  function DailyCap(env: Env): (cap: nat)
    ensures cap == 0 <==> env.config.maxTradesPerDay <= 0
    ensures cap > 0 ==> cap == env.config.maxTradesPerDay
  {
    if env.config.maxTradesPerDay < 1 then 0 else env.config.maxTradesPerDay
  }

  ghost predicate CapRespected(env: Env, l: Ledger) {
    forall date :: DayCount(env, l, date) <= DailyCap(env)
  }

  /** Sequential replays, in any number and of any selection, never push a day over the cap. */
  lemma {:induction false} SequentialReplaysRespectCap(env: Env, l: Ledger, sigs: seq<PaperSignal>)
    requires Shaped(env) && UniqueIds(env.signals) && Within(sigs, env.signals)
    requires CapRespected(env, l)
    ensures CapRespected(env, Replay(env, l, sigs).0)
  {
    if sigs != [] {
      hide DayCount, HasTrade;
      var n := |sigs| - 1;
      WithinPrefix(sigs, env.signals);
      SequentialReplaysRespectCap(env, l, sigs[..n]);
      var before := Replay(env, l, sigs[..n]).0;
      var s := sigs[n];
      DecideShape(env, before, s);
      forall date ensures DayCount(env, Replay(env, l, sigs).0, date) <= DailyCap(env) {
        DayCountStep(env, before, s, Decide(env, before, s), date);
      }
    }
  }

  lemma WithinPrefix(sigs: seq<PaperSignal>, signals: seq<PaperSignal>)
    requires sigs != [] && Within(sigs, signals)
    ensures Within(sigs[..|sigs| - 1], signals) && sigs[|sigs| - 1] in signals
  {
  }

  // ----- what is loaded

  lemma {:induction false} InsertKeepsUnique(s: seq<PaperSignal>, x: PaperSignal)
    requires UniqueIds(s) && forall y :: y in s ==> y.id != x.id
    ensures UniqueIds(Insert(StartsBefore, s, x))
  {
    if s == [] || StartsBefore(s[|s| - 1], x) {
    } else {
      var last := s[|s| - 1];
      var rest := Insert(StartsBefore, s[..|s| - 1], x);
      InsertKeepsUnique(s[..|s| - 1], x);
      forall i | 0 <= i < |rest| ensures rest[i].id != last.id {
        assert rest[i] in multiset(rest);
        assert rest[i] in s[..|s| - 1] || rest[i] == x;
      }
    }
  }

  lemma {:induction false} SortKeepsUnique(s: seq<PaperSignal>)
    requires UniqueIds(s)
    ensures UniqueIds(Sort(StartsBefore, s))
  {
    if s != [] {
      var n := |s| - 1;
      SortKeepsUnique(s[..n]);
      SameMultisetSameMembers(Sort(StartsBefore, s[..n]), s[..n]);
      InsertKeepsUnique(Sort(StartsBefore, s[..n]), s[n]);
    }
  }

  lemma {:induction false} FilterKeepsUnique(p: PaperSignal -> bool, s: seq<PaperSignal>)
    requires UniqueIds(s)
    ensures UniqueIds(Filter(p, s))
  {
    if s != [] {
      var n := |s| - 1;
      FilterKeepsUnique(p, s[..n]);
      FilterMembers(p, s[..n]);
      var kept := Filter(p, s[..n]);
      forall i | 0 <= i < |kept| ensures kept[i].id != s[n].id {
        assert kept[i] in kept;
        var k :| 0 <= k < n && s[k] == kept[i];
      }
    }
  }

  lemma StartsBeforeIsOrder()
    ensures TotalPreorder(StartsBefore)
  {
  }

  lemma SplitByTake<T>(values: seq<T>, limit: nat, x: T)
    requires x in values && x !in Take(values, limit)
    ensures |Take(values, limit)| == limit < |values| && x in values[limit..]
  {
    var i :| 0 <= i < |values| && values[i] == x;
    assert forall k :: 0 <= k < |Take(values, limit)| ==> values[k] == Take(values, limit)[k];
    assert values[limit..][i - limit] == x;
  }

  /** The loaded signals are exactly the earliest stored candidates of the symbol and time window, at most `limit` of
      them, each once, by time and then id. */
  lemma CandidatesAreEarliest(
    signals: seq<PaperSignal>, symbol: Option<string>, start: Option<Instant>, end: Option<Instant>, limit: nat)
    requires UniqueIds(signals)
    ensures var loaded := Candidates(signals, symbol, start, end, limit);
      && UniqueIds(loaded) && |loaded| <= limit
      && (forall i, j :: 0 <= i < j < |loaded| ==>
            || loaded[i].signalTime < loaded[j].signalTime
            || (loaded[i].signalTime == loaded[j].signalTime && loaded[i].id <= loaded[j].id))
      && (forall s :: s in loaded ==>
            && s in signals && s.signalStatus == "CANDIDATE"
            && (symbol.Some? ==> s.symbol == symbol.value)
            && (start.Some? ==> start.value <= s.signalTime) && (end.Some? ==> s.signalTime <= end.value))
      && (forall s, t ::
            && s in signals && s.signalStatus == "CANDIDATE"
            && (symbol.Some? ==> s.symbol == symbol.value)
            && (start.Some? ==> start.value <= s.signalTime) && (end.Some? ==> s.signalTime <= end.value)
            && s !in loaded ==>
              && |loaded| == limit
              && (t in loaded ==> t.signalTime < s.signalTime || (t.signalTime == s.signalTime && t.id <= s.id)))
  {
    hide Sort, Filter, Take, UniqueIds;
    var sorted := Sort(StartsBefore, Filter(Wanted(symbol, start, end), signals));
    SortedCandidates(signals, Wanted(symbol, start, end));
    TakenAreFirst(sorted, limit);
    var loaded := Take(sorted, limit);
    assert forall s :: s in loaded ==> Wanted(symbol, start, end)(s);
    forall i, j | 0 <= i < j < |loaded| ensures StartsBefore(loaded[i], loaded[j]) {
    }
  }

  /** Sorting what is wanted. */
  lemma SortedCandidates(signals: seq<PaperSignal>, p: PaperSignal -> bool)
    requires UniqueIds(signals)
    ensures var sorted := Sort(StartsBefore, Filter(p, signals));
      && UniqueIds(sorted) && SortedBy(StartsBefore, sorted)
      && forall s :: s in sorted <==> s in signals && p(s)
  {
    hide Sort, Filter, StartsBefore, UniqueIds;
    FilterKeepsUnique(p, signals);
    FilterMembers(p, signals);
    SortKeepsUnique(Filter(p, signals));
    StartsBeforeIsOrder();
    SortSorts(StartsBefore, Filter(p, signals));
  }

  /** The first `limit` of a sorted list. */
  lemma TakenAreFirst(sorted: seq<PaperSignal>, limit: nat)
    requires UniqueIds(sorted) && SortedBy(StartsBefore, sorted)
    ensures var taken := Take(sorted, limit);
      && UniqueIds(taken) && SortedBy(StartsBefore, taken) && |taken| <= limit
      && (forall s :: s in taken ==> s in sorted)
      && (forall s :: s in sorted && s !in taken ==>
            |taken| == limit && forall t :: t in taken ==> StartsBefore(t, s))
  {
    hide StartsBefore, Take;
    TakePrefix(sorted, limit);
    var taken := Take(sorted, limit);
    forall s | s in sorted && s !in taken ensures |taken| == limit {
      SplitByTake(sorted, limit, s);
    }
    forall s, t | s in sorted && s !in taken && t in taken ensures StartsBefore(t, s) {
      SplitByTake(sorted, limit, s);
      var i :| 0 <= i < |taken| && taken[i] == t;
      var j :| limit <= j < |sorted| && sorted[j] == s;
    }
  }

  lemma TakePrefix<T>(values: seq<T>, limit: nat)
    ensures Take(values, limit) <= values
  {
  }

  lemma CandidatesAreStored(
    signals: seq<PaperSignal>, symbol: Option<string>, start: Option<Instant>, end: Option<Instant>, limit: nat)
    requires UniqueIds(signals)
    ensures var loaded := Candidates(signals, symbol, start, end, limit);
      UniqueIds(loaded) && Within(loaded, signals)
  {
    hide Candidates, UniqueIds;
    CandidatesAreEarliest(signals, symbol, start, end, limit);
  }
}

/** From a signal and the stored candles to an outcome. */
module PaperEvaluation {
  import opened Options
  import opened MarketClock
  import opened Collections
  import opened Candles
  import opened PaperTypes
  import opened PaperSimulator
  import opened PaperLedger
  import opened PaperReplay

  const CANDLE_LIMIT: nat := 100_000

  datatype Inputs = Inputs(
    config: PaperConfig, signals: seq<PaperSignal>, candlesBySymbol: map<string, seq<Candle>>, end: Option<Instant>)

  function InWindow(start: Instant, end: Instant): Candle -> bool {
    (c: Candle) => c.timeframe == "1minute" && start <= c.startedAt <= end
  }

  function LoadedCandles(
    candlesBySymbol: map<string, seq<Candle>>, symbol: string, start: Instant, end: Instant, limit: nat): seq<Candle>
  {
    var stored := if symbol in candlesBySymbol then candlesBySymbol[symbol] else [];
    Take(ByStart(Filter(InWindow(start, end), stored)), limit)
  }

  /** 23:59 IST on the signal's day. */
  function DefaultReplayEnd(t: Instant): Instant {
    IstDate(t) * 86_400_000_000 - 19_800_000_000 + TimeOfDay(23, 59)
  }

  function CandlesFor(inputs: Inputs, s: PaperSignal): seq<Candle> {
    var end := if inputs.end.Some? then inputs.end.value else DefaultReplayEnd(s.signalTime);
    LoadedCandles(inputs.candlesBySymbol, s.symbol, s.signalTime, end, CANDLE_LIMIT)
  }

  /** What the engine makes of a signal that is neither a duplicate nor capped. */
  function Evaluate(inputs: Inputs, s: PaperSignal): Outcome {
    match BuildInstruction(s, CandlesFor(inputs, s), inputs.config)
    case Ok(instruction) => Simulated(instruction, CandlesFor(inputs, s), inputs.config)
    case Err(rejection) => rejection
  }

  function EnvOf(inputs: Inputs): Env {
    Env(inputs.config, inputs.signals, (s: PaperSignal) => Evaluate(inputs, s))
  }

  lemma ExitShape(i: PaperInstruction, config: PaperConfig, filledAt: Instant, exits: seq<Candle>)
    ensures var o := ExitOver(i, config, filledAt, exits);
      WellShaped(o) && o.signalId == i.signalId && o.tradeCreated
  {
  }

  lemma SimulatedShape(i: PaperInstruction, config: PaperConfig, future: seq<Candle>)
    ensures var o := SimulatedOver(i, config, future); WellShaped(o) && o.signalId == i.signalId
  {
    var entry := FirstIndex(Filling(i, config), future);
    if entry.Some? {
      var filledAt := future[entry.value].startedAt;
      ExitShape(i, config, filledAt, Filter(After(filledAt), future));
    }
  }

  lemma BuildShape(s: PaperSignal, candles: seq<Candle>, config: PaperConfig)
    ensures var built := BuildInstruction(s, candles, config);
      && (built.Ok? ==> built.value.signalId == s.id)
      && (built.Err? ==> WellShaped(built.error) && built.error.signalId == s.id)
  {
    hide SignalDefect, FirstIndex, Priced, ExactEntry, ExactStop, ExactTarget, PlannedRisk;
  }

  lemma EvaluateShape(inputs: Inputs, s: PaperSignal)
    ensures WellShaped(Evaluate(inputs, s)) && Evaluate(inputs, s).signalId == s.id
  {
    hide BuildInstruction, SimulatedOver, CandlesFor, FutureOf, WellShaped;
    BuildShape(s, CandlesFor(inputs, s), inputs.config);
    var built := BuildInstruction(s, CandlesFor(inputs, s), inputs.config);
    if built.Ok? {
      SimulatedShape(built.value, inputs.config, FutureOf(built.value, CandlesFor(inputs, s)));
    }
  }

  lemma EnvIsShaped(inputs: Inputs)
    ensures Shaped(EnvOf(inputs))
  {
    forall s ensures WellShaped(EnvOf(inputs).evaluate(s)) && EnvOf(inputs).evaluate(s).signalId == s.id {
      EvaluateShape(inputs, s);
    }
  }

  /** What a replay of stored signals over stored candles leaves behind, from an empty ledger: a balanced ledger in
      which exactly the first `maxTradesPerDay` fillable loaded signals of each day have a trade, and to which the
      same replay adds no trade. Only unique signal ids are asked for. */
  lemma LoadedReplayTradesGreedily(
    inputs: Inputs, symbol: Option<string>, start: Option<Instant>, end: Option<Instant>, limit: nat)
    requires UniqueIds(inputs.signals)
    ensures var env, sigs := EnvOf(inputs), Candidates(inputs.signals, symbol, start, end, limit);
      var ledger := Replay(env, EMPTY, sigs).0;
      && Balanced(ledger) && |ledger.journal| == |sigs|
      && TradedGreedily(env, sigs, |sigs|, ledger)
      && Replay(env, ledger, sigs).0.trades == ledger.trades
  {
    hide Candidates, Replay, TradedGreedily, Balanced, Evaluate, Shaped;
    var env, sigs := EnvOf(inputs), Candidates(inputs.signals, symbol, start, end, limit);
    EnvIsShaped(inputs);
    CandidatesAreStored(inputs.signals, symbol, start, end, limit);
    EmptyBalances();
    ReplayKeepsBooks(env, EMPTY, sigs);
    ReplayTradesGreedily(env, sigs, |sigs|);
    ReplayIsIdempotent(env, EMPTY, sigs);
    assert sigs[..|sigs|] == sigs;
  }

  lemma EmptyBalances()
    ensures Balanced(EMPTY)
  {
  }
}
