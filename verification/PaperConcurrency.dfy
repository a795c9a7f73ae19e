// Replays that interleave. Every repository call is one atomic step; between two steps of a replay any
// other replay may run. A ledger shared by any number of replays stays balanced under every schedule.

module PaperConcurrency {
  import opened MarketClock
  import opened PaperTypes
  import opened PaperLedger
  import opened PaperReplay

  /** Where a replay stands with its current signal: about to look for a trade, to count the day, to load and
      simulate, to record an outcome, or to record a rejection. */
  datatype Stage = Checking | Capping | Simulating | Recording(outcome: Outcome) | Rejecting(rejection: Outcome)

  datatype Run = Run(sigs: seq<PaperSignal>, stage: Stage, outcomes: seq<Outcome>)

  datatype System = System(ledger: Ledger, runs: seq<Run>)

  function StartRun(sigs: seq<PaperSignal>): Run {
    Run(sigs, Checking, [])
  }

  predicate Finished(r: Run) {
    |r.outcomes| >= |r.sigs|
  }

  function Current(r: Run): PaperSignal
    requires !Finished(r)
  {
    r.sigs[|r.outcomes|]
  }

  function Advance(r: Run, o: Outcome): Run {
    r.(stage := Checking, outcomes := r.outcomes + [o])
  }

  /** One atomic step of one replay. */
  function StepOne(env: Env, l: Ledger, r: Run): (Ledger, Run) {
    if Finished(r) then (l, r)
    else
      var s := Current(r);
      match r.stage
      case Checking =>
        (l, r.(stage := if HasTrade(l, s.id) then Rejecting(DuplicateOutcome(env, s)) else Capping))
      case Capping =>
        var why := CapReason(env, l, s);
        (l, r.(stage :=
               if why.Some? then Rejecting(RejectedOutcome(s, env.config, MODE_DISABLED, why.value)) else Simulating))
      case Simulating => (l, r.(stage := Recording(env.evaluate(s))))
      case Recording(o) =>
        (match Record(l, s.id, o)
         case Ok(after) => (after, Advance(r, o))
         case Err(_) => (l, r.(stage := Rejecting(DuplicateOutcome(env, s)))))
      case Rejecting(o) =>
        (match Record(l, s.id, o)
         case Ok(after) => (after, Advance(r, o))
         case Err(_) => (l, r))
  }

  function Step(env: Env, sys: System, who: nat): System {
    if who >= |sys.runs| then sys
    else
      var (l, r) := StepOne(env, sys.ledger, sys.runs[who]);
      System(l, sys.runs[who := r])
  }

  /** A schedule names, step by step, the replay that moves. */
  function Execute(env: Env, sys: System, schedule: seq<nat>): System {
    if schedule == [] then sys
    else Step(env, Execute(env, sys, schedule[..|schedule| - 1]), schedule[|schedule| - 1])
  }

  // ----- safety under every schedule

  predicate IsRejection(o: Outcome, s: PaperSignal) {
    WellShaped(o) && o.entryStatus == NotCreated && o.signalId == s.id
  }

  ghost predicate Sane(env: Env, r: Run) {
    && |r.outcomes| <= |r.sigs|
    && (forall k :: 0 <= k < |r.outcomes| ==> WellShaped(r.outcomes[k]) && r.outcomes[k].signalId == r.sigs[k].id)
    && (!Finished(r) && r.stage.Recording? ==> r.stage.outcome == env.evaluate(Current(r)))
    && (!Finished(r) && r.stage.Rejecting? ==> IsRejection(r.stage.rejection, Current(r)))
  }

  function Reported(runs: seq<Run>): nat {
    if runs == [] then 0 else Reported(runs[..|runs| - 1]) + |runs[|runs| - 1].outcomes|
  }

  /** `base` is the number of journal rows before the replays started. */
  ghost predicate Safe(env: Env, sys: System, base: nat) {
    && Balanced(sys.ledger)
    && (forall i :: 0 <= i < |sys.runs| ==> Sane(env, sys.runs[i]))
    && |sys.ledger.journal| == base + Reported(sys.runs)
  }

  lemma {:induction false} ReportedUpdate(runs: seq<Run>, i: nat, r: Run)
    requires i < |runs|
    ensures Reported(runs[i := r]) == Reported(runs) - |runs[i].outcomes| + |r.outcomes|
    decreases |runs|
  {
    var n := |runs| - 1;
    if i == n {
      assert runs[i := r][..n] == runs[..n];
    } else {
      ReportedUpdate(runs[..n], i, r);
      assert runs[i := r][..n] == runs[..n][i := r];
    }
  }

  /** What one step of a replay has to keep. */
  ghost predicate KeepsSafe(env: Env, l: Ledger, r: Run, after: (Ledger, Run)) {
    && Balanced(after.0) && Sane(env, after.1)
    && |after.0.journal| - |l.journal| == |after.1.outcomes| - |r.outcomes|
  }

  lemma ReadIsSafe(env: Env, l: Ledger, r: Run)
    requires Shaped(env) && Balanced(l) && Sane(env, r)
    requires !Finished(r) && r.stage in {Checking, Capping, Simulating}
    ensures KeepsSafe(env, l, r, StepOne(env, l, r))
  {
    assert WellShaped(env.evaluate(Current(r)));
  }

  lemma AdvanceIsSane(env: Env, r: Run, o: Outcome)
    requires Sane(env, r) && !Finished(r) && WellShaped(o) && o.signalId == Current(r).id
    ensures Sane(env, Advance(r, o))
  {
  }

  lemma WriteIsSafe(env: Env, l: Ledger, r: Run, o: Outcome)
    requires Balanced(l) && Sane(env, r) && !Finished(r)
    requires WellShaped(o) && o.signalId == Current(r).id && Record(l, Current(r).id, o).Ok?
    ensures KeepsSafe(env, l, r, (Record(l, Current(r).id, o).value, Advance(r, o)))
  {
    RecordKeepsBalance(l, Current(r).id, o);
    AdvanceIsSane(env, r, o);
  }

  lemma RefusalIsSafe(env: Env, l: Ledger, r: Run)
    requires Balanced(l) && Sane(env, r) && !Finished(r)
    ensures KeepsSafe(env, l, r, (l, r.(stage := Rejecting(DuplicateOutcome(env, Current(r))))))
  {
  }

  lemma RecordingIsSafe(env: Env, l: Ledger, r: Run)
    requires Shaped(env) && Balanced(l) && Sane(env, r)
    requires !Finished(r) && r.stage.Recording?
    ensures KeepsSafe(env, l, r, StepOne(env, l, r))
  {
    hide Balanced, Written;
    var s, o := Current(r), r.stage.outcome;
    assert WellShaped(env.evaluate(s)) && env.evaluate(s).signalId == s.id;
    if Record(l, s.id, o).Ok? {
      WriteIsSafe(env, l, r, o);
    } else {
      RefusalIsSafe(env, l, r);
    }
  }

  lemma RejectingWrites(env: Env, l: Ledger, r: Run)
    requires !Finished(r) && r.stage.Rejecting? && IsRejection(r.stage.rejection, Current(r))
    ensures Record(l, Current(r).id, r.stage.rejection).Ok?
    ensures WellShaped(r.stage.rejection) && r.stage.rejection.signalId == Current(r).id
  {
  }

  lemma RejectingIsSafe(env: Env, l: Ledger, r: Run)
    requires Balanced(l) && Sane(env, r)
    requires !Finished(r) && r.stage.Rejecting?
    ensures KeepsSafe(env, l, r, StepOne(env, l, r))
  {
    hide Balanced, Written, WellShaped;
    RejectingWrites(env, l, r);
    WriteIsSafe(env, l, r, r.stage.rejection);
  }

  lemma StepOneIsSafe(env: Env, l: Ledger, r: Run)
    requires Shaped(env) && Balanced(l) && Sane(env, r)
    ensures KeepsSafe(env, l, r, StepOne(env, l, r))
  {
    if Finished(r) {
    } else if r.stage.Recording? {
      RecordingIsSafe(env, l, r);
    } else if r.stage.Rejecting? {
      RejectingIsSafe(env, l, r);
    } else {
      ReadIsSafe(env, l, r);
    }
  }

  lemma StepIsSafe(env: Env, sys: System, base: nat, who: nat)
    requires Shaped(env) && Safe(env, sys, base)
    ensures Safe(env, Step(env, sys, who), base)
  {
    if who < |sys.runs| {
      StepOneIsSafe(env, sys.ledger, sys.runs[who]);
      ReportedUpdate(sys.runs, who, StepOne(env, sys.ledger, sys.runs[who]).1);
    }
  }

  lemma {:induction false} NothingReportedYet(runs: seq<Run>)
    requires forall i :: 0 <= i < |runs| ==> runs[i].outcomes == []
    ensures Reported(runs) == 0
  {
    if runs != [] {
      NothingReportedYet(runs[..|runs| - 1]);
    }
  }

  /** EVERY INTERLEAVING IS SAFE. Whatever replays start together on a balanced ledger and however their
      steps interleave: the ledger stays balanced (so each signal has at most one trade, on one filled BUY of
      its own), and the journal holds exactly one row for every outcome reported by any replay. */
  lemma {:induction false} EveryScheduleIsSafe(env: Env, l: Ledger, runs: seq<Run>, schedule: seq<nat>)
    requires Shaped(env) && Balanced(l)
    requires forall i :: 0 <= i < |runs| ==> runs[i].stage == Checking && runs[i].outcomes == []
    ensures Safe(env, Execute(env, System(l, runs), schedule), |l.journal|)
  {
    if schedule == [] {
      NothingReportedYet(runs);
    } else {
      var n := |schedule| - 1;
      EveryScheduleIsSafe(env, l, runs, schedule[..n]);
      StepIsSafe(env, Execute(env, System(l, runs), schedule[..n]), |l.journal|, schedule[n]);
    }
  }

  /** A trade, once recorded, is never changed or removed by any later step. */
  lemma {:induction false} TradesAreKept(env: Env, sys: System, schedule: seq<nat>)
    ensures var later := Execute(env, sys, schedule).ledger.trades;
      |sys.ledger.trades| <= |later| && later[..|sys.ledger.trades|] == sys.ledger.trades
  {
    if schedule != [] {
      var n := |schedule| - 1;
      TradesAreKept(env, sys, schedule[..n]);
      var before := Execute(env, sys, schedule[..n]);
      if schedule[n] < |before.runs| {
        StepOneKeepsTrades(env, before.ledger, before.runs[schedule[n]]);
      }
    }
  }

  lemma StepOneKeepsTrades(env: Env, l: Ledger, r: Run)
    ensures var l' := StepOne(env, l, r).0; |l.trades| <= |l'.trades| && l'.trades[..|l.trades|] == l.trades
  {
  }

  /** THE LOSING RACER. A replay that simulated a fill and finds the trade already recorded changes nothing,
      and its next step, whenever it comes and whatever happened meanwhile, only adds a journal rejection. */
  lemma LosingRacerOnlyJournals(env: Env, l: Ledger, r: Run, later: Ledger)
    requires !Finished(r) && r.stage.Recording? && r.stage.outcome.tradeCreated
    requires HasTrade(l, Current(r).id)
    ensures var s := Current(r);
      var refused := r.(stage := Rejecting(DuplicateOutcome(env, s)));
      && StepOne(env, l, r) == (l, refused)
      && StepOne(env, later, refused)
         == (later.(journal := later.journal + [RowOf(DuplicateOutcome(env, s))]),
             Advance(r, DuplicateOutcome(env, s)))
  {
    RejectionOnlyJournals(later, Current(r).id, DuplicateOutcome(env, Current(r)));
  }

  // ----- one replay alone

  /** Running one replay until its current signal is done. */
  function Alone(env: Env, l: Ledger, r: Run, steps: nat): (Ledger, Run) {
    if steps == 0 then (l, r)
    else
      var (l', r') := Alone(env, l, r, steps - 1);
      StepOne(env, l', r')
  }

  /** Steps a signal takes when nobody interferes. */
  function StepsFor(env: Env, l: Ledger, s: PaperSignal): nat {
    if HasTrade(l, s.id) then 2 else if CapReason(env, l, s).Some? then 3 else 4
  }

  lemma AloneDoesOneSignal(env: Env, l: Ledger, r: Run)
    requires !Finished(r) && r.stage == Checking
    ensures var s := Current(r);
      var (after, o) := StepReplay(env, l, s);
      Alone(env, l, r, StepsFor(env, l, s)) == (after, Advance(r, o))
  {
    var s := Current(r);
    assert Alone(env, l, r, 0) == (l, r);
    var (l1, r1) := Alone(env, l, r, 1);
    assert (l1, r1) == StepOne(env, l, r);
    var (l2, r2) := Alone(env, l, r, 2);
    assert (l2, r2) == StepOne(env, l1, r1);
    if !HasTrade(l, s.id) {
      var (l3, r3) := Alone(env, l, r, 3);
      assert (l3, r3) == StepOne(env, l2, r2);
      if CapReason(env, l, s).None? {
        assert Alone(env, l, r, 4) == StepOne(env, l3, r3);
      }
    }
  }

  lemma {:induction false} AloneComposes(env: Env, l: Ledger, r: Run, m: nat, n: nat)
    ensures var (l', r') := Alone(env, l, r, m); Alone(env, l, r, m + n) == Alone(env, l', r', n)
  {
    if n > 0 {
      AloneComposes(env, l, r, m, n - 1);
    }
  }

  lemma AloneExtends(env: Env, l: Ledger, r: Run, steps: nat)
    requires var (l', r') := Alone(env, l, r, steps); !Finished(r') && r'.stage == Checking
    ensures var (l', r') := Alone(env, l, r, steps);
      var (after, o) := StepReplay(env, l', Current(r'));
      Alone(env, l, r, steps + StepsFor(env, l', Current(r'))) == (after, Advance(r', o))
  {
    hide StepOne, StepReplay, Written, Decide, Alone;
    var (l', r') := Alone(env, l, r, steps);
    AloneDoesOneSignal(env, l', r');
    AloneComposes(env, l, r, steps, StepsFor(env, l', Current(r')));
  }

  ghost predicate Reaches(env: Env, l: Ledger, sigs: seq<PaperSignal>, steps: nat, replayed: (Ledger, seq<Outcome>)) {
    Alone(env, l, StartRun(sigs), steps) == (replayed.0, Run(sigs, Checking, replayed.1))
  }

  /** REFINEMENT. Uninterrupted, the stepwise replay is the sequential one. */
  lemma {:induction false} AloneIsReplay(env: Env, l: Ledger, sigs: seq<PaperSignal>, k: nat) returns (steps: nat)
    requires k <= |sigs|
    ensures |Replay(env, l, sigs[..k]).1| == k
    ensures Reaches(env, l, sigs, steps, Replay(env, l, sigs[..k]))
  {
    hide Written, Decide, StepOne;
    if k == 0 {
      steps := 0;
    } else {
      var before := AloneIsReplay(env, l, sigs, k - 1);
      AloneExtends(env, l, StartRun(sigs), before);
      ReplayPrefix(env, l, sigs, k - 1);
      steps := before + StepsFor(env, Replay(env, l, sigs[..k - 1]).0, sigs[k - 1]);
    }
  }

  // ----- the daily cap under every schedule

  /** The next step of the replay writes a trade. */
  predicate Writes(l: Ledger, r: Run) {
    && !Finished(r) && r.stage.Recording? && r.stage.outcome.tradeCreated
    && !HasTrade(l, Current(r).id)
  }

  function CurrentDay(r: Run): int
    requires !Finished(r)
  {
    IstDate(Current(r).signalTime)
  }

  /** ... on a day that is already full: the cap check it passed is out of date. */
  predicate Stale(env: Env, l: Ledger, r: Run) {
    Writes(l, r) && DailyCap(env) <= DayCount(env, l, CurrentDay(r))
  }

  lemma StepOneDayCount(env: Env, l: Ledger, r: Run, date: int)
    requires Shaped(env) && UniqueIds(env.signals) && Within(r.sigs, env.signals) && Sane(env, r)
    ensures DayCount(env, StepOne(env, l, r).0, date)
         == DayCount(env, l, date) + (if Writes(l, r) && CurrentDay(r) == date then 1 else 0)
  {
    hide DayCount, HasTrade, Written, IstDate;
    if !Finished(r) {
      var s := Current(r);
      assert WellShaped(env.evaluate(s));
      match r.stage
      case Recording(o) =>
        if Record(l, s.id, o).Ok? {
          DayCountStep(env, l, s, o, date);
        }
      case Rejecting(o) => DayCountStep(env, l, s, o, date);
      case Checking =>
      case Capping =>
      case Simulating =>
    }
  }

  /** Exactly which steps break the cap. */
  lemma CapBrokenOnlyByStaleStep(env: Env, l: Ledger, r: Run)
    requires Shaped(env) && UniqueIds(env.signals) && Within(r.sigs, env.signals) && Sane(env, r)
    requires CapRespected(env, l)
    ensures CapRespected(env, StepOne(env, l, r).0) <==> !Stale(env, l, r)
  {
    hide StepOne, DayCount, DailyCap, Writes, Sane, Shaped, UniqueIds, Within;
    var after := StepOne(env, l, r).0;
    if Writes(l, r) {
      WritesMeansUnfinished(l, r);
      StepOneDayCount(env, l, r, CurrentDay(r));
    }
    forall date | !Stale(env, l, r) ensures DayCount(env, after, date) <= DailyCap(env) {
      StepOneDayCount(env, l, r, date);
    }
  }

  lemma WritesMeansUnfinished(l: Ledger, r: Run)
    requires Writes(l, r)
    ensures !Finished(r)
  {
  }

  ghost predicate AllWithin(env: Env, runs: seq<Run>) {
    forall i :: 0 <= i < |runs| ==> Within(runs[i].sigs, env.signals)
  }

  lemma {:induction false} SignalsStay(env: Env, sys: System, schedule: seq<nat>)
    requires AllWithin(env, sys.runs)
    ensures AllWithin(env, Execute(env, sys, schedule).runs)
    ensures |Execute(env, sys, schedule).runs| == |sys.runs|
  {
    hide StepOne, Within;
    if schedule != [] {
      var n := |schedule| - 1;
      SignalsStay(env, sys, schedule[..n]);
      var before := Execute(env, sys, schedule[..n]);
      if schedule[n] < |before.runs| {
        StepOneKeepsSignals(env, before.ledger, before.runs[schedule[n]]);
      }
    }
  }

  lemma StepOneKeepsSignals(env: Env, l: Ledger, r: Run)
    ensures StepOne(env, l, r).1.sigs == r.sigs
  {
    hide Written, DayCount, HasTrade;
  }

  /** No step of the schedule is stale when it is taken. */
  predicate NeverStale(env: Env, sys: System, schedule: seq<nat>) {
    schedule == []
    || var n := |schedule| - 1;
       var before := Execute(env, sys, schedule[..n]);
       && NeverStale(env, sys, schedule[..n])
       && (schedule[n] < |before.runs| ==> !Stale(env, before.ledger, before.runs[schedule[n]]))
  }

  /** The standing assumptions on replays that start together. */
  ghost predicate Starting(env: Env, l: Ledger, runs: seq<Run>) {
    && Shaped(env) && UniqueIds(env.signals) && Balanced(l) && AllWithin(env, runs)
    && forall i :: 0 <= i < |runs| ==> runs[i].stage == Checking && runs[i].outcomes == []
  }

  lemma ReachedSane(env: Env, l: Ledger, runs: seq<Run>, schedule: seq<nat>)
    requires Starting(env, l, runs)
    ensures var sys := Execute(env, System(l, runs), schedule);
      && |sys.runs| == |runs|
      && forall i :: 0 <= i < |sys.runs| ==> Sane(env, sys.runs[i]) && Within(sys.runs[i].sigs, env.signals)
  {
    hide Balanced, Sane, Within, Execute;
    EveryScheduleIsSafe(env, l, runs, schedule);
    SignalsStay(env, System(l, runs), schedule);
  }

  /** THE CAP, EXACTLY. Whatever replays run and however they interleave, the daily cap holds at the end if and only
      if no step recorded a trade on a day that was already full at that moment. */
  lemma {:induction false} CapHoldsIffNeverStale(env: Env, l: Ledger, runs: seq<Run>, schedule: seq<nat>)
    requires Starting(env, l, runs) && CapRespected(env, l)
    ensures CapRespected(env, Execute(env, System(l, runs), schedule).ledger)
      <==> NeverStale(env, System(l, runs), schedule)
  {
    if schedule != [] {
      hide Starting, Shaped, UniqueIds, Sane, Within, StepOne, Stale, CapRespected;
      var n := |schedule| - 1;
      CapHoldsIffNeverStale(env, l, runs, schedule[..n]);
      ReachedSane(env, l, runs, schedule[..n]);
      StartingMeans(env, l, runs);
      var before := Execute(env, System(l, runs), schedule[..n]);
      if schedule[n] < |before.runs| {
        var r := before.runs[schedule[n]];
        if CapRespected(env, before.ledger) {
          CapBrokenOnlyByStaleStep(env, before.ledger, r);
        } else {
          BrokenStaysBroken(env, before.ledger, r);
        }
      }
    }
  }

  lemma StartingMeans(env: Env, l: Ledger, runs: seq<Run>)
    requires Starting(env, l, runs)
    ensures Shaped(env) && UniqueIds(env.signals)
  {
  }

  lemma BrokenStaysBroken(env: Env, l: Ledger, r: Run)
    requires Shaped(env) && UniqueIds(env.signals) && Within(r.sigs, env.signals) && Sane(env, r)
    requires !CapRespected(env, l)
    ensures !CapRespected(env, StepOne(env, l, r).0)
  {
    hide StepOne, DayCount, DailyCap, Writes, Sane, Shaped, UniqueIds, Within;
    var date :| DayCount(env, l, date) > DailyCap(env);
    StepOneDayCount(env, l, r, date);
  }

  /** Past the cap check for a day, and not done with the signal. */
  predicate PastCheck(r: Run, date: int) {
    !Finished(r) && (r.stage.Simulating? || r.stage.Recording?) && CurrentDay(r) == date
  }

  function CountPast(runs: seq<Run>, date: int): nat {
    if runs == [] then 0
    else CountPast(runs[..|runs| - 1], date) + (if PastCheck(runs[|runs| - 1], date) then 1 else 0)
  }

  lemma {:induction false} CountPastUpdate(runs: seq<Run>, i: nat, r: Run, date: int)
    requires i < |runs|
    ensures CountPast(runs[i := r], date)
         == CountPast(runs, date) - (if PastCheck(runs[i], date) then 1 else 0) + (if PastCheck(r, date) then 1 else 0)
    ensures !PastCheck(runs[i], date) ==> CountPast(runs, date) <= |runs| - 1
    decreases |runs|
  {
    hide PastCheck;
    var n := |runs| - 1;
    CountPastBound(runs[..n], date);
    if i == n {
      assert runs[i := r][..n] == runs[..n];
    } else {
      CountPastUpdate(runs[..n], i, r, date);
      assert runs[i := r][..n] == runs[..n][i := r];
    }
  }

  lemma {:induction false} CountPastBound(runs: seq<Run>, date: int)
    ensures CountPast(runs, date) <= |runs|
  {
    if runs != [] {
      CountPastBound(runs[..|runs| - 1], date);
    }
  }

  /** How a step moves a replay past the check, or off it. */
  lemma StepOnePast(env: Env, l: Ledger, r: Run, date: int)
    ensures PastCheck(StepOne(env, l, r).1, date) && !PastCheck(r, date) ==> DayCount(env, l, date) < DailyCap(env)
    ensures Writes(l, r) && CurrentDay(r) == date ==>
      PastCheck(r, date) && !PastCheck(StepOne(env, l, r).1, date)
  {
    hide DayCount, HasTrade, Written, IstDate;
  }

  /** Trades of the day and replays past its check together stay below the cap plus the number of replays. */
  predicate WithinRivals(env: Env, sys: System, date: int) {
    DayCount(env, sys.ledger, date) + CountPast(sys.runs, date) <= DailyCap(env) + |sys.runs| - 1
  }

  lemma StepKeepsRivals(env: Env, sys: System, who: nat, date: int)
    requires Shaped(env) && UniqueIds(env.signals) && who < |sys.runs|
    requires Within(sys.runs[who].sigs, env.signals) && Sane(env, sys.runs[who])
    requires WithinRivals(env, sys, date)
    ensures WithinRivals(env, Step(env, sys, who), date)
  {
    hide StepOne, DayCount, DailyCap, Writes, Sane, Shaped, UniqueIds, Within, PastCheck, CountPast;
    var r := sys.runs[who];
    StepOneDayCount(env, sys.ledger, r, date);
    StepOnePast(env, sys.ledger, r, date);
    CountPastUpdate(sys.runs, who, StepOne(env, sys.ledger, r).1, date);
  }

  lemma {:induction false} NobodyPast(runs: seq<Run>, date: int)
    requires forall i :: 0 <= i < |runs| ==> runs[i].stage == Checking
    ensures CountPast(runs, date) == 0
  {
    if runs != [] {
      NobodyPast(runs[..|runs| - 1], date);
    }
  }

  lemma {:induction false} RivalsBound(env: Env, l: Ledger, runs: seq<Run>, schedule: seq<nat>, date: int)
    requires Starting(env, l, runs) && runs != [] && DayCount(env, l, date) <= DailyCap(env)
    ensures WithinRivals(env, Execute(env, System(l, runs), schedule), date)
  {
    if schedule == [] {
      NobodyPast(runs, date);
    } else {
      hide Starting, Shaped, UniqueIds, Sane, Within, WithinRivals, StepOne;
      var n := |schedule| - 1;
      RivalsBound(env, l, runs, schedule[..n], date);
      ReachedSane(env, l, runs, schedule[..n]);
      StartingMeans(env, l, runs);
      if schedule[n] < |runs| {
        StepKeepsRivals(env, Execute(env, System(l, runs), schedule[..n]), schedule[n], date);
      }
    }
  }

  /** HOW FAR THE CAP CAN GIVE. Under every schedule of N replays no day holds more than its cap plus N - 1 trades. */
  lemma CapExceededByAtMostRivals(env: Env, l: Ledger, runs: seq<Run>, schedule: seq<nat>, date: int)
    requires Starting(env, l, runs) && runs != [] && DayCount(env, l, date) <= DailyCap(env)
    ensures DayCount(env, Execute(env, System(l, runs), schedule).ledger, date) <= DailyCap(env) + |runs| - 1
  {
    hide DayCount, DailyCap, Starting, Execute;
    ReachedSane(env, l, runs, schedule);
    RivalsBound(env, l, runs, schedule, date);
  }
}
