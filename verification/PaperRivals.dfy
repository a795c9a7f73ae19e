// How far interleaving really goes: the cap is checked before the record and not again, so replays that pass the check
// together all trade. The bound of cap plus N minus one trades is reached for every cap and every N.

module PaperRivals {
  import opened Options
  import opened MarketClock
  import opened PaperTypes
  import opened PaperLedger
  import opened PaperReplay
  import opened PaperConcurrency
  import opened PaperEvaluation
  import opened PaperFlatDay

  // ----- schedules

  lemma {:induction false} ExecuteConcatenates(env: Env, sys: System, a: seq<nat>, b: seq<nat>)
    ensures Execute(env, sys, a + b) == Execute(env, Execute(env, sys, a), b)
  {
    if b == [] {
      assert a + b == a;
    } else {
      hide Step;
      var n := |b| - 1;
      ExecuteConcatenates(env, sys, a, b[..n]);
      assert (a + b)[..|a + b| - 1] == a + b[..n];
    }
  }

  lemma ExecuteTwo(env: Env, sys: System, who: nat)
    ensures Execute(env, sys, [who, who]) == Step(env, Step(env, sys, who), who)
  {
    hide Step;
    assert [who, who][..1] == [who] && [who][..0] == [];
    assert Execute(env, sys, [who]) == Step(env, sys, who);
  }

  /** Two steps of each of the first `k` replays in turn. */
  function InTurn(k: nat): seq<nat> {
    if k == 0 then [] else InTurn(k - 1) + [k - 1, k - 1]
  }

  /** The first replay alone, through `m` signals. */
  function Ahead(m: nat): seq<nat> {
    if m == 0 then [] else Ahead(m - 1) + ([0, 0] + [0, 0])
  }

  /** The first replay fills the day up to one below the cap; then all pass the check; then all record. */
  function RivalSchedule(cap: nat, n: nat): seq<nat>
    requires cap >= 1
  {
    (Ahead(cap - 1) + InTurn(n)) + InTurn(n)
  }

  // ----- a crowded day

  /** Fillable signals of one day, each once. */
  ghost predicate Crowd(env: Env, sigs: seq<PaperSignal>, date: int) {
    && Shaped(env) && UniqueIds(env.signals) && UniqueIds(sigs) && Within(sigs, env.signals)
    && forall k :: 0 <= k < |sigs| ==> IstDate(sigs[k].signalTime) == date && Fillable(env, sigs[k])
  }

  /** The first replay loads `cap` of the signals, every other replay one more. */
  function Rivals(sigs: seq<PaperSignal>, cap: nat, n: nat): (runs: seq<Run>)
    requires cap >= 1 && n >= 1 && |sigs| == cap + n - 1
    ensures |runs| == n && runs[0] == StartRun(sigs[..cap])
    ensures forall i :: 1 <= i < n ==> runs[i] == StartRun([sigs[cap - 1 + i]])
  {
    [StartRun(sigs[..cap])] + seq(n - 1, i requires 0 <= i < n - 1 => StartRun([sigs[cap + i]]))
  }

  /** The first `m` signals have traded, and no other. */
  ghost predicate Traded(env: Env, sigs: seq<PaperSignal>, date: int, m: nat, l: Ledger) {
    && m <= |sigs| && DayCount(env, l, date) == m
    && forall k :: m <= k < |sigs| ==> !HasTrade(l, sigs[k].id)
  }

  lemma NothingTraded(env: Env, sigs: seq<PaperSignal>, date: int)
    ensures Traded(env, sigs, date, 0, EMPTY)
  {
  }

  lemma NextTrades(env: Env, sigs: seq<PaperSignal>, date: int, m: nat, l: Ledger)
    requires Crowd(env, sigs, date) && m < |sigs| && Traded(env, sigs, date, m, l)
    ensures Traded(env, sigs, date, m + 1, Written(l, sigs[m].id, env.evaluate(sigs[m])))
  {
    hide DayCount, HasTrade, Written, IstDate;
    var o := env.evaluate(sigs[m]);
    assert WellShaped(o);
    DayCountStep(env, l, sigs[m], o, date);
    forall k | m + 1 <= k < |sigs| ensures !HasTrade(Written(l, sigs[m].id, o), sigs[k].id) {
      HasTradeStep(l, sigs[m].id, o, sigs[k].id);
    }
  }

  // ----- two steps of one replay

  /** Looking for a trade and counting the day. */
  lemma PassesCheck(env: Env, sys: System, who: nat, s: PaperSignal)
    requires who < |sys.runs| && !Finished(sys.runs[who]) && sys.runs[who].stage == Checking
    requires Current(sys.runs[who]) == s && !HasTrade(sys.ledger, s.id) && CapReason(env, sys.ledger, s).None?
    ensures Execute(env, sys, [who, who])
         == System(sys.ledger, sys.runs[who := sys.runs[who].(stage := Simulating)])
  {
    hide HasTrade, CapReason, Record, Execute;
    ExecuteTwo(env, sys, who);
    var r := sys.runs[who];
    var middle := Step(env, sys, who);
    assert middle == System(sys.ledger, sys.runs[who := r.(stage := Capping)]);
    assert middle.runs[who] == r.(stage := Capping);
    assert middle.runs[who := r.(stage := Simulating)] == sys.runs[who := r.(stage := Simulating)];
  }

  /** Simulating and recording. */
  lemma Records(env: Env, sys: System, who: nat, s: PaperSignal)
    requires who < |sys.runs| && !Finished(sys.runs[who]) && sys.runs[who].stage == Simulating
    requires Current(sys.runs[who]) == s && !HasTrade(sys.ledger, s.id)
    ensures Execute(env, sys, [who, who])
         == System(Written(sys.ledger, s.id, env.evaluate(s)), sys.runs[who := Advance(sys.runs[who], env.evaluate(s))])
  {
    hide HasTrade, CapReason, Execute, Written;
    ExecuteTwo(env, sys, who);
    var r, o := sys.runs[who], env.evaluate(s);
    var middle := Step(env, sys, who);
    assert middle == System(sys.ledger, sys.runs[who := r.(stage := Recording(o))]);
    assert middle.runs[who] == r.(stage := Recording(o)) && Current(middle.runs[who]) == s;
    assert Record(middle.ledger, s.id, o) == Ok(Written(sys.ledger, s.id, o));
    assert Advance(middle.runs[who], o) == Advance(r, o);
    assert middle.runs[who := Advance(r, o)] == sys.runs[who := Advance(r, o)];
  }

  lemma UnderCap(env: Env, sigs: seq<PaperSignal>, date: int, m: nat, l: Ledger, k: nat)
    requires Crowd(env, sigs, date) && Traded(env, sigs, date, m, l) && m < env.config.maxTradesPerDay && k < |sigs|
    ensures CapReason(env, l, sigs[k]).None?
  {
    hide DayCount, HasTrade, IstDate;
  }

  // ----- the first replay alone

  /** The first replay stands before its `m`-th signal, the others have not begun. */
  ghost predicate AheadBy(m: nat, runs: seq<Run>, now: seq<Run>) {
    && |now| == |runs| >= 1
    && (forall i :: 1 <= i < |runs| ==> now[i] == runs[i])
    && now[0].sigs == runs[0].sigs && now[0].stage == Checking && |now[0].outcomes| == m
  }

  lemma AheadByOne(m: nat, runs: seq<Run>, now: seq<Run>, r: Run, o: Outcome)
    requires AheadBy(m, runs, now) && r == now[0].(stage := Simulating)
    ensures now[0 := r][0 := Advance(r, o)] == now[0 := Advance(r, o)]
    ensures AheadBy(m + 1, runs, now[0 := Advance(r, o)])
  {
  }

  /** The first replay does one more signal. */
  lemma OneAhead(env: Env, sigs: seq<PaperSignal>, date: int, cap: nat, n: nat, m: nat, sys: System)
    requires Crowd(env, sigs, date) && env.config.maxTradesPerDay == cap >= 1 && n >= 1 && |sigs| == cap + n - 1
    requires m < cap - 1 && AheadBy(m, Rivals(sigs, cap, n), sys.runs) && Traded(env, sigs, date, m, sys.ledger)
    ensures var after := Execute(env, sys, [0, 0] + [0, 0]);
      AheadBy(m + 1, Rivals(sigs, cap, n), after.runs) && Traded(env, sigs, date, m + 1, after.ledger)
  {
    hide Execute, Crowd, DayCount, HasTrade, Written, CapReason, Advance, Rivals;
    var r, s := sys.runs[0], sigs[m];
    assert r.sigs == sigs[..cap] && r.sigs[m] == s;
    UnderCap(env, sigs, date, m, sys.ledger, m);
    PassesCheck(env, sys, 0, s);
    var passed := System(sys.ledger, sys.runs[0 := r.(stage := Simulating)]);
    Records(env, passed, 0, s);
    AheadByOne(m, Rivals(sigs, cap, n), sys.runs, r.(stage := Simulating), env.evaluate(s));
    NextTrades(env, sigs, date, m, sys.ledger);
    ExecuteConcatenates(env, sys, [0, 0], [0, 0]);
  }

  lemma {:induction false} GetsAhead(env: Env, sigs: seq<PaperSignal>, date: int, cap: nat, n: nat, m: nat)
    requires Crowd(env, sigs, date) && env.config.maxTradesPerDay == cap >= 1 && n >= 1 && |sigs| == cap + n - 1
    requires m <= cap - 1
    ensures var after := Execute(env, System(EMPTY, Rivals(sigs, cap, n)), Ahead(m));
      AheadBy(m, Rivals(sigs, cap, n), after.runs) && Traded(env, sigs, date, m, after.ledger)
  {
    hide Crowd, Traded, AheadBy, Step;
    var start := System(EMPTY, Rivals(sigs, cap, n));
    if m == 0 {
      NothingTraded(env, sigs, date);
      NotYetAhead(sigs, cap, n);
    } else {
      GetsAhead(env, sigs, date, cap, n, m - 1);
      OneAhead(env, sigs, date, cap, n, m - 1, Execute(env, start, Ahead(m - 1)));
      ExecuteConcatenates(env, start, Ahead(m - 1), [0, 0] + [0, 0]);
    }
  }

  lemma NotYetAhead(sigs: seq<PaperSignal>, cap: nat, n: nat)
    requires cap >= 1 && n >= 1 && |sigs| == cap + n - 1
    ensures AheadBy(0, Rivals(sigs, cap, n), Rivals(sigs, cap, n))
  {
  }

  // ----- all together

  /** From the `k`-th on the replays stand at `stage`, each before the next signal after `m`. */
  ghost predicate Waiting(sigs: seq<PaperSignal>, m: nat, stage: Stage, k: nat, runs: seq<Run>) {
    && m + |runs| == |sigs|
    && forall i :: k <= i < |runs| ==>
         !Finished(runs[i]) && runs[i].stage == stage && Current(runs[i]) == sigs[m + i]
  }

  /** The first `k` replays have passed the check. */
  ghost predicate Passed(sigs: seq<PaperSignal>, m: nat, k: nat, runs: seq<Run>) {
    forall i :: 0 <= i < k <= |runs| ==>
      m + |runs| == |sigs| && !Finished(runs[i]) && runs[i].stage == Simulating && Current(runs[i]) == sigs[m + i]
  }

  lemma OnePasses(sigs: seq<PaperSignal>, m: nat, k: nat, runs: seq<Run>)
    requires k < |runs| && Waiting(sigs, m, Checking, k, runs) && Passed(sigs, m, k, runs)
    ensures var now := runs[k := runs[k].(stage := Simulating)];
      Waiting(sigs, m, Checking, k + 1, now) && Passed(sigs, m, k + 1, now)
  {
  }

  lemma {:induction false} AllPass(env: Env, sigs: seq<PaperSignal>, date: int, m: nat, k: nat, sys: System)
    requires Crowd(env, sigs, date) && Traded(env, sigs, date, m, sys.ledger) && m < env.config.maxTradesPerDay
    requires k <= |sys.runs| && Waiting(sigs, m, Checking, 0, sys.runs)
    ensures var after := Execute(env, sys, InTurn(k));
      && after.ledger == sys.ledger && |after.runs| == |sys.runs|
      && Waiting(sigs, m, Checking, k, after.runs) && Passed(sigs, m, k, after.runs)
  {
    hide Crowd, DayCount, HasTrade, CapReason, Step, Passed, Execute;
    if k == 0 {
      NobodyPassed(env, sigs, m, sys);
    } else {
      AllPass(env, sigs, date, m, k - 1, sys);
      var before := Execute(env, sys, InTurn(k - 1));
      UnderCap(env, sigs, date, m, sys.ledger, m + k - 1);
      PassesCheck(env, before, k - 1, sigs[m + k - 1]);
      OnePasses(sigs, m, k - 1, before.runs);
      ExecuteConcatenates(env, sys, InTurn(k - 1), [k - 1, k - 1]);
    }
  }

  lemma NobodyPassed(env: Env, sigs: seq<PaperSignal>, m: nat, sys: System)
    ensures Execute(env, sys, []) == sys && Passed(sigs, m, 0, sys.runs)
  {
  }

  lemma PassedAreWaiting(sigs: seq<PaperSignal>, m: nat, runs: seq<Run>)
    requires m + |runs| == |sigs| && Passed(sigs, m, |runs|, runs)
    ensures Waiting(sigs, m, Simulating, 0, runs)
  {
  }

  lemma {:induction false} AllRecord(env: Env, sigs: seq<PaperSignal>, date: int, m: nat, k: nat, sys: System)
    requires Crowd(env, sigs, date) && Traded(env, sigs, date, m, sys.ledger)
    requires k <= |sys.runs| && Waiting(sigs, m, Simulating, 0, sys.runs)
    ensures var after := Execute(env, sys, InTurn(k));
      && |after.runs| == |sys.runs| && Waiting(sigs, m, Simulating, k, after.runs)
      && Traded(env, sigs, date, m + k, after.ledger)
  {
    hide Crowd, DayCount, HasTrade, CapReason, Step, Written, Execute, Advance;
    if k == 0 {
      NobodyPassed(env, sigs, m, sys);
    } else {
      AllRecord(env, sigs, date, m, k - 1, sys);
      var before := Execute(env, sys, InTurn(k - 1));
      Records(env, before, k - 1, sigs[m + k - 1]);
      NextTrades(env, sigs, date, m + k - 1, before.ledger);
      ExecuteConcatenates(env, sys, InTurn(k - 1), [k - 1, k - 1]);
    }
  }

  lemma AllWaiting(sigs: seq<PaperSignal>, cap: nat, n: nat, runs: seq<Run>)
    requires cap >= 1 && n >= 1 && |sigs| == cap + n - 1 && AheadBy(cap - 1, Rivals(sigs, cap, n), runs)
    ensures Waiting(sigs, cap - 1, Checking, 0, runs)
  {
  }

  // ----- the bound is reached

  lemma RivalsStart(env: Env, sigs: seq<PaperSignal>, date: int, cap: nat, n: nat)
    requires Crowd(env, sigs, date) && cap >= 1 && n >= 1 && |sigs| == cap + n - 1
    ensures Starting(env, EMPTY, Rivals(sigs, cap, n))
  {
    hide Shaped, UniqueIds, DayCount, Rivals;
    var runs := Rivals(sigs, cap, n);
    forall i | 0 <= i < n ensures Within(runs[i].sigs, env.signals) {
      forall k | 0 <= k < |runs[i].sigs| ensures runs[i].sigs[k] in env.signals {
        assert runs[i].sigs[k] == sigs[if i == 0 then k else cap - 1 + i];
      }
    }
  }

  /** THE BOUND IS REACHED. For every cap and every number of replays, signals that all fill on one day and a schedule
      of replays started together on an empty ledger leave exactly cap + N - 1 trades on that day. */
  lemma RivalsReachBound(env: Env, sigs: seq<PaperSignal>, date: int, cap: nat, n: nat)
    requires Crowd(env, sigs, date) && env.config.maxTradesPerDay == cap >= 1 && n >= 1 && |sigs| == cap + n - 1
    ensures var runs := Rivals(sigs, cap, n);
      && Starting(env, EMPTY, runs)
      && DayCount(env, Execute(env, System(EMPTY, runs), RivalSchedule(cap, n)).ledger, date) == cap + n - 1
  {
    hide Crowd, DayCount, HasTrade, Step, Execute, Waiting, Passed, Rivals, AheadBy;
    var start := System(EMPTY, Rivals(sigs, cap, n));
    RivalsStart(env, sigs, date, cap, n);
    GetsAhead(env, sigs, date, cap, n, cap - 1);
    var ahead := Execute(env, start, Ahead(cap - 1));
    RivalCount(sigs, cap, n, ahead.runs);
    AllWaiting(sigs, cap, n, ahead.runs);
    AllPass(env, sigs, date, cap - 1, n, ahead);
    var passed := Execute(env, ahead, InTurn(n));
    PassedAreWaiting(sigs, cap - 1, passed.runs);
    AllRecord(env, sigs, date, cap - 1, n, passed);
    ExecuteConcatenates(env, start, Ahead(cap - 1), InTurn(n));
    ExecuteConcatenates(env, start, Ahead(cap - 1) + InTurn(n), InTurn(n));
  }

  lemma RivalCount(sigs: seq<PaperSignal>, cap: nat, n: nat, runs: seq<Run>)
    requires cap >= 1 && n >= 1 && |sigs| == cap + n - 1 && AheadBy(cap - 1, Rivals(sigs, cap, n), runs)
    ensures |runs| == n
  {
  }

  // ----- on the engine

  lemma FlatCrowd(cap: nat, n: nat)
    requires cap >= 1 && n >= 1
    ensures Crowd(EnvOf(FlatInputs(cap, cap + n - 1, 0.0)), LongSignals(cap + n - 1), 0)
  {
    hide Evaluate, Shaped;
    var count := cap + n - 1;
    var inputs := FlatInputs(cap, count, 0.0);
    EnvIsShaped(inputs);
    forall k | 0 <= k < count ensures Fillable(EnvOf(inputs), LongSignals(count)[k]) {
      FlatDayCloses(cap, count, 0.0, k + 1);
    }
    assert IstDate(0) == 0;
  }

  /** The daily cap can be exceeded: on stored candles of a flat day, whatever the cap and the number of replays, the
      engine's trades of that day exceed the cap by as many as there are rivals to the first replay. */
  lemma InterleavingCanExceedCap(cap: nat, n: nat)
    requires cap >= 1 && n >= 1
    ensures var env := EnvOf(FlatInputs(cap, cap + n - 1, 0.0));
      var runs := Rivals(LongSignals(cap + n - 1), cap, n);
      && Starting(env, EMPTY, runs) && DailyCap(env) == cap
      && DayCount(env, Execute(env, System(EMPTY, runs), RivalSchedule(cap, n)).ledger, 0) == cap + n - 1
  {
    hide Crowd, Starting, Execute, DayCount, Rivals, RivalSchedule;
    FlatCrowd(cap, n);
    RivalsReachBound(EnvOf(FlatInputs(cap, cap + n - 1, 0.0)), LongSignals(cap + n - 1), 0, cap, n);
  }
}
