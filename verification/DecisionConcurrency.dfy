// Evaluations that interleave, within one service instance (which serializes them with its lock) and across
// instances (which share only the database). Every await is a point where any other task may run.

module DecisionConcurrency {
  import opened Options
  import opened DecisionOutput
  import opened DecisionStore

  /** Where an evaluation stands: waiting for its instance's lock, about to look the key up, waiting for the
      adapter, about to record, or done. `called` says whether it got past the lookup. */
  datatype Stage =
    | Waiting
    | Looking
    | Asking
    | Writing(entry: Entry)
    | Finished(result: Option<Persisted>, called: bool)

  datatype Task = Task(instance: nat, signal: DecisionSignal, settings: Settings, force: bool, stage: Stage)

  datatype System = System(store: Store, tasks: seq<Task>)

  function Key(t: Task): EvaluationKey {
    KeyOf(t.signal, t.settings.identity)
  }

  /** Holds its instance's lock. */
  predicate Busy(t: Task) {
    t.stage.Looking? || t.stage.Asking? || t.stage.Writing?
  }

  predicate PastLookup(t: Task) {
    t.stage.Asking? || t.stage.Writing?
  }

  predicate LockFree(tasks: seq<Task>, who: nat)
    requires who < |tasks|
  {
    forall j :: 0 <= j < |tasks| && j != who && tasks[j].instance == tasks[who].instance ==> !Busy(tasks[j])
  }

  predicate UsableSecrets(t: Task) {
    forall i :: 0 <= i < |t.settings.policy.secrets| ==> t.settings.policy.secrets[i] != ""
  }

  /** One atomic step of a task; `answer` is what the adapter does if this step asks it. */
  function Advance(s: Store, t: Task, free: bool, answer: Answer): (Store, Task)
    requires |s.runs| == |s.recommendations| && UsableSecrets(t)
  {
    match t.stage
    case Waiting => (s, if free then t.(stage := Looking) else t)
    case Looking =>
      if !t.force && Stored(s, Key(t)) then (s, t.(stage := Finished(Some(ExistingAt(s, Key(t))), false)))
      else (s, t.(stage := Asking))
    case Asking =>
      (match EntryFor(t.signal, t.settings, answer, t.force)
       case None => (s, t.(stage := Finished(None, true)))
       case Some(e) => (s, t.(stage := Writing(e))))
    case Writing(e) =>
      var (after, got) := Record(s, e);
      (after, t.(stage := Finished(Some(got), true)))
    case Finished(_, _) => (s, t)
  }

  // ----- invariant

  predicate Succeeded(t: Task) {
    !t.force && t.stage.Finished? && t.stage.result.Some?
  }

  predicate Called(t: Task) {
    Succeeded(t) && t.stage.called
  }

  predicate Created(t: Task) {
    Succeeded(t) && !t.stage.result.value.existing
  }

  predicate SameWork(t: Task, u: Task) {
    !t.force && !u.force && Key(t) == Key(u)
  }

  /** A finished unforced task holds the one stored recommendation of its key; a task about to record carries its
      own entry; alone on its instance it never passed the lookup with its key stored. */
  ghost predicate TaskOk(s: Store, t: Task, alone: bool) {
    && ValidPolicy(t.settings.policy)
    && (t.stage.Writing? ==>
          && Sound(t.stage.entry) && t.stage.entry.signal == t.signal
          && t.stage.entry.identity == t.settings.identity && t.stage.entry.keyed == !t.force)
    && (Succeeded(t) ==>
          && |s.runs| == |s.recommendations| && Stored(s, Key(t))
          && ExistingAt(s, Key(t)) == t.stage.result.value.(existing := true))
    && (alone && !t.force && PastLookup(t) ==> !Stored(s, Key(t)))
  }

  predicate PairOk(t: Task, u: Task) {
    && (t.instance == u.instance ==> !(Busy(t) && Busy(u)))
    && (t.instance == u.instance && SameWork(t, u) ==>
          !(PastLookup(t) && Succeeded(u)) && !(Called(t) && Called(u)))
    && (SameWork(t, u) ==> !(Created(t) && Created(u)))
  }

  predicate OneInstance(tasks: seq<Task>) {
    forall i :: 0 <= i < |tasks| ==> tasks[i].instance == tasks[0].instance
  }

  ghost predicate Safe(sys: System) {
    && Consistent(sys.store)
    && (forall i :: 0 <= i < |sys.tasks| ==> TaskOk(sys.store, sys.tasks[i], OneInstance(sys.tasks)))
    && forall i, j :: 0 <= i < |sys.tasks| && 0 <= j < |sys.tasks| && i != j ==> PairOk(sys.tasks[i], sys.tasks[j])
  }

  /** The store has one run per recommendation and no secret is empty: so in every reachable state. */
  predicate Runnable(sys: System, who: nat) {
    who < |sys.tasks| && |sys.store.runs| == |sys.store.recommendations| && UsableSecrets(sys.tasks[who])
  }

  /** One step of task `who`. */
  function Step(sys: System, who: nat, answer: Answer): System {
    if !Runnable(sys, who) then sys
    else
      var (s, t) := Advance(sys.store, sys.tasks[who], LockFree(sys.tasks, who), answer);
      System(s, sys.tasks[who := t])
  }

  lemma AdvanceKeepsStore(s: Store, t: Task, free: bool, answer: Answer)
    requires Consistent(s) && TaskOk(s, t, false)
    ensures var after := Advance(s, t, free, answer).0;
      && Consistent(after)
      && s.recommendations <= after.recommendations && s.runs <= after.runs
  {
    hide Consistent, EntryFor;
    if t.stage.Writing? {
      RecordKeepsConsistency(s, t.stage.entry);
    } else {
      ConsistentLengths(s);
    }
  }

  lemma StoredStays(s: Store, after: Store, key: EvaluationKey)
    requires Consistent(s) && Consistent(after)
    requires s.recommendations <= after.recommendations && s.runs <= after.runs
    requires Stored(s, key)
    ensures Stored(after, key) && ExistingAt(after, key) == ExistingAt(s, key)
  {
    var n := |s.recommendations|;
    assert after.recommendations == s.recommendations + after.recommendations[n..];
    FindIsStable(s.recommendations, after.recommendations[n..], key);
  }

  lemma AdvanceKeepsSelf(s: Store, t: Task, free: bool, answer: Answer, alone: bool)
    requires Consistent(s) && TaskOk(s, t, alone)
    ensures var (after, u) := Advance(s, t, free, answer);
      TaskOk(after, u, alone) && u == t.(stage := u.stage)
  {
    hide Consistent, EntryFor, Find;
    ConsistentLengths(s);
    match t.stage
    case Asking =>
      if EntryFor(t.signal, t.settings, answer, t.force).Some? {
        EntryIsSound(t.signal, t.settings, answer, t.force);
      }
    case Writing(e) =>
      if e.keyed {
        RecordStoresKey(s, e);
      }
      AdvanceKeepsStore(s, t, free, answer);
      ConsistentLengths(Advance(s, t, free, answer).0);
    case Looking =>
    case Waiting =>
    case Finished(_, _) =>
  }

  lemma AdvanceKeepsOther(s: Store, t: Task, u: Task, free: bool, answer: Answer, alone: bool)
    requires Consistent(s) && TaskOk(s, t, alone) && TaskOk(s, u, alone)
    requires PairOk(t, u) && (alone ==> t.instance == u.instance)
    ensures TaskOk(Advance(s, t, free, answer).0, u, alone)
  {
    hide Consistent, EntryFor, Find, Record, ExistingAt;
    ConsistentLengths(s);
    AdvanceKeepsStore(s, t, free, answer);
    var after := Advance(s, t, free, answer).0;
    ConsistentLengths(after);
    if Succeeded(u) {
      StoredStays(s, after, Key(u));
    }
  }

  lemma AdvanceKeepsPair(s: Store, t: Task, u: Task, free: bool, answer: Answer)
    requires Consistent(s) && TaskOk(s, t, false) && TaskOk(s, u, false)
    requires PairOk(t, u) && PairOk(u, t)
    requires free && t.instance == u.instance ==> !Busy(u)
    ensures var after := Advance(s, t, free, answer).1;
      PairOk(after, u) && PairOk(u, after)
  {
    hide Consistent, EntryFor, Find, ExistingAt;
    ConsistentLengths(s);
    if t.stage.Writing? && t.stage.entry.keyed {
      RecordStoresKey(s, t.stage.entry);
    }
  }

  lemma OkMeansUsable(s: Store, t: Task, alone: bool)
    requires TaskOk(s, t, alone)
    ensures UsableSecrets(t) && TaskOk(s, t, false)
  {
  }

  lemma InstancesStay(tasks: seq<Task>, who: nat, t: Task)
    requires who < |tasks| && t.instance == tasks[who].instance
    ensures OneInstance(tasks[who := t]) == OneInstance(tasks)
  {
    var after := tasks[who := t];
    assert forall i :: 0 <= i < |tasks| ==> after[i].instance == tasks[i].instance;
  }

  /** Every step of every task keeps the invariant. */
  lemma StepIsSafe(sys: System, who: nat, answer: Answer)
    requires Safe(sys)
    ensures Safe(Step(sys, who, answer))
  {
    hide Consistent, TaskOk, PairOk, Advance, Busy, OneInstance, UsableSecrets;
    ConsistentLengths(sys.store);
    if who < |sys.tasks| {
      var t, free := sys.tasks[who], LockFree(sys.tasks, who);
      var alone := OneInstance(sys.tasks);
      OkMeansUsable(sys.store, t, alone);
      var after := Step(sys, who, answer);
      AdvanceKeepsStore(sys.store, t, free, answer);
      AdvanceKeepsSelf(sys.store, t, free, answer, alone);
      InstancesStay(sys.tasks, who, after.tasks[who]);
      forall i | 0 <= i < |sys.tasks| ensures TaskOk(after.store, after.tasks[i], alone) {
        if i != who {
          SharedInstance(sys.tasks, who, i);
          AdvanceKeepsOther(sys.store, t, sys.tasks[i], free, answer, alone);
        }
      }
      forall i | 0 <= i < |sys.tasks| && i != who
        ensures PairOk(after.tasks[who], after.tasks[i]) && PairOk(after.tasks[i], after.tasks[who])
      {
        OkMeansUsable(sys.store, sys.tasks[i], alone);
        AdvanceKeepsPair(sys.store, t, sys.tasks[i], free, answer);
      }
    }
  }

  lemma SharedInstance(tasks: seq<Task>, i: nat, j: nat)
    requires i < |tasks| && j < |tasks|
    ensures OneInstance(tasks) ==> tasks[i].instance == tasks[j].instance
  {
  }

  // ----- whole runs

  datatype Move = Move(who: nat, answer: Answer)

  function Execute(sys: System, schedule: seq<Move>): System {
    if schedule == [] then sys
    else
      var last := schedule[|schedule| - 1];
      Step(Execute(sys, schedule[..|schedule| - 1]), last.who, last.answer)
  }

  ghost predicate Initial(sys: System) {
    && Consistent(sys.store)
    && forall i :: 0 <= i < |sys.tasks| ==> sys.tasks[i].stage == Waiting && ValidPolicy(sys.tasks[i].settings.policy)
  }

  lemma InitialIsSafe(sys: System)
    requires Initial(sys)
    ensures Safe(sys)
  {
  }

  lemma {:induction false} ReachableIsSafe(sys: System, schedule: seq<Move>)
    requires Initial(sys)
    ensures Safe(Execute(sys, schedule))
  {
    hide Safe, Step, Initial;
    if schedule == [] {
      InitialIsSafe(sys);
    } else {
      var n := |schedule| - 1;
      ReachableIsSafe(sys, schedule[..n]);
      StepIsSafe(Execute(sys, schedule[..n]), schedule[n].who, schedule[n].answer);
    }
  }

  /** Under every schedule, at most one recommendation is stored per evaluation key and every failed run
      recommends a rejection. */
  lemma KeysAreUnique(sys: System, schedule: seq<Move>, end: System)
    requires Initial(sys) && end == Execute(sys, schedule)
    ensures forall i, j :: 0 <= i < j < |end.store.recommendations| && end.store.recommendations[i].key.Some? ==>
      end.store.recommendations[i].key != end.store.recommendations[j].key
    ensures |end.store.runs| == |end.store.recommendations|
    ensures forall i :: 0 <= i < |end.store.runs| && end.store.runs[i].status == FAILED ==>
      end.store.recommendations[i].decision.verdict == REJECT
  {
    ReachableIsSafe(sys, schedule);
    forall i | 0 <= i < |end.store.runs| && end.store.runs[i].status == FAILED
      ensures end.store.recommendations[i].decision.verdict == REJECT
    {
      assert Linked(end.store, i);
    }
  }

  /** All unforced evaluations of one key, on any instances, return the same recommendation, and at most one of
      them created it. */
  lemma EvaluationsAgree(sys: System, schedule: seq<Move>, end: System, i: nat, j: nat)
    requires Initial(sys) && end == Execute(sys, schedule)
    requires i < |end.tasks| && j < |end.tasks| && i != j
    requires SameWork(end.tasks[i], end.tasks[j]) && Succeeded(end.tasks[i]) && Succeeded(end.tasks[j])
    ensures var a, b := end.tasks[i].stage.result.value, end.tasks[j].stage.result.value;
      && a.recommendation == b.recommendation && a.run == b.run
      && (a.existing || b.existing)
      && a.recommendation in end.store.recommendations
  {
    hide Consistent, Execute, Find;
    ReachableIsSafe(sys, schedule);
    assert TaskOk(end.store, end.tasks[i], OneInstance(end.tasks));
    assert TaskOk(end.store, end.tasks[j], OneInstance(end.tasks));
    assert PairOk(end.tasks[i], end.tasks[j]);
  }

  /** Within one instance the adapter answers at most once per key: of two unforced evaluations that both
      returned a recommendation, one was served from the store. */
  lemma InstanceCallsOnce(sys: System, schedule: seq<Move>, end: System, i: nat, j: nat)
    requires Initial(sys) && end == Execute(sys, schedule)
    requires i < |end.tasks| && j < |end.tasks| && i != j
    requires end.tasks[i].instance == end.tasks[j].instance && SameWork(end.tasks[i], end.tasks[j])
    ensures !(Called(end.tasks[i]) && Called(end.tasks[j]))
    ensures Succeeded(end.tasks[i]) ==> !PastLookup(end.tasks[j])
  {
    hide Consistent, Execute, TaskOk;
    ReachableIsSafe(sys, schedule);
    assert PairOk(end.tasks[i], end.tasks[j]) && PairOk(end.tasks[j], end.tasks[i]);
  }

  /** When there is only one instance, no unforced evaluation waits for the adapter, or for its write, while its
      key is stored. */
  lemma StoredKeyIsNotAskedAgain(sys: System, schedule: seq<Move>, end: System, i: nat)
    requires Initial(sys) && end == Execute(sys, schedule)
    requires OneInstance(end.tasks) && i < |end.tasks| && !end.tasks[i].force
    ensures PastLookup(end.tasks[i]) ==> !Stored(end.store, Key(end.tasks[i]))
  {
    hide Consistent, Execute, PairOk;
    ReachableIsSafe(sys, schedule);
    assert TaskOk(end.store, end.tasks[i], OneInstance(end.tasks));
  }

  lemma ExecuteLast(sys: System, schedule: seq<Move>, move: Move)
    ensures Execute(sys, schedule + [move]) == Step(Execute(sys, schedule), move.who, move.answer)
  {
    assert (schedule + [move])[..|schedule|] == schedule;
  }

  lemma StepAlone(s: Store, t: Task, answer: Answer)
    requires |s.runs| == |s.recommendations| && UsableSecrets(t)
    ensures var (after, u) := Advance(s, t, true, answer);
      Step(System(s, [t]), 0, answer) == System(after, [u])
  {
    hide Advance;
    assert LockFree([t], 0);
    assert forall u: Task :: [t][0 := u] == [u];
  }

  /** What a task does next when nothing else runs. */
  function Next(s: Store, t: Task, answer: Answer): (r: (Store, Task))
    requires |s.runs| == |s.recommendations| && UsableSecrets(t)
    ensures |r.0.runs| == |r.0.recommendations| && UsableSecrets(r.1)
  {
    Advance(s, t, true, answer)
  }

  lemma FourSteps(s: Store, t: Task, answer: Answer)
    requires |s.runs| == |s.recommendations| && UsableSecrets(t) && t.stage == Waiting
    ensures var (s1, t1) := Next(s, t, answer);
      var (s2, t2) := Next(s1, t1, answer);
      var (s3, t3) := Next(s2, t2, answer);
      var (s4, t4) := Next(s3, t3, answer);
      var (after, got) := EvaluateLocked(s, t.signal, t.settings, answer, t.force);
      && s4 == after && t4.stage.Finished? && t4.stage.result == got
      && (t4.stage.called <==> t.force || !Stored(s, Key(t)))
  {
    hide EntryFor, Find, Record, ExistingAt, Stored, KeyOf;
  }

  /** A task that runs alone does what one locked evaluation does, and calls the adapter unless its key is stored. */
  lemma AloneIsOneEvaluation(s: Store, t: Task, answer: Answer)
    requires |s.runs| == |s.recommendations| && UsableSecrets(t) && t.stage == Waiting
    ensures var move := Move(0, answer);
      var end := Execute(System(s, [t]), [move, move, move, move]);
      var (after, got) := EvaluateLocked(s, t.signal, t.settings, answer, t.force);
      && end.store == after && |end.tasks| == 1
      && end.tasks[0].stage.Finished? && end.tasks[0].stage.result == got
      && (end.tasks[0].stage.called <==> t.force || !Stored(s, Key(t)))
  {
    hide Stored, KeyOf;
    hide Execute, Step, Advance, EvaluateLocked, UsableSecrets;
    var move := Move(0, answer);
    var sys := System(s, [t]);
    ExecuteNothing(sys);
    ExecuteLast(sys, [], move);
    ExecuteLast(sys, [move], move);
    ExecuteLast(sys, [move, move], move);
    ExecuteLast(sys, [move, move, move], move);
    assert [] + [move] == [move] && [move] + [move] == [move, move];
    assert [move, move] + [move] == [move, move, move] && [move, move, move] + [move] == [move, move, move, move];
    var (s1, t1) := Next(s, t, answer);
    var (s2, t2) := Next(s1, t1, answer);
    var (s3, t3) := Next(s2, t2, answer);
    StepAlone(s, t, answer);
    StepAlone(s1, t1, answer);
    StepAlone(s2, t2, answer);
    StepAlone(s3, t3, answer);
    FourSteps(s, t, answer);
  }

  lemma ExecuteNothing(sys: System)
    ensures Execute(sys, []) == sys
  {
  }
}
