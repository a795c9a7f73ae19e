// The market-operations scheduler: a polling loop, operator calls and a login-recovery protocol that share
// one job lock. Each step below is the code between two awaits; steps of the loop, of the running job and of
// the operator interleave freely. The clock is read afresh wherever the source reads it.

module SchedulerSteps {
  import opened Options
  import opened MarketClock

  datatype Job = PreopenCheck | StreamStart | StreamVerify | UniverseSelection | ScannerBatch | StreamStop

  /** Times of day are microseconds after local midnight; intervals are in seconds. */
  datatype OpsConfig = OpsConfig(
    zoneOffset: int,
    preopenTime: int, streamStartTime: int, streamVerifyTime: int, universeTime: int, streamStopTime: int,
    scannerStart: int, scannerStop: int, scannerInterval: int, poll: int,
    recoveryEnabled: bool, recoveryStart: int, recoveryStop: int, recoveryInterval: int)

  function LocalDate(c: OpsConfig, t: Instant): int {
    (t + c.zoneOffset) / 86_400_000_000
  }

  function LocalTime(c: OpsConfig, t: Instant): (time: int)
    ensures 0 <= time < 86_400_000_000
    ensures t + c.zoneOffset == LocalDate(c, t) * 86_400_000_000 + time
  {
    (t + c.zoneOffset) % 86_400_000_000
  }

  /** The key under which an automatic run is remembered. */
  datatype Key = OneShot(date: int, job: Job) | Slot(date: int, slot: int)

  predicate SameMinute(current: int, expected: int) {
    current / 60_000_000 == expected / 60_000_000
  }

  function OneShotDue(c: OpsConfig, time: int): Option<Job> {
    if SameMinute(time, c.preopenTime) then Some(PreopenCheck)
    else if SameMinute(time, c.streamStartTime) then Some(StreamStart)
    else if SameMinute(time, c.streamVerifyTime) then Some(StreamVerify)
    else if SameMinute(time, c.universeTime) then Some(UniverseSelection)
    else if SameMinute(time, c.streamStopTime) then Some(StreamStop)
    else None
  }

  /** Whole seconds since the scanner's start of the day. */
  function Elapsed(c: OpsConfig, time: int): int {
    (time - c.scannerStart) / 1_000_000
  }

  function SlotDue(c: OpsConfig, time: int): Option<int> {
    if !(c.scannerStart <= time <= c.scannerStop) || c.scannerInterval < 1 then None
    else
      var slot := Elapsed(c, time) / c.scannerInterval;
      var slotAt := c.scannerStart + slot * c.scannerInterval * 1_000_000;
      if 0 <= time - slotAt < c.poll then Some(slot) else None
  }

  function DueJob(c: OpsConfig, now: Instant): Option<(Job, Key)> {
    var date, time := LocalDate(c, now), LocalTime(c, now);
    var oneShot := OneShotDue(c, time);
    if oneShot.Some? then Some((oneShot.value, OneShot(date, oneShot.value)))
    else
      var slot := SlotDue(c, time);
      if slot.Some? then Some((ScannerBatch, Slot(date, slot.value))) else None
  }

  // ----- state

  /** Where the loop task is: not running, about to look for a due job, waiting for the due job it started at
      the given instant, about to look at recovery, waiting for the expiry notice, or waiting for a recovery
      job. */
  datatype LoopStage = Stopped | AtDue | InDue(since: Instant) | AtRecovery | Expiring | InRecovery

  datatype Owner = Loop | Operator

  /** The holder of the job lock; `working` until its job has returned and been processed. */
  datatype Running = Running(job: Job, owner: Owner, working: bool)

  datatype Recovery = Recovery(
    waiting: bool, pending: Option<Job>, attempts: nat,
    lastAttemptAt: Option<Instant>, nextRetryAt: Option<Instant>, linkSent: bool)

  const CLEARED := Recovery(false, None, 0, None, None, false)

  datatype Ops = Ops(stage: LoopStage, lock: Option<Running>, completed: set<Key>, recovery: Recovery)

  const INITIAL := Ops(Stopped, None, {}, CLEARED)

  // ----- the recovery protocol

  datatype EventName = KiteSessionMissing | StreamStarted | StreamNotConnected | OtherEvent

  datatype Summary = Summary(ok: bool, event: EventName, recommendsLogin: bool)

  predicate LoginMissing(s: Summary) {
    s.event == KiteSessionMissing || s.recommendsLogin
  }

  function Max(a: int, b: int): int { if a < b then b else a }

  function RetrySpan(c: OpsConfig): (span: int)
    ensures span >= 1_000_000
  {
    Max(1, c.recoveryInterval) * 1_000_000
  }

  /** The instant at which the recovery window opens on the local day of `now`. */
  function WindowOpens(c: OpsConfig, now: Instant): Instant {
    LocalDate(c, now) * 86_400_000_000 + c.recoveryStart - c.zoneOffset
  }

  /** The next retry, from a first clock reading for the interval and a second for the local day. */
  function NextRetry(c: OpsConfig, now: Instant, localNow: Instant): Instant {
    Max(now + RetrySpan(c), WindowOpens(c, localNow))
  }

  function ScheduleNext(c: OpsConfig, r: Recovery, now: Instant, localNow: Instant): Recovery {
    r.(nextRetryAt := Some(NextRetry(c, now, localNow)))
  }

  /** Arms recovery; the second component says whether a login link is sent. */
  function Arm(c: OpsConfig, r: Recovery, now: Instant, localNow: Instant): (Recovery, bool) {
    var armed := ScheduleNext(c, r.(waiting := true, pending := Some(StreamStart)), now, localNow);
    var episode := if r.pending.None? then armed.(attempts := 0, linkSent := false) else armed;
    (episode.(linkSent := true), !episode.linkSent)
  }

  function Process(c: OpsConfig, r: Recovery, job: Job, s: Summary, now: Instant, localNow: Instant)
    : (Recovery, bool)
  {
    if job in {PreopenCheck, StreamStart} && LoginMissing(s) then Arm(c, r, now, localNow)
    else if r.pending.None? then (r, false)
    else if job == StreamStart then
      var started := s.event in {StreamStarted, StreamNotConnected};
      var next := r.(waiting := false, pending := if started then Some(StreamVerify) else r.pending);
      (ScheduleNext(c, next, now, localNow), false)
    else if job == StreamVerify then
      (if s.ok then CLEARED else ScheduleNext(c, r, now, localNow), false)
    else (r, false)
  }

  predicate InsideWindow(c: OpsConfig, now: Instant) {
    c.recoveryStart <= LocalTime(c, now) <= c.recoveryStop
  }

  predicate WindowExpired(c: OpsConfig, now: Instant) {
    LocalTime(c, now) > c.recoveryStop
  }

  function LateStart(c: OpsConfig, r: Recovery, localNow: Instant, now: Instant): Recovery {
    if !c.recoveryEnabled || !InsideWindow(c, localNow) then r
    else Recovery(false, Some(StreamStart), 0, None, Some(now), false)
  }

  // ----- steps

  datatype Step =
    | StartLoop(localNow: Instant, now: Instant)
    | StopLoop
    | LookForDue(now: Instant)
    | JobReturns(summary: Option<Summary>, now: Instant, localNow: Instant)
    | ReleaseLock
    | LookAtRecovery(localNow: Instant, now: Instant, again: Instant, localAgain: Instant)
    | ExpireRecovery
    | OperatorRuns(job: Job)

  function DoStartLoop(c: OpsConfig, s: Ops, localNow: Instant, now: Instant): Ops {
    if s.stage != Stopped then s
    else s.(stage := AtDue, recovery := LateStart(c, s.recovery, localNow, now))
  }

  /** Cancelling the loop cancels the job it is waiting for. */
  function DoStopLoop(s: Ops): Ops {
    s.(stage := Stopped, lock := if s.lock.Some? && s.lock.value.owner == Loop then None else s.lock)
  }

  function DoLookForDue(c: OpsConfig, s: Ops, now: Instant): Ops {
    if s.stage != AtDue then s
    else
      var due := DueJob(c, now);
      if due.None? || due.value.1 in s.completed || s.lock.Some? then s.(stage := AtRecovery)
      else s.(
        stage := InDue(now),
        lock := Some(Running(due.value.0, Loop, true)),
        completed := s.completed + {due.value.1})
  }

  /** `None` is a job that raised: it does not touch recovery. */
  function DoJobReturns(c: OpsConfig, s: Ops, summary: Option<Summary>, now: Instant, localNow: Instant): Ops {
    if s.lock.None? || !s.lock.value.working then s
    else s.(
      lock := Some(s.lock.value.(working := false)),
      recovery :=
        if summary.None? then s.recovery
        else Process(c, s.recovery, s.lock.value.job, summary.value, now, localNow).0)
  }

  function Pruned(keys: set<Key>, date: int): set<Key> {
    set key | key in keys && key.date == date
  }

  function DoReleaseLock(c: OpsConfig, s: Ops): Ops {
    if s.lock.None? || s.lock.value.working then s
    else
      var free := s.(lock := None);
      if s.lock.value.owner == Operator then free
      else
        match s.stage
        case InDue(since) =>
          free.(stage := AtRecovery, completed := Pruned(s.completed, LocalDate(c, since)))
        case InRecovery => free.(stage := AtDue)
        case _ => free
  }

  /** Whether this look at recovery starts an attempt. */
  predicate Attempts(c: OpsConfig, s: Ops, localNow: Instant, now: Instant) {
    && s.stage == AtRecovery
    && s.recovery.pending.Some?
    && !WindowExpired(c, localNow)
    && c.recoveryEnabled && InsideWindow(c, localNow) && s.lock.None?
    && !(s.recovery.nextRetryAt.Some? && now < s.recovery.nextRetryAt.value)
  }

  function DoLookAtRecovery(
    c: OpsConfig, s: Ops, localNow: Instant, now: Instant, again: Instant, localAgain: Instant): Ops
  {
    if s.stage != AtRecovery then s
    else if s.recovery.pending.None? then s.(stage := AtDue)
    else if WindowExpired(c, localNow) then
      if c.recoveryEnabled then s.(stage := Expiring) else s.(stage := AtDue, recovery := CLEARED)
    else if !Attempts(c, s, localNow, now) then s.(stage := AtDue)
    else
      var tried := s.recovery.(attempts := s.recovery.attempts + 1, lastAttemptAt := Some(now));
      s.(stage := InRecovery,
         lock := Some(Running(s.recovery.pending.value, Loop, true)),
         recovery := ScheduleNext(c, tried, again, localAgain))
  }

  function DoExpireRecovery(s: Ops): Ops {
    if s.stage != Expiring then s else s.(stage := AtDue, recovery := CLEARED)
  }

  /** An operator's run is refused while any job holds the lock. */
  function DoOperatorRuns(s: Ops, job: Job): Ops {
    if s.lock.Some? then s else s.(lock := Some(Running(job, Operator, true)))
  }

  function Do(c: OpsConfig, s: Ops, e: Step): Ops {
    match e
    case StartLoop(localNow, now) => DoStartLoop(c, s, localNow, now)
    case StopLoop => DoStopLoop(s)
    case LookForDue(now) => DoLookForDue(c, s, now)
    case JobReturns(summary, now, localNow) => DoJobReturns(c, s, summary, now, localNow)
    case ReleaseLock => DoReleaseLock(c, s)
    case LookAtRecovery(localNow, now, again, localAgain) =>
      DoLookAtRecovery(c, s, localNow, now, again, localAgain)
    case ExpireRecovery => DoExpireRecovery(s)
    case OperatorRuns(job) => DoOperatorRuns(s, job)
  }
}

/** What holds in every reachable state, over runs with a clock that never goes back. */
module SchedulerGuarantees {
  import opened Options
  import opened Collections
  import opened MarketClock
  import opened SchedulerSteps

  /** A recovery attempt: the reading that found the window open, and the recorded instant. */
  datatype Attempt = Attempt(seen: Instant, at: Instant)

  /** The state and its history: the latest clock reading, the last look for due jobs, the keys run, the
      attempts since the loop was started, and the links sent since recovery was last cleared or reset. */
  datatype World = World(
    ops: Ops, clock: Instant, lastDue: Instant, executed: seq<Key>, attempts: seq<Attempt>, links: nat)

  function Readings(e: Step): seq<Instant> {
    match e
    case StartLoop(localNow, now) => [localNow, now]
    case LookForDue(now) => [now]
    case JobReturns(_, now, localNow) => [now, localNow]
    case LookAtRecovery(localNow, now, again, localAgain) => [localNow, now, again, localAgain]
    case _ => []
  }

  predicate Timely(clock: Instant, readings: seq<Instant>) {
    && (forall i :: 0 <= i < |readings| ==> clock <= readings[i])
    && (forall i, j :: 0 <= i < j < |readings| ==> readings[i] <= readings[j])
  }

  function ClockAfter(clock: Instant, readings: seq<Instant>): Instant {
    if readings == [] then clock else readings[|readings| - 1]
  }

  function RunsDue(c: OpsConfig, s: Ops, e: Step): seq<Key> {
    if e.LookForDue? && s.stage == AtDue && DoLookForDue(c, s, e.now).stage.InDue? then [DueJob(c, e.now).value.1]
    else []
  }

  function SendsLink(c: OpsConfig, s: Ops, e: Step): bool {
    && e.JobReturns? && s.lock.Some? && s.lock.value.working && e.summary.Some?
    && Process(c, s.recovery, s.lock.value.job, e.summary.value, e.now, e.localNow).1
  }

  /** Recovery is cleared, or reset by a late start. */
  predicate Boundary(c: OpsConfig, s: Ops, e: Step) {
    || (e.StartLoop? && s.stage == Stopped && c.recoveryEnabled && InsideWindow(c, e.localNow))
    || (s.recovery != CLEARED && Do(c, s, e).recovery == CLEARED)
  }

  function Next(c: OpsConfig, w: World, e: Step): World {
    World(
      Do(c, w.ops, e),
      ClockAfter(w.clock, Readings(e)),
      if e.LookForDue? && w.ops.stage == AtDue then e.now else w.lastDue,
      w.executed + RunsDue(c, w.ops, e),
      if e.StartLoop? && w.ops.stage == Stopped then []
      else if e.LookAtRecovery? && Attempts(c, w.ops, e.localNow, e.now) then w.attempts + [Attempt(e.localNow, e.now)]
      else w.attempts,
      if Boundary(c, w.ops, e) then 0 else w.links + (if SendsLink(c, w.ops, e) then 1 else 0))
  }

  // ----- the invariant

  predicate RecoveryOk(r: Recovery) {
    && (r.waiting ==> r.pending == Some(StreamStart))
    && (r.pending.None? ==> r == CLEARED)
    && (r.pending.Some? ==> r.pending.value in {StreamStart, StreamVerify} && r.nextRetryAt.Some?)
  }

  /** At most one job holds the lock, and the loop waits for a job exactly when it holds it. */
  predicate LockOk(s: Ops) {
    (s.lock.Some? && s.lock.value.owner == Loop) <==> (s.stage.InDue? || s.stage.InRecovery?)
  }

  ghost predicate KeysOk(c: OpsConfig, w: World) {
    && (forall i, j :: 0 <= i < j < |w.executed| ==> w.executed[i] != w.executed[j])
    && (forall key :: key in w.executed ==>
          key.date <= LocalDate(c, w.lastDue) && (key.date == LocalDate(c, w.lastDue) ==> key in w.ops.completed))
    && (w.ops.stage.InDue? ==> w.ops.stage.since == w.lastDue)
    && w.lastDue <= w.clock
  }

  ghost predicate SlotsOk(c: OpsConfig, w: World) {
    forall key :: key in w.executed && key.Slot? ==>
      c.scannerInterval >= 1 && 0 <= key.slot <= Elapsed(c, c.scannerStop) / c.scannerInterval
  }

  /** Attempts are made inside the window and a full interval apart. */
  ghost predicate Spaced(c: OpsConfig, log: seq<Attempt>) {
    && (forall i :: 0 <= i < |log| ==> InsideWindow(c, log[i].seen) && log[i].seen <= log[i].at)
    && (forall i, j :: 0 <= i < j < |log| ==>
          log[i].at <= log[j].seen && log[i].at + RetrySpan(c) <= log[j].at)
  }

  ghost predicate AttemptsOk(c: OpsConfig, w: World) {
    && Spaced(c, w.attempts)
    && (w.attempts != [] ==>
          var last := w.attempts[|w.attempts| - 1];
          && last.at <= w.clock
          && (w.ops.recovery.pending.Some? ==>
                w.ops.recovery.nextRetryAt.Some? && last.at + RetrySpan(c) <= w.ops.recovery.nextRetryAt.value))
  }

  predicate LinksOk(w: World) {
    w.links <= 1 && (w.links == 1 ==> w.ops.recovery.linkSent)
  }

  ghost predicate Invariant(c: OpsConfig, w: World) {
    && RecoveryOk(w.ops.recovery) && LockOk(w.ops)
    && KeysOk(c, w) && SlotsOk(c, w) && AttemptsOk(c, w) && LinksOk(w)
  }

  lemma ProcessKeepsRecovery(c: OpsConfig, r: Recovery, job: Job, s: Summary, now: Instant, localNow: Instant)
    requires RecoveryOk(r)
    ensures RecoveryOk(Process(c, r, job, s, now, localNow).0)
    ensures var next := Process(c, r, job, s, now, localNow).0;
      next.pending.Some? ==>
        next.nextRetryAt == r.nextRetryAt || next.nextRetryAt == Some(NextRetry(c, now, localNow))
  {
  }

  lemma RecoveryStaysOk(c: OpsConfig, s: Ops, e: Step)
    requires RecoveryOk(s.recovery)
    ensures RecoveryOk(Do(c, s, e).recovery)
  {
    if e.JobReturns? && s.lock.Some? && e.summary.Some? {
      ProcessKeepsRecovery(c, s.recovery, s.lock.value.job, e.summary.value, e.now, e.localNow);
    }
  }

  lemma LockStaysOk(c: OpsConfig, s: Ops, e: Step)
    requires LockOk(s)
    ensures LockOk(Do(c, s, e))
  {
  }

  lemma DatesNeverGoBack(c: OpsConfig, t: Instant, u: Instant)
    requires t <= u
    ensures LocalDate(c, t) <= LocalDate(c, u)
  {
  }

  lemma DueKeyIsToday(c: OpsConfig, now: Instant)
    requires DueJob(c, now).Some?
    ensures DueJob(c, now).value.1.date == LocalDate(c, now)
  {
  }

  lemma DueKeyIsNew(c: OpsConfig, w: World, now: Instant)
    requires KeysOk(c, w) && w.lastDue <= now
    requires DueJob(c, now).Some? && DueJob(c, now).value.1 !in w.ops.completed
    ensures DueJob(c, now).value.1 !in w.executed
  {
    DatesNeverGoBack(c, w.lastDue, now);
    DueKeyIsToday(c, now);
  }

  lemma DueKeepsKeys(c: OpsConfig, w: World, e: Step)
    requires e.LookForDue? && w.ops.stage == AtDue && w.clock <= e.now
    requires KeysOk(c, w)
    ensures KeysOk(c, Next(c, w, e))
  {
    hide DueJob, LocalDate;
    DatesNeverGoBack(c, w.lastDue, e.now);
    var due := DueJob(c, e.now);
    if due.Some? {
      DueKeyIsToday(c, e.now);
      if due.value.1 !in w.ops.completed {
        DueKeyIsNew(c, w, e.now);
      }
    }
    assert Readings(e) == [e.now];
  }

  lemma KeysStayOk(c: OpsConfig, w: World, e: Step)
    requires LockOk(w.ops) && KeysOk(c, w) && Timely(w.clock, Readings(e))
    ensures KeysOk(c, Next(c, w, e))
  {
    hide Process, LateStart, ScheduleNext, DueJob, LocalDate;
    if e.LookForDue? && w.ops.stage == AtDue {
      assert Readings(e)[0] == e.now;
      DueKeepsKeys(c, w, e);
    } else {
      assert w.executed + [] == w.executed;
    }
  }

  lemma ProductGrows(p: int, q: int, d: int)
    requires p <= q && d >= 1
    ensures p * d <= q * d
  {
  }

  lemma QuotientGrows(a: int, b: int, d: int)
    requires 0 <= a <= b && d >= 1
    ensures 0 <= a / d <= b / d
  {
    var p, q := a / d, b / d;
    assert a == p * d + a % d && b == q * d + b % d;
    assert (q + 1) * d == q * d + d;
    if p > q {
      ProductGrows(q + 1, p, d);
    }
    if p < 0 {
      ProductGrows(p, -1, d);
    }
  }

  lemma DueSlotInRange(c: OpsConfig, time: int)
    requires SlotDue(c, time).Some?
    ensures c.scannerInterval >= 1
    ensures 0 <= SlotDue(c, time).value <= Elapsed(c, c.scannerStop) / c.scannerInterval
  {
    QuotientGrows(Elapsed(c, time), Elapsed(c, c.scannerStop), c.scannerInterval);
  }

  lemma SlotsStayOk(c: OpsConfig, w: World, e: Step)
    requires SlotsOk(c, w)
    ensures SlotsOk(c, Next(c, w, e))
  {
    hide Do, Elapsed, Process;
    if RunsDue(c, w.ops, e) != [] && DueJob(c, e.now).value.1.Slot? {
      DueSlotInRange(c, LocalTime(c, e.now));
    }
  }

  /** The next retry lies a full interval after `floor`, whenever there is one. */
  predicate RetryAfter(c: OpsConfig, r: Recovery, floor: Instant) {
    r.pending.Some? ==> r.nextRetryAt.Some? && floor + RetrySpan(c) <= r.nextRetryAt.value
  }

  lemma RetryStaysAfter(c: OpsConfig, s: Ops, e: Step, clock: Instant, floor: Instant)
    requires RecoveryOk(s.recovery) && Timely(clock, Readings(e)) && floor <= clock
    requires !(e.StartLoop? && s.stage == Stopped)
    requires RetryAfter(c, s.recovery, floor)
    ensures RetryAfter(c, Do(c, s, e).recovery, floor)
    ensures e.LookAtRecovery? && Attempts(c, s, e.localNow, e.now) ==> RetryAfter(c, Do(c, s, e).recovery, e.now)
  {
    hide DueJob, Pruned;
    if e.JobReturns? {
      assert Readings(e)[0] == e.now && Readings(e)[1] == e.localNow;
      if s.lock.Some? && e.summary.Some? {
        hide Process;
        ProcessKeepsRecovery(c, s.recovery, s.lock.value.job, e.summary.value, e.now, e.localNow);
      }
    }
    if e.LookAtRecovery? {
      assert Readings(e)[1] == e.now && Readings(e)[2] == e.again;
    }
  }

  lemma SpacedAppend(c: OpsConfig, log: seq<Attempt>, next: Attempt)
    requires Spaced(c, log) && InsideWindow(c, next.seen) && next.seen <= next.at
    requires log != [] ==>
      log[|log| - 1].at <= next.seen && log[|log| - 1].at + RetrySpan(c) <= next.at
    ensures Spaced(c, log + [next])
  {
    var n := |log|;
    forall i, j | 0 <= i < j < n + 1
      ensures (log + [next])[i].at <= (log + [next])[j].seen
      ensures (log + [next])[i].at + RetrySpan(c) <= (log + [next])[j].at
    {
      if j == n && i < n - 1 {
        assert log[i].at + RetrySpan(c) <= log[n - 1].at;
      }
    }
  }

  lemma AttemptsStayOk(c: OpsConfig, w: World, e: Step)
    requires RecoveryOk(w.ops.recovery) && AttemptsOk(c, w) && Timely(w.clock, Readings(e))
    ensures AttemptsOk(c, Next(c, w, e))
  {
    hide Do, InsideWindow, RetrySpan;
    if e.StartLoop? && w.ops.stage == Stopped {
    } else {
      var floor := if w.attempts == [] then w.clock else w.attempts[|w.attempts| - 1].at;
      ClockAdvances(w.clock, Readings(e));
      if w.attempts != [] {
        RetryStaysAfter(c, w.ops, e, w.clock, floor);
      }
      if e.LookAtRecovery? && Attempts(c, w.ops, e.localNow, e.now) {
        assert Readings(e)[0] == e.localNow && Readings(e)[1] == e.now && Readings(e)[2] == e.again;
        assert Readings(e)[3] == e.localAgain && e.now <= e.again;
        SpacedAppend(c, w.attempts, Attempt(e.localNow, e.now));
        FirstAttemptSchedules(c, w.ops, e);
      }
    }
  }

  lemma FirstAttemptSchedules(c: OpsConfig, s: Ops, e: Step)
    requires e.LookAtRecovery? && Attempts(c, s, e.localNow, e.now) && e.now <= e.again
    ensures RetryAfter(c, Do(c, s, e).recovery, e.now)
  {
  }

  lemma ClockAdvances(clock: Instant, readings: seq<Instant>)
    requires Timely(clock, readings)
    ensures clock <= ClockAfter(clock, readings)
    ensures forall i :: 0 <= i < |readings| ==> readings[i] <= ClockAfter(clock, readings)
  {
  }

  lemma LinksStayOk(c: OpsConfig, w: World, e: Step)
    requires RecoveryOk(w.ops.recovery) && LinksOk(w)
    ensures LinksOk(Next(c, w, e))
  {
  }

  lemma InvariantHolds(c: OpsConfig, w: World, e: Step)
    requires Invariant(c, w) && Timely(w.clock, Readings(e))
    ensures Invariant(c, Next(c, w, e))
  {
    hide Do, KeysOk, SlotsOk, AttemptsOk, LinksOk, RecoveryOk, LockOk;
    RecoveryStaysOk(c, w.ops, e);
    LockStaysOk(c, w.ops, e);
    KeysStayOk(c, w, e);
    SlotsStayOk(c, w, e);
    AttemptsStayOk(c, w, e);
    LinksStayOk(c, w, e);
  }

  // ----- runs

  function RunSteps(c: OpsConfig, w: World, steps: seq<Step>): World {
    if steps == [] then w
    else Next(c, RunSteps(c, w, steps[..|steps| - 1]), steps[|steps| - 1])
  }

  /** Every reading of the run is at or after the previous one. */
  predicate ClockNeverGoesBack(c: OpsConfig, w: World, steps: seq<Step>) {
    steps == []
    || var before := steps[..|steps| - 1];
       ClockNeverGoesBack(c, w, before)
       && Timely(RunSteps(c, w, before).clock, Readings(steps[|steps| - 1]))
  }

  function Boot(clock: Instant): World {
    World(INITIAL, clock, clock, [], [], 0)
  }

  /** EVERY REACHABLE STATE is sane: waiting only for a stream start; nothing pending means recovery is reset;
      the loop waits for a job iff it holds the lock; no due key ran twice, whatever was pruned; attempts lie
      inside the window, an interval apart; and at most one login link was sent in the current episode. */
  lemma {:induction false} ReachableStatesAreSane(c: OpsConfig, clock: Instant, steps: seq<Step>)
    requires ClockNeverGoesBack(c, Boot(clock), steps)
    ensures Invariant(c, RunSteps(c, Boot(clock), steps))
  {
    if steps == [] {
    } else {
      hide Invariant, Next;
      ReachableStatesAreSane(c, clock, steps[..|steps| - 1]);
      InvariantHolds(c, RunSteps(c, Boot(clock), steps[..|steps| - 1]), steps[|steps| - 1]);
    }
  }

  // ----- counting

  lemma {:induction false} SpacedSpan(c: OpsConfig, log: seq<Attempt>, a: nat, b: nat)
    requires Spaced(c, log) && a <= b < |log|
    ensures log[a].at + (b - a) * RetrySpan(c) <= log[b].at
    decreases b - a
  {
    if a < b {
      SpacedSpan(c, log, a, b - 1);
      assert log[b - 1].at + RetrySpan(c) <= log[b].at;
      assert (b - a) * RetrySpan(c) == (b - 1 - a) * RetrySpan(c) + RetrySpan(c);
    }
  }

  lemma {:induction false} FewSlots(keys: set<Key>, date: int, n: nat)
    requires forall key :: key in keys ==> key.Slot? && key.date == date && 0 <= key.slot < n
    ensures |keys| <= n
  {
    if n == 0 {
      if keys != {} {
        var some := SomeMember(keys);
      }
    } else {
      var top := Slot(date, n - 1);
      FewSlots(keys - {top}, date, n - 1);
      assert keys <= (keys - {top}) + {top};
      assert |keys| <= |(keys - {top}) + {top}|;
    }
  }

  function SlotsOf(executed: seq<Key>, date: int): set<Key> {
    set key | key in executed && key.Slot? && key.date == date
  }

  /** SCANNER BUDGET. In any run, the automatic scanner batches of one day are distinct slots, at most
      floor((stop - start) / interval) + 1 of them. */
  lemma ScannerBatchesPerDay(c: OpsConfig, clock: Instant, steps: seq<Step>, date: int)
    requires ClockNeverGoesBack(c, Boot(clock), steps)
    requires c.scannerInterval >= 1 && c.scannerStart <= c.scannerStop
    ensures var executed := RunSteps(c, Boot(clock), steps).executed;
      && (forall i, j :: 0 <= i < j < |executed| ==> executed[i] != executed[j])
      && |SlotsOf(executed, date)|
         <= Elapsed(c, c.scannerStop) / c.scannerInterval + 1
  {
    hide RunSteps;
    ReachableStatesAreSane(c, clock, steps);
    var executed := RunSteps(c, Boot(clock), steps).executed;
    QuotientGrows(0, Elapsed(c, c.scannerStop), c.scannerInterval);
    FewSlots(
      SlotsOf(executed, date), date, Elapsed(c, c.scannerStop) / c.scannerInterval + 1);
  }

  // ----- one job at a time

  /** The step takes the free lock: a job starts, by the loop or by an operator. */
  predicate Begins(c: OpsConfig, s: Ops, e: Step) {
    s.lock.None? && Do(c, s, e).lock.Some?
  }

  /** The step ends the job that is working: it returned, or it was cancelled with the loop. */
  predicate Ends(c: OpsConfig, s: Ops, e: Step) {
    && s.lock.Some? && s.lock.value.working
    && (Do(c, s, e).lock.None? || !Do(c, s, e).lock.value.working)
  }

  lemma LockMoves(c: OpsConfig, s: Ops, e: Step)
    ensures Begins(c, s, e) ==> Do(c, s, e).lock.value.working
    ensures s.lock.Some? && s.lock.value.working && !Ends(c, s, e) ==> Do(c, s, e).lock == s.lock
    ensures Ends(c, s, e) ==> e.JobReturns? || (e.StopLoop? && s.lock.value.owner == Loop)
  {
  }

  function StateAt(c: OpsConfig, w: World, steps: seq<Step>, k: nat): Ops
    requires k <= |steps|
  {
    RunSteps(c, w, steps[..k]).ops
  }

  lemma StateAfter(c: OpsConfig, w: World, steps: seq<Step>, k: nat)
    requires k < |steps|
    ensures StateAt(c, w, steps, k + 1) == Do(c, StateAt(c, w, steps, k), steps[k])
  {
    assert steps[..k + 1][..k] == steps[..k];
  }

  /** JOBS NEVER OVERLAP. In every run, between two job starts, the job started first has returned or was
      cancelled. */
  lemma JobsNeverOverlap(c: OpsConfig, w: World, steps: seq<Step>, i: nat, j: nat) returns (k: nat)
    requires i < j < |steps|
    requires Begins(c, StateAt(c, w, steps, i), steps[i]) && Begins(c, StateAt(c, w, steps, j), steps[j])
    ensures i < k < j && Ends(c, StateAt(c, w, steps, k), steps[k])
    ensures StateAt(c, w, steps, k).lock == StateAt(c, w, steps, i + 1).lock
  {
    hide Do, StateAt, Ends;
    StateAfter(c, w, steps, i);
    LockMoves(c, StateAt(c, w, steps, i), steps[i]);
    k := i + 1;
    while k < j && !Ends(c, StateAt(c, w, steps, k), steps[k])
      invariant i < k <= j
      invariant StateAt(c, w, steps, k).lock == StateAt(c, w, steps, i + 1).lock
      invariant StateAt(c, w, steps, k).lock.Some? && StateAt(c, w, steps, k).lock.value.working
    {
      StateAfter(c, w, steps, k);
      LockMoves(c, StateAt(c, w, steps, k), steps[k]);
      k := k + 1;
    }
  }
}
