// Which job starts when, and how recovery moves, written on the configured times, the local clock and the summaries.

module SchedulerLaws {
  import opened Options
  import opened Collections
  import opened MarketClock
  import opened SchedulerSteps
  import opened SchedulerGuarantees

  // ----- the timetable

  /** The minute of the local day. */
  function Minute(c: OpsConfig, now: Instant): int {
    LocalTime(c, now) / MINUTE
  }

  /** The jobs that run once a day, each due in its own configured minute. */
  function Timetable(c: OpsConfig, minute: int): seq<(bool, Job)> {
    [(minute == c.preopenTime / MINUTE, PreopenCheck),
     (minute == c.streamStartTime / MINUTE, StreamStart),
     (minute == c.streamVerifyTime / MINUTE, StreamVerify),
     (minute == c.universeTime / MINUTE, UniverseSelection),
     (minute == c.streamStopTime / MINUTE, StreamStop)]
  }

  /** When a slot of the day begins. */
  function SlotTime(c: OpsConfig, slot: int): int {
    c.scannerStart + slot * c.scannerInterval * SECOND
  }

  /** The time lies in a slot of the scanner's hours, and in its first `poll`. */
  predicate InSlot(c: OpsConfig, time: int, slot: int) {
    && c.scannerInterval >= 1
    && c.scannerStart <= time <= c.scannerStop
    && SlotTime(c, slot) <= time < SlotTime(c, slot) + c.poll
    && time < SlotTime(c, slot + 1)
  }

  lemma OneShotIsFirst(c: OpsConfig, time: int)
    ensures OneShotDue(c, time) == FirstHolding(Timetable(c, time / MINUTE))
  {
    hide FirstHolding;
    var jobs := Timetable(c, time / MINUTE);
    if jobs[0].0 {
      FirstHoldingAt(jobs, 0);
    } else if jobs[1].0 {
      FirstHoldingAt(jobs, 1);
    } else if jobs[2].0 {
      FirstHoldingAt(jobs, 2);
    } else if jobs[3].0 {
      FirstHoldingAt(jobs, 3);
    } else if jobs[4].0 {
      FirstHoldingAt(jobs, 4);
    } else {
      NoneHolds(jobs);
    }
  }

  lemma QuotientExactly(a: int, b: int, q: int, product: int)
    requires b >= 1 && product == q * b
    ensures a / b == q <==> product <= a < product + b
  {
    var r := a % b;
    assert a == (a / b) * b + r;
    if a / b == q {
      assert (a / b) * b == product;
    } else if a / b < q {
      LesserProduct(a / b + 1, q, b);
      assert (a / b + 1) * b == (a / b) * b + b;
    } else {
      LesserProduct(q + 1, a / b, b);
      assert (q + 1) * b == product + b;
    }
  }

  lemma LesserProduct(x: int, y: int, b: int)
    requires x <= y && b >= 1
    ensures x * b <= y * b
  {
  }

  /** Whole seconds do not lose a slot. */
  lemma SecondsInSlot(elapsed: int, seconds: int, slot: int, before: int)
    requires seconds >= 1 && before == slot * seconds
    ensures (elapsed / 1_000_000) / seconds == slot
      <==> before * 1_000_000 <= elapsed < (before + seconds) * 1_000_000
  {
    QuotientExactly(elapsed / 1_000_000, seconds, slot, before);
  }

  lemma SlotTimes(c: OpsConfig, slot: int, before: int)
    requires before == slot * c.scannerInterval
    ensures SlotTime(c, slot) == c.scannerStart + before * 1_000_000
    ensures SlotTime(c, slot + 1) == c.scannerStart + (before + c.scannerInterval) * 1_000_000
  {
    assert (slot + 1) * c.scannerInterval == before + c.scannerInterval;
    assert slot * c.scannerInterval * 1_000_000 == before * 1_000_000;
  }

  lemma SlotIsThat(c: OpsConfig, time: int, slot: int)
    ensures SlotDue(c, time) == Some(slot) <==> InSlot(c, time, slot)
  {
    if c.scannerInterval >= 1 && c.scannerStart <= time <= c.scannerStop {
      var before := slot * c.scannerInterval;
      SecondsInSlot(time - c.scannerStart, c.scannerInterval, slot, before);
      SlotTimes(c, slot, before);
      assert slot * c.scannerInterval * 1_000_000 == before * 1_000_000;
    }
  }

  /** WHICH JOB IS DUE. A daily job is due in its own configured minute, unless an earlier-listed one has the same;
      then it is remembered by date and name. Otherwise a scanner batch is due in the first `poll` of a slot within
      the scanner's hours, remembered by date and slot. At any other time nothing is due. */
  lemma WhichJobIsDue(c: OpsConfig, now: Instant)
    ensures var daily, date := FirstHolding(Timetable(c, Minute(c, now))), LocalDate(c, now);
      && (daily.Some? ==> DueJob(c, now) == Some((daily.value, OneShot(date, daily.value))))
      && (daily.None? ==>
            && (forall slot :: InSlot(c, LocalTime(c, now), slot) ==>
                  DueJob(c, now) == Some((ScannerBatch, Slot(date, slot))))
            && (DueJob(c, now).None? <==> forall slot :: !InSlot(c, LocalTime(c, now), slot)))
  {
    hide OneShotDue, SlotDue, Timetable, FirstHolding, LocalDate, LocalTime, InSlot;
    var time := LocalTime(c, now);
    OneShotIsFirst(c, time);
    forall slot ensures SlotDue(c, time) == Some(slot) <==> InSlot(c, time, slot) {
      SlotIsThat(c, time, slot);
    }
    if SlotDue(c, time).Some? {
      assert InSlot(c, time, SlotDue(c, time).value);
    }
  }

  // ----- over runs

  function JobOf(key: Key): Job {
    if key.OneShot? then key.job else ScannerBatch
  }

  /** An instant at which the key's job is due. */
  ghost predicate OnTime(c: OpsConfig, key: Key, now: Instant) {
    && key.date == LocalDate(c, now)
    && match key
       case OneShot(_, job) => FirstHolding(Timetable(c, Minute(c, now))) == Some(job)
       case Slot(_, slot) => InSlot(c, LocalTime(c, now), slot) && FirstHolding(Timetable(c, Minute(c, now))).None?
  }

  lemma DueIsOnTime(c: OpsConfig, now: Instant)
    requires DueJob(c, now).Some?
    ensures var (job, key) := DueJob(c, now).value; OnTime(c, key, now) && job == JobOf(key)
  {
    hide OneShotDue, SlotDue, Timetable, FirstHolding, LocalDate, LocalTime, InSlot;
    OneShotIsFirst(c, LocalTime(c, now));
    if SlotDue(c, LocalTime(c, now)).Some? {
      SlotIsThat(c, LocalTime(c, now), SlotDue(c, LocalTime(c, now)).value);
    }
  }

  /** The step that started an automatic job: a look for due jobs at a time at which this one was due, and by which the
      loop took the lock for it. */
  ghost predicate StartedAt(c: OpsConfig, w: World, steps: seq<Step>, k: nat, key: Key) {
    && k < |steps| && steps[k].LookForDue? && OnTime(c, key, steps[k].now)
    && StateAt(c, w, steps, k).stage == AtDue && StateAt(c, w, steps, k).lock.None?
    && StateAt(c, w, steps, k + 1).lock == Some(Running(JobOf(key), Loop, true))
  }

  lemma StartedStays(c: OpsConfig, w: World, steps: seq<Step>, n: nat, k: nat, key: Key)
    requires n <= |steps| && StartedAt(c, w, steps[..n], k, key)
    ensures StartedAt(c, w, steps, k, key)
  {
    hide OnTime, RunSteps;
    assert steps[..n][..k] == steps[..k] && steps[..n][..k + 1] == steps[..k + 1];
  }

  lemma NewKeyStarts(c: OpsConfig, s: Ops, e: Step, key: Key)
    requires key in RunsDue(c, s, e)
    ensures e.LookForDue? && s.stage == AtDue && s.lock.None? && OnTime(c, key, e.now)
    ensures Do(c, s, e).lock == Some(Running(JobOf(key), Loop, true))
  {
    hide DueJob, OnTime;
    DueIsOnTime(c, e.now);
  }

  /** AUTOMATIC JOBS START ON TIME. In every run, every key that was run was started by the loop, under the lock, at an
      instant in its own minute or slot. */
  lemma {:induction false} RunsStartOnTime(c: OpsConfig, w: World, steps: seq<Step>, key: Key)
    requires w.executed == [] && key in RunSteps(c, w, steps).executed
    ensures exists k :: StartedAt(c, w, steps, k, key)
  {
    hide Do, RunsDue, Boundary, SendsLink, Attempts, OnTime, Readings;
    if steps != [] {
      var n := |steps| - 1;
      var before := RunSteps(c, w, steps[..n]);
      if key in before.executed {
        RunsStartOnTime(c, w, steps[..n], key);
        var k :| StartedAt(c, w, steps[..n], k, key);
        StartedStays(c, w, steps, n, k, key);
      } else {
        NewKeyStarts(c, before.ops, steps[n], key);
        StateAfter(c, w, steps, n);
        assert StartedAt(c, w, steps, n, key);
      }
    }
  }

  // ----- recovery

  /** The opening of the recovery window on the local day. */
  function DayOpens(c: OpsConfig, localNow: Instant): Instant {
    localNow - LocalTime(c, localNow) + c.recoveryStart
  }

  /** An interval of at least a second later, but not before the window opens. */
  function NextTry(c: OpsConfig, now: Instant, localNow: Instant): Instant {
    var soonest := now + (if c.recoveryInterval < 1 then 1 else c.recoveryInterval) * SECOND;
    if soonest < DayOpens(c, localNow) then DayOpens(c, localNow) else soonest
  }

  lemma NextRetryIsNextTry(c: OpsConfig, now: Instant, localNow: Instant)
    ensures NextRetry(c, now, localNow) == NextTry(c, now, localNow)
  {
  }

  /** WHAT A JOB DOES TO RECOVERY. A missing login found by the preopen check or a stream start arms it, with a link
      unless one was sent in this episode; a stream that was started, connected or not, is to be verified next, and
      one that was not is tried again; a verification that succeeds ends recovery and one that fails is repeated.
      Nothing else moves it, and nothing but a missing login starts it. */
  lemma SummaryMovesRecovery(c: OpsConfig, r: Recovery, job: Job, s: Summary, now: Instant, localNow: Instant)
    ensures var missing := s.event == KiteSessionMissing || s.recommendsLogin;
      var next := Some(NextTry(c, now, localNow));
      Process(c, r, job, s, now, localNow)
      == if job in {PreopenCheck, StreamStart} && missing then
           var newEpisode := r.pending.None?;
           (Recovery(true, Some(StreamStart), if newEpisode then 0 else r.attempts, r.lastAttemptAt, next, true),
            newEpisode || !r.linkSent)
         else if r.pending.None? || job !in {StreamStart, StreamVerify} then (r, false)
         else if job == StreamVerify then
           (if s.ok then Recovery(false, None, 0, None, None, false) else r.(nextRetryAt := next), false)
         else if s.event == StreamStarted || s.event == StreamNotConnected then
           (r.(waiting := false, pending := Some(StreamVerify), nextRetryAt := next), false)
         else (r.(waiting := false, nextRetryAt := next), false)
  {
    hide NextRetry, NextTry;
    NextRetryIsNextTry(c, now, localNow);
  }

  /** WHEN RECOVERY IS TRIED: something is pending, recovery is enabled, the local time lies in its window, no job runs,
      and the retry is due. Past the window it expires, and where it is disabled it is dropped. */
  lemma LookDecides(c: OpsConfig, s: Ops, localNow: Instant, now: Instant, again: Instant, localAgain: Instant)
    requires s.stage == AtRecovery
    ensures var time, r := LocalTime(c, localNow), s.recovery;
      DoLookAtRecovery(c, s, localNow, now, again, localAgain)
      == if r.pending.None? then s.(stage := AtDue)
         else if c.recoveryStop < time && c.recoveryEnabled then s.(stage := Expiring)
         else if c.recoveryStop < time then s.(stage := AtDue, recovery := Recovery(false, None, 0, None, None, false))
         else if c.recoveryEnabled && c.recoveryStart <= time && s.lock.None?
                 && (r.nextRetryAt.None? || r.nextRetryAt.value <= now) then
           s.(stage := InRecovery, lock := Some(Running(r.pending.value, Loop, true)),
              recovery := Recovery(r.waiting, r.pending, r.attempts + 1, Some(now),
                                   Some(NextTry(c, again, localAgain)), r.linkSent))
         else s.(stage := AtDue)
  {
    hide NextRetry, NextTry, LocalTime;
    NextRetryIsNextTry(c, again, localAgain);
  }

  /** A start of the loop inside the window arms recovery, to be tried at once; any other start leaves it alone, and
      a loop that runs is not started again. Stopping frees the lock only of the loop's own job. */
  lemma StartAndStop(c: OpsConfig, s: Ops, localNow: Instant, now: Instant)
    ensures var time := LocalTime(c, localNow);
      DoStartLoop(c, s, localNow, now)
      == if s.stage != Stopped then s
         else if c.recoveryEnabled && c.recoveryStart <= time <= c.recoveryStop then
           s.(stage := AtDue, recovery := Recovery(false, Some(StreamStart), 0, None, Some(now), false))
         else s.(stage := AtDue)
    ensures DoStopLoop(s).stage == Stopped
      && DoStopLoop(s).completed == s.completed && DoStopLoop(s).recovery == s.recovery
      && DoStopLoop(s).lock == (if s.lock.Some? && s.lock.value.owner == Loop then None else s.lock)
  {
    hide LocalTime;
  }

  /** A look for due jobs starts one iff one is due, was not run, and the lock is free; it then remembers the key. */
  lemma DueStartsIff(c: OpsConfig, s: Ops, now: Instant)
    requires s.stage == AtDue
    ensures var after, due := DoLookForDue(c, s, now), DueJob(c, now);
      if due.Some? && due.value.1 !in s.completed && s.lock.None? then
        after == Ops(InDue(now), Some(Running(due.value.0, Loop, true)), s.completed + {due.value.1}, s.recovery)
      else after == s.(stage := AtRecovery)
  {
    hide DueJob;
  }

  /** When the lock of the loop's due job is released, the keys of the day on which it was started are kept and all
      others forgotten; no other release forgets a key. */
  lemma ReleaseKeepsToday(c: OpsConfig, s: Ops)
    requires s.lock.Some? && !s.lock.value.working
    ensures var after := DoReleaseLock(c, s);
      && after.lock.None? && after.recovery == s.recovery
      && (if s.stage.InDue? && s.lock.value.owner == Loop then
            && after.stage == AtRecovery
            && forall key :: key in after.completed <==> key in s.completed && key.date == LocalDate(c, s.stage.since)
          else
            && after.completed == s.completed
            && after.stage == (if s.stage == InRecovery && s.lock.value.owner == Loop then AtDue else s.stage))
  {
    hide LocalDate;
  }

  /** The remaining steps: a job that returns has been processed and keeps the lock until it is released; a notice of
      expiry clears recovery; an operator's job is refused while any job holds the lock. Before the first start nothing
      runs and nothing is pending. */
  lemma OtherSteps(
    c: OpsConfig, s: Ops, summary: Option<Summary>, now: Instant, localNow: Instant, job: Job)
    ensures DoJobReturns(c, s, summary, now, localNow)
         == if s.lock.None? || !s.lock.value.working then s
            else
              var running := s.lock.value;
              var moved := if summary.None? then s.recovery
                           else Process(c, s.recovery, running.job, summary.value, now, localNow).0;
              Ops(s.stage, Some(Running(running.job, running.owner, false)), s.completed, moved)
    ensures DoExpireRecovery(s)
         == if s.stage != Expiring then s
            else Ops(AtDue, s.lock, s.completed, Recovery(false, None, 0, None, None, false))
    ensures DoOperatorRuns(s, job)
         == if s.lock.Some? then s else Ops(s.stage, Some(Running(job, Operator, true)), s.completed, s.recovery)
    ensures INITIAL == Ops(Stopped, None, {}, Recovery(false, None, 0, None, None, false))
  {
    hide Process;
  }

  /** The history of a run leaves nothing out: every due job the loop starts is among the keys run, every attempt of
      recovery among the attempts with both its readings, and a link is counted whenever one is sent, from the last time
      recovery was cleared or reset. */
  lemma HistoryLeavesNothingOut(c: OpsConfig, w: World, e: Step)
    ensures var next := Next(c, w, e);
      && next.ops == Do(c, w.ops, e)
      && next.executed
         == w.executed
            + (if e.LookForDue? && w.ops.stage == AtDue && next.ops.stage.InDue? then [DueJob(c, e.now).value.1]
               else [])
      && (e.LookAtRecovery? && w.ops.stage == AtRecovery ==>
            next.attempts
            == w.attempts + (if next.ops.stage == InRecovery then [Attempt(e.localNow, e.now)] else []))
      && (e.JobReturns? && w.ops.lock.Some? && w.ops.lock.value.working && e.summary.Some?
          && next.ops.recovery.pending.Some? ==>
            var sent := Process(c, w.ops.recovery, w.ops.lock.value.job, e.summary.value, e.now, e.localNow).1;
            next.links == w.links + (if sent then 1 else 0))
  {
    hide DueJob, Process, NextRetry, LocalTime;
    assert w.executed + [] == w.executed && w.attempts + [] == w.attempts;
  }
}
