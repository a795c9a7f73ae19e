// The scheduler object. Its methods are the stretches of the source between awaits; each does in place what
// the corresponding step says.

module SchedulerService {
  import opened Options
  import opened MarketClock
  import opened SchedulerSteps

  class MarketOpsScheduler {
    const config: OpsConfig
    var stage: LoopStage
    var lock: Option<Running>
    var completedKeys: set<Key>
    var waitingForKiteLogin: bool
    var pendingAction: Option<Job>
    var recoveryAttempts: nat
    var recoveryLastAttemptAt: Option<Instant>
    var recoveryNextRetryAt: Option<Instant>
    var loginLinkSent: bool

    ghost function RecoveryView(): Recovery
      reads this
    {
      Recovery(waitingForKiteLogin, pendingAction, recoveryAttempts, recoveryLastAttemptAt, recoveryNextRetryAt,
               loginLinkSent)
    }

    ghost function View(): Ops
      reads this
    {
      Ops(stage, lock, completedKeys, RecoveryView())
    }

    constructor (config: OpsConfig)
      ensures this.config == config && View() == INITIAL
    {
      this.config := config;
      stage, lock, completedKeys := Stopped, None, {};
      waitingForKiteLogin, pendingAction, recoveryAttempts := false, None, 0;
      recoveryLastAttemptAt, recoveryNextRetryAt, loginLinkSent := None, None, false;
    }

    method ScheduleNextRecovery(now: Instant, localNow: Instant)
      modifies this`recoveryNextRetryAt
      ensures RecoveryView() == ScheduleNext(config, old(RecoveryView()), now, localNow)
    {
      var candidate := now + RetrySpan(config);
      var start := WindowOpens(config, localNow);
      recoveryNextRetryAt := Some(Max(candidate, start));
    }

    method ClearRecovery()
      modifies this`waitingForKiteLogin, this`pendingAction, this`recoveryAttempts, this`recoveryLastAttemptAt,
               this`recoveryNextRetryAt, this`loginLinkSent
      ensures RecoveryView() == CLEARED
    {
      waitingForKiteLogin, pendingAction, recoveryAttempts := false, None, 0;
      recoveryLastAttemptAt, recoveryNextRetryAt, loginLinkSent := None, None, false;
    }

    method ArmLoginRecovery(now: Instant, localNow: Instant) returns (sendLink: bool)
      modifies this`waitingForKiteLogin, this`pendingAction, this`recoveryAttempts, this`recoveryNextRetryAt,
               this`loginLinkSent
      ensures (RecoveryView(), sendLink) == Arm(config, old(RecoveryView()), now, localNow)
    {
      var newEpisode := pendingAction.None?;
      waitingForKiteLogin := true;
      pendingAction := Some(StreamStart);
      ScheduleNextRecovery(now, localNow);
      if newEpisode {
        recoveryAttempts := 0;
        loginLinkSent := false;
      }
      sendLink := !loginLinkSent;
      loginLinkSent := true;
    }

    method ProcessRecoverySummary(job: Job, summary: Summary, now: Instant, localNow: Instant)
      returns (sendLink: bool)
      modifies this`waitingForKiteLogin, this`pendingAction, this`recoveryAttempts, this`recoveryLastAttemptAt,
               this`recoveryNextRetryAt, this`loginLinkSent
      ensures (RecoveryView(), sendLink) == Process(config, old(RecoveryView()), job, summary, now, localNow)
    {
      sendLink := false;
      if job in {PreopenCheck, StreamStart} && LoginMissing(summary) {
        sendLink := ArmLoginRecovery(now, localNow);
        return;
      }
      if pendingAction.None? {
        return;
      }
      if job == StreamStart {
        waitingForKiteLogin := false;
        if summary.event in {StreamStarted, StreamNotConnected} {
          pendingAction := Some(StreamVerify);
        }
        ScheduleNextRecovery(now, localNow);
      } else if job == StreamVerify {
        if summary.ok {
          ClearRecovery();
        } else {
          ScheduleNextRecovery(now, localNow);
        }
      }
    }

    /** Starts the loop task; a start inside the recovery window arms recovery at once. */
    method Start(localNow: Instant, now: Instant)
      modifies this
      ensures View() == DoStartLoop(config, old(View()), localNow, now)
    {
      if stage != Stopped {
        return;
      }
      stage := AtDue;
      if config.recoveryEnabled && InsideWindow(config, localNow) {
        waitingForKiteLogin := false;
        pendingAction := Some(StreamStart);
        recoveryAttempts := 0;
        recoveryLastAttemptAt := None;
        recoveryNextRetryAt := Some(now);
        loginLinkSent := false;
      }
    }

    method Stop()
      modifies this`stage, this`lock
      ensures View() == DoStopLoop(old(View()))
    {
      stage := Stopped;
      if lock.Some? && lock.value.owner == Loop {
        lock := None;
      }
    }

    /** `_run_due_job` up to its await. */
    method BeginDueJob(now: Instant)
      modifies this`stage, this`lock, this`completedKeys
      ensures View() == DoLookForDue(config, old(View()), now)
    {
      if stage != AtDue {
        return;
      }
      var due := DueJob(config, now);
      if due.None? || due.value.1 in completedKeys || lock.Some? {
        stage := AtRecovery;
        return;
      }
      completedKeys := completedKeys + {due.value.1};
      lock := Some(Running(due.value.0, Loop, true));
      stage := InDue(now);
    }

    /** `run_job` after its job's await. */
    method JobReturned(summary: Option<Summary>, now: Instant, localNow: Instant) returns (sendLink: bool)
      modifies this
      ensures View() == DoJobReturns(config, old(View()), summary, now, localNow)
      ensures sendLink <==>
        && old(lock).Some? && old(lock).value.working && summary.Some?
        && Process(config, old(RecoveryView()), old(lock).value.job, summary.value, now, localNow).1
    {
      sendLink := false;
      if lock.None? || !lock.value.working {
        return;
      }
      var job := lock.value.job;
      lock := Some(lock.value.(working := false));
      if summary.Some? {
        sendLink := ProcessRecoverySummary(job, summary.value, now, localNow);
      }
    }

    /** The job lock is released; the loop, if it was waiting, prunes old keys or goes back to sleep. */
    method ReleaseJobLock()
      modifies this`stage, this`lock, this`completedKeys
      ensures View() == DoReleaseLock(config, old(View()))
    {
      if lock.None? || lock.value.working {
        return;
      }
      var owner := lock.value.owner;
      lock := None;
      if owner == Loop {
        if stage.InDue? {
          var today := LocalDate(config, stage.since);
          completedKeys := set key | key in completedKeys && key.date == today;
          stage := AtRecovery;
        } else if stage.InRecovery? {
          stage := AtDue;
        }
      }
    }

    /** `_run_recovery` up to its first await. */
    method BeginRecovery(localNow: Instant, now: Instant, again: Instant, localAgain: Instant)
      modifies this
      ensures View() == DoLookAtRecovery(config, old(View()), localNow, now, again, localAgain)
    {
      if stage != AtRecovery {
        return;
      }
      stage := AtDue;
      if pendingAction.None? {
        return;
      }
      if WindowExpired(config, localNow) {
        if config.recoveryEnabled {
          stage := Expiring;
        } else {
          ClearRecovery();
        }
        return;
      }
      if !config.recoveryEnabled || !InsideWindow(config, localNow) || lock.Some? {
        return;
      }
      if recoveryNextRetryAt.Some? && now < recoveryNextRetryAt.value {
        return;
      }
      var action := pendingAction.value;
      recoveryAttempts := recoveryAttempts + 1;
      recoveryLastAttemptAt := Some(now);
      ScheduleNextRecovery(again, localAgain);
      lock := Some(Running(action, Loop, true));
      stage := InRecovery;
    }

    /** The rest of an expired recovery, after the notice was sent. */
    method ExpireRecovery()
      modifies this
      ensures View() == DoExpireRecovery(old(View()))
    {
      if stage == Expiring {
        ClearRecovery();
        stage := AtDue;
      }
    }

    /** `run_job` as called by an operator; refused while a job is running. */
    method RunJob(job: Job) returns (busy: bool)
      modifies this`lock
      ensures busy <==> old(lock).Some?
      ensures View() == DoOperatorRuns(old(View()), job)
    {
      busy := lock.Some?;
      if !busy {
        lock := Some(Running(job, Operator, true));
      }
    }
  }
}
