// How many login-recovery attempts a day can see, and exactly how much depends on the delay between the two clock
// readings of an attempt: the one that finds the window open and the one that is recorded.

module SchedulerBudget {
  import opened Options
  import opened MarketClock
  import opened SchedulerSteps
  import opened SchedulerGuarantees

  /** The window lies inside one local day. */
  predicate ValidWindow(c: OpsConfig) {
    0 <= c.recoveryStart <= c.recoveryStop < DAY
  }

  function Width(c: OpsConfig): int {
    c.recoveryStop - c.recoveryStart
  }

  /** Retry intervals that fit into the window. */
  function Fits(c: OpsConfig): int {
    Width(c) / RetrySpan(c)
  }

  /** floor(window / interval) + 1. */
  function Allowance(c: OpsConfig): int {
    Fits(c) + 1
  }

  /** What is missing for one more interval to fit. */
  function Slack(c: OpsConfig): (slack: int)
    ensures 1 <= slack <= RetrySpan(c)
  {
    RetrySpan(c) - Width(c) % RetrySpan(c)
  }

  lemma SlackCompletesInterval(c: OpsConfig)
    ensures Width(c) + Slack(c) == Allowance(c) * RetrySpan(c)
  {
    hide RetrySpan;
    var span := RetrySpan(c);
    assert Width(c) == Fits(c) * span + Width(c) % span;
    assert (Fits(c) + 1) * span == Fits(c) * span + span;
  }

  /** Between a window and an interval of whole seconds at least a whole second is missing. */
  lemma SlackIsAtLeastASecond(c: OpsConfig)
    requires Width(c) % SECOND == 0
    ensures Slack(c) >= SECOND
  {
    SlackCompletesInterval(c);
    var seconds := Max(1, c.recoveryInterval);
    assert RetrySpan(c) == seconds * SECOND;
    MultipleOfSecond(Allowance(c), seconds);
    assert Slack(c) == Allowance(c) * (seconds * SECOND) - Width(c);
    DifferenceOfMultiples(Allowance(c) * (seconds * SECOND), Width(c), Slack(c));
  }

  lemma MultipleOfSecond(k: int, seconds: int)
    ensures (k * (seconds * SECOND)) % SECOND == 0
  {
    var m := k * seconds;
    assert k * (seconds * SECOND) == m * SECOND;
    assert (m * SECOND) % SECOND == 0;
  }

  lemma DifferenceOfMultiples(a: int, b: int, d: int)
    requires a % SECOND == 0 && b % SECOND == 0 && d == a - b && d >= 1
    ensures d >= SECOND
  {
  }

  ghost predicate GapsBelow(log: seq<Attempt>, g: int) {
    forall k :: 0 <= k < |log| ==> log[k].at - log[k].seen < g
  }

  ghost predicate OnDay(c: OpsConfig, log: seq<Attempt>, a: nat, b: nat, date: int) {
    && a < b <= |log|
    && forall k :: a <= k < b ==> LocalDate(c, log[k].seen) == date
  }

  lemma SameDayInWindow(c: OpsConfig, t: Instant, u: Instant)
    requires LocalDate(c, t) == LocalDate(c, u) && InsideWindow(c, t) && InsideWindow(c, u)
    ensures u - t <= Width(c)
  {
  }

  lemma FewerThan(n: int, m: int, span: int)
    requires span >= 1 && n * span < m * span
    ensures n < m
  {
    if n >= m {
      ProductGrows(m, n, span);
    }
  }

  /** Attempts of one day: at most one more than the allowance, and no more than the allowance when the last
      recorded instant follows its window test by less than the slack. */
  lemma SpacedBudget(c: OpsConfig, log: seq<Attempt>, a: nat, b: nat, date: int)
    requires Spaced(c, log) && OnDay(c, log, a, b, date)
    ensures b - a <= Allowance(c) + 1
    ensures log[b - 1].at - log[b - 1].seen < Slack(c) ==> b - a <= Allowance(c)
  {
    hide RetrySpan, InsideWindow, LocalDate, Slack, Allowance;
    var span := RetrySpan(c);
    var first, last := log[a], log[b - 1];
    SlackCompletesInterval(c);
    SpanIsPositive(c);
    SameDayInWindow(c, first.seen, last.seen);
    SpacedSpan(c, log, a, b - 1);
    if last.at - last.seen < Slack(c) {
      FewerThan(b - 1 - a, Allowance(c), span);
    }
    if b - a >= 2 {
      SpacedSpan(c, log, a, b - 2);
      assert log[b - 2].at <= last.seen;
      assert (b - 2 - a) * span < Allowance(c) * span by {
        SlackIsPositive(c);
      }
      FewerThan(b - 2 - a, Allowance(c), span);
    } else {
      AllowanceAtLeastOne(c, first.seen);
    }
  }

  lemma SpanIsPositive(c: OpsConfig)
    ensures RetrySpan(c) >= 1
  {
  }

  lemma SlackIsPositive(c: OpsConfig)
    ensures Slack(c) >= 1
  {
  }

  lemma AllowanceAtLeastOne(c: OpsConfig, t: Instant)
    requires InsideWindow(c, t)
    ensures Allowance(c) >= 1
  {
    hide RetrySpan;
    SpanIsPositive(c);
    assert 0 <= Width(c);
    QuotientGrows(0, Width(c), RetrySpan(c));
  }

  /** Some stretch of attempts of one local day in a run whose attempts are recorded less than `g` after their
      window tests. */
  ghost predicate DayOfAttempts(
    c: OpsConfig, clock: Instant, steps: seq<Step>, g: int, a: nat, b: nat, date: int)
  {
    && ClockNeverGoesBack(c, Boot(clock), steps)
    && var log := RunSteps(c, Boot(clock), steps).attempts;
       GapsBelow(log, g) && OnDay(c, log, a, b, date)
  }

  /** RETRY BUDGET. In every run, one local day sees at most floor(window / interval) + 2 attempts per start. */
  lemma AttemptsPerDay(c: OpsConfig, clock: Instant, steps: seq<Step>, g: int, a: nat, b: nat, date: int)
    requires DayOfAttempts(c, clock, steps, g, a, b, date)
    ensures b - a <= Allowance(c) + 1
    ensures g <= Slack(c) ==> b - a <= Allowance(c)
  {
    hide RunSteps, ClockNeverGoesBack, Allowance, Slack, LocalDate;
    ReachableStatesAreSane(c, clock, steps);
    SpacedBudget(c, RunSteps(c, Boot(clock), steps).attempts, a, b, date);
  }

  /** Every run keeps to the allowance, as long as attempts are recorded less than `g` after their window tests. */
  ghost predicate KeepsAllowance(c: OpsConfig, g: int) {
    forall clock, steps, a: nat, b: nat, date ::
      DayOfAttempts(c, clock, steps, g, a, b, date) ==> b - a <= Allowance(c)
  }

  // ----- a run that uses the slack

  /** An instant of local day zero, `x` after the window opens. */
  function Moment(c: OpsConfig, x: int): Instant {
    c.recoveryStart - c.zoneOffset + x
  }

  lemma MomentInWindow(c: OpsConfig, x: int)
    requires ValidWindow(c) && 0 <= x <= Width(c)
    ensures LocalDate(c, Moment(c, x)) == 0 && InsideWindow(c, Moment(c, x)) && !WindowExpired(c, Moment(c, x))
    ensures WindowOpens(c, Moment(c, x)) == Moment(c, 0)
  {
  }

  function Least(a: int, b: int): int { if a < b then a else b }

  /** When the k-th attempt is recorded, counted from the opening, and when its window test reads the clock. */
  function RecordedAt(c: OpsConfig, k: nat): int {
    k * RetrySpan(c)
  }

  function SeenAt(c: OpsConfig, k: nat): int {
    Least(RecordedAt(c, k), Width(c))
  }

  function Tried(c: OpsConfig, k: nat): Attempt {
    Attempt(Moment(c, SeenAt(c, k)), Moment(c, RecordedAt(c, k)))
  }

  /** Any due job fails at once, then recovery is attempted, and its job fails as well. */
  function Attempting(seen: Instant, at: Instant): seq<Step> {
    [LookForDue(seen), JobReturns(None, seen, seen), ReleaseLock,
     LookAtRecovery(seen, at, at, at), JobReturns(None, at, at), ReleaseLock]
  }

  function Cycle(c: OpsConfig, k: nat): seq<Step> {
    Attempting(Tried(c, k).seen, Tried(c, k).at)
  }

  function BusyDay(c: OpsConfig, n: nat): seq<Step> {
    if n == 0 then [StartLoop(Moment(c, 0), Moment(c, 0))] else BusyDay(c, n - 1) + Cycle(c, n - 1)
  }

  ghost predicate Tries(c: OpsConfig, log: seq<Attempt>, n: nat) {
    |log| == n && forall k :: 0 <= k < n ==> log[k] == Tried(c, k)
  }

  /** About to make attempt number `n`. */
  ghost predicate Ready(c: OpsConfig, w: World, n: nat) {
    && w.ops.stage == AtDue && w.ops.lock.None?
    && w.ops.recovery.pending == Some(StreamStart)
    && w.ops.recovery.nextRetryAt == Some(Tried(c, n).at)
    && w.clock <= Tried(c, n).seen
  }

  lemma {:induction false} RunConcatenates(c: OpsConfig, w: World, a: seq<Step>, b: seq<Step>)
    ensures RunSteps(c, w, a + b) == RunSteps(c, RunSteps(c, w, a), b)
    ensures ClockNeverGoesBack(c, w, a) && ClockNeverGoesBack(c, RunSteps(c, w, a), b)
        ==> ClockNeverGoesBack(c, w, a + b)
  {
    hide Next, Timely;
    if b == [] {
      assert a + b == a;
    } else {
      var n := |b| - 1;
      RunConcatenates(c, w, a, b[..n]);
      assert (a + b)[..|a| + n] == a + b[..n];
    }
  }

  lemma RunOne(c: OpsConfig, w: World, e: Step)
    ensures RunSteps(c, w, [e]) == Next(c, w, e)
    ensures ClockNeverGoesBack(c, w, [e]) <==> Timely(w.clock, Readings(e))
  {
    assert [e][..0] == [];
    assert RunSteps(c, w, []) == w && ClockNeverGoesBack(c, w, []);
  }

  lemma RunFirst(c: OpsConfig, w: World, e: Step, rest: seq<Step>)
    requires Timely(w.clock, Readings(e))
    ensures RunSteps(c, w, [e] + rest) == RunSteps(c, Next(c, w, e), rest)
    ensures ClockNeverGoesBack(c, Next(c, w, e), rest) ==> ClockNeverGoesBack(c, w, [e] + rest)
  {
    RunOne(c, w, e);
    RunConcatenates(c, w, [e], rest);
  }

  /** Whatever was due, after its failure the loop looks at recovery with the lock free. */
  lemma DueFails(c: OpsConfig, w: World, seen: Instant) returns (after: World)
    requires w.ops.stage == AtDue && w.ops.lock.None? && w.clock <= seen
    ensures after == Next(c, Next(c, Next(c, w, LookForDue(seen)), JobReturns(None, seen, seen)), ReleaseLock)
    ensures after.ops.stage == AtRecovery && after.ops.lock.None? && after.ops.recovery == w.ops.recovery
    ensures after.clock == seen && after.attempts == w.attempts
    ensures Timely(w.clock, [seen]) && Timely(seen, [seen, seen]) && Timely(seen, [])
    ensures Next(c, w, LookForDue(seen)).clock == seen
    ensures Next(c, Next(c, w, LookForDue(seen)), JobReturns(None, seen, seen)).clock == seen
  {
    hide DueJob, Process, Pruned;
    after := Next(c, Next(c, Next(c, w, LookForDue(seen)), JobReturns(None, seen, seen)), ReleaseLock);
  }

  /** A recovery attempt whose job fails. */
  lemma AttemptFails(c: OpsConfig, w: World, seen: Instant, at: Instant) returns (after: World)
    requires w.ops.stage == AtRecovery && w.ops.lock.None? && w.clock == seen <= at
    requires w.ops.recovery.pending == Some(StreamStart) && w.ops.recovery.nextRetryAt == Some(at)
    requires c.recoveryEnabled && InsideWindow(c, seen) && !WindowExpired(c, seen)
    ensures after
         == Next(c, Next(c, Next(c, w, LookAtRecovery(seen, at, at, at)), JobReturns(None, at, at)), ReleaseLock)
    ensures after.ops.stage == AtDue && after.ops.lock.None? && after.ops.recovery.pending == Some(StreamStart)
    ensures after.ops.recovery.nextRetryAt == Some(NextRetry(c, at, at))
    ensures after.clock == at && after.attempts == w.attempts + [Attempt(seen, at)]
    ensures Timely(seen, [seen, at, at, at]) && Timely(at, [at, at]) && Timely(at, [])
    ensures Next(c, w, LookAtRecovery(seen, at, at, at)).clock == at
    ensures Next(c, Next(c, w, LookAtRecovery(seen, at, at, at)), JobReturns(None, at, at)).clock == at
  {
    hide DueJob, Process, InsideWindow, WindowExpired, NextRetry;
    after := Next(c, Next(c, Next(c, w, LookAtRecovery(seen, at, at, at)), JobReturns(None, at, at)), ReleaseLock);
  }

  lemma CycleAttempts(c: OpsConfig, w: World, n: nat)
    requires ValidWindow(c) && c.recoveryEnabled && Ready(c, w, n)
    ensures var after := RunSteps(c, w, Cycle(c, n));
      && ClockNeverGoesBack(c, w, Cycle(c, n))
      && after.attempts == w.attempts + [Tried(c, n)] && after.clock == Tried(c, n).at
      && after.ops.stage == AtDue && after.ops.lock.None? && after.ops.recovery.pending == Some(StreamStart)
      && after.ops.recovery.nextRetryAt == Some(NextRetry(c, Tried(c, n).at, Tried(c, n).at))
  {
    hide Next, Timely, NextRetry, RecordedAt, SeenAt, RunSteps, ClockNeverGoesBack, InsideWindow, WindowExpired;
    var seen, at := Tried(c, n).seen, Tried(c, n).at;
    SeenIsInside(c, n);
    var w3 := DueFails(c, w, seen);
    var w6 := AttemptFails(c, w3, seen, at);
    RunCycle(c, w, seen, at, w3, w6);
  }

  lemma RunCycle(c: OpsConfig, w: World, seen: Instant, at: Instant, w3: World, w6: World)
    requires w3 == Next(c, Next(c, Next(c, w, LookForDue(seen)), JobReturns(None, seen, seen)), ReleaseLock)
    requires w6
          == Next(c, Next(c, Next(c, w3, LookAtRecovery(seen, at, at, at)), JobReturns(None, at, at)), ReleaseLock)
    requires Timely(w.clock, [seen]) && Timely(seen, [seen, seen]) && Timely(seen, [])
    requires Timely(seen, [seen, at, at, at]) && Timely(at, [at, at]) && Timely(at, [])
    requires Next(c, w, LookForDue(seen)).clock == seen
    requires Next(c, Next(c, w, LookForDue(seen)), JobReturns(None, seen, seen)).clock == seen && w3.clock == seen
    requires Next(c, w3, LookAtRecovery(seen, at, at, at)).clock == at
    requires Next(c, Next(c, w3, LookAtRecovery(seen, at, at, at)), JobReturns(None, at, at)).clock == at
    ensures RunSteps(c, w, Attempting(seen, at)) == w6 && ClockNeverGoesBack(c, w, Attempting(seen, at))
  {
    hide Next, Timely, RunSteps, ClockNeverGoesBack;
    var w1 := Next(c, w, LookForDue(seen));
    var w2 := Next(c, w1, JobReturns(None, seen, seen));
    var w4 := Next(c, w3, LookAtRecovery(seen, at, at, at));
    var w5 := Next(c, w4, JobReturns(None, at, at));
    RunOne(c, w5, ReleaseLock);
    RunFirst(c, w4, JobReturns(None, at, at), [ReleaseLock]);
    var two := [JobReturns(None, at, at)] + [ReleaseLock];
    RunFirst(c, w3, LookAtRecovery(seen, at, at, at), two);
    var three := [LookAtRecovery(seen, at, at, at)] + two;
    RunFirst(c, w2, ReleaseLock, three);
    RunFirst(c, w1, JobReturns(None, seen, seen), [ReleaseLock] + three);
    RunFirst(c, w, LookForDue(seen), [JobReturns(None, seen, seen)] + ([ReleaseLock] + three));
    assert [LookForDue(seen)] + ([JobReturns(None, seen, seen)] + ([ReleaseLock] + three)) == Attempting(seen, at);
  }

  lemma SeenIsInside(c: OpsConfig, n: nat)
    requires ValidWindow(c)
    ensures var t := Tried(c, n);
      t.seen <= t.at && LocalDate(c, t.seen) == 0 && InsideWindow(c, t.seen) && !WindowExpired(c, t.seen)
  {
    hide RetrySpan, LocalDate, InsideWindow, WindowExpired;
    SpanIsPositive(c);
    ProductGrows(0, n, RetrySpan(c));
    MomentInWindow(c, SeenAt(c, n));
  }

  /** While the recorded instant still lies in the window, the next attempt comes one interval later. */
  lemma NextIsOneIntervalLater(c: OpsConfig, n: nat)
    requires ValidWindow(c) && RecordedAt(c, n) <= Width(c)
    ensures NextRetry(c, Tried(c, n).at, Tried(c, n).at) == Tried(c, n + 1).at
    ensures Tried(c, n).at <= Tried(c, n + 1).seen
  {
    hide RetrySpan, WindowOpens, LocalDate, InsideWindow, WindowExpired;
    SpanIsPositive(c);
    ProductGrows(0, n, RetrySpan(c));
    MomentInWindow(c, RecordedAt(c, n));
    assert RecordedAt(c, n + 1) == RecordedAt(c, n) + RetrySpan(c);
  }

  lemma DayBegins(c: OpsConfig)
    requires ValidWindow(c) && c.recoveryEnabled
    ensures var boot := Boot(Moment(c, 0));
      && ClockNeverGoesBack(c, boot, BusyDay(c, 0))
      && Ready(c, RunSteps(c, boot, BusyDay(c, 0)), 0)
      && RunSteps(c, boot, BusyDay(c, 0)).attempts == []
  {
    MomentInWindow(c, 0);
    var e := StartLoop(Moment(c, 0), Moment(c, 0));
    RunOne(c, Boot(Moment(c, 0)), e);
    assert RecordedAt(c, 0) == 0;
  }

  lemma TriesAppend(c: OpsConfig, log: seq<Attempt>, n: nat)
    requires Tries(c, log, n)
    ensures Tries(c, log + [Tried(c, n)], n + 1)
  {
  }

  lemma EarlierFits(c: OpsConfig, n: nat)
    requires RecordedAt(c, n + 1) <= Width(c)
    ensures RecordedAt(c, n) <= Width(c)
  {
    hide RetrySpan;
    SpanIsPositive(c);
    ProductGrows(n, n + 1, RetrySpan(c));
  }

  lemma BusyDayStep(c: OpsConfig, w: World, n: nat)
    requires ValidWindow(c) && c.recoveryEnabled && RecordedAt(c, n) <= Width(c)
    requires Tries(c, w.attempts, n) && Ready(c, w, n)
    ensures var after := RunSteps(c, w, Cycle(c, n));
      ClockNeverGoesBack(c, w, Cycle(c, n)) && Tries(c, after.attempts, n + 1) && Ready(c, after, n + 1)
  {
    hide RunSteps, ClockNeverGoesBack, Cycle, Ready, Tries, Tried, RecordedAt, ValidWindow, NextRetry;
    CycleAttempts(c, w, n);
    TriesAppend(c, w.attempts, n);
    NextIsOneIntervalLater(c, n);
    ReadyAgain(c, RunSteps(c, w, Cycle(c, n)), n + 1);
  }

  /** The busy day makes its attempts one interval apart, up to the first recorded past the window. */
  lemma {:induction false} BusyDayTries(c: OpsConfig, n: nat)
    requires ValidWindow(c) && c.recoveryEnabled
    requires n >= 1 ==> RecordedAt(c, n - 1) <= Width(c)
    ensures var w := RunSteps(c, Boot(Moment(c, 0)), BusyDay(c, n));
      && ClockNeverGoesBack(c, Boot(Moment(c, 0)), BusyDay(c, n))
      && Tries(c, w.attempts, n) && Ready(c, w, n)
  {
    hide RunSteps, ClockNeverGoesBack, Cycle, Ready, Tries, RecordedAt, ValidWindow, Boot, Moment;
    if n == 0 {
      DayBegins(c);
      NoTriesYet(c);
    } else {
      if n >= 2 {
        EarlierFits(c, n - 2);
      }
      BusyDayTries(c, n - 1);
      var boot := Boot(Moment(c, 0));
      BusyDayStep(c, RunSteps(c, boot, BusyDay(c, n - 1)), n - 1);
      RunConcatenates(c, boot, BusyDay(c, n - 1), Cycle(c, n - 1));
    }
  }

  lemma NoTriesYet(c: OpsConfig)
    ensures Tries(c, [], 0)
  {
  }

  lemma ReadyAgain(c: OpsConfig, w: World, n: nat)
    requires w.ops.stage == AtDue && w.ops.lock.None? && w.ops.recovery.pending == Some(StreamStart)
    requires w.ops.recovery.nextRetryAt == Some(Tried(c, n).at) && w.clock <= Tried(c, n).seen
    ensures Ready(c, w, n)
  {
  }

  /** One attempt more than the allowance: the last is tested as the window closes and recorded `Slack` later. */
  lemma BusyDayOverruns(c: OpsConfig, g: int)
    requires ValidWindow(c) && c.recoveryEnabled && g > Slack(c)
    ensures var n := Allowance(c) + 1;
      && n >= 1
      && DayOfAttempts(c, Moment(c, 0), BusyDay(c, Allowance(c)) + Cycle(c, Allowance(c)), g, 0, n, 0)
  {
    hide RunSteps, ClockNeverGoesBack, Cycle, Tried, RetrySpan, LocalDate, InsideWindow, WindowExpired, Moment;
    MomentInWindow(c, 0);
    AllowanceAtLeastOne(c, Moment(c, 0));
    var k: nat := Allowance(c);
    LastFits(c);
    BusyDayTries(c, k);
    var boot := Boot(Moment(c, 0));
    var w := RunSteps(c, boot, BusyDay(c, k));
    CycleAttempts(c, w, k);
    RunConcatenates(c, boot, BusyDay(c, k), Cycle(c, k));
    var log := RunSteps(c, boot, BusyDay(c, k) + Cycle(c, k)).attempts;
    assert Tries(c, log, k + 1);
    forall j | 0 <= j < k + 1 ensures log[j].at - log[j].seen < g && LocalDate(c, log[j].seen) == 0 {
      SeenIsInside(c, j);
      GapWithinSlack(c, j);
    }
  }

  lemma LastFits(c: OpsConfig)
    requires Allowance(c) >= 1
    ensures RecordedAt(c, Allowance(c) - 1) <= Width(c)
  {
    hide RetrySpan;
    var span := RetrySpan(c);
    assert Width(c) == Fits(c) * span + Width(c) % span;
  }

  lemma GapWithinSlack(c: OpsConfig, j: nat)
    requires ValidWindow(c) && j <= Allowance(c)
    ensures Tried(c, j).at - Tried(c, j).seen <= Slack(c)
  {
    hide RetrySpan, Slack, Allowance;
    SpanIsPositive(c);
    SlackCompletesInterval(c);
    SlackIsPositive(c);
    ProductGrows(j, Allowance(c), RetrySpan(c));
  }

  /** THE BUDGET, EXACTLY. floor(window / interval) + 1 attempts a day is kept by every run in which attempts are
      recorded less than `g` after their window tests if and only if `g` does not exceed the slack: what the window
      lacks of a whole number of intervals. With whole seconds the slack is at least a second. */
  lemma RetryBudgetIff(c: OpsConfig, g: int)
    requires ValidWindow(c) && c.recoveryEnabled
    ensures KeepsAllowance(c, g) <==> g <= Slack(c)
  {
    hide DayOfAttempts, Slack, Allowance;
    if g <= Slack(c) {
      forall clock, steps, a: nat, b: nat, date | DayOfAttempts(c, clock, steps, g, a, b, date)
        ensures b - a <= Allowance(c)
      {
        AttemptsPerDay(c, clock, steps, g, a, b, date);
      }
    } else {
      BusyDayOverruns(c, g);
      var n := Allowance(c) + 1;
      assert DayOfAttempts(c, Moment(c, 0), BusyDay(c, Allowance(c)) + Cycle(c, Allowance(c)), g, 0, n, 0);
    }
  }
}
