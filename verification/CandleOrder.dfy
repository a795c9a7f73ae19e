// How a token's candles can come out of order at all, when time goes forward across gaps: only by emitting again a
// minute that a flush had emitted before.

module CandleOrder {
  import opened Options
  import opened MarketClock
  import opened CandleTrack
  import opened CandleBatch
  import opened CandleGuarantees

  // ----- three moments of a feed

  /** The `k`-th event emits the candle of `minute`. */
  predicate EmitsMinute(timeframe: string, events: seq<Event>, k: nat, minute: Instant) {
    && k < |events|
    && var track := RunOf(timeframe, events[..k]).track;
       Emits(track, events[k]) && track.working.value.candle.startedAt == minute
  }

  /** The `i`-th event is a flush that does. */
  predicate FlushesMinute(timeframe: string, events: seq<Event>, i: nat, minute: Instant) {
    EmitsMinute(timeframe, events, i, minute) && events[i].Flush?
  }

  /** The `j`-th event is an accepted quote that reopens `minute`. */
  predicate ReopensMinute(timeframe: string, events: seq<Event>, j: nat, minute: Instant) {
    && j < |events| && events[j].Tick?
    && MinuteOf(events[j].quote.at) == minute && Reopens(RunOf(timeframe, events[..j]).track, events[j].quote)
  }

  /** `minute` was flushed and then reopened. */
  ghost predicate Reopened(timeframe: string, events: seq<Event>, minute: Instant) {
    exists i: nat, j: nat :: i < j && FlushesMinute(timeframe, events, i, minute)
                             && ReopensMinute(timeframe, events, j, minute)
  }

  ghost predicate Flushed(timeframe: string, events: seq<Event>, minute: Instant) {
    exists i: nat :: FlushesMinute(timeframe, events, i, minute)
  }

  /** A flush emitted a minute, a later quote reopened it, and the reopened candle was emitted too. */
  ghost predicate EmittedAgain(timeframe: string, events: seq<Event>) {
    exists k: nat, minute ::
      EmitsMinute(timeframe, events, k, minute) && Reopened(timeframe, events[..k], minute)
  }

  lemma EmitsEarlier(timeframe: string, events: seq<Event>, n: nat, k: nat, minute: Instant)
    requires n <= |events| && k < n
    ensures EmitsMinute(timeframe, events[..n], k, minute) <==> EmitsMinute(timeframe, events, k, minute)
    ensures FlushesMinute(timeframe, events[..n], k, minute) <==> FlushesMinute(timeframe, events, k, minute)
    ensures ReopensMinute(timeframe, events[..n], k, minute) <==> ReopensMinute(timeframe, events, k, minute)
  {
    hide RunOf, Emits, Reopens;
    assert events[..n][..k] == events[..k];
  }

  lemma ReopenedStays(timeframe: string, events: seq<Event>, n: nat, minute: Instant)
    requires n <= |events| && Reopened(timeframe, events[..n], minute)
    ensures Reopened(timeframe, events, minute)
  {
    hide EmitsMinute;
    var i: nat, j: nat :| i < j && FlushesMinute(timeframe, events[..n], i, minute)
                          && ReopensMinute(timeframe, events[..n], j, minute);
    EmitsEarlier(timeframe, events, n, i, minute);
    EmitsEarlier(timeframe, events, n, j, minute);
  }

  lemma FlushedStays(timeframe: string, events: seq<Event>, n: nat, minute: Instant)
    requires n <= |events| && Flushed(timeframe, events[..n], minute)
    ensures Flushed(timeframe, events, minute)
  {
    var i: nat :| FlushesMinute(timeframe, events[..n], i, minute);
    EmitsEarlier(timeframe, events, n, i, minute);
  }

  lemma EmittedAgainStays(timeframe: string, events: seq<Event>, n: nat)
    requires n <= |events| && EmittedAgain(timeframe, events[..n])
    ensures EmittedAgain(timeframe, events)
  {
    hide Reopened;
    var k: nat, minute :| EmitsMinute(timeframe, events[..n], k, minute)
                          && Reopened(timeframe, events[..n][..k], minute);
    assert events[..n][..k] == events[..k];
    EmitsEarlier(timeframe, events, n, k, minute);
  }

  // ----- emitted again, out of order

  lemma RunStep(timeframe: string, events: seq<Event>)
    requires events != []
    ensures RunOf(timeframe, events)
         == StepRun(timeframe, RunOf(timeframe, events[..|events| - 1]), events[|events| - 1])
  {
  }

  lemma {:induction false} AllGrows(timeframe: string, events: seq<Event>, n: nat)
    requires n <= |events|
    ensures RunOf(timeframe, events[..n]).all <= RunOf(timeframe, events).all
    decreases |events| - n
  {
    if n == |events| {
      assert events[..n] == events;
    } else {
      hide Emits;
      AllGrows(timeframe, events, n + 1);
      assert events[..n + 1][..n] == events[..n];
      StepEmits(timeframe, RunOf(timeframe, events[..n]), events[n]);
    }
  }

  /** Where the candle of an emitting event stands among all candles. */
  lemma EmittedAt(timeframe: string, events: seq<Event>, k: nat, minute: Instant)
    requires EmitsMinute(timeframe, events, k, minute)
    ensures var all, p := RunOf(timeframe, events).all, |RunOf(timeframe, events[..k]).all|;
      && p < |RunOf(timeframe, events[..k + 1]).all| <= |all| && all[p].startedAt == minute
  {
    hide Emits, RunOf, StepRun;
    AllGrows(timeframe, events, k + 1);
    assert events[..k + 1][..k] == events[..k];
    RunStep(timeframe, events[..k + 1]);
    StepEmits(timeframe, RunOf(timeframe, events[..k]), events[k]);
  }

  lemma EmittedAgainBreaksOrder(timeframe: string, events: seq<Event>)
    requires EmittedAgain(timeframe, events)
    ensures !StrictlyOrdered(RunOf(timeframe, events).all)
  {
    hide RunOf, Emits, ReopensMinute;
    var k: nat, minute :| EmitsMinute(timeframe, events, k, minute) && Reopened(timeframe, events[..k], minute);
    var i: nat, j: nat :| i < j && FlushesMinute(timeframe, events[..k], i, minute)
                          && ReopensMinute(timeframe, events[..k], j, minute);
    EmitsEarlier(timeframe, events, k, i, minute);
    EmittedAt(timeframe, events, i, minute);
    EmittedAt(timeframe, events, k, minute);
    assert events[..k][..i + 1] == events[..i + 1];
    AllGrows(timeframe, events[..k], i + 1);
  }

  // ----- out of order, emitted again

  /** What a feed with forward gaps keeps: no candle lies beyond the minute last seen; a candle of that very minute
      came from a flush; and when that minute is complete in hand again, a quote reopened it. */
  ghost predicate Traced(timeframe: string, events: seq<Event>, r: Run, seen: Option<Instant>) {
    && (r.all != [] ==> seen.Some? && StartsUpTo(r.all, MinuteOf(seen.value)))
    && (r.all != [] && r.all[|r.all| - 1].startedAt == MinuteOf(seen.value) ==>
          && Flushed(timeframe, events, MinuteOf(seen.value))
          && (r.track.working.Some? && r.track.working.value.complete ==>
                Reopened(timeframe, events, MinuteOf(seen.value))))
  }

  /** The working candle and the log lie in the minute last seen. */
  ghost predicate Current(r: Run, log: seq<Quote>, seen: Option<Instant>) {
    && Remembers(r.track, log)
    && (log != [] ==> seen == Some(log[|log| - 1].at))
  }

  lemma {:induction false} RunIsCurrent(timeframe: string, events: seq<Event>)
    ensures Current(RunOf(timeframe, events), LogOf(events), LastSeen(events))
  {
    TrackRemembersLog(timeframe, events);
    SeenEndsLog(events);
  }

  lemma {:induction false} SeenEndsLog(events: seq<Event>)
    ensures LogOf(events) != [] ==> LastSeen(events) == Some(LogOf(events)[|LogOf(events)| - 1].at)
  {
    if events != [] {
      SeenEndsLog(events[..|events| - 1]);
    }
  }

  /** An emission repeats the last candle's minute, which is then a reopened one, or goes beyond it. */
  lemma EmissionIsTraced(
    timeframe: string, events: seq<Event>, r: Run, log: seq<Quote>, seen: Option<Instant>, e: Event)
    requires Traced(timeframe, events, r, seen) && Current(r, log, seen) && Emits(r.track, e)
    ensures var minute := r.track.working.value.candle.startedAt;
      && seen.Some? && minute == MinuteOf(seen.value)
      && (r.all != [] ==>
            r.all[|r.all| - 1].startedAt < minute || Reopened(timeframe, events, minute))
  {
    hide Flushed, Reopened, LastVolume, MinuteOf;
  }

  /** Nothing happened since: what was flushed and reopened before still was. */
  lemma TracedStays(timeframe: string, events: seq<Event>, n: nat, r: Run, after: Run, seen: Option<Instant>)
    requires n <= |events| && Traced(timeframe, events[..n], r, seen)
    requires after.all == r.all && (after.track.working == r.track.working || after.track.working.None?)
    ensures Traced(timeframe, events, after, seen)
  {
    hide Flushed, Reopened;
    if r.all != [] && r.all[|r.all| - 1].startedAt == MinuteOf(seen.value) {
      FlushedStays(timeframe, events, n, MinuteOf(seen.value));
      if Reopened(timeframe, events[..n], MinuteOf(seen.value)) {
        ReopenedStays(timeframe, events, n, MinuteOf(seen.value));
      }
    }
  }

  /** A flush that emits leaves the minute flushed and nothing in hand. */
  lemma FlushIsTraced(timeframe: string, events: seq<Event>, log: seq<Quote>, seen: Option<Instant>)
    requires events != [] && events[|events| - 1].Flush?
    requires var r := RunOf(timeframe, events[..|events| - 1]);
      && Traced(timeframe, events[..|events| - 1], r, seen) && Current(r, log, seen)
      && Emits(r.track, events[|events| - 1])
    ensures var r := RunOf(timeframe, events[..|events| - 1]);
      Traced(timeframe, events, StepRun(timeframe, r, events[|events| - 1]), seen)
  {
    hide LastVolume, Reopened, RunOf, MinuteOf;
    var n := |events| - 1;
    var minute := RunOf(timeframe, events[..n]).track.working.value.candle.startedAt;
    assert FlushesMinute(timeframe, events, n, minute);
  }

  lemma MinutesMoveOn(seen: Instant, at: Instant)
    requires seen <= at
    ensures MinuteOf(seen) <= MinuteOf(at)
  {
  }

  /** A quote that pushes out the working candle belongs to a later minute than anything emitted. */
  lemma RollIsTraced(
    timeframe: string, events: seq<Event>, r: Run, log: seq<Quote>, seen: Option<Instant>, q: Quote, minute: Instant)
    requires Traced(timeframe, events, r, seen) && Current(r, log, seen) && Admits(r.track, q)
    requires minute == MinuteOf(q.at) && Rolled(r.track, minute).Some?
    ensures var all := StepRun(timeframe, r, Tick(q)).all;
      all != [] ==> StartsUpTo(all, minute) && all[|all| - 1].startedAt < minute
  {
    hide LastVolume, Flushed, Reopened, MinuteOf, NewWork, WithVolume, Rises;
    MinutesMoveOn(seen.value, q.at);
    var rolled := Rolled(r.track, minute);
    assert r.all + [] == r.all;
  }

  lemma LaterMinuteIsTraced(timeframe: string, events: seq<Event>, r: Run, at: Instant)
    requires r.all != [] ==> StartsUpTo(r.all, MinuteOf(at)) && r.all[|r.all| - 1].startedAt < MinuteOf(at)
    ensures Traced(timeframe, events, r, Some(at))
  {
  }

  /** A quote in the minute in hand changes nothing that is traced. */
  lemma UpdateIsTraced(
    timeframe: string, events: seq<Event>, n: nat, r: Run, log: seq<Quote>, seen: Option<Instant>, q: Quote)
    requires n <= |events| && Traced(timeframe, events[..n], r, seen) && Current(r, log, seen) && Admits(r.track, q)
    requires r.track.working.Some? && Rolled(r.track, MinuteOf(q.at)).None?
    ensures Traced(timeframe, events, StepRun(timeframe, r, Tick(q)), Some(q.at))
  {
    hide LastVolume, Flushed, Reopened, MinuteOf, Rises, Max, Min;
    var after := StepRun(timeframe, r, Tick(q));
    assert after.all == r.all;
    var minute := MinuteOf(seen.value);
    assert minute == MinuteOf(q.at);
    if r.all != [] && r.all[|r.all| - 1].startedAt == minute {
      FlushedStays(timeframe, events, n, minute);
      if r.track.working.value.complete {
        ReopenedStays(timeframe, events, n, minute);
      }
    }
  }

  /** A quote with nothing in hand: the first after a start or a gap makes an incomplete candle, any other reopens the
      minute last seen or begins a later one. */
  lemma OpeningIsTraced(timeframe: string, events: seq<Event>, log: seq<Quote>, seen: Option<Instant>, q: Quote)
    requires events != [] && events[|events| - 1] == Tick(q)
    requires var n := |events| - 1;
      var r := RunOf(timeframe, events[..n]);
      && Traced(timeframe, events[..n], r, seen) && Current(r, log, seen) && Admits(r.track, q)
      && r.track.working.None?
    requires log == [] && seen.Some? ==> seen.value <= q.at
    ensures Traced(timeframe, events, StepRun(timeframe, RunOf(timeframe, events[..|events| - 1]), Tick(q)), Some(q.at))
  {
    hide RunOf, Flushed, Reopened, MinuteOf, Rises;
    var n := |events| - 1;
    var r := RunOf(timeframe, events[..n]);
    var after := StepRun(timeframe, r, Tick(q));
    assert after.all == r.all;
    if r.all != [] {
      MinutesMoveOn(seen.value, q.at);
      if r.all[|r.all| - 1].startedAt == MinuteOf(q.at) {
        FlushedStays(timeframe, events, n, MinuteOf(q.at));
        if log != [] {
          ReopeningIsRecorded(timeframe, events, q);
        } else {
          assert r.track.lastVolume == LastVolume([]) == None;
        }
      }
    }
  }

  lemma ReopeningIsRecorded(timeframe: string, events: seq<Event>, q: Quote)
    requires events != [] && events[|events| - 1] == Tick(q)
    requires Reopens(RunOf(timeframe, events[..|events| - 1]).track, q)
    requires Flushed(timeframe, events[..|events| - 1], MinuteOf(q.at))
    ensures Reopened(timeframe, events, MinuteOf(q.at))
  {
    hide RunOf, Emits, Reopens, MinuteOf;
    var n := |events| - 1;
    var minute := MinuteOf(q.at);
    var i: nat :| FlushesMinute(timeframe, events[..n], i, minute);
    EmitsEarlier(timeframe, events, n, i, minute);
    assert ReopensMinute(timeframe, events, n, minute);
  }

  /** One accepted quote. */
  lemma QuoteIsTraced(timeframe: string, events: seq<Event>, log: seq<Quote>, seen: Option<Instant>, q: Quote)
    requires events != [] && events[|events| - 1] == Tick(q)
    requires var r := RunOf(timeframe, events[..|events| - 1]);
      && Traced(timeframe, events[..|events| - 1], r, seen) && Current(r, log, seen) && Admits(r.track, q)
    requires log == [] && seen.Some? ==> seen.value <= q.at
    ensures Traced(timeframe, events, StepRun(timeframe, RunOf(timeframe, events[..|events| - 1]), Tick(q)), Some(q.at))
  {
    hide RunOf, Traced, Current, MinuteOf, StepRun, Admits;
    var n := |events| - 1;
    var r := RunOf(timeframe, events[..n]);
    if r.track.working.None? {
      OpeningIsTraced(timeframe, events, log, seen, q);
    } else if Rolled(r.track, MinuteOf(q.at)).None? {
      UpdateIsTraced(timeframe, events, n, r, log, seen, q);
    } else {
      RollIsTraced(timeframe, events[..n], r, log, seen, q, MinuteOf(q.at));
      LaterMinuteIsTraced(timeframe, events, StepRun(timeframe, r, Tick(q)), q.at);
    }
  }

  lemma IgnoredQuote(timeframe: string, r: Run, q: Quote)
    requires !Admits(r.track, q)
    ensures StepRun(timeframe, r, Tick(q)) == r
  {
    assert r.all + [] == r.all && r.sinceGap + [] == r.sinceGap;
  }

  lemma UnflushedStays(timeframe: string, r: Run, cutoff: Instant)
    requires !Flushable(r.track, cutoff)
    ensures StepRun(timeframe, r, Flush(cutoff)) == r
  {
    assert r.all + [] == r.all && r.sinceGap + [] == r.sinceGap;
  }

  lemma AdmitsFollows(track: Track, log: seq<Quote>, q: Quote)
    requires Remembers(track, log)
    ensures Admits(track, q) <==> Follows(log, q)
  {
    hide LastVolume, Rises;
  }

  lemma {:induction false} RunIsTraced(timeframe: string, events: seq<Event>)
    requires GapsGoForward(events)
    ensures Traced(timeframe, events, RunOf(timeframe, events), LastSeen(events))
  {
    hide RunOf, Traced, StepRun, Admits, Follows, Flushable, Remembers;
    if events == [] {
      StartIsTraced(timeframe);
    } else {
      var n := |events| - 1;
      var r, log, seen := RunOf(timeframe, events[..n]), LogOf(events[..n]), LastSeen(events[..n]);
      RunIsTraced(timeframe, events[..n]);
      RunIsCurrent(timeframe, events[..n]);
      RunStep(timeframe, events);
      match events[n]
      case Tick(q) =>
        AdmitsFollows(r.track, log, q);
        if Admits(r.track, q) {
          QuoteIsTraced(timeframe, events, log, seen, q);
        } else {
          IgnoredQuote(timeframe, r, q);
          TracedStays(timeframe, events, n, r, r, seen);
        }
      case Flush(cutoff) =>
        if Flushable(r.track, cutoff) {
          FlushIsTraced(timeframe, events, log, seen);
        } else {
          UnflushedStays(timeframe, r, cutoff);
          TracedStays(timeframe, events, n, r, r, seen);
        }
      case Gap =>
        GapIsTraced(timeframe, events, r, seen);
    }
  }

  lemma StartIsTraced(timeframe: string)
    ensures RunOf(timeframe, []) == START && Traced(timeframe, [], START, None)
  {
  }

  lemma GapIsTraced(timeframe: string, events: seq<Event>, r: Run, seen: Option<Instant>)
    requires events != [] && Traced(timeframe, events[..|events| - 1], r, seen)
    ensures Traced(timeframe, events, StepRun(timeframe, r, Gap), seen)
  {
    hide Traced;
    TracedStays(timeframe, events, |events| - 1, r, StepRun(timeframe, r, Gap), seen);
  }

  /** Out of order means emitted again. */
  lemma {:induction false} DisorderIsEmittedAgain(timeframe: string, events: seq<Event>)
    requires GapsGoForward(events)
    ensures StrictlyOrdered(RunOf(timeframe, events).all) || EmittedAgain(timeframe, events)
  {
    hide RunOf, StrictlyOrdered, StepRun, Emits, Traced, Current, Reopened;
    if events == [] {
      NothingEmittedYet(timeframe);
    } else {
      var n := |events| - 1;
      var r := RunOf(timeframe, events[..n]);
      DisorderIsEmittedAgain(timeframe, events[..n]);
      if EmittedAgain(timeframe, events[..n]) {
        EmittedAgainStays(timeframe, events, n);
      } else {
        RunStep(timeframe, events);
        StepEmits(timeframe, r, events[n]);
        if Emits(r.track, events[n]) {
          NextIsLaterOrAgain(timeframe, events);
        }
      }
    }
  }

  lemma NothingEmittedYet(timeframe: string)
    ensures StrictlyOrdered(RunOf(timeframe, []).all)
  {
  }

  lemma NextIsLaterOrAgain(timeframe: string, events: seq<Event>)
    requires events != [] && GapsGoForward(events)
    requires var r := RunOf(timeframe, events[..|events| - 1]);
      Emits(r.track, events[|events| - 1]) && StrictlyOrdered(r.all)
    ensures var r := RunOf(timeframe, events[..|events| - 1]);
      EmittedAgain(timeframe, events) || StrictlyOrdered(r.all + [r.track.working.value.candle])
  {
    hide RunOf, StrictlyOrdered, Traced, Emits, Reopened;
    var n := |events| - 1;
    var r, log, seen := RunOf(timeframe, events[..n]), LogOf(events[..n]), LastSeen(events[..n]);
    EmitsHasWorking(r.track, events[n]);
    var c := r.track.working.value.candle;
    RunIsTraced(timeframe, events[..n]);
    RunIsCurrent(timeframe, events[..n]);
    EmissionIsTraced(timeframe, events[..n], r, log, seen, events[n]);
    if Reopened(timeframe, events[..n], c.startedAt) {
      assert EmitsMinute(timeframe, events, n, c.startedAt);
    } else {
      AppendKeepsOrderIff(r.all, c);
    }
  }

  /** ORDER, READ OFF THE FEED. When gaps go forward in time, a token's candles fail to start on strictly increasing
      whole minutes if and only if some flush emitted a minute, a later accepted quote reopened that minute, and the
      reopened candle was emitted too. */
  lemma OrderBreaksIffEmittedAgain(timeframe: string, events: seq<Event>)
    requires GapsGoForward(events)
    ensures !StrictlyOrdered(RunOf(timeframe, events).all) <==> EmittedAgain(timeframe, events)
  {
    hide StrictlyOrdered, EmittedAgain, RunOf;
    DisorderIsEmittedAgain(timeframe, events);
    if EmittedAgain(timeframe, events) {
      EmittedAgainBreaksOrder(timeframe, events);
    }
  }
}
