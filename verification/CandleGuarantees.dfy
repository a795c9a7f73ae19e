// What a consumer of the builder's candles can rely on: conservation of volume, strict order in time,
// no minute that spans a gap, and sane prices.

module CandleGuarantees {
  import opened Options
  import opened MarketClock
  import opened Candles
  import opened CandleTrack
  import opened CandleBatch

  // ----- the track remembers the last quote and the last volume of the log

  ghost predicate Remembers(track: Track, log: seq<Quote>) {
    && track.lastAt == (if log == [] then None else Some(log[|log| - 1].at))
    && track.lastVolume == LastVolume(log)
    && (track.working.Some? ==>
          log != [] && track.working.value.candle.startedAt == MinuteOf(log[|log| - 1].at))
  }

  lemma {:induction false} TrackRemembersLog(timeframe: string, events: seq<Event>)
    ensures Remembers(RunOf(timeframe, events).track, LogOf(events))
  {
    if events != [] {
      var before := events[..|events| - 1];
      TrackRemembersLog(timeframe, before);
      var log := LogOf(before);
      if events[|events| - 1].Tick? {
        assert (log + [events[|events| - 1].quote])[..|log|] == log;
      }
    }
  }

  /** WHICH QUOTES ARE ACCEPTED: the first, any later one, and one at the instant of the last that brings more
      volume than was last reported. */
  lemma LaterOrRicherIsAccepted(timeframe: string, events: seq<Event>, q: Quote)
    ensures var track, log := RunOf(timeframe, events).track, LogOf(events);
      Admits(track, q)
      <==> || log == []
           || log[|log| - 1].at < q.at
           || (log[|log| - 1].at == q.at && q.volume.Some?
               && LastVolume(log).Some? && LastVolume(log).value < q.volume.value)
  {
    hide RunOf, LogOf, LastVolume;
    TrackRemembersLog(timeframe, events);
  }

  // ----- conservation

  function WorkingVolume(track: Track): int {
    if track.working.Some? then track.working.value.candle.volume else 0
  }

  lemma TotalVolumeAppends(cs: seq<Candle>, out: seq<Candle>)
    requires |out| <= 1
    ensures TotalVolume(cs + out) == TotalVolume(cs) + (if out == [] then 0 else out[0].volume)
  {
    if out == [] {
      assert cs + out == cs;
    } else {
      assert (cs + out)[..|cs|] == cs;
    }
  }

  lemma GainAppends(log: seq<Quote>, q: Quote)
    ensures Gain([], log + [q]) == Gain([], log) + Rise(LastVolume(log), q.volume)
  {
    assert (log + [q])[..|log|] == log;
    assert [] + log == log;
  }

  lemma AcceptConserves(timeframe: string, track: Track, log: seq<Quote>, q: Quote)
    requires Remembers(track, log) && Admits(track, q)
    ensures var (next, out) := Accept(timeframe, track, q);
      && |out| <= 1
      && (if out == [] then 0 else out[0].volume)
         + Discarded(Rolled(track, MinuteOf(q.at))) + WorkingVolume(next)
         == WorkingVolume(track) + Rise(LastVolume(log), q.volume)
  {
  }

  lemma TickConserves(timeframe: string, r: Run, log: seq<Quote>, q: Quote)
    requires Remembers(r.track, log)
    requires TotalVolume(r.sinceGap) + r.discarded + WorkingVolume(r.track) == Gain([], log)
    ensures var next := StepRun(timeframe, r, Tick(q));
      TotalVolume(next.sinceGap) + next.discarded + WorkingVolume(next.track)
      == Gain([], if Follows(log, q) then log + [q] else log)
  {
    if Admits(r.track, q) {
      AcceptConserves(timeframe, r.track, log, q);
      TotalVolumeAppends(r.sinceGap, Accept(timeframe, r.track, q).1);
      GainAppends(log, q);
    } else {
      assert r.sinceGap + [] == r.sinceGap;
    }
  }

  /** Since the last gap, every positive volume step between accepted quotes is in exactly one place:
      an emitted candle, a discarded minute, or the minute under construction. */
  lemma {:induction false} VolumeIsConserved(timeframe: string, events: seq<Event>)
    ensures var r := RunOf(timeframe, events);
      TotalVolume(r.sinceGap) + r.discarded + WorkingVolume(r.track) == Gain([], LogOf(events))
  {
    if events != [] {
      var before, last := events[..|events| - 1], events[|events| - 1];
      var r := RunOf(timeframe, before);
      VolumeIsConserved(timeframe, before);
      TrackRemembersLog(timeframe, before);
      match last {
        case Tick(q) =>
          TickConserves(timeframe, r, LogOf(before), q);
        case Flush(cutoff) => TotalVolumeAppends(r.sinceGap, FlushTrack(r.track, cutoff).1);
        case Gap =>
      }
    }
  }

  // ----- prices

  ghost predicate Sound(r: Run) {
    && AllWellFormed(r.all)
    && (r.track.working.Some? ==> WellFormed(r.track.working.value.candle))
  }

  /** Every candle ever emitted satisfies low <= open, close <= high and has no negative volume. */
  lemma {:induction false} CandlesAreWellFormed(timeframe: string, events: seq<Event>)
    ensures Sound(RunOf(timeframe, events))
  {
    if events != [] {
      CandlesAreWellFormed(timeframe, events[..|events| - 1]);
    }
  }

  // ----- gaps

  ghost predicate StartsAfter(cs: seq<Candle>, minute: Instant) {
    forall i :: 0 <= i < |cs| ==> cs[i].startedAt > minute
  }

  ghost predicate SkipsFirstMinute(r: Run, log: seq<Quote>) {
    if log == [] then r.sinceGap == [] && r.track.working.None?
    else
      var first := MinuteOf(log[0].at);
      && first <= MinuteOf(log[|log| - 1].at)
      && (LastVolume(log).Some? && MinuteOf(log[|log| - 1].at) == first ==>
            r.track.working.Some? && !r.track.working.value.complete)
      && (r.track.working.Some? && r.track.working.value.complete ==> MinuteOf(log[|log| - 1].at) > first)
      && StartsAfter(r.sinceGap, first)
  }

  lemma TickSkips(timeframe: string, r: Run, log: seq<Quote>, q: Quote)
    requires SkipsFirstMinute(r, log) && Remembers(r.track, log)
    ensures SkipsFirstMinute(StepRun(timeframe, r, Tick(q)), if Follows(log, q) then log + [q] else log)
  {
    if !Admits(r.track, q) {
      assert r.sinceGap + [] == r.sinceGap;
    } else if log == [] {
      assert log + [q] == [q] && [q][..0] == [];
    } else {
      LaterTickSkips(timeframe, r, log, q);
    }
  }

  lemma LaterTickSkips(timeframe: string, r: Run, log: seq<Quote>, q: Quote)
    requires log != [] && SkipsFirstMinute(r, log) && Remembers(r.track, log) && Admits(r.track, q)
    ensures SkipsFirstMinute(StepRun(timeframe, r, Tick(q)), log + [q])
  {
    assert (log + [q])[..|log|] == log;
  }

  lemma GapSkips(timeframe: string, r: Run)
    ensures SkipsFirstMinute(StepRun(timeframe, r, Gap), [])
  {
  }

  lemma FlushSkips(timeframe: string, r: Run, log: seq<Quote>, cutoff: Instant)
    requires SkipsFirstMinute(r, log) && Remembers(r.track, log)
    ensures SkipsFirstMinute(StepRun(timeframe, r, Flush(cutoff)), log)
  {
  }

  /** The minute in which the feed starts, or resumes after a gap, is never emitted: every candle since
      then starts in a later minute, so none mixes quotes from both sides of a gap. */
  lemma {:induction false} FirstMinuteIsNeverEmitted(timeframe: string, events: seq<Event>)
    ensures SkipsFirstMinute(RunOf(timeframe, events), LogOf(events))
  {
    if events != [] {
      hide SkipsFirstMinute, Remembers, LastVolume, Rises, Accept;
      var before, last := events[..|events| - 1], events[|events| - 1];
      var r, log := RunOf(timeframe, before), LogOf(before);
      FirstMinuteIsNeverEmitted(timeframe, before);
      TrackRemembersLog(timeframe, before);
      match last
      case Tick(q) =>
        TickSkips(timeframe, r, log, q);
      case Flush(cutoff) =>
        FlushSkips(timeframe, r, log, cutoff);
      case Gap =>
        GapSkips(timeframe, r);
    }
  }

  /** A gap forgets everything: what follows is what a fresh builder would have made of the suffix. */
  lemma {:induction false} GapStartsAfresh(timeframe: string, before: seq<Event>, after: seq<Event>)
    ensures var r, anew := RunOf(timeframe, before + [Gap] + after), RunOf(timeframe, after);
      && r.track == anew.track
      && r.sinceGap == anew.sinceGap
      && r.all == RunOf(timeframe, before).all + anew.all
  {
    hide StepRun;
    var whole := before + [Gap] + after;
    if after == [] {
      assert whole[..|whole| - 1] == before;
      GapResets(timeframe, RunOf(timeframe, before));
    } else {
      var n := |after| - 1;
      GapStartsAfresh(timeframe, before, after[..n]);
      assert whole[..|whole| - 1] == before + [Gap] + after[..n];
      SameStep(timeframe, RunOf(timeframe, before + [Gap] + after[..n]), RunOf(timeframe, after[..n]), after[n],
               RunOf(timeframe, before).all);
    }
  }

  lemma GapResets(timeframe: string, r: Run)
    ensures var after := StepRun(timeframe, r, Gap);
      after.track == FRESH && after.sinceGap == [] && after.all == r.all + START.all
  {
  }

  lemma SameStep(timeframe: string, r: Run, anew: Run, e: Event, base: seq<Candle>)
    requires r.track == anew.track && r.sinceGap == anew.sinceGap && r.all == base + anew.all
    ensures var after, afterAnew := StepRun(timeframe, r, e), StepRun(timeframe, anew, e);
      && after.track == afterAnew.track && after.sinceGap == afterAnew.sinceGap
      && after.all == base + afterAnew.all
  {
    hide Accept, Admits, Rolled, FlushTrack, Discarded;
  }

  // ----- order

  /** The instant of the most recently accepted quote, gaps notwithstanding. */
  function LastSeen(events: seq<Event>): Option<Instant> {
    if events == [] then None
    else
      var before, last := events[..|events| - 1], events[|events| - 1];
      if last.Tick? && Follows(LogOf(before), last.quote) then Some(last.quote.at) else LastSeen(before)
  }

  /** The first quote after a gap is not older than the last one before it. */
  predicate GapsGoForward(events: seq<Event>) {
    events == []
    || var before, last := events[..|events| - 1], events[|events| - 1];
       && GapsGoForward(before)
       && (last.Tick? && LogOf(before) == [] && LastSeen(before).Some? ==>
             last.quote.at >= LastSeen(before).value)
  }

  ghost predicate StrictlyOrdered(cs: seq<Candle>) {
    && (forall i, j :: 0 <= i < j < |cs| ==> cs[i].startedAt < cs[j].startedAt)
    && (forall i :: 0 <= i < |cs| ==> cs[i].startedAt % 60_000_000 == 0)
  }

  ghost predicate StartsUpTo(cs: seq<Candle>, minute: Instant) {
    forall i :: 0 <= i < |cs| ==> cs[i].startedAt <= minute
  }

  ghost predicate StartsBefore(cs: seq<Candle>, minute: Instant) {
    forall i :: 0 <= i < |cs| ==> cs[i].startedAt < minute
  }

  ghost predicate InOrder(r: Run, log: seq<Quote>, seen: Option<Instant>) {
    && StrictlyOrdered(r.all)
    && (seen.None? ==> r.all == [])
    && (log != [] ==> seen == Some(log[|log| - 1].at))
    && (seen.Some? ==> StartsUpTo(r.all, MinuteOf(seen.value)))
    && (r.track.working.Some? && r.track.working.value.complete ==>
          StartsBefore(r.all, r.track.working.value.candle.startedAt))
  }

  lemma EmittingKeepsOrder(cs: seq<Candle>, c: Candle)
    requires StrictlyOrdered(cs) && StartsBefore(cs, c.startedAt) && c.startedAt % 60_000_000 == 0
    ensures StrictlyOrdered(cs + [c])
    ensures StartsUpTo(cs + [c], c.startedAt)
  {
  }

  lemma MinutesFollowInstants(t: Instant, u: Instant)
    ensures t <= u ==> MinuteOf(t) <= MinuteOf(u)
  {
  }

  lemma TickKeepsOrder(timeframe: string, r: Run, log: seq<Quote>, seen: Option<Instant>, q: Quote)
    requires InOrder(r, log, seen) && Remembers(r.track, log) && Follows(log, q) && !Reopens(r.track, q)
    requires log == [] && seen.Some? ==> q.at >= seen.value
    ensures InOrder(StepRun(timeframe, r, Tick(q)), log + [q], Some(q.at))
  {
    hide MinuteOf;
    if seen.Some? {
      MinutesFollowInstants(seen.value, q.at);
    }
    var rolled := Rolled(r.track, MinuteOf(q.at));
    if rolled.Some? && rolled.value.complete {
      EmittingKeepsOrder(r.all, rolled.value.candle);
    } else {
      assert r.all + [] == r.all;
    }
  }

  /** A token's candles come out on whole minutes in strictly increasing order, provided gaps go forward
      in time and no quote reopens a flushed minute. */
  lemma {:induction false} EmissionsAreOrdered(timeframe: string, events: seq<Event>)
    requires NeverReopens(timeframe, events) && GapsGoForward(events)
    ensures InOrder(RunOf(timeframe, events), LogOf(events), LastSeen(events))
  {
    if events != [] {
      var before, last := events[..|events| - 1], events[|events| - 1];
      var r := RunOf(timeframe, before);
      EmissionsAreOrdered(timeframe, before);
      TrackRemembersLog(timeframe, before);
      match last {
        case Tick(q) =>
          if Follows(LogOf(before), q) {
            TickKeepsOrder(timeframe, r, LogOf(before), LastSeen(before), q);
          } else {
            assert r.all + [] == r.all;
          }
        case Flush(cutoff) =>
          if Flushable(r.track, cutoff) {
            EmittingKeepsOrder(r.all, r.track.working.value.candle);
          } else {
            assert r.all + [] == r.all;
          }
        case Gap =>
      }
    }
  }

  /** The step emits the working candle. */
  predicate Emits(track: Track, e: Event) {
    match e
    case Tick(q) => Admits(track, q) && Rolled(track, MinuteOf(q.at)).Some? && track.working.value.complete
    case Flush(cutoff) => Flushable(track, cutoff)
    case Gap => false
  }

  /** ... although it starts no later than the last candle emitted. */
  predicate GoesBack(r: Run, e: Event) {
    Emits(r.track, e) && r.all != [] && r.track.working.value.candle.startedAt <= r.all[|r.all| - 1].startedAt
  }

  predicate NeverGoesBack(timeframe: string, events: seq<Event>) {
    events == []
    || var n := |events| - 1;
       NeverGoesBack(timeframe, events[..n]) && !GoesBack(RunOf(timeframe, events[..n]), events[n])
  }

  lemma StepEmits(timeframe: string, r: Run, e: Event)
    ensures StepRun(timeframe, r, e).all
         == if Emits(r.track, e) then r.all + [r.track.working.value.candle] else r.all
  {
    assert r.all + [] == r.all;
  }

  lemma AppendKeepsOrderIff(cs: seq<Candle>, c: Candle)
    requires c.startedAt % 60_000_000 == 0
    ensures StrictlyOrdered(cs + [c])
      <==> StrictlyOrdered(cs) && (cs != [] ==> cs[|cs| - 1].startedAt < c.startedAt)
  {
    var more := cs + [c];
    if StrictlyOrdered(more) {
      assert forall i :: 0 <= i < |cs| ==> more[i] == cs[i];
      assert more[|cs|] == c;
    } else if StrictlyOrdered(cs) && (cs != [] ==> cs[|cs| - 1].startedAt < c.startedAt) {
      StartsUpToLast(cs);
    }
  }

  lemma StartsUpToLast(cs: seq<Candle>)
    requires StrictlyOrdered(cs)
    ensures cs != [] ==> StartsUpTo(cs, cs[|cs| - 1].startedAt)
  {
  }

  /** Order, exactly: a token's candles start on strictly increasing whole minutes if and only if no step emits a
      working candle that starts no later than the candle emitted before it. */
  lemma {:induction false} OrderedIffNeverGoesBack(timeframe: string, events: seq<Event>)
    ensures StrictlyOrdered(RunOf(timeframe, events).all) <==> NeverGoesBack(timeframe, events)
  {
    hide StepRun, StrictlyOrdered, Emits;
    if events == [] {
      NothingIsOrdered(timeframe);
    } else {
      var n := |events| - 1;
      var r := RunOf(timeframe, events[..n]);
      OrderedIffNeverGoesBack(timeframe, events[..n]);
      TrackRemembersLog(timeframe, events[..n]);
      StepEmits(timeframe, r, events[n]);
      if Emits(r.track, events[n]) {
        EmitsHasWorking(r.track, events[n]);
        AppendKeepsOrderIff(r.all, r.track.working.value.candle);
      }
    }
  }

  lemma NothingIsOrdered(timeframe: string)
    ensures StrictlyOrdered(RunOf(timeframe, []).all)
  {
  }

  lemma EmitsHasWorking(track: Track, e: Event)
    requires Emits(track, e)
    ensures track.working.Some?
  {
  }

  const SECOND_WIND: seq<Event> := [
    Tick(Quote(1, 30_000_000, 100.0, Some(10))),
    Tick(Quote(1, 70_000_000, 101.0, Some(20))),
    Flush(120_000_000),
    Tick(Quote(1, 110_000_000, 102.0, Some(25))),
    Tick(Quote(1, 130_000_000, 103.0, Some(40)))]

  /** The condition on flushes is needed: a quote that arrives for a minute already flushed is accepted
      and reopens it, and the same minute is emitted a second time. */
  lemma LateQuoteReopensFlushedMinute(timeframe: string)
    ensures !NeverReopens(timeframe, SECOND_WIND) && GapsGoForward(SECOND_WIND)
    ensures var all := RunOf(timeframe, SECOND_WIND).all;
      |all| == 2 && all[0].startedAt == all[1].startedAt == 60_000_000
  {
    var e := SECOND_WIND;
    var e4, e3, e2, e1 := e[..4], e[..3], e[..2], e[..1];
    assert e4[..3] == e3 && e3[..2] == e2 && e2[..1] == e1 && e1[..0] == [];
    var q0, q1, q3, q4 := e[0].quote, e[1].quote, e[3].quote, e[4].quote;
    assert LogOf(e1) == [q0];
    assert LastVolume([q0]) == Some(10);
    assert LogOf(e2) == [q0, q1] && LogOf(e3) == [q0, q1];
    assert LastVolume([q0, q1]) == Some(20);
    assert LogOf(e4) == [q0, q1, q3];
    assert LastVolume([q0, q1, q3]) == Some(25);
    assert GapsGoForward(e1) && GapsGoForward(e2) && GapsGoForward(e3) && GapsGoForward(e4);
    var r1 := StepRun(timeframe, START, e[0]);
    assert RunOf(timeframe, e1) == r1 by { assert RunOf(timeframe, e1[..0]) == START; }
    assert !r1.track.working.value.complete;
    var r2 := RunOf(timeframe, e2);
    assert r2 == StepRun(timeframe, r1, e[1]);
    assert r2.all == [] && r2.track.working.value.complete;
    var r3 := RunOf(timeframe, e3);
    assert r3 == StepRun(timeframe, r2, e[2]);
    assert |r3.all| == 1 && r3.track.working.None?;
    assert Reopens(r3.track, q3) && !NeverReopens(timeframe, e4);
    var r4 := RunOf(timeframe, e4);
    assert r4 == StepRun(timeframe, r3, e[3]);
    assert r4.track.working.value.complete;
    assert RunOf(timeframe, e) == StepRun(timeframe, r4, e[4]);
  }
}
