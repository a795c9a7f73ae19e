// What the streaming candle builder has to compute, stated twice: as the effect of one event on one
// token's track, and as a batch computation over the log of accepted quotes. The theorems say that
// every run of the first produces the second.

module CandleTrack {
  import opened Options
  import opened MarketClock
  import opened Candles

  /** A normalized tick of one token, with the instrument it is stored under. */
  datatype Quote = Quote(instrumentId: int, at: Instant, price: real, volume: Option<int>)

  /** A minute under construction. */
  datatype Work = Work(candle: Candle, complete: bool)

  /** All the builder remembers about one token. */
  datatype Track = Track(working: Option<Work>, lastAt: Option<Instant>, lastVolume: Option<int>)

  const FRESH := Track(None, None, None)

  function Max(a: real, b: real): real { if a < b then b else a }

  function Min(a: real, b: real): real { if b < a then b else a }

  predicate Rises(previous: Option<int>, current: Option<int>) {
    previous.Some? && current.Some? && current.value > previous.value
  }

  /** Late quotes are ignored, and so are repeated instants that bring no new volume. */
  predicate Admits(track: Track, q: Quote) {
    track.lastAt.Some? ==>
      q.at > track.lastAt.value || (q.at == track.lastAt.value && Rises(track.lastVolume, q.volume))
  }

  function NewWork(timeframe: string, q: Quote, complete: bool): Work {
    Work(Candle(q.instrumentId, timeframe, MinuteOf(q.at), q.price, q.price, q.price, q.price, 0), complete)
  }

  function WithPrice(w: Work, price: real): Work {
    w.(candle := w.candle.(high := Max(w.candle.high, price), low := Min(w.candle.low, price), close := price))
  }

  /** The first volume of a token and any falling volume spoil the minute; otherwise the rise is added. */
  function WithVolume(w: Work, previous: Option<int>, current: Option<int>): Work {
    if current.None? then w
    else if previous.None? || current.value < previous.value then w.(complete := false)
    else w.(candle := w.candle.(volume := w.candle.volume + (current.value - previous.value)))
  }

  /** The minute that a quote for `minute` pushes out of the track, if any. */
  function Rolled(track: Track, minute: Instant): Option<Work> {
    if track.working.Some? && track.working.value.candle.startedAt != minute then track.working else None
  }

  function Emitted(w: Option<Work>): seq<Candle> {
    if w.Some? && w.value.complete then [w.value.candle] else []
  }

  function Accept(timeframe: string, track: Track, q: Quote): (Track, seq<Candle>) {
    if !Admits(track, q) then (track, [])
    else
      var rolled := Rolled(track, MinuteOf(q.at));
      var current :=
        if track.working.Some? && rolled.None? then WithPrice(track.working.value, q.price)
        else NewWork(timeframe, q, track.lastVolume.Some?);
      ( Track(
          Some(WithVolume(current, track.lastVolume, q.volume)),
          Some(q.at),
          if q.volume.Some? then q.volume else track.lastVolume),
        Emitted(rolled))
  }

  predicate Flushable(track: Track, cutoff: Instant) {
    && track.working.Some?
    && track.working.value.complete
    && track.working.value.candle.startedAt < MinuteOf(cutoff)
  }

  function FlushTrack(track: Track, cutoff: Instant): (Track, seq<Candle>) {
    if Flushable(track, cutoff) then (track.(working := None), [track.working.value.candle]) else (track, [])
  }

  /** What can happen to one token. */
  datatype Event = Tick(quote: Quote) | Flush(cutoff: Instant) | Gap

  /** A token's history: its track, the candles emitted since the last gap and ever, and the volume of
      the minutes discarded since the last gap. */
  datatype Run = Run(track: Track, sinceGap: seq<Candle>, all: seq<Candle>, discarded: int)

  const START := Run(FRESH, [], [], 0)

  function Discarded(w: Option<Work>): int {
    if w.Some? && !w.value.complete then w.value.candle.volume else 0
  }

  function StepRun(timeframe: string, r: Run, e: Event): Run {
    match e
    case Tick(q) =>
      var (track, out) := Accept(timeframe, r.track, q);
      var lost := if Admits(r.track, q) then Discarded(Rolled(r.track, MinuteOf(q.at))) else 0;
      Run(track, r.sinceGap + out, r.all + out, r.discarded + lost)
    case Flush(cutoff) =>
      var (track, out) := FlushTrack(r.track, cutoff);
      Run(track, r.sinceGap + out, r.all + out, r.discarded)
    case Gap => Run(FRESH, [], r.all, 0)
  }

  function RunOf(timeframe: string, events: seq<Event>): Run {
    if events == [] then START
    else StepRun(timeframe, RunOf(timeframe, events[..|events| - 1]), events[|events| - 1])
  }
}

/** The batch reading of a token's feed. */
module CandleBatch {
  import opened Options
  import opened MarketClock
  import opened Candles
  import opened CandleTrack

  /** The cumulative volume last reported in the log. */
  function LastVolume(log: seq<Quote>): Option<int> {
    if log == [] then None
    else if log[|log| - 1].volume.Some? then log[|log| - 1].volume
    else LastVolume(log[..|log| - 1])
  }

  /** Whether `q` belongs behind the quotes accepted so far. */
  predicate Follows(log: seq<Quote>, q: Quote) {
    log == []
    || log[|log| - 1].at < q.at
    || (log[|log| - 1].at == q.at && Rises(LastVolume(log), q.volume))
  }

  /** The quotes accepted since the last gap. */
  function LogOf(events: seq<Event>): seq<Quote> {
    if events == [] then []
    else
      var log := LogOf(events[..|events| - 1]);
      match events[|events| - 1]
      case Tick(q) => if Follows(log, q) then log + [q] else log
      case Flush(_) => log
      case Gap => []
  }

  /** Where the last run of equal minutes begins. */
  function GroupStart(log: seq<Quote>): (s: nat)
    requires log != []
    ensures s < |log|
    ensures forall i :: s <= i < |log| ==> MinuteOf(log[i].at) == MinuteOf(log[|log| - 1].at)
    ensures 0 < s ==> MinuteOf(log[s - 1].at) != MinuteOf(log[|log| - 1].at)
  {
    var n := |log| - 1;
    if n == 0 || MinuteOf(log[n - 1].at) != MinuteOf(log[n].at) then n
    else GroupStart(log[..n])
  }

  function Highest(group: seq<Quote>): real
    requires group != []
  {
    var last := group[|group| - 1].price;
    if |group| == 1 then last else Max(Highest(group[..|group| - 1]), last)
  }

  function Lowest(group: seq<Quote>): real
    requires group != []
  {
    var last := group[|group| - 1].price;
    if |group| == 1 then last else Min(Lowest(group[..|group| - 1]), last)
  }

  /** High and low are prices of the minute, and no price of the minute lies outside them. */
  lemma {:induction false} ExtremesAreExtreme(group: seq<Quote>)
    requires group != []
    ensures exists i :: 0 <= i < |group| && group[i].price == Highest(group)
    ensures exists i :: 0 <= i < |group| && group[i].price == Lowest(group)
    ensures forall i :: 0 <= i < |group| ==> Lowest(group) <= group[i].price <= Highest(group)
  {
    var n := |group| - 1;
    if n == 0 {
      assert group[0].price == Highest(group) == Lowest(group);
    } else {
      var shorter := group[..n];
      ExtremesAreExtreme(shorter);
      var h :| 0 <= h < n && shorter[h].price == Highest(shorter);
      var l :| 0 <= l < n && shorter[l].price == Lowest(shorter);
      assert group[h] == shorter[h] && group[l] == shorter[l];
      assert group[n].price == Highest(group) || group[h].price == Highest(group);
      assert group[n].price == Lowest(group) || group[l].price == Lowest(group);
      forall i | 0 <= i < |group| ensures Lowest(group) <= group[i].price <= Highest(group) {
        assert i == n || group[i] == shorter[i];
      }
    }
  }

  predicate NoDrop(previous: Option<int>, current: Option<int>) {
    current.Some? ==> previous.Some? && previous.value <= current.value
  }

  /** A minute is published iff a volume was known before it and volume never fell in it. */
  predicate Qualifies(before: seq<Quote>, group: seq<Quote>) {
    && LastVolume(before).Some?
    && forall k :: 0 <= k < |group| ==> NoDrop(LastVolume(before + group[..k]), group[k].volume)
  }

  function GroupCandle(timeframe: string, before: seq<Quote>, group: seq<Quote>): Candle
    requires group != [] && Qualifies(before, group) && LastVolume(before + group).Some?
  {
    Candle(
      group[0].instrumentId, timeframe, MinuteOf(group[0].at),
      group[0].price, Highest(group), Lowest(group), group[|group| - 1].price,
      LastVolume(before + group).value - LastVolume(before).value)
  }

  lemma {:induction false} VolumeStaysKnown(before: seq<Quote>, group: seq<Quote>)
    requires LastVolume(before).Some?
    ensures LastVolume(before + group).Some?
  {
    if group == [] {
      assert before + group == before;
    } else {
      VolumeStaysKnown(before, group[..|group| - 1]);
      assert (before + group)[..|before + group| - 1] == before + group[..|group| - 1];
    }
  }

  function Published(timeframe: string, before: seq<Quote>, group: seq<Quote>): seq<Candle>
    requires group != []
  {
    if Qualifies(before, group) then
      VolumeStaysKnown(before, group);
      [GroupCandle(timeframe, before, group)]
    else []
  }

  /** The candles of every minute in the log. */
  function AllGroups(timeframe: string, log: seq<Quote>): seq<Candle> {
    if log == [] then []
    else
      var s := GroupStart(log);
      AllGroups(timeframe, log[..s]) + Published(timeframe, log[..s], log[s..])
  }

  /** The candles of every minute but the last, which is still open. */
  function ClosedGroups(timeframe: string, log: seq<Quote>): seq<Candle> {
    if log == [] then [] else AllGroups(timeframe, log[..GroupStart(log)])
  }

  // ----- the track after a given log

  function Rise(previous: Option<int>, current: Option<int>): int {
    if Rises(previous, current) then current.value - previous.value else 0
  }

  /** The sum of the positive volume steps taken inside `group`. */
  function Gain(before: seq<Quote>, group: seq<Quote>): int {
    if group == [] then 0
    else
      var n := |group| - 1;
      Gain(before, group[..n]) + Rise(LastVolume(before + group[..n]), group[n].volume)
  }

  function WorkOf(timeframe: string, before: seq<Quote>, group: seq<Quote>): Work
    requires group != []
  {
    Work(
      Candle(
        group[0].instrumentId, timeframe, MinuteOf(group[0].at),
        group[0].price, Highest(group), Lowest(group), group[|group| - 1].price,
        Gain(before, group)),
      Qualifies(before, group))
  }

  function TrackOf(timeframe: string, log: seq<Quote>, flushed: bool): Track {
    if log == [] then FRESH
    else
      var s := GroupStart(log);
      Track(
        if flushed then None else Some(WorkOf(timeframe, log[..s], log[s..])),
        Some(log[|log| - 1].at),
        LastVolume(log))
  }

  lemma {:induction false} QualifiesStep(before: seq<Quote>, group: seq<Quote>, q: Quote)
    ensures Qualifies(before, group + [q])
        <==> Qualifies(before, group) && NoDrop(LastVolume(before + group), q.volume)
  {
    var longer := group + [q];
    assert longer[..|group|] == group;
    forall k | 0 <= k < |group| ensures longer[..k] == group[..k] && longer[k] == group[k] {
    }
    if Qualifies(before, longer) {
      assert NoDrop(LastVolume(before + longer[..|group|]), longer[|group|].volume);
      forall k | 0 <= k < |group| ensures NoDrop(LastVolume(before + group[..k]), group[k].volume) {
        assert NoDrop(LastVolume(before + longer[..k]), longer[k].volume);
      }
    }
  }

  lemma BaselineKnown(before: seq<Quote>, group: seq<Quote>)
    requires Qualifies(before, group)
    ensures LastVolume(before).Some?
  {
  }

  lemma {:induction false} GainTelescopes(before: seq<Quote>, group: seq<Quote>)
    requires Qualifies(before, group)
    ensures LastVolume(before + group).Some?
    ensures Gain(before, group) == LastVolume(before + group).value - LastVolume(before).value
  {
    hide Qualifies, LastVolume;
    if group == [] {
      BaselineKnown(before, group);
      assert before + group == before;
    } else {
      var shorter, last := group[..|group| - 1], group[|group| - 1];
      assert group == shorter + [last];
      QualifiesStep(before, shorter, last);
      GainTelescopes(before, shorter);
      LastVolumeAppends(before + shorter, last);
      assert before + group == before + shorter + [last];
    }
  }

  lemma LastVolumeAppends(log: seq<Quote>, q: Quote)
    ensures LastVolume(log + [q]) == if q.volume.Some? then q.volume else LastVolume(log)
  {
    assert (log + [q])[..|log|] == log;
  }

  lemma AppendLast(before: seq<Quote>, group: seq<Quote>, q: Quote)
    requires group != []
    ensures Highest(group + [q]) == Max(Highest(group), q.price)
    ensures Lowest(group + [q]) == Min(Lowest(group), q.price)
    ensures Gain(before, group + [q]) == Gain(before, group) + Rise(LastVolume(before + group), q.volume)
  {
    var longer := group + [q];
    assert longer[..|longer| - 1] == group;
  }

  lemma WorkStep(timeframe: string, before: seq<Quote>, group: seq<Quote>, q: Quote)
    requires group != []
    ensures WorkOf(timeframe, before, group + [q])
         == WithVolume(WithPrice(WorkOf(timeframe, before, group), q.price), LastVolume(before + group), q.volume)
  {
    var longer := group + [q];
    assert longer[0] == group[0] && longer[|longer| - 1] == q;
    AppendLast(before, group, q);
    CompleteStep(before, group, q);
  }

  lemma CompleteStep(before: seq<Quote>, group: seq<Quote>, q: Quote)
    ensures Qualifies(before, group + [q]) <==>
      && Qualifies(before, group)
      && (q.volume.None?
          || (LastVolume(before + group).Some? && LastVolume(before + group).value <= q.volume.value))
  {
    QualifiesStep(before, group, q);
  }

  lemma WorkStart(timeframe: string, before: seq<Quote>, q: Quote)
    ensures WorkOf(timeframe, before, [q])
         == WithVolume(NewWork(timeframe, q, LastVolume(before).Some?), LastVolume(before), q.volume)
  {
    assert [q][..0] == [];
    assert before + [] == before;
    assert [] + [q] == [q];
    QualifiesStep(before, [], q);
    assert Gain(before, [q]) == Gain(before, [q][..0]) + Rise(LastVolume(before + [q][..0]), q.volume);
  }

  lemma AppendSameMinute(log: seq<Quote>, q: Quote)
    requires log != [] && MinuteOf(log[|log| - 1].at) == MinuteOf(q.at)
    ensures GroupStart(log + [q]) == GroupStart(log)
  {
    assert (log + [q])[..|log|] == log;
  }

  lemma PublishedIsEmitted(timeframe: string, before: seq<Quote>, group: seq<Quote>)
    requires group != []
    ensures Published(timeframe, before, group) == Emitted(Some(WorkOf(timeframe, before, group)))
  {
    if Qualifies(before, group) {
      GainTelescopes(before, group);
    }
  }

  lemma AcceptOpensLog(timeframe: string, q: Quote)
    ensures Accept(timeframe, FRESH, q) == (TrackOf(timeframe, [q], false), [])
    ensures ClosedGroups(timeframe, [q]) == []
  {
    assert [q][..0] == [] && [q][0..] == [q];
    WorkStart(timeframe, [], q);
    assert LastVolume([q]) == if q.volume.Some? then q.volume else LastVolume([q][..0]);
  }

  lemma AcceptInMinute(timeframe: string, log: seq<Quote>, q: Quote)
    requires log != [] && Follows(log, q) && MinuteOf(log[|log| - 1].at) == MinuteOf(q.at)
    ensures Accept(timeframe, TrackOf(timeframe, log, false), q) == (TrackOf(timeframe, log + [q], false), [])
    ensures ClosedGroups(timeframe, log + [q]) == ClosedGroups(timeframe, log)
  {
    var longer := log + [q];
    var s := GroupStart(log);
    AppendSameMinute(log, q);
    assert longer[..|log|] == log;
    assert log[..s] + log[s..] == log;
    assert longer[..s] == log[..s] && longer[s..] == log[s..] + [q];
    WorkStep(timeframe, log[..s], log[s..], q);
  }

  lemma AcceptNextMinute(timeframe: string, log: seq<Quote>, flushed: bool, q: Quote)
    requires log != [] && Follows(log, q) && MinuteOf(log[|log| - 1].at) != MinuteOf(q.at)
    ensures var s := GroupStart(log);
      Accept(timeframe, TrackOf(timeframe, log, flushed), q)
      == (TrackOf(timeframe, log + [q], false), if flushed then [] else Published(timeframe, log[..s], log[s..]))
    ensures ClosedGroups(timeframe, log + [q]) == AllGroups(timeframe, log)
  {
    var longer := log + [q];
    var s := GroupStart(log);
    assert longer[..|log|] == log;
    assert GroupStart(longer) == |log|;
    assert longer[|log|..] == [q];
    WorkStart(timeframe, log, q);
    PublishedIsEmitted(timeframe, log[..s], log[s..]);
    assert MinuteOf(log[s].at) == MinuteOf(log[|log| - 1].at);
  }

  // ----- runs

  /** The quote would be accepted into a minute that a flush has already emitted. */
  predicate Reopens(track: Track, q: Quote) {
    && Admits(track, q)
    && track.working.None? && track.lastAt.Some? && MinuteOf(track.lastAt.value) == MinuteOf(q.at)
  }

  /** No quote of the feed does. */
  predicate NeverReopens(timeframe: string, events: seq<Event>) {
    events == []
    || var before, last := events[..|events| - 1], events[|events| - 1];
       && NeverReopens(timeframe, before)
       && (last.Tick? ==> !Reopens(RunOf(timeframe, before).track, last.quote))
  }

  /** What has been emitted since the last gap. */
  function Shown(timeframe: string, log: seq<Quote>, flushed: bool): seq<Candle> {
    if flushed then AllGroups(timeframe, log) else ClosedGroups(timeframe, log)
  }

  /** `r` is what the log says: the track holds its open minute, and the candles emitted since the last
      gap are those of its closed minutes, plus the last one if it was flushed, which takes a complete one. */
  ghost predicate Refines(timeframe: string, r: Run, log: seq<Quote>) {
    var flushed := r.track.working.None?;
    && r.track == TrackOf(timeframe, log, flushed)
    && r.sinceGap == Shown(timeframe, log, flushed)
    && (flushed && log != [] ==> Qualifies(log[..GroupStart(log)], log[GroupStart(log)..]))
  }

  lemma AdmitsIsFollows(timeframe: string, log: seq<Quote>, flushed: bool, q: Quote)
    ensures Admits(TrackOf(timeframe, log, flushed), q) <==> Follows(log, q)
  {
  }

  lemma AcceptExtendsLog(timeframe: string, log: seq<Quote>, flushed: bool, q: Quote)
    requires Follows(log, q)
    requires flushed && log != [] ==> MinuteOf(log[|log| - 1].at) != MinuteOf(q.at)
    ensures var (track, out) := Accept(timeframe, TrackOf(timeframe, log, flushed), q);
      && track == TrackOf(timeframe, log + [q], false)
      && Shown(timeframe, log, flushed) + out == ClosedGroups(timeframe, log + [q])
  {
    if log == [] {
      AcceptOpensLog(timeframe, q);
      assert log + [q] == [q];
    } else if MinuteOf(log[|log| - 1].at) == MinuteOf(q.at) {
      AcceptInMinute(timeframe, log, q);
    } else {
      AcceptNextMinute(timeframe, log, flushed, q);
    }
  }

  lemma TickRefines(timeframe: string, r: Run, log: seq<Quote>, q: Quote)
    requires Refines(timeframe, r, log) && !Reopens(r.track, q)
    ensures Refines(timeframe, StepRun(timeframe, r, Tick(q)), if Follows(log, q) then log + [q] else log)
  {
    hide WorkOf, Qualifies, AllGroups, LastVolume, Rolled;
    AdmitsIsFollows(timeframe, log, r.track.working.None?, q);
    if Follows(log, q) {
      AcceptExtendsLog(timeframe, log, r.track.working.None?, q);
      AcceptedIsWorking(timeframe, r.track, q);
    }
  }

  lemma AcceptedIsWorking(timeframe: string, track: Track, q: Quote)
    requires Admits(track, q)
    ensures Accept(timeframe, track, q).0.working.Some?
  {
  }

  lemma FlushRefines(timeframe: string, r: Run, log: seq<Quote>, cutoff: Instant)
    requires Refines(timeframe, r, log)
    ensures Refines(timeframe, StepRun(timeframe, r, Flush(cutoff)), log)
  {
    if Flushable(r.track, cutoff) {
      var s := GroupStart(log);
      PublishedIsEmitted(timeframe, log[..s], log[s..]);
    }
  }

  /** A quote accepted into a flushed minute breaks the refinement on the spot: the minute has been shown and
      is open again. */
  lemma ReopeningBreaks(timeframe: string, r: Run, log: seq<Quote>, q: Quote)
    requires Refines(timeframe, r, log) && Reopens(r.track, q)
    ensures Follows(log, q) && !Refines(timeframe, StepRun(timeframe, r, Tick(q)), log + [q])
  {
    hide WorkOf, Qualifies, LastVolume;
    AdmitsIsFollows(timeframe, log, true, q);
    AcceptedIsWorking(timeframe, r.track, q);
    var s := GroupStart(log);
    AppendSameMinute(log, q);
    assert (log + [q])[..s] == log[..s];
    assert |AllGroups(timeframe, log)| == |AllGroups(timeframe, log[..s])| + 1;
    assert Rolled(r.track, MinuteOf(q.at)).None?;
  }

  /** THE BUILDER REFINES THE BATCH, on every feed of ticks, flushes and gaps that reopens no minute. */
  lemma {:induction false} BuilderRefinesBatch(timeframe: string, events: seq<Event>)
    requires NeverReopens(timeframe, events)
    ensures Refines(timeframe, RunOf(timeframe, events), LogOf(events))
  {
    hide Refines;
    if events == [] {
      FreshRefines(timeframe, START);
    } else {
      var before, last := events[..|events| - 1], events[|events| - 1];
      var r := RunOf(timeframe, before);
      BuilderRefinesBatch(timeframe, before);
      match last {
        case Tick(q) => TickRefines(timeframe, r, LogOf(before), q);
        case Flush(cutoff) => FlushRefines(timeframe, r, LogOf(before), cutoff);
        case Gap => FreshRefines(timeframe, StepRun(timeframe, r, Gap));
      }
    }
  }

  lemma FreshRefines(timeframe: string, r: Run)
    requires r.track == FRESH && r.sinceGap == []
    ensures Refines(timeframe, r, [])
  {
  }

  /** The condition is exact: the builder agrees with the batch after every event of a feed if and only if no
      quote of the feed reopens a flushed minute. */
  lemma {:induction false} RefinesThroughoutIff(timeframe: string, events: seq<Event>)
    ensures NeverReopens(timeframe, events)
      <==> forall k :: 0 <= k <= |events| ==> Refines(timeframe, RunOf(timeframe, events[..k]), LogOf(events[..k]))
  {
    hide Refines, Reopens, StepRun;
    if events == [] {
      BuilderRefinesBatch(timeframe, events);
      assert events[..0] == events;
    } else {
      var n := |events| - 1;
      var before, last := events[..n], events[n];
      RefinesThroughoutIff(timeframe, before);
      assert forall k :: 0 <= k <= n ==> before[..k] == events[..k];
      assert events[..n + 1] == events;
      if NeverReopens(timeframe, events) {
        BuilderRefinesBatch(timeframe, events);
      } else if NeverReopens(timeframe, before) {
        BuilderRefinesBatch(timeframe, before);
        ReopeningBreaks(timeframe, RunOf(timeframe, before), LogOf(before), last.quote);
        assert !Refines(timeframe, RunOf(timeframe, events[..n + 1]), LogOf(events[..n + 1]));
      }
    }
  }

  // ----- flushes that are final

  /** The latest minute that a flush since the last gap declared finished. */
  function FlushMark(events: seq<Event>): Option<Instant> {
    if events == [] then None
    else
      var mark := FlushMark(events[..|events| - 1]);
      match events[|events| - 1]
      case Tick(_) => mark
      case Flush(cutoff) =>
        if mark.Some? && mark.value >= MinuteOf(cutoff) then mark else Some(MinuteOf(cutoff))
      case Gap => None
  }

  /** No quote that would still be accepted is older than the cutoff minute of an earlier flush. */
  predicate FlushesAreFinal(events: seq<Event>) {
    events == []
    || var before, last := events[..|events| - 1], events[|events| - 1];
       && FlushesAreFinal(before)
       && (last.Tick? && Follows(LogOf(before), last.quote) && FlushMark(before).Some?
           ==> last.quote.at >= FlushMark(before).value)
  }

  /** A flushed minute lies before the mark. */
  ghost predicate MarkHolds(track: Track, mark: Option<Instant>) {
    && (mark.Some? ==> mark.value % 60_000_000 == 0)
    && (track.working.None? && track.lastAt.Some? ==> mark.Some? && MinuteOf(track.lastAt.value) < mark.value)
    && (track.working.Some? ==>
          track.lastAt.Some? && track.working.value.candle.startedAt == MinuteOf(track.lastAt.value))
  }

  lemma TickKeepsMark(timeframe: string, r: Run, mark: Option<Instant>, q: Quote)
    requires MarkHolds(r.track, mark)
    requires Admits(r.track, q) && mark.Some? ==> q.at >= mark.value
    ensures !Reopens(r.track, q) && MarkHolds(StepRun(timeframe, r, Tick(q)).track, mark)
  {
  }

  lemma FlushKeepsMark(timeframe: string, r: Run, mark: Option<Instant>, cutoff: Instant)
    requires MarkHolds(r.track, mark)
    ensures MarkHolds(StepRun(timeframe, r, Flush(cutoff)).track,
                      if mark.Some? && mark.value >= MinuteOf(cutoff) then mark else Some(MinuteOf(cutoff)))
  {
  }

  /** If no accepted tick is older than an earlier flush cutoff, no minute is reopened. */
  lemma {:induction false} FinalFlushesNeverReopen(timeframe: string, events: seq<Event>)
    requires FlushesAreFinal(events)
    ensures NeverReopens(timeframe, events)
    ensures MarkHolds(RunOf(timeframe, events).track, FlushMark(events))
  {
    if events != [] {
      hide StepRun, Reopens, MarkHolds, Refines, TrackOf, Follows, Admits;
      var before, last := events[..|events| - 1], events[|events| - 1];
      FinalFlushesNeverReopen(timeframe, before);
      var r := RunOf(timeframe, before);
      match last {
        case Tick(q) =>
          RunAdmitsIsFollows(timeframe, before, q);
          TickKeepsMark(timeframe, r, FlushMark(before), q);
        case Flush(cutoff) => FlushKeepsMark(timeframe, r, FlushMark(before), cutoff);
        case Gap => FreshMark(StepRun(timeframe, r, Gap).track);
      }
    } else {
      FreshMark(FRESH);
    }
  }

  lemma RunAdmitsIsFollows(timeframe: string, events: seq<Event>, q: Quote)
    requires NeverReopens(timeframe, events)
    ensures Admits(RunOf(timeframe, events).track, q) <==> Follows(LogOf(events), q)
  {
    BuilderRefinesBatch(timeframe, events);
    AdmitsIsFollows(timeframe, LogOf(events), RunOf(timeframe, events).track.working.None?, q);
  }

  lemma FreshMark(track: Track)
    requires track == FRESH
    ensures MarkHolds(track, None)
  {
  }
}
