// The streaming builder itself: three maps keyed by token and one mutable candle per token.

module CandleBuilder {
  import opened Options
  import opened MarketClock
  import opened Candles
  import opened CandleTrack
  import opened Collections

  function Other(token: int): int -> bool {
    other => other != token
  }

  /** Removes a key from an insertion order. */
  function Without(order: seq<int>, token: int): seq<int> {
    Filter(Other(token), order)
  }

  lemma WithoutOne(before: seq<int>, token: int, after: seq<int>)
    requires token !in before && token !in after
    ensures Without(before + [token] + after, token) == before + after
  {
    hide Filter;
    FilterConcatenates(Other(token), before + [token], after);
    FilterConcatenates(Other(token), before, [token]);
    FilterEverything(Other(token), before);
    FilterEverything(Other(token), after);
    FilterNothing(Other(token), [token]);
  }

  lemma WithoutKeeps(order: seq<int>, token: int)
    requires NoDuplicates(order)
    ensures NoDuplicates(Without(order, token))
    ensures forall t :: t in Without(order, token) <==> t in order && t != token
  {
    FilterMembers(Other(token), order);
    FilterKeepsUnique(Other(token), order);
  }

  /** Where a tick leaves its token: in place, unless its minute is new. */
  function Reordered(order: seq<int>, token: int, track: Track, q: Quote): seq<int> {
    if !Admits(track, q) then order
    else if Rolled(track, MinuteOf(q.at)).Some? then Without(order, token) + [token]
    else if track.working.Some? then order
    else order + [token]
  }

  /** The track with an admitted quote in its working candle. */
  function Counted(timeframe: string, track: Track, q: Quote): Track {
    var current :=
      if track.working.Some? then WithPrice(track.working.value, q.price)
      else NewWork(timeframe, q, track.lastVolume.Some?);
    Track(
      Some(WithVolume(current, track.lastVolume, q.volume)),
      Some(q.at),
      if q.volume.Some? then q.volume else track.lastVolume)
  }

  lemma AcceptCounts(timeframe: string, track: Track, q: Quote)
    ensures var rolled := Rolled(track, MinuteOf(q.at));
      Accept(timeframe, track, q)
      == if !Admits(track, q) then (track, [])
         else (Counted(timeframe, if rolled.Some? then track.(working := None) else track, q), Emitted(rolled))
  {
  }

  datatype Emission = Emission(token: int, candle: Candle)

  function Tagged(token: int, candles: seq<Candle>): seq<Emission> {
    if candles == [] then []
    else Tagged(token, candles[..|candles| - 1]) + [Emission(token, candles[|candles| - 1])]
  }

  /** What a flush of these tokens emits. */
  function Due(tokens: seq<int>, tracks: int -> Track, cutoff: Instant): seq<Emission> {
    if tokens == [] then []
    else
      var n := |tokens| - 1;
      Due(tokens[..n], tracks, cutoff) + Tagged(tokens[n], FlushTrack(tracks(tokens[n]), cutoff).1)
  }

  /** The tokens a flush leaves working. */
  function Spared(tokens: seq<int>, tracks: int -> Track, cutoff: Instant): seq<int> {
    Filter(token => !Flushable(tracks(token), cutoff), tokens)
  }

  function CandlesOf(emissions: seq<Emission>): seq<Candle> {
    if emissions == [] then []
    else CandlesOf(emissions[..|emissions| - 1]) + [emissions[|emissions| - 1].candle]
  }

  lemma {:induction false} CandlesConcatenate(a: seq<Emission>, b: seq<Emission>)
    ensures CandlesOf(a + b) == CandlesOf(a) + CandlesOf(b)
  {
    if b == [] {
      assert a + b == a;
    } else {
      CandlesConcatenate(a, b[..|b| - 1]);
      assert (a + b)[..|a + b| - 1] == a + b[..|b| - 1];
    }
  }

  lemma {:induction false} CandlesOfTagged(token: int, candles: seq<Candle>)
    ensures CandlesOf(Tagged(token, candles)) == candles
  {
    if candles != [] {
      CandlesOfTagged(token, candles[..|candles| - 1]);
    }
  }

  lemma DueStarts(tracks: int -> Track, cutoff: Instant)
    ensures CandlesOf(Due([], tracks, cutoff)) == []
  {
  }

  lemma DueStep(tokens: seq<int>, i: nat, tracks: int -> Track, cutoff: Instant)
    requires i < |tokens|
    ensures CandlesOf(Due(tokens[..i + 1], tracks, cutoff))
         == CandlesOf(Due(tokens[..i], tracks, cutoff)) + FlushTrack(tracks(tokens[i]), cutoff).1
    ensures Spared(tokens[..i + 1], tracks, cutoff)
         == Spared(tokens[..i], tracks, cutoff) + (if Flushable(tracks(tokens[i]), cutoff) then [] else [tokens[i]])
  {
    assert tokens[..i + 1][..i] == tokens[..i];
    var out := FlushTrack(tracks(tokens[i]), cutoff).1;
    CandlesConcatenate(Due(tokens[..i], tracks, cutoff), Tagged(tokens[i], out));
    CandlesOfTagged(tokens[i], out);
  }

  lemma NextPrefix(tokens: seq<int>, i: nat)
    requires NoDuplicates(tokens) && i < |tokens|
    ensures tokens[i] !in tokens[..i] && tokens[i] !in tokens[i + 1..]
    ensures forall t :: t in tokens[..i + 1] <==> t in tokens[..i] || t == tokens[i]
    ensures tokens[i..] == [tokens[i]] + tokens[i + 1..]
  {
    assert tokens[..i + 1] == tokens[..i] + [tokens[i]];
  }

  lemma SparedMembers(tokens: seq<int>, tracks: int -> Track, cutoff: Instant)
    ensures forall token :: token in Spared(tokens, tracks, cutoff) ==> token in tokens
  {
    FilterMembers(token => !Flushable(tracks(token), cutoff), tokens);
  }

  /** The order after flushing one more token. */
  lemma FlushMovesOn(tokens: seq<int>, i: nat, tracks: int -> Track, cutoff: Instant, order: seq<int>)
    requires NoDuplicates(tokens) && i < |tokens|
    requires order == Spared(tokens[..i], tracks, cutoff) + tokens[i..]
    ensures tokens[i] in order
    ensures Spared(tokens[..i + 1], tracks, cutoff) + tokens[i + 1..]
         == if Flushable(tracks(tokens[i]), cutoff) then Without(order, tokens[i]) else order
  {
    hide Flushable, Spared, Without, NoDuplicates;
    NextPrefix(tokens, i);
    var spared := Spared(tokens[..i], tracks, cutoff);
    assert order == spared + [tokens[i]] + tokens[i + 1..];
    DueStep(tokens, i, tracks, cutoff);
    SparedMembers(tokens[..i], tracks, cutoff);
    WithoutOne(spared, tokens[i], tokens[i + 1..]);
  }

  class WorkingCandle {
    const instrumentId: int
    const timeframe: string
    const startedAt: Instant
    const openPrice: real
    var highPrice: real
    var lowPrice: real
    var closePrice: real
    var volume: int
    var volumeComplete: bool

    ghost function Value(): Work
      reads this
    {
      Work(Candle(instrumentId, timeframe, startedAt, openPrice, highPrice, lowPrice, closePrice, volume),
           volumeComplete)
    }

    constructor (timeframe: string, q: Quote, volumeComplete: bool)
      ensures Value() == NewWork(timeframe, q, volumeComplete)
    {
      this.instrumentId, this.timeframe, this.startedAt := q.instrumentId, timeframe, MinuteOf(q.at);
      openPrice, highPrice, lowPrice, closePrice := q.price, q.price, q.price, q.price;
      volume := 0;
      this.volumeComplete := volumeComplete;
    }

    method UpdatePrice(price: real)
      modifies this
      ensures Value() == WithPrice(old(Value()), price)
    {
      highPrice := Max(highPrice, price);
      lowPrice := Min(lowPrice, price);
      closePrice := price;
    }

    method AddVolumeDelta(delta: int)
      modifies this`volume
      ensures volume == old(volume) + delta
    {
      volume := volume + delta;
    }

    method MarkIncomplete()
      modifies this`volumeComplete
      ensures !volumeComplete
    {
      volumeComplete := false;
    }

    method Complete() returns (c: Candle)
      ensures c == Value().candle
    {
      c := Candle(instrumentId, timeframe, startedAt, openPrice, highPrice, lowPrice, closePrice, volume);
    }
  }

  class OneMinuteCandleBuilder {
    const timeframe: string
    var working: map<int, WorkingCandle>
    var order: seq<int>
    var lastTickAt: map<int, Instant>
    var lastCumulativeVolume: map<int, int>

    /** No two tokens share a working candle, and `order` lists the keys of `working` as they were inserted. */
    ghost predicate Valid()
      reads this
    {
      && (forall a, b :: a in working && b in working && a != b ==> working[a] != working[b])
      && Listed()
    }

    ghost predicate Listed()
      reads this
    {
      NoDuplicates(order) && forall token :: token in order <==> token in working
    }

    /** All tracks, as a function of the token. */
    ghost function Tracks(): (tracks: int -> Track)
      reads this, working.Values
      ensures forall token :: tracks(token) == TrackFor(token)
    {
      var candles := map token | token in working :: working[token].Value();
      var ticks, volumes := lastTickAt, lastCumulativeVolume;
      token => Track(
        if token in candles then Some(candles[token]) else None,
        if token in ticks then Some(ticks[token]) else None,
        if token in volumes then Some(volumes[token]) else None)
    }

    ghost function TrackFor(token: int): Track
      reads this, working.Values
    {
      Track(
        if token in working then Some(working[token].Value()) else None,
        if token in lastTickAt then Some(lastTickAt[token]) else None,
        if token in lastCumulativeVolume then Some(lastCumulativeVolume[token]) else None)
    }

    constructor (timeframe: string)
      ensures Valid() && this.timeframe == timeframe
      ensures working == map[] && order == [] && forall token :: TrackFor(token) == FRESH
    {
      this.timeframe := timeframe;
      order := [];
      working, lastTickAt, lastCumulativeVolume := map[], map[], map[];
    }

    method RollToMinute(token: int, minute: Instant) returns (completed: seq<Candle>)
      requires Valid()
      modifies this`working, this`order
      ensures Valid() && working.Values <= old(working).Values
      ensures order
           == if Rolled(old(TrackFor(token)), minute).Some? then Without(old(order), token) else old(order)
      ensures completed == Emitted(Rolled(old(TrackFor(token)), minute))
      ensures working
           == if Rolled(old(TrackFor(token)), minute).Some? then old(working) - {token} else old(working)
    {
      if token !in working || working[token].startedAt == minute {
        return [];
      }
      completed := [];
      if working[token].volumeComplete {
        var c := working[token].Complete();
        completed := [c];
      }
      WithoutKeeps(order, token);
      working, order := working - {token}, Without(order, token);
    }

    /** The token's working candle after this price: the one at hand, or a new one. */
    method OpenOrUpdate(token: int, q: Quote, volumeKnown: bool) returns (current: WorkingCandle)
      requires Valid()
      modifies this`working, this`order, working.Values
      ensures Valid() && fresh(working.Values - old(working).Values)
      ensures working.Keys == old(working).Keys + {token} && working[token] == current
      ensures order == if token in old(working) then old(order) else old(order) + [token]
      ensures forall other :: other in old(working) ==> working[other] == old(working)[other]
      ensures current.Value()
           == if token in old(working) then WithPrice(old(working[token].Value()), q.price)
              else NewWork(timeframe, q, volumeKnown)
      ensures forall other :: other != token ==> TrackFor(other) == old(TrackFor(other))
    {
      if token !in working {
        current := new WorkingCandle(timeframe, q, volumeKnown);
        working, order := working[token := current], order + [token];
      } else {
        current := working[token];
        current.UpdatePrice(q.price);
      }
    }

    /** Counts the volume step in the current candle and moves the time and volume baselines. */
    method Remember(token: int, q: Quote, current: WorkingCandle)
      requires Valid() && token in working && working[token] == current
      modifies this`lastTickAt, this`lastCumulativeVolume, current
      ensures Valid()
      ensures var track := old(TrackFor(token));
        TrackFor(token)
        == Track(
                Some(WithVolume(old(current.Value()), track.lastVolume, q.volume)),
                Some(q.at),
                if q.volume.Some? then q.volume else track.lastVolume)
      ensures forall other :: other != token ==> TrackFor(other) == old(TrackFor(other))
    {
      var previous := if token in lastCumulativeVolume then Some(lastCumulativeVolume[token]) else None;
      lastTickAt := lastTickAt[token := q.at];
      if q.volume.None? {
        return;
      }
      lastCumulativeVolume := lastCumulativeVolume[token := q.volume.value];
      if previous.None? || q.volume.value < previous.value {
        current.MarkIncomplete();
        return;
      }
      current.AddVolumeDelta(q.volume.value - previous.value);
    }

    /** Puts an admitted tick into the token's working candle. */
    method Count(token: int, q: Quote)
      requires Valid()
      modifies this, working.Values
      ensures Valid() && fresh(working.Values - old(working).Values)
      ensures TrackFor(token) == Counted(timeframe, old(TrackFor(token)), q)
      ensures order == if token in old(working) then old(order) else old(order) + [token]
      ensures forall other :: other != token ==> TrackFor(other) == old(TrackFor(other))
    {
      hide WithPrice, WithVolume, NewWork, MinuteOf, NoDuplicates;
      var current := OpenOrUpdate(token, q, token in lastCumulativeVolume);
      Remember(token, q, current);
    }

    /** Accepts one tick of `token`; no other token notices. */
    method AcceptTick(token: int, q: Quote) returns (completed: seq<Candle>)
      requires Valid()
      modifies this, working.Values
      ensures Valid() && fresh(working.Values - old(working).Values)
      ensures TrackFor(token) == Accept(timeframe, old(TrackFor(token)), q).0
      ensures completed == Accept(timeframe, old(TrackFor(token)), q).1
      ensures order == Reordered(old(order), token, old(TrackFor(token)), q)
      ensures forall other :: other != token ==> TrackFor(other) == old(TrackFor(other))
    {
      hide Accept, Counted, MinuteOf, NoDuplicates, Without;
      AcceptCounts(timeframe, TrackFor(token), q);
      var last := if token in lastTickAt then Some(lastTickAt[token]) else None;
      var previous := if token in lastCumulativeVolume then Some(lastCumulativeVolume[token]) else None;
      if last.Some? && q.at < last.value {
        return [];
      }
      if last.Some? && q.at == last.value && !Rises(previous, q.volume) {
        return [];
      }
      completed := RollToMinute(token, MinuteOf(q.at));
      Count(token, q);
    }

    /** Emits and forgets the token's minute if it is complete and before the cutoff. */
    method FlushToken(token: int, cutoff: Instant) returns (completed: seq<Candle>)
      requires Valid() && token in working
      modifies this`working, this`order
      ensures Valid() && working.Values <= old(working).Values
      ensures old(working).Keys - {token} <= working.Keys <= old(working).Keys
      ensures TrackFor(token) == FlushTrack(old(TrackFor(token)), cutoff).0
      ensures completed == FlushTrack(old(TrackFor(token)), cutoff).1
      ensures order
           == if Flushable(old(TrackFor(token)), cutoff) then Without(old(order), token) else old(order)
      ensures forall other :: other != token ==> TrackFor(other) == old(TrackFor(other))
    {
      completed := [];
      var candle := working[token];
      if candle.startedAt < MinuteOf(cutoff) && candle.volumeComplete {
        var c := candle.Complete();
        completed := [c];
        WithoutKeeps(order, token);
        working, order := working - {token}, Without(order, token);
      }
    }

    /** The first `i` tokens are flushed, the others are as they were. */
    ghost predicate Flushing(tokens: seq<int>, i: nat, tracks: int -> Track, cutoff: Instant)
      requires i <= |tokens|
      reads this, working.Values
    {
      && Valid() && NoDuplicates(tokens)
      && (forall token ::
            TrackFor(token) == if token in tokens[..i] then FlushTrack(tracks(token), cutoff).0 else tracks(token))
      && (forall token :: token !in tokens ==> tracks(token).working.None?)
      && order == Spared(tokens[..i], tracks, cutoff) + tokens[i..]
    }

    lemma FlushingStarts(tracks: int -> Track, cutoff: Instant)
      requires Valid() && forall token :: TrackFor(token) == tracks(token)
      ensures Flushing(order, 0, tracks, cutoff)
    {
      hide NoDuplicates;
      assert order[..0] == [] && order[0..] == order;
      assert forall token :: token !in order ==> TrackFor(token).working.None?;
    }

    lemma FlushingEnds(tokens: seq<int>, tracks: int -> Track, cutoff: Instant)
      requires Flushing(tokens, |tokens|, tracks, cutoff)
      ensures Valid() && forall token :: TrackFor(token) == FlushTrack(tracks(token), cutoff).0
      ensures order == Spared(tokens, tracks, cutoff)
    {
      hide NoDuplicates, Spared;
      assert tokens[..|tokens|] == tokens;
    }

    /** One round of the flushing loop. */
    method FlushNext(tokens: seq<int>, i: nat, cutoff: Instant, ghost tracks: int -> Track)
      returns (completed: seq<Candle>)
      requires i < |tokens| && Flushing(tokens, i, tracks, cutoff)
      modifies this`working, this`order
      ensures working.Values <= old(working).Values
      ensures Flushing(tokens, i + 1, tracks, cutoff)
      ensures completed == FlushTrack(tracks(tokens[i]), cutoff).1
    {
      hide FlushTrack, Flushable, Spared, Without, NoDuplicates, TrackFor;
      var token := tokens[i];
      NextPrefix(tokens, i);
      FlushMovesOn(tokens, i, tracks, cutoff, order);
      completed := FlushToken(token, cutoff);
    }

    /** Flushes every token, in insertion order. */
    method FlushCompletedBefore(cutoff: Instant) returns (completed: seq<Candle>)
      requires Valid()
      modifies this`working, this`order
      ensures Valid() && working.Values <= old(working).Values
      ensures forall token :: TrackFor(token) == FlushTrack(old(TrackFor(token)), cutoff).0
      ensures completed == CandlesOf(Due(old(order), old(Tracks()), cutoff))
      ensures order == Spared(old(order), old(Tracks()), cutoff)
    {
      completed := [];
      var tokens := order;
      ghost var tracks := Tracks();
      hide Flushing, FlushTrack, Due, Spared, CandlesOf, TrackFor, Valid;
      FlushingStarts(tracks, cutoff);
      DueStarts(tracks, cutoff);
      for i := 0 to |tokens|
        invariant working.Values <= old(working).Values
        invariant Flushing(tokens, i, tracks, cutoff)
        invariant completed == CandlesOf(Due(tokens[..i], tracks, cutoff))
      {
        DueStep(tokens, i, tracks, cutoff);
        var out := FlushNext(tokens, i, cutoff, tracks);
        completed := completed + out;
      }
      FlushingEnds(tokens, tracks, cutoff);
      assert tokens[..|tokens|] == tokens;
    }

    method InvalidateAfterStreamGap()
      modifies this
      ensures Valid() && working == map[] && order == [] && forall token :: TrackFor(token) == FRESH
    {
      working, order, lastTickAt, lastCumulativeVolume := map[], [], map[], map[];
    }
  }

  // ----- many tokens on one feed

  /** What reaches the builder: ticks of any token, flushes and gaps. */
  datatype Input = TickOf(token: int, quote: Quote) | FlushAll(cutoff: Instant) | GapAll

  /** The part of a feed that concerns one token. */
  function Project(feed: seq<Input>, token: int): seq<Event> {
    if feed == [] then []
    else
      var before := Project(feed[..|feed| - 1], token);
      match feed[|feed| - 1]
      case TickOf(t, q) => if t == token then before + [Tick(q)] else before
      case FlushAll(cutoff) => before + [Flush(cutoff)]
      case GapAll => before + [Gap]
  }

  lemma RunAppends(timeframe: string, events: seq<Event>, e: Event)
    ensures RunOf(timeframe, events + [e]) == StepRun(timeframe, RunOf(timeframe, events), e)
  {
    assert (events + [e])[..|events|] == events;
  }

  /** One input, seen by one token: its next track and what it emits. */
  function React(timeframe: string, track: Track, input: Input, token: int): (Track, seq<Candle>) {
    match input
    case TickOf(t, q) => if t == token then Accept(timeframe, track, q) else (track, [])
    case FlushAll(cutoff) => FlushTrack(track, cutoff)
    case GapAll => (FRESH, [])
  }

  lemma ProjectStep(timeframe: string, feed: seq<Input>, i: nat, token: int)
    requires i < |feed|
    ensures var r := RunOf(timeframe, Project(feed[..i], token));
      var next := RunOf(timeframe, Project(feed[..i + 1], token));
      var (track, out) := React(timeframe, r.track, feed[i], token);
      next.track == track && next.all == r.all + out
  {
    hide Accept, FlushTrack;
    assert feed[..i + 1][..i] == feed[..i];
    var before := Project(feed[..i], token);
    match feed[i] {
      case TickOf(t, q) => if t == token { RunAppends(timeframe, before, Tick(q)); }
      case FlushAll(cutoff) => RunAppends(timeframe, before, Flush(cutoff));
      case GapAll => RunAppends(timeframe, before, Gap);
    }
  }

  /** Each token's track after a feed. */
  function TracksAfter(timeframe: string, feed: seq<Input>): int -> Track {
    token => RunOf(timeframe, Project(feed, token)).track
  }

  function NextOrder(order: seq<int>, tracks: int -> Track, input: Input): seq<int> {
    match input
    case TickOf(token, q) => Reordered(order, token, tracks(token), q)
    case FlushAll(cutoff) => Spared(order, tracks, cutoff)
    case GapAll => []
  }

  /** The tokens with a working candle, in insertion order. */
  function OrderAfter(timeframe: string, feed: seq<Input>): seq<int> {
    if feed == [] then []
    else
      var before := feed[..|feed| - 1];
      NextOrder(OrderAfter(timeframe, before), TracksAfter(timeframe, before), feed[|feed| - 1])
  }

  /** What one input emits. */
  function Emits(timeframe: string, order: seq<int>, tracks: int -> Track, input: Input): seq<Emission> {
    match input
    case TickOf(token, q) => Tagged(token, Accept(timeframe, tracks(token), q).1)
    case FlushAll(cutoff) => Due(order, tracks, cutoff)
    case GapAll => []
  }

  /** Everything a feed emits, in order. */
  function Emissions(timeframe: string, feed: seq<Input>): seq<Emission> {
    if feed == [] then []
    else
      var before := feed[..|feed| - 1];
      Emissions(timeframe, before)
      + Emits(timeframe, OrderAfter(timeframe, before), TracksAfter(timeframe, before), feed[|feed| - 1])
  }

  function OfToken(token: int): Emission -> bool {
    (emission: Emission) => emission.token == token
  }

  /** The candles of one token, in order. */
  function OwnedBy(emissions: seq<Emission>, token: int): seq<Candle> {
    CandlesOf(Filter(OfToken(token), emissions))
  }

  lemma OwnedByConcatenates(a: seq<Emission>, b: seq<Emission>, token: int)
    ensures OwnedBy(a + b, token) == OwnedBy(a, token) + OwnedBy(b, token)
  {
    FilterConcatenates(OfToken(token), a, b);
    CandlesConcatenate(Filter(OfToken(token), a), Filter(OfToken(token), b));
  }

  lemma {:induction false} OwnedByTagged(owner: int, candles: seq<Candle>, token: int)
    ensures OwnedBy(Tagged(owner, candles), token) == if owner == token then candles else []
  {
    if candles != [] {
      OwnedByTagged(owner, candles[..|candles| - 1], token);
    }
  }

  lemma {:induction false} OwnedByDue(tokens: seq<int>, tracks: int -> Track, cutoff: Instant, token: int)
    requires NoDuplicates(tokens)
    ensures OwnedBy(Due(tokens, tracks, cutoff), token)
         == if token in tokens then FlushTrack(tracks(token), cutoff).1 else []
  {
    hide FlushTrack, OwnedBy;
    if tokens == [] {
      OwnedByTagged(token, [], token);
    } else {
      var n := |tokens| - 1;
      var out := FlushTrack(tracks(tokens[n]), cutoff).1;
      OwnedByDue(tokens[..n], tracks, cutoff, token);
      OwnedByConcatenates(Due(tokens[..n], tracks, cutoff), Tagged(tokens[n], out), token);
      OwnedByTagged(tokens[n], out, token);
      assert token in tokens <==> token in tokens[..n] || token == tokens[n];
    }
  }

  /** The listed tokens are, once each, those with a working candle. */
  ghost predicate ListsWorking(order: seq<int>, tracks: int -> Track) {
    NoDuplicates(order) && forall token :: token in order <==> tracks(token).working.Some?
  }

  lemma ReorderedLists(order: seq<int>, tracks: int -> Track, after: int -> Track, token: int, q: Quote)
    requires ListsWorking(order, tracks)
    requires forall other :: other != token ==> after(other) == tracks(other)
    requires after(token).working.Some? <==> tracks(token).working.Some? || Admits(tracks(token), q)
    ensures ListsWorking(Reordered(order, token, tracks(token), q), after)
  {
    hide Admits;
    WithoutKeeps(order, token);
  }

  lemma SparedLists(order: seq<int>, tracks: int -> Track, after: int -> Track, cutoff: Instant)
    requires ListsWorking(order, tracks)
    requires forall token :: after(token) == FlushTrack(tracks(token), cutoff).0
    ensures ListsWorking(Spared(order, tracks, cutoff), after)
  {
    FilterMembers(token => !Flushable(tracks(token), cutoff), order);
    FilterKeepsUnique(token => !Flushable(tracks(token), cutoff), order);
  }

  lemma {:induction false} OrderListsWorking(timeframe: string, feed: seq<Input>)
    ensures ListsWorking(OrderAfter(timeframe, feed), TracksAfter(timeframe, feed))
  {
    if feed != [] {
      hide ListsWorking, Reordered, Spared, RunOf, Project;
      var n := |feed| - 1;
      OrderListsWorking(timeframe, feed[..n]);
      var order, tracks := OrderAfter(timeframe, feed[..n]), TracksAfter(timeframe, feed[..n]);
      forall token
        ensures TracksAfter(timeframe, feed)(token) == React(timeframe, tracks(token), feed[n], token).0
      {
        ProjectStep(timeframe, feed, n, token);
        assert feed[..n + 1] == feed;
      }
      match feed[n]
      case TickOf(token, q) =>
        ReorderedLists(order, tracks, TracksAfter(timeframe, feed), token, q);
      case FlushAll(cutoff) =>
        SparedLists(order, tracks, TracksAfter(timeframe, feed), cutoff);
      case GapAll =>
        NothingListed(TracksAfter(timeframe, feed));
    }
  }

  lemma NothingListed(tracks: int -> Track)
    requires forall token :: tracks(token) == FRESH
    ensures ListsWorking([], tracks)
  {
  }

  lemma EmitsOwned(timeframe: string, order: seq<int>, tracks: int -> Track, input: Input, token: int)
    requires ListsWorking(order, tracks)
    ensures OwnedBy(Emits(timeframe, order, tracks, input), token)
         == React(timeframe, tracks(token), input, token).1
  {
    match input
    case TickOf(owner, q) => OwnedByTagged(owner, Accept(timeframe, tracks(owner), q).1, token);
    case FlushAll(cutoff) => OwnedByDue(order, tracks, cutoff, token);
    case GapAll =>
  }

  /** TOKENS DO NOT INTERFERE. On any interleaving of tokens, flushes and gaps, what a token contributes to the
      output is exactly the run over its own events. */
  lemma {:induction false} TokensDoNotInterfere(timeframe: string, feed: seq<Input>, token: int)
    ensures OwnedBy(Emissions(timeframe, feed), token) == RunOf(timeframe, Project(feed, token)).all
  {
    if feed != [] {
      hide Emits, React, OwnedBy, RunOf, Project;
      var n := |feed| - 1;
      var order, tracks := OrderAfter(timeframe, feed[..n]), TracksAfter(timeframe, feed[..n]);
      TokensDoNotInterfere(timeframe, feed[..n], token);
      OrderListsWorking(timeframe, feed[..n]);
      EmitsOwned(timeframe, order, tracks, feed[n], token);
      OwnedByConcatenates(Emissions(timeframe, feed[..n]), Emits(timeframe, order, tracks, feed[n]), token);
      ProjectStep(timeframe, feed, n, token);
      assert feed[..n + 1] == feed;
    }
  }

  lemma {:induction false} DueAgrees(tokens: seq<int>, f: int -> Track, g: int -> Track, cutoff: Instant)
    requires forall token :: f(token) == g(token)
    ensures Due(tokens, f, cutoff) == Due(tokens, g, cutoff)
    ensures Spared(tokens, f, cutoff) == Spared(tokens, g, cutoff)
  {
    if tokens != [] {
      DueAgrees(tokens[..|tokens| - 1], f, g, cutoff);
    }
  }

  /** Only the values of the tracks matter. */
  lemma InputAgrees(timeframe: string, order: seq<int>, f: int -> Track, g: int -> Track, input: Input)
    requires forall token :: f(token) == g(token)
    ensures Emits(timeframe, order, f, input) == Emits(timeframe, order, g, input)
    ensures NextOrder(order, f, input) == NextOrder(order, g, input)
  {
    if input.FlushAll? {
      DueAgrees(order, f, g, input.cutoff);
    }
  }

  method FeedOne(builder: OneMinuteCandleBuilder, input: Input) returns (out: seq<Candle>)
    requires builder.Valid()
    modifies builder, builder.working.Values
    ensures builder.Valid() && fresh(builder.working.Values - old(builder.working).Values)
    ensures forall token ::
      builder.TrackFor(token) == React(builder.timeframe, old(builder.TrackFor(token)), input, token).0
    ensures out == CandlesOf(Emits(builder.timeframe, old(builder.order), old(builder.Tracks()), input))
    ensures builder.order == NextOrder(old(builder.order), old(builder.Tracks()), input)
  {
    hide Accept, FlushTrack, Due, Spared, Reordered, CandlesOf;
    match input {
      case TickOf(token, q) =>
        out := builder.AcceptTick(token, q);
        CandlesOfTagged(token, out);
      case FlushAll(cutoff) =>
        out := builder.FlushCompletedBefore(cutoff);
      case GapAll =>
        builder.InvalidateAfterStreamGap();
        out := [];
        CandlesOfTagged(0, []);
    }
  }

  /** The builder is where the feed takes a fresh one. */
  ghost predicate InStep(builder: OneMinuteCandleBuilder, feed: seq<Input>)
    reads builder, builder.working.Values
  {
    && builder.Valid()
    && builder.order == OrderAfter(builder.timeframe, feed)
    && forall token :: builder.TrackFor(token) == TracksAfter(builder.timeframe, feed)(token)
  }

  /** One more input of the feed. */
  method FeedNext(builder: OneMinuteCandleBuilder, feed: seq<Input>, i: nat) returns (out: seq<Candle>)
    requires i < |feed| && InStep(builder, feed[..i])
    modifies builder, builder.working.Values
    ensures fresh(builder.working.Values - old(builder.working).Values)
    ensures InStep(builder, feed[..i + 1])
    ensures CandlesOf(Emissions(builder.timeframe, feed[..i])) + out
         == CandlesOf(Emissions(builder.timeframe, feed[..i + 1]))
  {
    hide React, RunOf, Project, Emits, NextOrder, CandlesOf;
    var timeframe := builder.timeframe;
    var order, tracks := OrderAfter(timeframe, feed[..i]), TracksAfter(timeframe, feed[..i]);
    InputAgrees(timeframe, order, builder.Tracks(), tracks, feed[i]);
    out := FeedOne(builder, feed[i]);
    forall token ensures builder.TrackFor(token) == TracksAfter(timeframe, feed[..i + 1])(token) {
      ProjectStep(timeframe, feed, i, token);
    }
    CandlesConcatenate(Emissions(timeframe, feed[..i]), Emits(timeframe, order, tracks, feed[i]));
    assert feed[..i + 1][..i] == feed[..i];
  }

  /** One builder fed with any interleaving emits exactly the specified candles, in the specified order. */
  method CandlesFromFeed(timeframe: string, feed: seq<Input>) returns (candles: seq<Candle>)
    ensures candles == CandlesOf(Emissions(timeframe, feed))
  {
    var builder := new OneMinuteCandleBuilder(timeframe);
    candles := [];
    for i := 0 to |feed|
      invariant fresh(builder) && fresh(builder.working.Values)
      invariant builder.timeframe == timeframe && InStep(builder, feed[..i])
      invariant candles == CandlesOf(Emissions(timeframe, feed[..i]))
    {
      hide InStep, Emissions, CandlesOf;
      var out := FeedNext(builder, feed, i);
      candles := candles + out;
    }
    assert feed[..|feed|] == feed;
  }
}
