// From ticks to decisions: what the candle builder guarantees is what the scanner and the paper engine need.

module Pipeline {
  import opened MarketClock
  import opened Ordering
  import opened Candles
  import opened CandleTrack
  import opened CandleBatch
  import opened CandleGuarantees
  import opened Sessions
  import opened Strategies
  import opened PaperTypes
  import PaperSimulator

  /** The candles one token's feed has produced. */
  function Built(events: seq<Event>): seq<Candle> {
    RunOf(ONE_MINUTE, events).all
  }

  predicate OrderlyFeed(events: seq<Event>) {
    NeverReopens(ONE_MINUTE, events) && GapsGoForward(events)
  }

  /** An orderly feed yields well-formed candles in strictly increasing order on whole minutes. */
  lemma BuiltCandlesAreUsable(events: seq<Event>)
    requires OrderlyFeed(events)
    ensures AllWellFormed(Built(events)) && StrictlyOrdered(Built(events))
    ensures SortedBy(StartsNoLater, Built(events)) && DistinctStarts(Built(events)) && OnWholeMinutes(Built(events))
  {
    hide RunOf, NeverReopens, GapsGoForward;
    CandlesAreWellFormed(ONE_MINUTE, events);
    EmissionsAreOrdered(ONE_MINUTE, events);
  }

  lemma {:induction false} BuiltGrows(events: seq<Event>, more: seq<Event>)
    ensures Built(events) <= Built(events + more)
  {
    if more == [] {
      assert events + more == events;
    } else {
      hide Accept, FlushTrack;
      var n := |more| - 1;
      BuiltGrows(events, more[..n]);
      assert (events + more)[..|events| + n] == events + more[..n];
    }
  }

  lemma LaterPart(cs: seq<Candle>, n: nat)
    requires StrictlyOrdered(cs) && n <= |cs|
    ensures AllLater(cs[..n], cs[n..])
  {
    forall x, y | x in cs[..n] && y in cs[n..] ensures x.startedAt < y.startedAt {
      var i :| 0 <= i < n && cs[i] == x;
      var j :| n <= j < |cs| && cs[j] == y;
    }
  }

  /** While a feed goes on, a stopped, targeted or flattened trade stays exactly as it was simulated, and a filled
      entry keeps its time and price. */
  lemma FeedContinuesTradesStay(
    events: seq<Event>, more: seq<Event>, i: PaperInstruction, config: PaperConfig)
    requires OrderlyFeed(events + more)
    ensures var o := PaperSimulator.Simulated(i, Built(events), config);
      var later := PaperSimulator.Simulated(i, Built(events + more), config);
      && (o.exitReason in {STOP_HIT, TARGET_HIT, FORCE_FLAT} ==> later == o)
      && (o.tradeCreated ==>
            later.tradeCreated && later.entryFillTime == o.entryFillTime && later.entryFillPrice == o.entryFillPrice)
  {
    hide RunOf, NeverReopens, GapsGoForward, PaperSimulator.Simulated;
    BuiltGrows(events, more);
    BuiltCandlesAreUsable(events + more);
    var all, n := Built(events + more), |Built(events)|;
    LaterPart(all, n);
    assert all[..n] == Built(events) && all == all[..n] + all[n..];
    PaperSimulator.LaterCandlesChangeNothing(i, all[..n], all[n..], config);
  }

  /** On built candles a trade loses more than planned only by a forced close below its stop. */
  lemma BuiltCandlesBoundLoss(events: seq<Event>, i: PaperInstruction, config: PaperConfig)
    requires PaperSimulator.Sound(i)
    ensures PaperSimulator.LossBounded(i, PaperSimulator.Simulated(i, Built(events), config))
  {
    hide RunOf, PaperSimulator.Simulated, PaperSimulator.LossBounded;
    CandlesAreWellFormed(ONE_MINUTE, events);
    PaperSimulator.LossIsBoundedByPlannedRisk(i, Built(events), config);
  }

  lemma SessionInherits(bars: seq<Candle>)
    requires bars != [] && SortedBy(StartsNoLater, bars) && DistinctStarts(bars) && OnWholeMinutes(bars)
    ensures DistinctStarts(CurrentSession(bars)) && OnWholeMinutes(CurrentSession(bars))
  {
    hide IsRegular, OnDate;
    SortOfSorted(StartsNoLater, bars);
    CurrentSessionIsLatestDate(bars);
    SessionIsDistinct(bars);
    var session := CurrentSession(bars);
    forall k | 0 <= k < |session| ensures session[k].startedAt % MINUTE == 0 {
      assert session[k] in session;
      var i :| 0 <= i < |bars| && bars[i] == session[k];
    }
  }

  lemma SessionIsDistinct(bars: seq<Candle>)
    requires bars != [] && SortedBy(StartsNoLater, bars) && DistinctStarts(bars)
    ensures DistinctStarts(CurrentSession(bars))
  {
    hide IsRegular, OnDate;
    SortOfSorted(StartsNoLater, bars);
    var regular := TrailingBars(bars);
    FilterKeepsDistinct(IsRegular, bars);
    var date := CurrentDate(bars);
    FilterKeepsDistinct(bar => OnDate(bar, date), regular);
  }

  lemma {:induction false} FilterKeepsDistinct(p: Candle -> bool, bars: seq<Candle>)
    requires DistinctStarts(bars)
    ensures DistinctStarts(Collections.Filter(p, bars))
  {
    if bars != [] {
      var n := |bars| - 1;
      FilterKeepsDistinct(p, bars[..n]);
      Collections.FilterMembers(p, bars[..n]);
      forall x | x in Collections.Filter(p, bars[..n]) ensures x.startedAt != bars[n].startedAt {
        var i :| 0 <= i < n && bars[i] == x;
      }
    }
  }

  /** A breakout candidate found on the candles of an orderly feed, at any point of it, starts after the opening
      range and no later than 14:30, and closes above the high of every minute of the opening range. */
  lemma BreakoutOnBuiltCandles(events: seq<Event>, k: nat, r: Request)
    requires OrderlyFeed(events) && 1 <= k <= |Built(events)|
    requires r.bars == Built(events)[..k] && r.timeframe == ONE_MINUTE && r.strategy == OpeningRangeBreakoutLong
    requires Evaluate(r).status == CANDIDATE
    ensures var latest, session, minutes := r.bars[k - 1], CurrentSession(r.bars), r.config.openingRangeMinutes;
      && NSE_OPEN + minutes * MINUTE <= IstTime(latest.startedAt) <= ENTRY_END
      && 1 <= minutes <= |session|
      && forall i :: 0 <= i < minutes ==>
        && session[i].startedAt == session[0].startedAt + i * MINUTE
        && session[i].high < latest.close
  {
    hide Evaluate, RunOf, NeverReopens, GapsGoForward, CurrentSession, IstTime;
    BuiltCandlesAreUsable(events);
    PrefixUsable(Built(events), k);
    BreakoutCandidateWindow(r);
    SessionInherits(r.bars);
    BreakoutBeatsOpeningMinutes(r);
  }

  lemma PrefixUsable(cs: seq<Candle>, k: nat)
    requires AllWellFormed(cs) && StrictlyOrdered(cs) && k <= |cs|
    ensures AllWellFormed(cs[..k]) && SortedBy(StartsNoLater, cs[..k])
    ensures DistinctStarts(cs[..k]) && OnWholeMinutes(cs[..k])
  {
  }
}
