// Sessions and their completeness, written on times and distances.

module SessionLaws {
  import opened MarketClock
  import opened Ordering
  import opened Candles
  import opened Sessions

  /** Regular candles start at 09:15 or later. */
  lemma RegularFromOpen(bars: seq<Candle>)
    ensures forall c :: c in TrailingBars(bars) <==> c in bars && TimeOfDay(9, 15) <= IstTime(c.startedAt)
    ensures SortedBy(StartsNoLater, TrailingBars(bars))
  {
    hide IstTime, TrailingBars;
    TrailingIsRegular(bars);
    forall c: Candle ensures IsRegular(c) <==> TimeOfDay(9, 15) <= IstTime(c.startedAt) {
    }
  }

  lemma SixtyWholeSeconds(delta: int)
    ensures WholeSeconds(delta) == 60 <==> 60 * SECOND <= delta < 61 * SECOND
  {
  }

  /** Continuity asks that neighbours of one date be at least sixty and less than sixty-one seconds apart, and
      nothing of other timeframes. */
  lemma ContinuityIsAMinuteApart(bars: seq<Candle>, timeframe: string)
    ensures ContinuityOk(bars, timeframe)
      <==> timeframe != "1minute"
           || forall i {:trigger bars[i]} :: 1 <= i < |bars| ==>
                var delta := bars[i].startedAt - bars[i - 1].startedAt;
                IstDate(bars[i - 1].startedAt) == IstDate(bars[i].startedAt) ==> 60 * SECOND <= delta < 61 * SECOND
  {
    hide IstDate, WholeSeconds;
    forall i {:trigger bars[i]} | 1 <= i < |bars|
      ensures Consecutive(bars[i - 1], bars[i])
        <==> var delta := bars[i].startedAt - bars[i - 1].startedAt;
             IstDate(bars[i - 1].startedAt) == IstDate(bars[i].startedAt) ==> 60 * SECOND <= delta < 61 * SECOND
    {
      SixtyWholeSeconds(bars[i].startedAt - bars[i - 1].startedAt);
    }
  }

  /** The first `count` candles are those of 09:15 and of the minutes after it. */
  predicate EveryMinuteFromOpen(bars: seq<Candle>, count: int) {
    && count <= |bars| && bars != [] && IstTime(bars[0].startedAt) == TimeOfDay(9, 15)
    && forall i :: 0 <= i < count ==> bars[i].startedAt - bars[0].startedAt == i * 60 * SECOND
  }

  /** An opening range of at least a minute is complete iff all its minutes are there; a session is complete iff all
      minutes through its latest candle are; both only of one-minute candles. */
  lemma CompleteMeansEveryMinute(bars: seq<Candle>, minutes: int, timeframe: string)
    ensures OpeningRangeComplete(bars, minutes, timeframe)
      <==> timeframe == "1minute" && 1 <= minutes && EveryMinuteFromOpen(bars, minutes)
    ensures CompleteThroughLatest(bars, timeframe)
      <==> timeframe == "1minute" && EveryMinuteFromOpen(bars, |bars|)
  {
    hide IstTime;
    forall i ensures i * MINUTE == i * 60 * SECOND {
    }
  }
}
