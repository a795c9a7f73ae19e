// Which candles a scanner sees, and when the current session's candles are complete.

module Sessions {
  import opened Options
  import opened MarketClock
  import opened Collections
  import opened Ordering
  import opened Candles

  const ONE_MINUTE := "1minute"

  /** 09:15 IST. */
  const NSE_OPEN: int := 33_300_000_000

  predicate IsRegular(bar: Candle) {
    IstTime(bar.startedAt) >= NSE_OPEN
  }

  predicate OnDate(bar: Candle, date: int) {
    IstDate(bar.startedAt) == date
  }

  /** The regular-session candles in time order. */
  function TrailingBars(bars: seq<Candle>): seq<Candle> {
    Filter(IsRegular, ByStart(bars))
  }

  function OnDateOf(bars: seq<Candle>, date: int): seq<Candle> {
    Filter(bar => OnDate(bar, date), TrailingBars(bars))
  }

  /** The IST date of the latest candle. */
  function CurrentDate(bars: seq<Candle>): int
    requires bars != []
  {
    IstDate(ByStart(bars)[|bars| - 1].startedAt)
  }

  function CurrentSession(bars: seq<Candle>): seq<Candle> {
    if bars == [] then []
    else
      OnDateOf(bars, CurrentDate(bars))
  }

  /** The greatest date before `date` among the candles. */
  function LatestDateBefore(bars: seq<Candle>, date: int): Option<int> {
    if bars == [] then None
    else
      var rest := LatestDateBefore(bars[..|bars| - 1], date);
      var d := IstDate(bars[|bars| - 1].startedAt);
      if d < date && (rest.None? || rest.value < d) then Some(d) else rest
  }

  function PriorSession(bars: seq<Candle>): seq<Candle> {
    if bars == [] then []
    else
      match LatestDateBefore(TrailingBars(bars), CurrentDate(bars))
      case None => []
      case Some(date) => OnDateOf(bars, date)
  }

  lemma {:induction false} LatestDateIsLatest(bars: seq<Candle>, date: int)
    ensures match LatestDateBefore(bars, date)
            case None => forall i :: 0 <= i < |bars| ==> IstDate(bars[i].startedAt) >= date
            case Some(d) =>
              && d < date
              && (exists i :: 0 <= i < |bars| && OnDate(bars[i], d))
              && forall i :: 0 <= i < |bars| && IstDate(bars[i].startedAt) < date ==> IstDate(bars[i].startedAt) <= d
  {
    if bars != [] {
      var n := |bars| - 1;
      LatestDateIsLatest(bars[..n], date);
      var rest := LatestDateBefore(bars[..n], date);
      if rest.Some? {
        var i :| 0 <= i < n && OnDate(bars[..n][i], rest.value);
        assert OnDate(bars[i], rest.value);
      }
      var d := IstDate(bars[n].startedAt);
      assert OnDate(bars[n], d);
    }
  }

  lemma TrailingIsRegular(bars: seq<Candle>)
    ensures SortedBy(StartsNoLater, TrailingBars(bars))
    ensures forall c :: c in TrailingBars(bars) <==> c in bars && IsRegular(c)
  {
    hide IsRegular, Filter;
    ByStartSorts(bars);
    FilterKeepsSorted(StartsNoLater, IsRegular, ByStart(bars));
    FilterMembers(IsRegular, ByStart(bars));
  }

  lemma DateIsRegular(bars: seq<Candle>, date: int)
    ensures SortedBy(StartsNoLater, OnDateOf(bars, date))
    ensures forall c :: c in OnDateOf(bars, date) <==> c in bars && IsRegular(c) && OnDate(c, date)
  {
    hide IsRegular, Filter, TrailingBars;
    TrailingIsRegular(bars);
    FilterKeepsSorted(StartsNoLater, bar => OnDate(bar, date), TrailingBars(bars));
    FilterMembers(bar => OnDate(bar, date), TrailingBars(bars));
  }

  lemma NoLaterDate(bars: seq<Candle>, c: Candle)
    requires c in bars
    ensures IstDate(c.startedAt) <= CurrentDate(bars)
  {
    hide IstDate;
    ByStartSorts(bars);
    var ordered := ByStart(bars);
    var i :| 0 <= i < |ordered| && ordered[i] == c;
    LaterStartLaterDate(c, ordered[|ordered| - 1]);
  }

  /** What the scanner is given. The current session is, in time order, exactly the regular candles on the
      latest candle's date. */
  lemma CurrentSessionIsLatestDate(bars: seq<Candle>)
    requires bars != []
    ensures SortedBy(StartsNoLater, CurrentSession(bars))
    ensures forall c :: c in CurrentSession(bars) <==> c in bars && IsRegular(c) && OnDate(c, CurrentDate(bars))
    ensures forall c :: c in bars ==> IstDate(c.startedAt) <= CurrentDate(bars)
  {
    hide IsRegular, OnDate, Filter, CurrentDate, TrailingBars;
    DateIsRegular(bars, CurrentDate(bars));
    assert CurrentSession(bars) == OnDateOf(bars, CurrentDate(bars));
    forall c | c in bars ensures IstDate(c.startedAt) <= CurrentDate(bars) {
      NoLaterDate(bars, c);
    }
  }

  /** The prior session is, in time order, exactly the regular candles on one date: the latest that comes
      before the current one. It is empty only when no regular candle comes before the current date. */
  lemma PriorSessionIsDateBefore(bars: seq<Candle>)
    requires bars != []
    ensures SortedBy(StartsNoLater, PriorSession(bars))
    ensures PriorSession(bars) == [] ==>
      forall c :: c in bars && IsRegular(c) ==> OnDate(c, CurrentDate(bars))
    ensures PriorSession(bars) != [] ==>
      var date := IstDate(PriorSession(bars)[0].startedAt);
      && date < CurrentDate(bars)
      && (forall c :: c in PriorSession(bars) <==> c in bars && IsRegular(c) && OnDate(c, date))
      && forall c :: c in bars && IsRegular(c) && !OnDate(c, CurrentDate(bars)) ==> IstDate(c.startedAt) <= date
  {
    hide IsRegular, Filter, CurrentDate, TrailingBars, LatestDateBefore, IstDate;
    var date := CurrentDate(bars);
    var trailing := TrailingBars(bars);
    TrailingIsRegular(bars);
    LatestDateIsLatest(trailing, date);
    CurrentSessionIsLatestDate(bars);
    var prior := LatestDateBefore(trailing, date);
    if prior.Some? {
      DateIsRegular(bars, prior.value);
      assert PriorSession(bars) == OnDateOf(bars, prior.value);
      var i :| 0 <= i < |trailing| && OnDate(trailing[i], prior.value);
      assert trailing[i] in PriorSession(bars);
      assert PriorSession(bars)[0] in PriorSession(bars);
    }
    forall c | c in bars && IsRegular(c) && !OnDate(c, date)
      ensures prior.Some? && IstDate(c.startedAt) <= prior.value
    {
      var i :| 0 <= i < |trailing| && trailing[i] == c;
    }
  }

  lemma LaterStartLaterDate(a: Candle, b: Candle)
    requires a == b || StartsNoLater(a, b)
    ensures IstDate(a.startedAt) <= IstDate(b.startedAt)
  {
  }

  // ----- continuity

  /** `int(delta.total_seconds())`: truncation toward zero. */
  function WholeSeconds(delta: int): int {
    if delta >= 0 then delta / SECOND else -(-delta / SECOND)
  }

  predicate Consecutive(previous: Candle, current: Candle) {
    || IstDate(previous.startedAt) != IstDate(current.startedAt)
    || WholeSeconds(current.startedAt - previous.startedAt) == 60
  }

  predicate ContinuityOk(bars: seq<Candle>, timeframe: string) {
    timeframe != ONE_MINUTE || forall i {:trigger bars[i]} :: 1 <= i < |bars| ==> Consecutive(bars[i - 1], bars[i])
  }

  method CandleContinuityOk(bars: seq<Candle>, timeframe: string) returns (ok: bool)
    ensures ok == ContinuityOk(bars, timeframe)
  {
    if timeframe != ONE_MINUTE || |bars| < 2 {
      return true;
    }
    for i := 1 to |bars|
      invariant forall k {:trigger bars[k]} :: 1 <= k < i ==> Consecutive(bars[k - 1], bars[k])
    {
      if IstDate(bars[i - 1].startedAt) == IstDate(bars[i].startedAt) {
        var delta := WholeSeconds(bars[i].startedAt - bars[i - 1].startedAt);
        if delta != 60 {
          assert !Consecutive(bars[i - 1], bars[i]);
          return false;
        }
      }
    }
    ok := true;
  }

  // ----- completeness

  predicate SessionStartAvailable(bars: seq<Candle>) {
    bars != [] && IstTime(bars[0].startedAt) == NSE_OPEN
  }

  /** The first `count` candles are exactly one minute apart. */
  predicate MinuteByMinute(bars: seq<Candle>, count: int) {
    count <= |bars| && forall i :: 0 <= i < count ==> bars[i].startedAt == bars[0].startedAt + i * MINUTE
  }

  predicate ContinuousPrefix(bars: seq<Candle>, required: int) {
    SessionStartAvailable(bars) && MinuteByMinute(bars, required)
  }

  method HasContinuousPrefix(bars: seq<Candle>, required: nat) returns (ok: bool)
    ensures ok == ContinuousPrefix(bars, required)
  {
    if |bars| < required || !SessionStartAvailable(bars) {
      return false;
    }
    var expected := bars[0].startedAt;
    for i := 0 to required
      invariant MinuteByMinute(bars, i)
      invariant expected == bars[0].startedAt + i * MINUTE
    {
      if bars[i].startedAt != expected {
        return false;
      }
      expected := expected + MINUTE;
    }
    ok := true;
  }

  predicate OpeningRangeComplete(bars: seq<Candle>, minutes: int, timeframe: string) {
    timeframe == ONE_MINUTE && minutes >= 1 && ContinuousPrefix(bars, minutes)
  }

  predicate CompleteThroughLatest(bars: seq<Candle>, timeframe: string) {
    timeframe == ONE_MINUTE && bars != [] && ContinuousPrefix(bars, |bars|)
  }

  ghost predicate SameDate(bars: seq<Candle>) {
    forall i :: 0 <= i < |bars| ==> IstDate(bars[i].startedAt) == IstDate(bars[0].startedAt)
  }

  ghost predicate OnWholeMinutes(bars: seq<Candle>) {
    forall i :: 0 <= i < |bars| ==> bars[i].startedAt % MINUTE == 0
  }

  lemma OpenIsWholeMinute(t: Instant)
    requires IstTime(t) == NSE_OPEN
    ensures t % MINUTE == 0
  {
  }

  lemma SixtySecondsOnMinutes(a: Instant, b: Instant)
    requires a % MINUTE == 0 && b % MINUTE == 0
    ensures WholeSeconds(b - a) == 60 <==> b == a + MINUTE
  {
  }

  lemma WholeMinuteLater(a: Instant, i: nat)
    requires a % MINUTE == 0
    ensures (a + i * MINUTE) % MINUTE == 0
  {
  }

  lemma {:induction false} ContinuousMeansMinuteByMinute(bars: seq<Candle>, count: nat)
    requires SameDate(bars) && OnWholeMinutes(bars) && ContinuityOk(bars, ONE_MINUTE) && count <= |bars|
    ensures MinuteByMinute(bars, count)
  {
    if count >= 2 {
      var n := count - 1;
      ContinuousMeansMinuteByMinute(bars, n);
      assert Consecutive(bars[n - 1], bars[n]);
      SixtySecondsOnMinutes(bars[n - 1].startedAt, bars[n].startedAt);
    }
  }

  /** The two completeness checks agree: a session is complete through its latest candle exactly when it
      starts at 09:15, the continuity check passes, and every candle starts on a whole minute. */
  lemma CompleteIffContinuous(bars: seq<Candle>)
    requires SameDate(bars)
    ensures CompleteThroughLatest(bars, ONE_MINUTE)
      <==> SessionStartAvailable(bars) && ContinuityOk(bars, ONE_MINUTE) && OnWholeMinutes(bars)
  {
    if CompleteThroughLatest(bars, ONE_MINUTE) {
      OpenIsWholeMinute(bars[0].startedAt);
      forall i | 0 <= i < |bars| ensures bars[i].startedAt % MINUTE == 0 {
        WholeMinuteLater(bars[0].startedAt, i);
      }
      forall i | 1 <= i < |bars| ensures Consecutive(bars[i - 1], bars[i]) {
        SixtySecondsOnMinutes(bars[i - 1].startedAt, bars[i].startedAt);
      }
    } else if SessionStartAvailable(bars) && ContinuityOk(bars, ONE_MINUTE) && OnWholeMinutes(bars) {
      ContinuousMeansMinuteByMinute(bars, |bars|);
    }
  }

  /** The same for whatever candles are loaded. */
  lemma LoadedSessionCompleteIffContinuous(bars: seq<Candle>)
    ensures var session := CurrentSession(bars);
      CompleteThroughLatest(session, ONE_MINUTE)
      <==> SessionStartAvailable(session) && ContinuityOk(session, ONE_MINUTE) && OnWholeMinutes(session)
  {
    CurrentSessionSameDate(bars);
    CompleteIffContinuous(CurrentSession(bars));
  }

  lemma CurrentSessionSameDate(bars: seq<Candle>)
    ensures SameDate(CurrentSession(bars))
  {
    if bars != [] {
      CurrentSessionIsLatestDate(bars);
      var session := CurrentSession(bars);
      forall i | 0 <= i < |session| ensures OnDate(session[i], CurrentDate(bars)) {
        assert session[i] in session;
      }
    }
  }

  /** Whole minutes cannot be dropped: 09:15:00 followed by 09:16:00.5 passes the continuity check, which
      truncates to seconds, but is not complete. */
  lemma SubsecondStartsDisagree(first: Candle, second: Candle)
    requires IstTime(first.startedAt) == NSE_OPEN
    requires second.startedAt == first.startedAt + MINUTE + 500_000
    ensures ContinuityOk([first, second], ONE_MINUTE) && SessionStartAvailable([first, second])
    ensures !CompleteThroughLatest([first, second], ONE_MINUTE)
  {
    assert [first, second][1].startedAt != [first, second][0].startedAt + 1 * MINUTE;
    assert forall i {:trigger [first, second][i]} :: 1 <= i < 2 ==> i == 1;
  }

  /** In a complete session the latest candle's time says how many candles there are. */
  lemma CompleteSessionCountsMinutes(bars: seq<Candle>)
    requires SameDate(bars) && CompleteThroughLatest(bars, ONE_MINUTE)
    ensures IstTime(bars[|bars| - 1].startedAt) == NSE_OPEN + (|bars| - 1) * MINUTE
  {
    var last := bars[|bars| - 1].startedAt;
    assert last == bars[0].startedAt + (|bars| - 1) * MINUTE;
  }

  // ----- opening range

  function MinutesSinceOpen(bar: Candle): int {
    IstTime(bar.startedAt) / MINUTE - 555
  }

  predicate InOpeningRange(bar: Candle, date: int, minutes: int) {
    OnDate(bar, date) && 0 <= MinutesSinceOpen(bar) < minutes
  }

  function OpeningBars(bars: seq<Candle>, minutes: int): seq<Candle> {
    if bars == [] then []
    else
      var date := IstDate(bars[|bars| - 1].startedAt);
      Filter(bar => InOpeningRange(bar, date, minutes), bars)
  }

  function HighestHigh(bars: seq<Candle>): (high: real)
    requires bars != []
    ensures forall i :: 0 <= i < |bars| ==> bars[i].high <= high
    ensures exists i :: 0 <= i < |bars| && bars[i].high == high
  {
    var last := bars[|bars| - 1].high;
    if |bars| == 1 then last
    else
      var rest := HighestHigh(bars[..|bars| - 1]);
      if rest < last then last else rest
  }

  function LowestLow(bars: seq<Candle>): (low: real)
    requires bars != []
    ensures forall i :: 0 <= i < |bars| ==> low <= bars[i].low
    ensures exists i :: 0 <= i < |bars| && bars[i].low == low
  {
    var last := bars[|bars| - 1].low;
    if |bars| == 1 then last
    else
      var rest := LowestLow(bars[..|bars| - 1]);
      if last < rest then last else rest
  }

  /** (high, low) of some candles, or nothing when there are none. */
  function HighLow(bars: seq<Candle>): (Option<real>, Option<real>) {
    if bars == [] then (None, None) else (Some(HighestHigh(bars)), Some(LowestLow(bars)))
  }

  function OpeningRange(bars: seq<Candle>, minutes: int): (Option<real>, Option<real>) {
    HighLow(OpeningBars(bars, minutes))
  }

  function PreviousDayHighLow(bars: seq<Candle>): (Option<real>, Option<real>) {
    if bars == [] then (None, None)
    else
      match LatestDateBefore(bars, IstDate(bars[|bars| - 1].startedAt))
      case None => (None, None)
      case Some(date) => HighLow(Filter(bar => OnDate(bar, date), bars))
  }

  lemma MinuteAfterOpen(first: Candle, bar: Candle, i: nat)
    requires IstTime(first.startedAt) == NSE_OPEN
    requires bar.startedAt == first.startedAt + i * MINUTE
    requires IstDate(bar.startedAt) == IstDate(first.startedAt)
    ensures MinutesSinceOpen(bar) == i
  {
  }

  lemma AfterOpeningMinutes(first: Candle, bar: Candle, minutes: nat)
    requires IstTime(first.startedAt) == NSE_OPEN
    requires IstDate(bar.startedAt) == IstDate(first.startedAt)
    ensures MinutesSinceOpen(bar) >= minutes <==> bar.startedAt >= first.startedAt + minutes * MINUTE
  {
  }

  /** Once the opening range is complete it is measured on exactly the first `minutes` candles, if and only
      if the next candle, should there be one, starts after those minutes. */
  lemma OpeningRangeUsesFirstMinutes(bars: seq<Candle>, minutes: nat)
    requires SameDate(bars) && SortedBy(StartsNoLater, bars)
    requires OpeningRangeComplete(bars, minutes, ONE_MINUTE)
    ensures OpeningBars(bars, minutes) == bars[..minutes]
      <==> (minutes < |bars| ==> bars[minutes].startedAt >= bars[0].startedAt + minutes * MINUTE)
  {
    hide IstDate, IstTime, MinutesSinceOpen, Filter;
    var date := IstDate(bars[0].startedAt);
    var p := (bar: Candle) => InOpeningRange(bar, date, minutes);
    var front, back := bars[..minutes], bars[minutes..];
    FirstMinutesAreInside(bars, minutes);
    assert bars == front + back;
    FilterConcatenates(p, front, back);
    FilterEverything(p, front);
    assert OpeningBars(bars, minutes) == front + Filter(p, back) by {
      assert Filter(p, bars) == OpeningBars(bars, minutes);
    }
    if minutes == |bars| || bars[minutes].startedAt >= bars[0].startedAt + minutes * MINUTE {
      LaterCandlesAreOutside(bars, minutes);
      FilterNothing(p, back);
    } else {
      AfterOpeningMinutes(bars[0], bars[minutes], minutes);
      NotBeforeOpen(bars, minutes);
      FilterMembers(p, back);
      assert back[0] in Filter(p, back);
    }
  }

  lemma FirstMinutesAreInside(bars: seq<Candle>, minutes: nat)
    requires SameDate(bars) && OpeningRangeComplete(bars, minutes, ONE_MINUTE)
    ensures forall c :: c in bars[..minutes] ==> InOpeningRange(c, IstDate(bars[0].startedAt), minutes)
  {
    hide IstDate, MinutesSinceOpen;
    forall c | c in bars[..minutes] ensures InOpeningRange(c, IstDate(bars[0].startedAt), minutes) {
      var i :| 0 <= i < minutes && bars[i] == c;
      MinuteAfterOpen(bars[0], c, i);
    }
  }

  lemma LaterCandlesAreOutside(bars: seq<Candle>, minutes: nat)
    requires SameDate(bars) && SortedBy(StartsNoLater, bars) && SessionStartAvailable(bars)
    requires minutes <= |bars|
    requires minutes == |bars| || bars[minutes].startedAt >= bars[0].startedAt + minutes * MINUTE
    ensures forall c :: c in bars[minutes..] ==> !InOpeningRange(c, IstDate(bars[0].startedAt), minutes)
  {
    hide IstDate, MinutesSinceOpen;
    forall c | c in bars[minutes..] ensures !InOpeningRange(c, IstDate(bars[0].startedAt), minutes) {
      var i :| minutes <= i < |bars| && bars[i] == c;
      assert i == minutes || StartsNoLater(bars[minutes], bars[i]);
      AfterOpeningMinutes(bars[0], c, minutes);
    }
  }

  lemma NotBeforeOpen(bars: seq<Candle>, i: nat)
    requires SameDate(bars) && SortedBy(StartsNoLater, bars) && SessionStartAvailable(bars) && i < |bars|
    ensures 0 <= MinutesSinceOpen(bars[i])
  {
    assert bars[0].startedAt <= bars[i].startedAt;
  }

  /** With distinct whole-minute starts, as stored, the condition always holds. */
  lemma OpeningRangeOnWholeMinutes(bars: seq<Candle>, minutes: nat)
    requires SameDate(bars) && SortedBy(StartsNoLater, bars)
    requires DistinctStarts(bars) && OnWholeMinutes(bars)
    requires OpeningRangeComplete(bars, minutes, ONE_MINUTE)
    ensures OpeningBars(bars, minutes) == bars[..minutes]
  {
    hide OpeningBars;
    OpeningRangeUsesFirstMinutes(bars, minutes);
    if minutes < |bars| {
      assert StartsNoLater(bars[minutes - 1], bars[minutes]);
      NextWholeMinute(bars[minutes - 1].startedAt, bars[minutes].startedAt);
    }
  }

  lemma NextWholeMinute(a: Instant, b: Instant)
    requires a % MINUTE == 0 && b % MINUTE == 0 && a < b
    ensures b >= a + MINUTE
  {
  }
}
