// Replaying stored candles through the strategies into an append-only signal store.

module ScannerReplay {
  import opened Options
  import opened MarketClock
  import opened Collections
  import opened Candles
  import opened Sessions
  import opened Strategies

  type Signals = map<SignalKey, Evaluation>

  const REPLAY_BAR_LIMIT := 100_000

  /** What the repository returns: the candles of the timeframe, the last `limit` of them. */
  function Loaded(bars: seq<Candle>, timeframe: string, limit: nat): seq<Candle> {
    var matching := Filter((bar: Candle) => bar.timeframe == timeframe, bars);
    if |matching| <= limit then matching else matching[|matching| - limit..]
  }

  function BarsOf(bars: map<string, seq<Candle>>, symbol: string): seq<Candle> {
    if symbol in bars then bars[symbol] else []
  }

  /** One replay: what it was asked and the candles it loaded, in time order. */
  datatype Replay = Replay(
    symbol: string,
    timeframe: string,
    runId: string,
    config: ScannerConfig,
    ordered: seq<Candle>,
    benchmark: seq<Candle>)

  function ReplayOf(
    bars: map<string, seq<Candle>>, config: ScannerConfig, symbol: string, timeframe: string, runId: string): Replay
  {
    Replay(
      symbol, timeframe, runId, config,
      ByStart(Loaded(BarsOf(bars, symbol), timeframe, REPLAY_BAR_LIMIT)),
      if NeedsBenchmark(config)
      then ByStart(Loaded(BarsOf(bars, config.benchmarkSymbol.value), timeframe, REPLAY_BAR_LIMIT))
      else [])
  }

  predicate StartedBy(bar: Candle, at: Instant) {
    bar.startedAt <= at
  }

  /** What bar `i` lets a strategy see: the candles up to it and the benchmark candles up to its start. */
  function RequestAt(replay: Replay, i: nat, strategy: Strategy): (request: Request)
    requires i < |replay.ordered|
    ensures request.bars != []
  {
    var at := replay.ordered[i].startedAt;
    Request(strategy, replay.ordered[i].instrumentId, replay.symbol, replay.timeframe, replay.ordered[..i + 1],
            replay.config, Filter(bar => StartedBy(bar, at), replay.benchmark), None, Some(replay.runId), false)
  }

  /** Evaluations of bar `i` by the first `k` strategies. */
  function BarEvaluations(replay: Replay, i: nat, k: nat): seq<Evaluation>
    requires i < |replay.ordered| && k <= |replay.config.strategies|
  {
    if k == 0 then []
    else BarEvaluations(replay, i, k - 1) + [Evaluate(RequestAt(replay, i, replay.config.strategies[k - 1]))]
  }

  /** Evaluations of the first `n` bars. */
  function Evaluations(replay: Replay, n: nat): seq<Evaluation>
    requires n <= |replay.ordered|
  {
    if n == 0 then []
    else Evaluations(replay, n - 1) + BarEvaluations(replay, n - 1, |replay.config.strategies|)
  }

  datatype RunResult = RunResult(evaluated: nat, inserted: nat, duplicates: nat, candidates: nat, rejected: nat)

  const NO_RESULT := RunResult(0, 0, 0, 0, 0)

  datatype Tally = Tally(signals: Signals, counts: RunResult)

  function Absorb(t: Tally, e: Evaluation): Tally {
    var isNew := e.key !in t.signals;
    Tally(
      if isNew then t.signals[e.key := e] else t.signals,
      RunResult(
        t.counts.evaluated + 1,
        t.counts.inserted + (if isNew then 1 else 0),
        t.counts.duplicates + (if isNew then 0 else 1),
        t.counts.candidates + (if e.status == CANDIDATE then 1 else 0),
        t.counts.rejected + (if e.status == REJECTED_SIGNAL then 1 else 0)))
  }

  function AbsorbAll(t: Tally, es: seq<Evaluation>): Tally {
    if es == [] then t else Absorb(AbsorbAll(t, es[..|es| - 1]), es[|es| - 1])
  }

  /** The store and the counts after a replay over `signals`. */
  function Run(signals: Signals, replay: Replay): Tally {
    AbsorbAll(Tally(signals, NO_RESULT), Evaluations(replay, |replay.ordered|))
  }

  // ----- the loops

  lemma BarStarts(start: Tally, replay: Replay, i: nat)
    requires i < |replay.ordered|
    ensures AbsorbAll(start, BarEvaluations(replay, i, 0)) == start
  {
  }

  lemma BarStep(start: Tally, replay: Replay, i: nat, k: nat)
    requires i < |replay.ordered| && k < |replay.config.strategies|
    ensures AbsorbAll(start, BarEvaluations(replay, i, k + 1))
         == Absorb(AbsorbAll(start, BarEvaluations(replay, i, k)),
                   Evaluate(RequestAt(replay, i, replay.config.strategies[k])))
  {
    hide Evaluate, RequestAt, Absorb;
    AbsorbLast(
      start, BarEvaluations(replay, i, k), Evaluate(RequestAt(replay, i, replay.config.strategies[k])));
  }

  class ScannerRepository {
    const barsBySymbol: map<string, seq<Candle>>
    var signals: Signals

    constructor (barsBySymbol: map<string, seq<Candle>>)
      ensures this.barsBySymbol == barsBySymbol && signals == map[]
    {
      this.barsBySymbol, signals := barsBySymbol, map[];
    }

    method InsertSignal(e: Evaluation) returns (inserted: bool)
      modifies this`signals
      ensures inserted == (e.key !in old(signals))
      ensures signals == if inserted then old(signals)[e.key := e] else old(signals)
    {
      if e.key in signals {
        return false;
      }
      signals := signals[e.key := e];
      inserted := true;
    }
  }

  class ScannerService {
    const repository: ScannerRepository
    const config: ScannerConfig

    constructor (repository: ScannerRepository, config: ScannerConfig)
      ensures this.repository == repository && this.config == config
    {
      this.repository, this.config := repository, config;
    }

    /** Evaluates every strategy on one bar and stores what is new. */
    method ReplayBar(replay: Replay, i: nat, counts: RunResult) returns (r: RunResult)
      requires i < |replay.ordered|
      modifies repository
      ensures Tally(repository.signals, r)
           == AbsorbAll(Tally(old(repository.signals), counts), BarEvaluations(replay, i, |replay.config.strategies|))
    {
      hide Evaluate, RequestAt, AbsorbAll, BarEvaluations;
      var strategies := replay.config.strategies;
      r := counts;
      ghost var start := Tally(repository.signals, counts);
      BarStarts(start, replay, i);
      for k := 0 to |strategies|
        invariant Tally(repository.signals, r) == AbsorbAll(start, BarEvaluations(replay, i, k))
      {
        var evaluation := EvaluateStrategy(RequestAt(replay, i, strategies[k]));
        BarStep(start, replay, i, k);
        var isNew := repository.InsertSignal(evaluation);
        r := RunResult(
          r.evaluated + 1,
          r.inserted + (if isNew then 1 else 0),
          r.duplicates + (if isNew then 0 else 1),
          r.candidates + (if evaluation.status == CANDIDATE then 1 else 0),
          r.rejected + (if evaluation.status == REJECTED_SIGNAL then 1 else 0));
      }
    }

    /** Bars in time order, never showing a strategy anything after the current bar. */
    method RunReplay(symbol: string, timeframe: string, runId: string) returns (r: Result<RunResult, ()>)
      modifies repository
      ensures r.Err? <==> timeframe != ONE_MINUTE
      ensures r.Err? ==> repository.signals == old(repository.signals)
      ensures r.Ok? ==>
        Tally(repository.signals, r.value)
        == Run(old(repository.signals), ReplayOf(repository.barsBySymbol, config, symbol, timeframe, runId))
    {
      if timeframe != ONE_MINUTE {
        return Err(());
      }
      hide BarEvaluations, ReplayOf;
      var replay := ReplayOf(repository.barsBySymbol, config, symbol, timeframe, runId);
      var counts := NO_RESULT;
      ghost var start := Tally(repository.signals, counts);
      for i := 0 to |replay.ordered|
        invariant Tally(repository.signals, counts) == AbsorbAll(start, Evaluations(replay, i))
      {
        AbsorbConcatenates(start, Evaluations(replay, i), BarEvaluations(replay, i, |replay.config.strategies|));
        counts := ReplayBar(replay, i, counts);
      }
      r := Ok(counts);
    }
  }

  lemma AbsorbLast(t: Tally, es: seq<Evaluation>, e: Evaluation)
    ensures AbsorbAll(t, es + [e]) == Absorb(AbsorbAll(t, es), e)
  {
    assert (es + [e])[..|es|] == es;
  }

  lemma {:induction false} AbsorbConcatenates(t: Tally, a: seq<Evaluation>, b: seq<Evaluation>)
    ensures AbsorbAll(t, a + b) == AbsorbAll(AbsorbAll(t, a), b)
  {
    if b == [] {
      assert a + b == a;
    } else {
      AbsorbConcatenates(t, a, b[..|b| - 1]);
      assert (a + b)[..|a + b| - 1] == a + b[..|b| - 1];
    }
  }

  // ----- guarantees

  /** Stored signals never change, every evaluation's key is stored afterwards, and nothing else is. */
  lemma {:induction false} AbsorbedAreStored(t: Tally, es: seq<Evaluation>)
    ensures var after := AbsorbAll(t, es).signals;
      && (forall key :: key in t.signals ==> key in after && after[key] == t.signals[key])
      && (forall e :: e in es ==> e.key in after)
      && (forall key :: key in after && key !in t.signals ==>
            exists j :: 0 <= j < |es| && es[j] == after[key] && es[j].key == key)
  {
    if es != [] {
      var n := |es| - 1;
      AbsorbedAreStored(t, es[..n]);
      var middle := AbsorbAll(t, es[..n]).signals;
      var after := AbsorbAll(t, es).signals;
      forall e | e in es ensures e.key in after {
        var j :| 0 <= j < |es| && es[j] == e;
        assert j == n || e in es[..n];
      }
      forall key | key in after && key !in t.signals
        ensures exists j :: 0 <= j < |es| && es[j] == after[key] && es[j].key == key
      {
        if key in middle {
          var j :| 0 <= j < n && es[..n][j] == middle[key] && es[..n][j].key == key;
          assert es[j] == after[key];
        } else {
          assert es[n] == after[key];
        }
      }
    }
  }

  lemma {:induction false} AbsorbCounts(t: Tally, es: seq<Evaluation>)
    ensures var r := AbsorbAll(t, es);
      && r.counts.evaluated == t.counts.evaluated + |es|
      && r.counts.inserted + r.counts.duplicates == t.counts.inserted + t.counts.duplicates + |es|
      && r.counts.candidates + r.counts.rejected == t.counts.candidates + t.counts.rejected + |es|
      && |r.signals| - r.counts.inserted == |t.signals| - t.counts.inserted
  {
    if es != [] {
      AbsorbCounts(t, es[..|es| - 1]);
    }
  }

  lemma {:induction false} AllStoredAddsNothing(t: Tally, es: seq<Evaluation>)
    requires forall e :: e in es ==> e.key in t.signals
    ensures AbsorbAll(t, es).signals == t.signals && AbsorbAll(t, es).counts.inserted == t.counts.inserted
  {
    if es != [] {
      var n := |es| - 1;
      assert es[n] in es;
      forall e | e in es[..n] ensures e.key in t.signals {
        var j :| 0 <= j < n && es[j] == e;
      }
      AllStoredAddsNothing(t, es[..n]);
    }
  }

  lemma EvaluationIsOfBar(replay: Replay, i: nat, strategy: Strategy)
    requires i < |replay.ordered|
    ensures var e := Evaluate(RequestAt(replay, i, strategy));
      e.key.barStart == e.signalTime == replay.ordered[i].startedAt
  {
    hide Triggered, ScanOf;
  }

  lemma {:induction false} BarEvaluationsCount(replay: Replay, i: nat, k: nat)
    requires i < |replay.ordered| && k <= |replay.config.strategies|
    ensures |BarEvaluations(replay, i, k)| == k
    ensures forall e :: e in BarEvaluations(replay, i, k) ==>
      e.key.barStart == e.signalTime == replay.ordered[i].startedAt
  {
    hide Evaluate, RequestAt;
    if k > 0 {
      BarEvaluationsCount(replay, i, k - 1);
      EvaluationIsOfBar(replay, i, replay.config.strategies[k - 1]);
    }
  }

  lemma {:induction false} EvaluationsCount(replay: Replay, n: nat, product: nat)
    requires n <= |replay.ordered| && product == n * |replay.config.strategies|
    ensures |Evaluations(replay, n)| == product
    ensures forall e :: e in Evaluations(replay, n) ==>
      exists i :: 0 <= i < n && e.key.barStart == replay.ordered[i].startedAt
  {
    hide BarEvaluations;
    if n > 0 {
      EvaluationsCount(replay, n - 1, (n - 1) * |replay.config.strategies|);
      BarEvaluationsCount(replay, n - 1, |replay.config.strategies|);
      var last := BarEvaluations(replay, n - 1, |replay.config.strategies|);
      forall e | e in Evaluations(replay, n)
        ensures exists i :: 0 <= i < n && e.key.barStart == replay.ordered[i].startedAt
      {
        if e in last {
          assert e.key.barStart == replay.ordered[n - 1].startedAt;
        }
      }
    }
  }

  /** Every loaded bar is evaluated once per strategy, every evaluation is either stored or a duplicate, either
      a candidate or rejected, the store grows by what was inserted, and nothing already stored changes. */
  lemma ReplayAccounts(signals: Signals, replay: Replay)
    ensures var r := Run(signals, replay);
      && r.counts.evaluated == |replay.ordered| * |replay.config.strategies|
      && r.counts.evaluated == r.counts.inserted + r.counts.duplicates
      && r.counts.evaluated == r.counts.candidates + r.counts.rejected
      && |r.signals| == |signals| + r.counts.inserted
      && forall key :: key in signals ==> key in r.signals && r.signals[key] == signals[key]
  {
    hide Evaluations, AbsorbAll;
    var es := Evaluations(replay, |replay.ordered|);
    EvaluationsCount(replay, |replay.ordered|, |replay.ordered| * |replay.config.strategies|);
    AbsorbCounts(Tally(signals, NO_RESULT), es);
    AbsorbedAreStored(Tally(signals, NO_RESULT), es);
  }

  /** Replaying the same run again inserts nothing, even after other signals were stored in between. */
  lemma RerunInsertsNothing(signals: Signals, replay: Replay, later: Signals)
    requires forall key :: key in Run(signals, replay).signals ==> key in later
    ensures Run(later, replay).signals == later
    ensures Run(later, replay).counts.inserted == 0
    ensures Run(later, replay).counts.duplicates == |replay.ordered| * |replay.config.strategies|
  {
    var es := Evaluations(replay, |replay.ordered|);
    hide Evaluations, AbsorbAll;
    AbsorbedAreStored(Tally(signals, NO_RESULT), es);
    AllStoredAddsNothing(Tally(later, NO_RESULT), es);
    ReplayAccounts(later, replay);
  }

  // ----- no look-ahead

  lemma LoadedExtends(bars: seq<Candle>, more: seq<Candle>, timeframe: string, limit: nat)
    requires |Loaded(bars + more, timeframe, limit + |bars + more|)| <= limit
    ensures Loaded(bars + more, timeframe, limit) == Loaded(bars, timeframe, limit) + Loaded(more, timeframe, limit)
    ensures forall c :: c in Loaded(more, timeframe, limit) ==> c in more
    ensures forall c :: c in Loaded(bars, timeframe, limit) ==> c in bars
  {
    var p := (bar: Candle) => bar.timeframe == timeframe;
    FilterConcatenates(p, bars, more);
    FilterNoLonger(p, bars + more);
    FilterMembers(p, bars);
    FilterMembers(p, more);
    assert Loaded(bars + more, timeframe, limit) == Filter(p, bars + more);
    assert Loaded(bars, timeframe, limit) == Filter(p, bars);
    assert Loaded(more, timeframe, limit) == Filter(p, more);
  }

  lemma {:induction false} FilterNoLonger<T>(p: T -> bool, s: seq<T>)
    ensures |Filter(p, s)| <= |s|
  {
    if s != [] {
      FilterNoLonger(p, s[..|s| - 1]);
    }
  }

  /** `extended` sees the same candles as `replay`, then later ones, and later benchmark candles. */
  ghost predicate Extends(replay: Replay, extended: Replay, more: seq<Candle>, moreBenchmark: seq<Candle>) {
    && extended.symbol == replay.symbol && extended.timeframe == replay.timeframe
    && extended.runId == replay.runId && extended.config == replay.config
    && extended.ordered == replay.ordered + more
    && extended.benchmark == replay.benchmark + moreBenchmark
    && AllLater(replay.ordered, more)
    && AllLater(replay.ordered, moreBenchmark)
  }

  lemma SameRequest(
    replay: Replay, extended: Replay, more: seq<Candle>, moreBenchmark: seq<Candle>, i: nat, strategy: Strategy)
    requires Extends(replay, extended, more, moreBenchmark) && i < |replay.ordered|
    ensures RequestAt(extended, i, strategy) == RequestAt(replay, i, strategy)
  {
    var at := replay.ordered[i].startedAt;
    assert replay.ordered[i] in replay.ordered;
    assert extended.ordered[..i + 1] == replay.ordered[..i + 1];
    FilterConcatenates(bar => StartedBy(bar, at), replay.benchmark, moreBenchmark);
    FilterNothing(bar => StartedBy(bar, at), moreBenchmark);
  }

  lemma {:induction false} SameBarEvaluations(
    replay: Replay, extended: Replay, more: seq<Candle>, moreBenchmark: seq<Candle>, i: nat, k: nat)
    requires Extends(replay, extended, more, moreBenchmark) && i < |replay.ordered|
    requires k <= |replay.config.strategies|
    ensures BarEvaluations(extended, i, k) == BarEvaluations(replay, i, k)
  {
    hide Evaluate, RequestAt;
    if k > 0 {
      SameBarEvaluations(replay, extended, more, moreBenchmark, i, k - 1);
      SameRequest(replay, extended, more, moreBenchmark, i, replay.config.strategies[k - 1]);
    }
  }

  lemma {:induction false} SameEvaluations(
    replay: Replay, extended: Replay, more: seq<Candle>, moreBenchmark: seq<Candle>, n: nat)
    requires Extends(replay, extended, more, moreBenchmark) && n <= |replay.ordered|
    ensures Evaluations(extended, n) == Evaluations(replay, n)
  {
    hide BarEvaluations;
    if n > 0 {
      SameEvaluations(replay, extended, more, moreBenchmark, n - 1);
      SameBarEvaluations(replay, extended, more, moreBenchmark, n - 1, |replay.config.strategies|);
    }
  }

  /** The evaluations of the bars from `n` on. */
  function Rest(replay: Replay, n: nat): seq<Evaluation>
    requires n <= |replay.ordered|
    decreases |replay.ordered| - n
  {
    if n == |replay.ordered| then []
    else BarEvaluations(replay, n, |replay.config.strategies|) + Rest(replay, n + 1)
  }

  lemma {:induction false} RestCompletes(replay: Replay, n: nat)
    requires n <= |replay.ordered|
    ensures Evaluations(replay, |replay.ordered|) == Evaluations(replay, n) + Rest(replay, n)
    ensures forall e :: e in Rest(replay, n) ==>
      exists i :: n <= i < |replay.ordered| && e.key.barStart == replay.ordered[i].startedAt
    decreases |replay.ordered| - n
  {
    hide BarEvaluations;
    if n < |replay.ordered| {
      RestCompletes(replay, n + 1);
      var here := BarEvaluations(replay, n, |replay.config.strategies|);
      BarEvaluationsCount(replay, n, |replay.config.strategies|);
      assert Evaluations(replay, n + 1) + Rest(replay, n + 1) == Evaluations(replay, n) + (here + Rest(replay, n + 1));
    }
  }

  lemma RestIsLate(
    replay: Replay, extended: Replay, more: seq<Candle>, moreBenchmark: seq<Candle>, e: Evaluation)
    requires Extends(replay, extended, more, moreBenchmark)
    requires |replay.ordered| <= |extended.ordered| && e in Rest(extended, |replay.ordered|)
    ensures exists c :: c in more && c.startedAt == e.key.barStart
  {
    hide Rest, Evaluations;
    var n := |replay.ordered|;
    RestCompletes(extended, n);
    var i :| n <= i < |extended.ordered| && e.key.barStart == extended.ordered[i].startedAt;
    assert extended.ordered[i] == more[i - n];
  }

  lemma ExtendedRun(
    signals: Signals, replay: Replay, extended: Replay, more: seq<Candle>, moreBenchmark: seq<Candle>)
    requires Extends(replay, extended, more, moreBenchmark)
    ensures |replay.ordered| <= |extended.ordered|
    ensures Run(signals, extended) == AbsorbAll(Run(signals, replay), Rest(extended, |replay.ordered|))
  {
    hide Evaluations, AbsorbAll, Rest;
    var n := |replay.ordered|;
    RestCompletes(extended, n);
    SameEvaluations(replay, extended, more, moreBenchmark, n);
    AbsorbConcatenates(Tally(signals, NO_RESULT), Evaluations(replay, n), Rest(extended, n));
  }

  /** Later candles, of the symbol or of the benchmark, change no signal of an earlier bar: whatever the shorter
      replay left in the store is there unchanged, and every further signal belongs to a later bar. */
  lemma ReplayDoesNotLookAhead(
    signals: Signals, replay: Replay, extended: Replay, more: seq<Candle>, moreBenchmark: seq<Candle>)
    requires Extends(replay, extended, more, moreBenchmark)
    ensures var short, long := Run(signals, replay).signals, Run(signals, extended).signals;
      && (forall key :: key in short ==> key in long && long[key] == short[key])
      && (forall key :: key in long && key !in short ==> exists c :: c in more && c.startedAt == key.barStart)
  {
    hide Run, Rest, AbsorbAll, Extends;
    ExtendedRun(signals, replay, extended, more, moreBenchmark);
    var late := Rest(extended, |replay.ordered|);
    AbsorbedAreStored(Run(signals, replay), late);
    var short, long := Run(signals, replay).signals, Run(signals, extended).signals;
    forall key | key in long && key !in short ensures exists c :: c in more && c.startedAt == key.barStart {
      var j :| 0 <= j < |late| && late[j] == long[key] && late[j].key == key;
      assert late[j] in late;
      RestIsLate(replay, extended, more, moreBenchmark, late[j]);
    }
  }

  /** The repository-level form: candles appended to the stored lists, all later than the symbol's, below the
      bar limit. */
  lemma StoredHistoryDoesNotLookAhead(
    signals: Signals, bars: map<string, seq<Candle>>, longer: map<string, seq<Candle>>,
    config: ScannerConfig, symbol: string, runId: string, more: seq<Candle>, moreBenchmark: seq<Candle>)
    requires BarsOf(longer, symbol) == BarsOf(bars, symbol) + more
    requires AllLater(BarsOf(bars, symbol), more)
    requires |BarsOf(longer, symbol)| <= REPLAY_BAR_LIMIT
    requires NeedsBenchmark(config) ==>
      var index := config.benchmarkSymbol.value;
      && BarsOf(longer, index) == BarsOf(bars, index) + moreBenchmark
      && AllLater(BarsOf(bars, index), moreBenchmark) && AllLater(BarsOf(bars, symbol), moreBenchmark)
      && |BarsOf(longer, index)| <= REPLAY_BAR_LIMIT
    ensures var short := Run(signals, ReplayOf(bars, config, symbol, ONE_MINUTE, runId)).signals;
      var long := Run(signals, ReplayOf(longer, config, symbol, ONE_MINUTE, runId)).signals;
      && (forall key :: key in short ==> key in long && long[key] == short[key])
      && (forall key :: key in long && key !in short ==> exists c :: c in more && c.startedAt == key.barStart)
  {
    hide Run, Loaded;
    var replay := ReplayOf(bars, config, symbol, ONE_MINUTE, runId);
    var extended := ReplayOf(longer, config, symbol, ONE_MINUTE, runId);
    var later := OrderedExtends(BarsOf(bars, symbol), more, BarsOf(bars, symbol));
    var laterBenchmark: seq<Candle> := [];
    if NeedsBenchmark(config) {
      laterBenchmark := OrderedExtends(BarsOf(bars, config.benchmarkSymbol.value), moreBenchmark, BarsOf(bars, symbol));
    }
    ReplayDoesNotLookAhead(signals, replay, extended, later, laterBenchmark);
  }

  lemma OrderedExtends(bars: seq<Candle>, more: seq<Candle>, reference: seq<Candle>) returns (later: seq<Candle>)
    requires AllLater(bars, more) && AllLater(reference, more)
    requires |bars + more| <= REPLAY_BAR_LIMIT
    ensures ByStart(Loaded(bars + more, ONE_MINUTE, REPLAY_BAR_LIMIT))
         == ByStart(Loaded(bars, ONE_MINUTE, REPLAY_BAR_LIMIT)) + later
    ensures forall c :: c in later ==> c in more
    ensures AllLater(ByStart(Loaded(reference, ONE_MINUTE, REPLAY_BAR_LIMIT)), later)
  {
    hide Loaded, ByStart;
    LoadedFits(bars + more);
    LoadedExtends(bars, more, ONE_MINUTE, REPLAY_BAR_LIMIT);
    var old_, new_ := Loaded(bars, ONE_MINUTE, REPLAY_BAR_LIMIT), Loaded(more, ONE_MINUTE, REPLAY_BAR_LIMIT);
    ByStartExtends(old_, new_);
    later := ByStart(new_);
    ByStartSorts(new_);
    ByStartSorts(Loaded(reference, ONE_MINUTE, REPLAY_BAR_LIMIT));
    LoadedMembers(reference);
  }

  lemma LoadedFits(bars: seq<Candle>)
    requires |bars| <= REPLAY_BAR_LIMIT
    ensures |Loaded(bars, ONE_MINUTE, REPLAY_BAR_LIMIT + |bars|)| <= REPLAY_BAR_LIMIT
  {
    FilterNoLonger((bar: Candle) => bar.timeframe == ONE_MINUTE, bars);
  }

  lemma LoadedMembers(bars: seq<Candle>)
    ensures forall c :: c in Loaded(bars, ONE_MINUTE, REPLAY_BAR_LIMIT) ==> c in bars
  {
    FilterMembers((bar: Candle) => bar.timeframe == ONE_MINUTE, bars);
  }
}
