// What a scanner replay loads, shows and counts, written on the stored candles and the evaluations.

module ScannerLaws {
  import opened Options
  import opened Collections
  import opened Ordering
  import opened Candles
  import opened Strategies
  import opened ScannerReplay

  /** A replay loads the last candles of the timeframe, all of them up to the limit. */
  lemma LastCandlesAreLoaded(bars: seq<Candle>, timeframe: string, limit: nat) returns (older: seq<Candle>)
    ensures Filter((bar: Candle) => bar.timeframe == timeframe, bars) == older + Loaded(bars, timeframe, limit)
    ensures |Loaded(bars, timeframe, limit)| <= limit
    ensures older != [] ==> |Loaded(bars, timeframe, limit)| == limit
  {
    var matching := Filter((bar: Candle) => bar.timeframe == timeframe, bars);
    if |matching| <= limit {
      older := [];
    } else {
      older := matching[..|matching| - limit];
    }
  }

  /** A replay is of one symbol, in time order, with the benchmark only where one is configured, each of them at
      most its last hundred thousand candles. */
  lemma ReplayIsOfSymbol(
    bars: map<string, seq<Candle>>, config: ScannerConfig, symbol: string, timeframe: string, runId: string)
    ensures var replay := ReplayOf(bars, config, symbol, timeframe, runId);
      var own := if symbol in bars then bars[symbol] else [];
      && replay.symbol == symbol && replay.timeframe == timeframe && replay.runId == runId && replay.config == config
      && SortedBy(StartsNoLater, replay.ordered) && SortedBy(StartsNoLater, replay.benchmark)
      && multiset(replay.ordered) == multiset(Loaded(own, timeframe, 100_000))
      && (config.benchmarkSymbol.None? || config.benchmarkSymbol.value == "" ==> replay.benchmark == [])
      && (config.benchmarkSymbol.Some? && config.benchmarkSymbol.value != "" ==>
            var index := config.benchmarkSymbol.value;
            multiset(replay.benchmark)
            == multiset(Loaded(if index in bars then bars[index] else [], timeframe, 100_000)))
  {
    hide Loaded, Sort;
    ByStartSorts(Loaded(BarsOf(bars, symbol), timeframe, REPLAY_BAR_LIMIT));
    if NeedsBenchmark(config) {
      ByStartSorts(Loaded(BarsOf(bars, config.benchmarkSymbol.value), timeframe, REPLAY_BAR_LIMIT));
    }
  }

  /** A bar shows a strategy the candles up to itself and the benchmark up to its start, as a run that is neither
      live nor stale and has no quote. */
  lemma BarSeesItsPast(replay: Replay, i: nat, strategy: Strategy)
    requires i < |replay.ordered|
    ensures var r := RequestAt(replay, i, strategy);
      && r.bars == replay.ordered[..i + 1] && r.instrumentId == replay.ordered[i].instrumentId
      && r.strategy == strategy && r.symbol == replay.symbol && r.timeframe == replay.timeframe
      && r.config == replay.config && r.quote == None && !r.isStale && r.replayRunId == Some(replay.runId)
      && (forall c :: c in r.benchmark <==> c in replay.benchmark && c.startedAt <= replay.ordered[i].startedAt)
  {
    var at := replay.ordered[i].startedAt;
    FilterMembers(bar => StartedBy(bar, at), replay.benchmark);
  }

  ghost predicate IsOf(e: Evaluation, replay: Replay, i: nat, j: nat)
    requires i < |replay.ordered| && j < |replay.config.strategies|
  {
    e == Evaluate(RequestAt(replay, i, replay.config.strategies[j]))
  }

  lemma {:induction false} BarEvaluationAt(replay: Replay, i: nat, k: nat, j: nat)
    requires i < |replay.ordered| && j < k <= |replay.config.strategies|
    ensures |BarEvaluations(replay, i, k)| == k && IsOf(BarEvaluations(replay, i, k)[j], replay, i, j)
  {
    hide Evaluate, RequestAt;
    if k > 1 {
      BarEvaluationAt(replay, i, k - 1, if j < k - 1 then j else 0);
    }
  }

  /** How many evaluations are of a status. */
  ghost function WithStatus(es: seq<Evaluation>, status: Status): nat {
    |set k | 0 <= k < |es| && es[k].status == status|
  }

  lemma {:induction false} StatusesAreCounted(t: Tally, es: seq<Evaluation>)
    ensures var r := AbsorbAll(t, es);
      && r.counts.candidates == t.counts.candidates + WithStatus(es, CANDIDATE)
      && r.counts.rejected == t.counts.rejected + WithStatus(es, REJECTED_SIGNAL)
  {
    if es == [] {
      NoStatuses(es, CANDIDATE);
      NoStatuses(es, REJECTED_SIGNAL);
    } else {
      var n := |es| - 1;
      StatusesAreCounted(t, es[..n]);
      OneMoreStatus(es, CANDIDATE);
      OneMoreStatus(es, REJECTED_SIGNAL);
    }
  }

  lemma StatusesAreIndices(es: seq<Evaluation>, status: Status) returns (counted: set<int>)
    ensures WithStatus(es, status) == |counted| && forall k :: k in counted ==> 0 <= k < |es|
  {
    counted := set k | 0 <= k < |es| && es[k].status == status;
  }

  lemma NoStatuses(es: seq<Evaluation>, status: Status)
    requires es == []
    ensures WithStatus(es, status) == 0
  {
    var counted := StatusesAreIndices(es, status);
    assert counted == {};
  }

  lemma OneMoreStatus(es: seq<Evaluation>, status: Status)
    requires es != []
    ensures WithStatus(es, status)
         == WithStatus(es[..|es| - 1], status) + (if es[|es| - 1].status == status then 1 else 0)
  {
    var n := |es| - 1;
    var all := set k | 0 <= k < |es| && es[k].status == status;
    var front := set k | 0 <= k < n && es[..n][k].status == status;
    assert all == if es[n].status == status then front + {n} else front;
  }

  /** A replay counts the candidates and the rejections among its evaluations. */
  lemma ReplayCountsStatuses(signals: Signals, replay: Replay)
    ensures var counts, es := Run(signals, replay).counts, Evaluations(replay, |replay.ordered|);
      counts.candidates == WithStatus(es, CANDIDATE) && counts.rejected == WithStatus(es, REJECTED_SIGNAL)
  {
    hide WithStatus, AbsorbAll, Evaluations;
    StatusesAreCounted(Tally(signals, NO_RESULT), Evaluations(replay, |replay.ordered|));
  }
}
