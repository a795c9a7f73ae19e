// Draining unevaluated candidates in bounded batches.

module DecisionDrain {
  import opened Options
  import opened MarketClock
  import opened Collections
  import opened Ordering
  import opened DecisionOutput
  import opened DecisionStore

  /** Which candidates a batch looks at: creation window and symbols, each optional. */
  datatype Window = Window(startedAt: Option<Instant>, finishedAt: Option<Instant>, symbols: seq<string>)

  const EVERYTHING := Window(None, None, [])

  predicate Wanted(signal: DecisionSignal, w: Window) {
    && signal.status == CANDIDATE
    && (w.symbols == [] || signal.symbol in w.symbols)
    && (w.startedAt.Some? ==> signal.createdAt >= w.startedAt.value)
    && (w.finishedAt.Some? ==> signal.createdAt <= w.finishedAt.value)
  }

  /** Some recommendation of the signal was made under this identity. */
  predicate EvaluatedBy(s: Store, signalId: int, identity: Identity) {
    exists i :: 0 <= i < |s.recommendations| && i < |s.runs|
      && s.recommendations[i].signalId == signalId && s.runs[i].identity == identity
  }

  predicate Pending(s: Store, identity: Identity, w: Window, signal: DecisionSignal) {
    Wanted(signal, w) && !EvaluatedBy(s, signal.id, identity)
  }

  function PendingOf(signals: seq<DecisionSignal>, s: Store, identity: Identity, w: Window): seq<DecisionSignal> {
    Filter(signal => Pending(s, identity, w, signal), signals)
  }

  predicate OldestFirst(a: DecisionSignal, b: DecisionSignal) {
    a.createdAt < b.createdAt || (a.createdAt == b.createdAt && a.id <= b.id)
  }

  predicate NewestFirst(a: DecisionSignal, b: DecisionSignal) {
    a.createdAt > b.createdAt || (a.createdAt == b.createdAt && a.id <= b.id)
  }

  function Listed(signals: seq<DecisionSignal>, s: Store, identity: Identity, w: Window, oldestFirst: bool)
    : (r: seq<DecisionSignal>)
    ensures |r| == |PendingOf(signals, s, identity, w)|
  {
    var pending := PendingOf(signals, s, identity, w);
    if oldestFirst then Sort(OldestFirst, pending) else Sort(NewestFirst, pending)
  }

  ghost predicate DistinctIds(signals: seq<DecisionSignal>) {
    forall i, j :: 0 <= i < j < |signals| ==> signals[i].id != signals[j].id
  }

  // ----- one batch

  datatype Counts = Counts(created: nat, existing: nat, failed: nat)

  function Tallied(c: Counts, r: Result<Persisted, EvaluationError>): Counts {
    match r
    case Err(_) => c.(failed := c.failed + 1)
    case Ok(p) =>
      if p.existing then c.(existing := c.existing + 1)
      else c.(created := c.created + 1, failed := c.failed + (if p.run.status == FAILED then 1 else 0))
  }

  /** The store and the counts after the first `k` signals of a batch. */
  function Batch(
    s: Store, signals: seq<DecisionSignal>, settings: Settings, batch: seq<DecisionSignal>, answers: seq<Answer>, k: nat)
    : (r: (Store, Counts))
    requires |s.runs| == |s.recommendations| && k <= |batch| <= |answers|
    requires forall i :: 0 <= i < |settings.policy.secrets| ==> settings.policy.secrets[i] != ""
    ensures |r.0.runs| == |r.0.recommendations|
  {
    if k == 0 then (s, Counts(0, 0, 0))
    else
      var (t, c) := Batch(s, signals, settings, batch, answers, k - 1);
      var (r, u) := Evaluated(t, signals, settings, batch[k - 1].id, answers[k - 1], false);
      (u, Tallied(c, r))
  }

  predicate Records(signal: DecisionSignal, settings: Settings, answer: Answer)
    requires forall i :: 0 <= i < |settings.policy.secrets| ==> settings.policy.secrets[i] != ""
  {
    EntryFor(signal, settings, answer, false).Some?
  }

  /** How many of the first `k` answers lead to a record rather than an exception. */
  function Recording(batch: seq<DecisionSignal>, settings: Settings, answers: seq<Answer>, k: nat): (n: nat)
    requires k <= |batch| <= |answers|
    requires forall i :: 0 <= i < |settings.policy.secrets| ==> settings.policy.secrets[i] != ""
    ensures n <= k
  {
    if k == 0 then 0
    else Recording(batch, settings, answers, k - 1) + (if Records(batch[k - 1], settings, answers[k - 1]) then 1 else 0)
  }

  // ----- one evaluation of a pending candidate

  lemma FindsItself(signals: seq<DecisionSignal>, signal: DecisionSignal)
    requires DistinctIds(signals) && signal in signals
    ensures FindSignal(signals, signal.id) == Some(signal)
  {
    var i :| 0 <= i < |signals| && signals[i] == signal;
    var found := FindSignal(signals, signal.id).value;
    var j :| 0 <= j < |signals| && signals[j] == found;
  }

  lemma PendingIsNotStored(s: Store, signal: DecisionSignal, identity: Identity)
    requires Consistent(s) && !EvaluatedBy(s, signal.id, identity)
    ensures !Stored(s, KeyOf(signal, identity))
  {
    hide Find;
    var key := KeyOf(signal, identity);
    if Stored(s, key) {
      StoredIsEvaluated(s, key);
    }
  }

  lemma StoredIsEvaluated(s: Store, key: EvaluationKey)
    requires Consistent(s) && Stored(s, key)
    ensures EvaluatedBy(s, key.signalId, key.identity)
  {
    hide Find;
    var i := Find(s.recommendations, key).value;
    assert Linked(s, i);
  }

  /** A pending candidate is evaluated afresh: either one record is added for it, or nothing changes. */
  lemma EvaluatePending(
    s: Store, signals: seq<DecisionSignal>, settings: Settings, signal: DecisionSignal, answer: Answer)
    requires Consistent(s) && ValidPolicy(settings.policy) && settings.enabled
    requires DistinctIds(signals) && signal in signals && signal.status == CANDIDATE
    requires !EvaluatedBy(s, signal.id, settings.identity)
    ensures var (r, after) := Evaluated(s, signals, settings, signal.id, answer, false);
      && Consistent(after)
      && (!Records(signal, settings, answer) ==> r == Err(Crashed) && after == s)
      && (Records(signal, settings, answer) ==> r.Ok? && !r.value.existing)
      && forall id ::
        EvaluatedBy(after, id, settings.identity)
        <==> EvaluatedBy(s, id, settings.identity) || (id == signal.id && Records(signal, settings, answer))
  {
    hide Find, Consistent, EntryFor, EvaluatedBy;
    FindsItself(signals, signal);
    PendingIsNotStored(s, signal, settings.identity);
    ConsistentLengths(s);
    if Records(signal, settings, answer) {
      EntryIsSound(signal, settings, answer, false);
      var e := EntryFor(signal, settings, answer, false).value;
      RecordKeepsConsistency(s, e);
      RecordedIsEvaluated(s, e);
    }
  }

  lemma RecordedIsEvaluated(s: Store, e: Entry)
    requires |s.runs| == |s.recommendations|
    requires e.keyed && !Stored(s, KeyOf(e.signal, e.identity))
    ensures forall id ::
      EvaluatedBy(Record(s, e).0, id, e.identity) <==> EvaluatedBy(s, id, e.identity) || id == e.signal.id
  {
    hide Find;
    var after := Record(s, e).0;
    var n := |s.recommendations|;
    assert after.recommendations[n].signalId == e.signal.id && after.runs[n].identity == e.identity;
    forall id ensures EvaluatedBy(after, id, e.identity) <==> EvaluatedBy(s, id, e.identity) || id == e.signal.id {
      if EvaluatedBy(s, id, e.identity) {
        var i :| 0 <= i < |s.recommendations| && i < |s.runs|
          && s.recommendations[i].signalId == id && s.runs[i].identity == e.identity;
        assert after.recommendations[i].signalId == id && after.runs[i].identity == e.identity;
      }
    }
  }

  // ----- a whole batch

  lemma {:induction false} FilterLosesOne(p: DecisionSignal -> bool, q: DecisionSignal -> bool,
    signals: seq<DecisionSignal>, x: DecisionSignal)
    requires DistinctIds(signals) && p(x)
    requires forall y :: y in signals ==> (q(y) <==> p(y) && y != x)
    ensures |Filter(q, signals)| == |Filter(p, signals)| - (if x in signals then 1 else 0)
  {
    if signals != [] {
      var n := |signals| - 1;
      assert signals[n] in signals;
      forall y | y in signals[..n] ensures q(y) <==> p(y) && y != x {
        var i :| 0 <= i < n && signals[i] == y;
        assert y in signals;
      }
      LastIsNew(signals);
      assert signals == signals[..n] + [signals[n]];
      FilterLosesOne(p, q, signals[..n], x);
    }
  }

  lemma SameIdSameSignal(signals: seq<DecisionSignal>, x: DecisionSignal, y: DecisionSignal)
    requires DistinctIds(signals) && x in signals && y in signals && x.id == y.id
    ensures x == y
  {
  }

  /** What a batch of pending candidates does: `existing` stays zero, exactly the candidates whose answer does not
      raise become evaluated, one record each, and the pending count falls by as many. */
  ghost predicate BatchDone(
    s: Store, signals: seq<DecisionSignal>, settings: Settings, w: Window, batch: seq<DecisionSignal>,
    answers: seq<Answer>, k: nat)
    requires |s.runs| == |s.recommendations| && k <= |batch| <= |answers|
    requires forall i :: 0 <= i < |settings.policy.secrets| ==> settings.policy.secrets[i] != ""
  {
    var (after, c) := Batch(s, signals, settings, batch, answers, k);
    && Consistent(after)
    && c.created == Recording(batch, settings, answers, k)
    && c.existing == 0
    && |after.recommendations| == |s.recommendations| + c.created
    && |PendingOf(signals, after, settings.identity, w)| == |PendingOf(signals, s, settings.identity, w)| - c.created
    && (forall j :: k <= j < |batch| ==> Pending(after, settings.identity, w, batch[j]))
    && (forall j :: 0 <= j < k ==>
          (EvaluatedBy(after, batch[j].id, settings.identity) <==> Records(batch[j], settings, answers[j])))
  }

  lemma PendingFalls(
    signals: seq<DecisionSignal>, s: Store, after: Store, identity: Identity, w: Window, x: DecisionSignal)
    requires DistinctIds(signals) && x in signals && Pending(s, identity, w, x)
    requires forall id :: EvaluatedBy(after, id, identity) <==> EvaluatedBy(s, id, identity) || id == x.id
    ensures |PendingOf(signals, after, identity, w)| == |PendingOf(signals, s, identity, w)| - 1
  {
    hide EvaluatedBy, Wanted, Filter;
    forall y | y in signals ensures Pending(after, identity, w, y) <==> Pending(s, identity, w, y) && y != x {
      if y.id == x.id {
        SameIdSameSignal(signals, x, y);
      }
    }
    FilterLosesOne(signal => Pending(s, identity, w, signal), signal => Pending(after, identity, w, signal), signals, x);
  }

  ghost predicate PendingBatch(
    s: Store, signals: seq<DecisionSignal>, settings: Settings, w: Window, batch: seq<DecisionSignal>)
  {
    && DistinctIds(batch)
    && forall j :: 0 <= j < |batch| ==> batch[j] in signals && Pending(s, settings.identity, w, batch[j])
  }

  lemma {:induction false} BatchEvaluates(
    s: Store, signals: seq<DecisionSignal>, settings: Settings, w: Window, batch: seq<DecisionSignal>,
    answers: seq<Answer>, k: nat)
    requires Consistent(s) && ValidPolicy(settings.policy) && settings.enabled && DistinctIds(signals)
    requires PendingBatch(s, signals, settings, w, batch) && k <= |batch| <= |answers|
    ensures BatchDone(s, signals, settings, w, batch, answers, k)
  {
    hide EvaluatedBy, PendingOf, Evaluated, Consistent, Records;
    ConsistentLengths(s);
    if k > 0 {
      BatchEvaluates(s, signals, settings, w, batch, answers, k - 1);
      var t := Batch(s, signals, settings, batch, answers, k - 1).0;
      var x, answer := batch[k - 1], answers[k - 1];
      assert Pending(t, settings.identity, w, x);
      EvaluatePending(t, signals, settings, x, answer);
      RecordsOneRow(t, signals, settings, x, answer);
      var after := Evaluated(t, signals, settings, x.id, answer, false).1;
      if Records(x, settings, answer) {
        PendingFalls(signals, t, after, settings.identity, w, x);
      }
      forall j | 0 <= j < |batch| && j != k - 1
        ensures EvaluatedBy(after, batch[j].id, settings.identity) <==> EvaluatedBy(t, batch[j].id, settings.identity)
      {
        assert batch[j].id != x.id;
      }
    }
  }

  lemma RecordsOneRow(s: Store, signals: seq<DecisionSignal>, settings: Settings, signal: DecisionSignal, answer: Answer)
    requires Consistent(s) && ValidPolicy(settings.policy) && settings.enabled
    requires DistinctIds(signals) && signal in signals && signal.status == CANDIDATE
    requires !EvaluatedBy(s, signal.id, settings.identity)
    ensures |Evaluated(s, signals, settings, signal.id, answer, false).1.recommendations|
         == |s.recommendations| + (if Records(signal, settings, answer) then 1 else 0)
  {
    hide Find, EntryFor, EvaluatedBy;
    FindsItself(signals, signal);
    PendingIsNotStored(s, signal, settings.identity);
    if Records(signal, settings, answer) {
      EntryIsSound(signal, settings, answer, false);
    }
  }

  // ----- rounds

  function BoundedMax(setting: int): (r: nat)
    ensures 1 <= r <= 50
  {
    if setting < 1 then 1 else if setting > 50 then 50 else setting
  }

  /** `min(max(1, limit), bounded_max)`. */
  function RoundLimit(limit: int, setting: int): (r: nat)
    ensures 1 <= r <= 50
  {
    var wanted := if limit < 1 then 1 else limit;
    if wanted < BoundedMax(setting) then wanted else BoundedMax(setting)
  }

  function RoundBatch(
    signals: seq<DecisionSignal>, s: Store, identity: Identity, w: Window, oldestFirst: bool, limit: nat)
    : seq<DecisionSignal>
  {
    Take(Listed(signals, s, identity, w, oldestFirst), limit)
  }

  lemma TotalOrders()
    ensures TotalPreorder(OldestFirst) && TotalPreorder(NewestFirst)
  {
  }

  lemma SortIsPrefixOrdered(le: (DecisionSignal, DecisionSignal) -> bool, pending: seq<DecisionSignal>)
    requires TotalPreorder(le)
    ensures forall x :: x in Sort(le, pending) <==> x in pending
    ensures SortedBy(le, Sort(le, pending))
  {
    SortSorts(le, pending);
  }

  lemma {:induction false} FilterKeepsIds(p: DecisionSignal -> bool, signals: seq<DecisionSignal>)
    requires DistinctIds(signals)
    ensures DistinctIds(Filter(p, signals))
  {
    if signals != [] {
      var n := |signals| - 1;
      FilterKeepsIds(p, signals[..n]);
      FilterMembers(p, signals[..n]);
      forall x | x in Filter(p, signals[..n]) ensures x.id != signals[n].id {
        var i :| 0 <= i < n && signals[i] == x;
      }
    }
  }

  lemma RearrangedIds(a: seq<DecisionSignal>, b: seq<DecisionSignal>)
    requires DistinctIds(a) && multiset(a) == multiset(b)
    ensures DistinctIds(b)
  {
    SameMultisetSameMembers(a, b);
    RearrangedUnique(a, b);
    forall i, j | 0 <= i < j < |b| ensures b[i].id != b[j].id {
      if b[i].id == b[j].id {
        SameIdSameSignal(a, b[i], b[j]);
      }
    }
  }

  lemma PendingHasIds(signals: seq<DecisionSignal>, s: Store, identity: Identity, w: Window)
    requires DistinctIds(signals)
    ensures DistinctIds(PendingOf(signals, s, identity, w))
    ensures forall x :: x in PendingOf(signals, s, identity, w) <==> x in signals && Pending(s, identity, w, x)
  {
    hide Pending, Filter;
    FilterKeepsIds(signal => Pending(s, identity, w, signal), signals);
    FilterMembers(signal => Pending(s, identity, w, signal), signals);
  }

  lemma ListedIsOrdered(signals: seq<DecisionSignal>, s: Store, identity: Identity, w: Window, oldestFirst: bool)
    requires DistinctIds(signals)
    ensures var listed := Listed(signals, s, identity, w, oldestFirst);
      && DistinctIds(listed)
      && SortedBy(if oldestFirst then OldestFirst else NewestFirst, listed)
      && forall x :: x in listed <==> x in signals && Pending(s, identity, w, x)
  {
    hide Pending, Sort, PendingOf;
    var pending := PendingOf(signals, s, identity, w);
    PendingHasIds(signals, s, identity, w);
    TotalOrders();
    SortIsPrefixOrdered(if oldestFirst then OldestFirst else NewestFirst, pending);
    RearrangedIds(pending, Listed(signals, s, identity, w, oldestFirst));
  }

  /** A round's batch: pending candidates, each once, in order, the first `limit` of them. */
  lemma RoundBatchIsPending(
    signals: seq<DecisionSignal>, s: Store, settings: Settings, w: Window, oldestFirst: bool, limit: nat)
    requires DistinctIds(signals)
    ensures var batch := RoundBatch(signals, s, settings.identity, w, oldestFirst, limit);
      && PendingBatch(s, signals, settings, w, batch)
      && SortedBy(if oldestFirst then OldestFirst else NewestFirst, batch)
  {
    hide Pending, Listed;
    ListedIsOrdered(signals, s, settings.identity, w, oldestFirst);
    var listed := Listed(signals, s, settings.identity, w, oldestFirst);
    var batch := RoundBatch(signals, s, settings.identity, w, oldestFirst, limit);
    forall j | 0 <= j < |batch| ensures batch[j] in listed {
      assert batch[j] == listed[j];
    }
  }

  /** The store after one round; answers beyond the batch are unused. */
  function Round(s: Store, signals: seq<DecisionSignal>, settings: Settings, limit: nat, answers: seq<Answer>)
    : (r: (Store, Counts))
    requires |s.runs| == |s.recommendations| && limit <= |answers|
    requires forall i :: 0 <= i < |settings.policy.secrets| ==> settings.policy.secrets[i] != ""
    ensures |r.0.runs| == |r.0.recommendations|
  {
    var batch := RoundBatch(signals, s, settings.identity, EVERYTHING, false, limit);
    Batch(s, signals, settings, batch, answers, |batch|)
  }

  /** Every evaluation of the round's batch leads to a record: none of its answers raises. */
  ghost predicate RoundRecords(
    s: Store, signals: seq<DecisionSignal>, settings: Settings, limit: nat, answers: seq<Answer>)
    requires limit <= |answers|
    requires forall i :: 0 <= i < |settings.policy.secrets| ==> settings.policy.secrets[i] != ""
  {
    var batch := RoundBatch(signals, s, settings.identity, EVERYTHING, false, limit);
    forall j :: 0 <= j < |batch| ==> Records(batch[j], settings, answers[j])
  }

  lemma {:induction false} RecordingIsFullIff(
    batch: seq<DecisionSignal>, settings: Settings, answers: seq<Answer>, k: nat)
    requires forall i :: 0 <= i < |settings.policy.secrets| ==> settings.policy.secrets[i] != ""
    requires k <= |batch| <= |answers|
    ensures Recording(batch, settings, answers, k) == k
      <==> forall j :: 0 <= j < k ==> Records(batch[j], settings, answers[j])
  {
    hide Records;
    if k > 0 {
      RecordingIsFullIff(batch, settings, answers, k - 1);
    }
  }

  function Remaining(signals: seq<DecisionSignal>, s: Store, settings: Settings): nat {
    |PendingOf(signals, s, settings.identity, EVERYTHING)|
  }

  function Least(a: nat, b: nat): nat { if a < b then a else b }

  /** One round, whatever is answered: none existed, one record and one candidate fewer for each evaluation that does
      not raise, and min(limit, remaining) of them exactly when none of the batch raises. */
  lemma RoundCreates(s: Store, signals: seq<DecisionSignal>, settings: Settings, limit: nat, answers: seq<Answer>)
    requires Consistent(s) && ValidPolicy(settings.policy) && settings.enabled && DistinctIds(signals)
    requires limit <= |answers|
    ensures var (after, c) := Round(s, signals, settings, limit, answers);
      var remaining := Remaining(signals, s, settings);
      && Consistent(after) && c.existing == 0
      && c.created <= Least(limit, remaining)
      && (c.created == Least(limit, remaining) <==> RoundRecords(s, signals, settings, limit, answers))
      && |after.recommendations| == |s.recommendations| + c.created
      && Remaining(signals, after, settings) == remaining - c.created
  {
    hide PendingOf, Consistent, Batch, Records;
    ConsistentLengths(s);
    var batch := RoundBatch(signals, s, settings.identity, EVERYTHING, false, limit);
    RoundBatchIsPending(signals, s, settings, EVERYTHING, false, limit);
    BatchEvaluates(s, signals, settings, EVERYTHING, batch, answers, |batch|);
    RecordingIsFullIff(batch, settings, answers, |batch|);
  }

  ghost predicate EnoughAnswers(answers: seq<seq<Answer>>, limit: nat) {
    forall k :: 0 <= k < |answers| ==> limit <= |answers[k]|
  }

  /** The store and the records created after one round per list of answers. */
  function Rounds(
    s: Store, signals: seq<DecisionSignal>, settings: Settings, limit: nat, answers: seq<seq<Answer>>)
    : (r: (Store, nat))
    requires |s.runs| == |s.recommendations| && EnoughAnswers(answers, limit)
    requires forall i :: 0 <= i < |settings.policy.secrets| ==> settings.policy.secrets[i] != ""
    ensures |r.0.runs| == |r.0.recommendations|
  {
    if answers == [] then (s, 0)
    else
      var n := |answers| - 1;
      var (before, created) := Rounds(s, signals, settings, limit, answers[..n]);
      var (after, counts) := Round(before, signals, settings, limit, answers[n]);
      (after, created + counts.created)
  }

  /** No evaluation of any round raises. */
  ghost predicate RoundsRecord(
    s: Store, signals: seq<DecisionSignal>, settings: Settings, limit: nat, answers: seq<seq<Answer>>)
    requires |s.runs| == |s.recommendations| && EnoughAnswers(answers, limit)
    requires forall i :: 0 <= i < |settings.policy.secrets| ==> settings.policy.secrets[i] != ""
  {
    answers == []
    || var n := |answers| - 1;
       && RoundsRecord(s, signals, settings, limit, answers[..n])
       && RoundRecords(Rounds(s, signals, settings, limit, answers[..n]).0, signals, settings, limit, answers[n])
  }

  /** Any number of rounds with any answers: candidates disappear exactly as records are created. */
  lemma {:induction false} RoundsAccount(
    s: Store, signals: seq<DecisionSignal>, settings: Settings, limit: nat, answers: seq<seq<Answer>>)
    requires Consistent(s) && ValidPolicy(settings.policy) && settings.enabled && DistinctIds(signals)
    requires EnoughAnswers(answers, limit)
    ensures |s.runs| == |s.recommendations|
    ensures var (after, created) := Rounds(s, signals, settings, limit, answers);
      && Consistent(after)
      && |after.recommendations| == |s.recommendations| + created
      && Remaining(signals, after, settings) == Remaining(signals, s, settings) - created
  {
    hide Consistent, Remaining, Round, ValidPolicy, RoundRecords;
    ConsistentLengths(s);
    PolicyHasSecrets(settings.policy);
    if answers != [] {
      var n := |answers| - 1;
      RoundsAccount(s, signals, settings, limit, answers[..n]);
      RoundCreates(Rounds(s, signals, settings, limit, answers[..n]).0, signals, settings, limit, answers[n]);
    }
  }

  lemma PolicyHasSecrets(p: Policy)
    requires ValidPolicy(p)
    ensures forall i :: 0 <= i < |p.secrets| ==> p.secrets[i] != ""
  {
  }

  lemma {:induction false} RoundsRemain(
    s: Store, signals: seq<DecisionSignal>, settings: Settings, limit: nat, answers: seq<seq<Answer>>, done: nat)
    requires Consistent(s) && ValidPolicy(settings.policy) && settings.enabled && DistinctIds(signals)
    requires EnoughAnswers(answers, limit) && done == |answers| * limit
    ensures |s.runs| == |s.recommendations|
    ensures RoundsRecord(s, signals, settings, limit, answers) ==>
      var remaining := Remaining(signals, s, settings);
      Remaining(signals, Rounds(s, signals, settings, limit, answers).0, settings)
      == (if remaining <= done then 0 else remaining - done)
  {
    hide Consistent, Remaining, Round, ValidPolicy, RoundRecords;
    ConsistentLengths(s);
    PolicyHasSecrets(settings.policy);
    if answers != [] {
      var n := |answers| - 1;
      assert done == n * limit + limit;
      RoundsRemain(s, signals, settings, limit, answers[..n], n * limit);
      RoundsAccount(s, signals, settings, limit, answers[..n]);
      RoundCreates(Rounds(s, signals, settings, limit, answers[..n]).0, signals, settings, limit, answers[n]);
    }
  }

  /** Repeated rounds, each with its own answers, evaluate every candidate: when no evaluation raises, nothing remains
      exactly when rounds times limit covers the candidates there were. */
  lemma DrainFinishes(
    s: Store, signals: seq<DecisionSignal>, settings: Settings, limit: nat, answers: seq<seq<Answer>>)
    requires Consistent(s) && ValidPolicy(settings.policy) && settings.enabled && DistinctIds(signals)
    requires EnoughAnswers(answers, limit)
    ensures |s.runs| == |s.recommendations|
    ensures RoundsRecord(s, signals, settings, limit, answers) ==>
      (Remaining(signals, Rounds(s, signals, settings, limit, answers).0, settings) == 0
       <==> |answers| * limit >= Remaining(signals, s, settings))
  {
    hide Remaining, Rounds, Consistent, RoundsRecord;
    ConsistentLengths(s);
    RoundsRemain(s, signals, settings, limit, answers, |answers| * limit);
  }
}

module DecisionAutomation {
  import opened Options
  import opened MarketClock
  import opened Collections
  import opened Ordering
  import opened DecisionOutput
  import opened DecisionStore
  import opened DecisionEngine
  import opened DecisionDrain

  datatype Skip =
    | AutoEvaluationDisabled
    | DecisionServiceDisabled
    | CandidateOnlyRequired
    | ScannerDryRun
    | NoCandidates

  datatype Summary = Summary(counts: Counts, attempted: nat, truncated: bool, skipped: Option<Skip>)

  datatype AutomationSettings = AutomationSettings(autoEvaluate: bool, candidatesOnly: bool, maxSignals: int)

  function SkipReason(a: AutomationSettings, enabled: bool, dryRun: bool, candidates: int): Option<Skip> {
    if !a.autoEvaluate then Some(AutoEvaluationDisabled)
    else if !enabled then Some(DecisionServiceDisabled)
    else if !a.candidatesOnly then Some(CandidateOnlyRequired)
    else if dryRun then Some(ScannerDryRun)
    else if candidates < 1 then Some(NoCandidates)
    else None
  }

  class DecisionAutomationService {
    const service: DecisionService
    const settings: AutomationSettings
    var lastSummary: Option<Summary>

    constructor (service: DecisionService, settings: AutomationSettings)
      ensures this.service == service && this.settings == settings && lastSummary == None
    {
      this.service, this.settings, lastSummary := service, settings, None;
    }

    /** Signals the listing query returns, at most `limit` of them. */
    method ListUnevaluated(w: Window, oldestFirst: bool, limit: nat) returns (r: seq<DecisionSignal>)
      ensures var listed := Listed(
          service.repository.signals, service.repository.View(), service.settings.identity, w, oldestFirst);
        r == Take(listed, limit)
    {
      hide Pending;
      var signals := service.repository.signals;
      ghost var view := service.repository.View();
      var pending: seq<DecisionSignal> := [];
      for i := 0 to |signals|
        invariant pending == PendingOf(signals[..i], view, service.settings.identity, w)
      {
        assert signals[..i + 1][..i] == signals[..i];
        if Pending(Store(service.repository.modelRuns, service.repository.recommendations),
                   service.settings.identity, w, signals[i]) {
          pending := pending + [signals[i]];
        }
      }
      assert signals[..|signals|] == signals;
      var listed := if oldestFirst then Sort(OldestFirst, pending) else Sort(NewestFirst, pending);
      r := Take(listed, limit);
    }

    /** Looks one candidate further than the limit to tell whether more remain, then evaluates the batch. */
    method EvaluateCandidates(limit: nat, w: Window, oldestFirst: bool, answers: seq<Answer>) returns (summary: Summary)
      requires Consistent(service.repository.View()) && ValidPolicy(service.settings.policy)
      requires limit <= |answers|
      modifies service.repository
      ensures Consistent(service.repository.View())
      ensures var before, signals := old(service.repository.View()), service.repository.signals;
        var batch := RoundBatch(signals, before, service.settings.identity, w, oldestFirst, limit);
        && |before.runs| == |before.recommendations|
        && (service.repository.View(), summary.counts)
           == Batch(before, signals, service.settings, batch, answers, |batch|)
        && summary.attempted == |batch| && summary.skipped.None?
        && (summary.truncated <==> |PendingOf(signals, before, service.settings.identity, w)| > limit)
    {
      hide Consistent, Listed, Evaluated, PendingOf;
      ghost var before := service.repository.View();
      ConsistentLengths(before);
      ghost var signals := service.repository.signals;
      var found := ListUnevaluated(w, oldestFirst, limit + 1);
      var truncated := |found| > limit;
      var batch := if truncated then found[..limit] else found;
      assert batch == RoundBatch(signals, before, service.settings.identity, w, oldestFirst, limit);
      var counts := Counts(0, 0, 0);
      for k := 0 to |batch|
        invariant Consistent(service.repository.View())
        invariant (service.repository.View(), counts) == Batch(before, signals, service.settings, batch, answers, k)
      {
        var decision, asked := service.Evaluate(batch[k].id, false, answers[k]);
        match decision
        case Err(_) =>
          counts := counts.(failed := counts.failed + 1);
        case Ok(p) =>
          if p.existing {
            counts := counts.(existing := counts.existing + 1);
          } else {
            counts := counts.(created := counts.created + 1);
            if p.run.status == FAILED {
              counts := counts.(failed := counts.failed + 1);
            }
          }
      }
      summary := Summary(counts, |batch|, truncated, None);
    }

    /** The manual drain, newest first. */
    method EvaluateLatest(limit: int, answers: seq<Answer>) returns (r: Result<Summary, EvaluationError>)
      requires Consistent(service.repository.View()) && ValidPolicy(service.settings.policy)
      requires |answers| >= 50
      modifies this`lastSummary, service.repository
      ensures Consistent(service.repository.View())
      ensures r.Err? <==> !service.settings.enabled
      ensures r.Err? ==> service.repository.View() == old(service.repository.View()) && lastSummary == old(lastSummary)
      ensures r.Ok? ==>
        var before, bound := old(service.repository.View()), RoundLimit(limit, settings.maxSignals);
        && lastSummary == Some(r.value)
        && |before.runs| == |before.recommendations|
        && (service.repository.View(), r.value.counts)
           == Round(before, service.repository.signals, service.settings, bound, answers)
        && (r.value.truncated <==> Remaining(service.repository.signals, before, service.settings) > bound)
    {
      hide Consistent, RoundBatch, Batch, PendingOf;
      if !service.settings.enabled {
        return Err(DecisionDisabled);
      }
      ConsistentLengths(service.repository.View());
      var summary := EvaluateCandidates(RoundLimit(limit, settings.maxSignals), EVERYTHING, false, answers);
      lastSummary := Some(summary);
      r := Ok(summary);
    }

    /** The automatic run after a scanner batch, oldest first; skipped, and then nothing is stored, when it does not
        apply. */
    method EvaluateScannerBatch(
      startedAt: Instant, finishedAt: Instant, symbols: seq<string>, dryRun: bool, candidateCount: int,
      answers: seq<Answer>) returns (summary: Summary)
      requires Consistent(service.repository.View()) && ValidPolicy(service.settings.policy)
      requires |answers| >= 50
      modifies this`lastSummary, service.repository
      ensures Consistent(service.repository.View())
      ensures lastSummary == Some(summary)
      ensures summary.skipped == SkipReason(settings, service.settings.enabled, dryRun, candidateCount)
      ensures summary.skipped.Some? ==> service.repository.View() == old(service.repository.View())
      ensures summary.skipped.None? ==>
        var before, signals := old(service.repository.View()), service.repository.signals;
        var batch := RoundBatch(
          signals, before, service.settings.identity, Window(Some(startedAt), Some(finishedAt), symbols), true,
          BoundedMax(settings.maxSignals));
        && |before.runs| == |before.recommendations|
        && (service.repository.View(), summary.counts)
           == Batch(before, signals, service.settings, batch, answers, |batch|)
    {
      hide Consistent, RoundBatch, Batch, PendingOf;
      var reason := SkipReason(settings, service.settings.enabled, dryRun, candidateCount);
      if reason.Some? {
        summary := Summary(Counts(0, 0, 0), 0, false, reason);
      } else {
        ConsistentLengths(service.repository.View());
        summary := EvaluateCandidates(
          BoundedMax(settings.maxSignals), Window(Some(startedAt), Some(finishedAt), symbols), true, answers);
      }
      lastSummary := Some(summary);
    }
  }
}
