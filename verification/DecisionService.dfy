// Keyed, idempotent evaluation of scanner candidates: the store, one evaluation, and the service around it.

module DecisionStore {
  import opened Options
  import opened MarketClock
  import opened DecisionOutput

  datatype SignalStatus = CANDIDATE | REJECTED_SIGNAL

  /** The stored evidence a model input is built from. */
  datatype Features = MissingFeatures | InvalidFeatures | Features(
    quoteFresh: bool, spreadRequired: bool, spreadValidated: bool)

  datatype DecisionSignal = DecisionSignal(
    id: int,
    signalKey: string,
    symbol: string,
    strategy: string,
    status: SignalStatus,
    signalTime: Instant,
    createdAt: Instant,
    features: Features)

  /** Who evaluates, and how: part of every evaluation key. */
  datatype Identity = Identity(adapter: string, model: string, promptVersion: string, mode: Mode)

  datatype EvaluationKey = EvaluationKey(signalId: int, signalKey: string, identity: Identity)

  datatype RunStatus = COMPLETED | FAILED

  datatype ModelRun = ModelRun(
    id: nat, identity: Identity, payload: Json, status: RunStatus, errorCode: Option<string>)

  datatype Recommendation = Recommendation(
    id: nat,
    modelRunId: nat,
    signalId: int,
    decision: Decision,
    key: Option<EvaluationKey>)

  datatype Store = Store(runs: seq<ModelRun>, recommendations: seq<Recommendation>)

  const EMPTY := Store([], [])

  datatype Persisted = Persisted(recommendation: Recommendation, run: ModelRun, existing: bool)

  function KeyOf(signal: DecisionSignal, identity: Identity): EvaluationKey {
    EvaluationKey(signal.id, signal.signalKey, identity)
  }

  /** Position of the recommendation with `key`. */
  function Find(recommendations: seq<Recommendation>, key: EvaluationKey): (i: Option<nat>)
    ensures i.Some? ==> i.value < |recommendations| && recommendations[i.value].key == Some(key)
    ensures i.None? ==> forall k :: 0 <= k < |recommendations| ==> recommendations[k].key != Some(key)
  {
    if recommendations == [] then None
    else
      var before := Find(recommendations[..|recommendations| - 1], key);
      if before.Some? then before
      else if recommendations[|recommendations| - 1].key == Some(key) then Some(|recommendations| - 1)
      else None
  }

  predicate Stored(s: Store, key: EvaluationKey) {
    Find(s.recommendations, key).Some?
  }

  /** One model run per recommendation, no evaluation key twice, keys agree with what was evaluated, and a failed
      run recommends a rejection. */
  ghost predicate Consistent(s: Store) {
    && |s.runs| == |s.recommendations|
    && (forall i :: 0 <= i < |s.recommendations| ==> Linked(s, i))
    && forall i, j :: 0 <= i < j < |s.recommendations| && s.recommendations[i].key.Some? ==>
      s.recommendations[i].key != s.recommendations[j].key
  }

  ghost predicate Linked(s: Store, i: nat)
    requires i < |s.recommendations| == |s.runs|
  {
    var r, run := s.recommendations[i], s.runs[i];
    && r.id == run.id == r.modelRunId == i + 1
    && (r.key.Some? ==> r.key.value.signalId == r.signalId && r.key.value.identity == run.identity)
    && (run.status == FAILED <==> run.errorCode.Some?)
    && (run.status == FAILED ==> r.decision.verdict == REJECT)
  }

  lemma ConsistentLengths(s: Store)
    requires Consistent(s)
    ensures |s.runs| == |s.recommendations|
  {
  }

  /** What a recording adds; the row ids follow the table lengths. */
  datatype Entry = Entry(
    signal: DecisionSignal, identity: Identity, decision: Decision, payload: Json, error: Option<string>, keyed: bool)

  function EntryKey(e: Entry): Option<EvaluationKey> {
    if e.keyed then Some(KeyOf(e.signal, e.identity)) else None
  }

  function RunOf(s: Store, e: Entry): ModelRun {
    ModelRun(|s.runs| + 1, e.identity, e.payload, if e.error.Some? then FAILED else COMPLETED, e.error)
  }

  function RecommendationOf(s: Store, e: Entry): Recommendation {
    Recommendation(|s.recommendations| + 1, |s.runs| + 1, e.signal.id, e.decision, EntryKey(e))
  }

  /** One transaction: both rows, or, when the key is taken, neither and the existing recommendation. */
  function Record(s: Store, e: Entry): (Store, Persisted)
    requires |s.runs| == |s.recommendations|
  {
    var key := EntryKey(e);
    if key.Some? && Stored(s, key.value) then
      (s, ExistingAt(s, key.value))
    else
      (Store(s.runs + [RunOf(s, e)], s.recommendations + [RecommendationOf(s, e)]),
       Persisted(RecommendationOf(s, e), RunOf(s, e), false))
  }

  function ExistingAt(s: Store, key: EvaluationKey): Persisted
    requires |s.runs| == |s.recommendations| && Stored(s, key)
  {
    var i := Find(s.recommendations, key).value;
    Persisted(s.recommendations[i], s.runs[i], true)
  }

  /** A well-formed entry: an error code only with a rejection. */
  predicate Sound(e: Entry) {
    e.error.Some? ==> e.decision.verdict == REJECT
  }

  lemma RecordKeepsConsistency(s: Store, e: Entry)
    requires Consistent(s) && Sound(e)
    ensures Consistent(Record(s, e).0)
    ensures s.recommendations <= Record(s, e).0.recommendations && s.runs <= Record(s, e).0.runs
  {
    hide Find;
    var after := Record(s, e).0;
    forall i | 0 <= i < |after.recommendations| ensures Linked(after, i) {
      assert i < |s.recommendations| ==> Linked(s, i);
    }
  }

  /** After a keyed recording the key is stored, at the row that was returned. */
  lemma RecordStoresKey(s: Store, e: Entry)
    requires |s.runs| == |s.recommendations| && e.keyed
    ensures var (after, got) := Record(s, e);
      var key := KeyOf(e.signal, e.identity);
      && Stored(after, key)
      && ExistingAt(after, key) == got.(existing := true)
      && (got.existing <==> Stored(s, key))
  {
    var after := Record(s, e).0;
    if !Stored(s, KeyOf(e.signal, e.identity)) {
      assert after.recommendations[..|s.recommendations|] == s.recommendations;
    }
  }

  /** A stored key stays at the same row whatever is recorded later. */
  lemma {:induction false} FindIsStable(a: seq<Recommendation>, b: seq<Recommendation>, key: EvaluationKey)
    requires Find(a, key).Some?
    ensures Find(a + b, key) == Find(a, key)
  {
    if b == [] {
      assert a + b == a;
    } else {
      FindIsStable(a, b[..|b| - 1], key);
      assert (a + b)[..|a + b| - 1] == a + b[..|b| - 1];
    }
  }

  // ----- one evaluation

  /** What the adapter did: answered, failed with a code, or raised something else. */
  datatype Answer = Answered(output: Json) | AdapterFailed(code: string) | AdapterCrashed

  datatype Settings = Settings(enabled: bool, identity: Identity, policy: Policy)

  datatype EvaluationError = DecisionDisabled | SignalNotFound | SignalIneligible | Crashed

  function ContextOf(signal: DecisionSignal, mode: Mode): Context
    requires signal.features.Features?
  {
    Context(mode, signal.features.quoteFresh, signal.features.spreadRequired, signal.features.spreadValidated)
  }

  function FailedEntry(signal: DecisionSignal, settings: Settings, code: string, force: bool): Entry {
    Entry(signal, settings.identity, SafeReject(signal.strategy, code),
          Object([Field("error_code", Text_(code))]), Some(code), !force)
  }

  /** The row to record for an answer; nothing when the answer makes the evaluation raise. */
  function EntryFor(signal: DecisionSignal, settings: Settings, answer: Answer, force: bool): Option<Entry>
    requires forall i :: 0 <= i < |settings.policy.secrets| ==> settings.policy.secrets[i] != ""
  {
    match signal.features
    case MissingFeatures => Some(FailedEntry(signal, settings, "signal_features_missing", force))
    case InvalidFeatures => Some(FailedEntry(signal, settings, "signal_features_invalid", force))
    case Features(_, _, _) =>
      match answer
      case AdapterCrashed => None
      case AdapterFailed(code) => Some(FailedEntry(signal, settings, code, force))
      case Answered(output) =>
        match Validate(output, signal.strategy, ContextOf(signal, settings.identity.mode), settings.policy)
        case Raised => None
        case Validated(decision, error) =>
          Some(Entry(signal, settings.identity, decision, StoredPayload(output, settings.policy.secrets), error, !force))
  }

  function StoredPayload(output: Json, secrets: seq<string>): Json
    requires forall i :: 0 <= i < |secrets| ==> secrets[i] != ""
  {
    if output.Object? then Sanitize(output, secrets)
    else Object([Field("diagnostic", Text_("non_object_output"))])
  }

  lemma EntryIsSound(signal: DecisionSignal, settings: Settings, answer: Answer, force: bool)
    requires ValidPolicy(settings.policy) && EntryFor(signal, settings, answer, force).Some?
    ensures var e := EntryFor(signal, settings, answer, force).value;
      && Sound(e) && e.signal == signal && e.identity == settings.identity && e.keyed == !force
      && (signal.features.Features? && answer.Answered? && answer.output.Object? ==> !HasProhibitedKey(e.payload))
  {
    hide Validate, Sanitize, HasProhibitedKey;
    if signal.features.Features? && answer.Answered? {
      FailureMeansReject(answer.output, signal.strategy, ContextOf(signal, settings.identity.mode), settings.policy);
      SanitizedHasNoProhibitedKey(answer.output, settings.policy.secrets);
    }
  }

  /** One evaluation of a loaded candidate under the lock: look the key up, ask the adapter, record. */
  function EvaluateLocked(s: Store, signal: DecisionSignal, settings: Settings, answer: Answer, force: bool)
    : (Store, Option<Persisted>)
    requires |s.runs| == |s.recommendations|
    requires forall i :: 0 <= i < |settings.policy.secrets| ==> settings.policy.secrets[i] != ""
  {
    var key := KeyOf(signal, settings.identity);
    if !force && Stored(s, key) then (s, Some(ExistingAt(s, key)))
    else
      match EntryFor(signal, settings, answer, force)
      case None => (s, None)
      case Some(e) =>
        var (after, got) := Record(s, e);
        (after, Some(got))
  }

  /** Evaluating again, unforced, returns the stored recommendation and changes nothing, whatever the adapter
      would answer the second time. */
  lemma EvaluationIsIdempotent(s: Store, signal: DecisionSignal, settings: Settings, first: Answer, second: Answer)
    requires Consistent(s) && ValidPolicy(settings.policy)
    requires EvaluateLocked(s, signal, settings, first, false).1.Some?
    ensures var (after, got) := EvaluateLocked(s, signal, settings, first, false);
      Consistent(after)
      && EvaluateLocked(after, signal, settings, second, false) == (after, Some(got.value.(existing := true)))
  {
    hide Find, EntryFor;
    if !Stored(s, KeyOf(signal, settings.identity)) {
      EntryIsSound(signal, settings, first, false);
      RecordKeepsConsistency(s, EntryFor(signal, settings, first, false).value);
      RecordStoresKey(s, EntryFor(signal, settings, first, false).value);
    }
  }

  // ----- loading

  /** The first signal with this id; ids are unique in the table. */
  function FindSignal(signals: seq<DecisionSignal>, id: int): (r: Option<DecisionSignal>)
    ensures r.Some? ==> r.value in signals && r.value.id == id
    ensures r.None? ==> forall i :: 0 <= i < |signals| ==> signals[i].id != id
  {
    if signals == [] then None
    else if signals[0].id == id then Some(signals[0])
    else FindSignal(signals[1..], id)
  }

  /** The whole of an evaluation, from the request to the store. */
  function Evaluated(
    s: Store, signals: seq<DecisionSignal>, settings: Settings, signalId: int, answer: Answer, force: bool)
    : (r: (Result<Persisted, EvaluationError>, Store))
    requires |s.runs| == |s.recommendations|
    requires forall i :: 0 <= i < |settings.policy.secrets| ==> settings.policy.secrets[i] != ""
    ensures |r.1.runs| == |r.1.recommendations|
  {
    if !settings.enabled then (Err(DecisionDisabled), s)
    else
      match FindSignal(signals, signalId)
      case None => (Err(SignalNotFound), s)
      case Some(signal) =>
        if signal.status != CANDIDATE then (Err(SignalIneligible), s)
        else
          var (after, got) := EvaluateLocked(s, signal, settings, answer, force);
          (if got.None? then Err(Crashed) else Ok(got.value), after)
  }
}

module DecisionEngine {
  import opened Options
  import opened DecisionOutput
  import opened DecisionStore

  class DecisionRepository {
    const signals: seq<DecisionSignal>
    var modelRuns: seq<ModelRun>
    var recommendations: seq<Recommendation>

    ghost function View(): Store
      reads this
    {
      Store(modelRuns, recommendations)
    }

    constructor (signals: seq<DecisionSignal>)
      ensures this.signals == signals && View() == EMPTY
    {
      this.signals, modelRuns, recommendations := signals, [], [];
    }

    method LoadSignal(id: int) returns (r: Option<DecisionSignal>)
      ensures r == FindSignal(signals, id)
    {
      for i := 0 to |signals|
        invariant FindSignal(signals, id) == FindSignal(signals[i..], id)
      {
        if signals[i].id == id {
          return Some(signals[i]);
        }
        assert signals[i..][1..] == signals[i + 1..];
      }
      assert signals[|signals|..] == [];
      r := None;
    }

    method FindByEvaluationKey(key: EvaluationKey) returns (found: Option<Persisted>)
      requires Consistent(View())
      ensures found == if Stored(View(), key) then Some(ExistingAt(View(), key)) else None
    {
      for i := 0 to |recommendations|
        invariant Find(recommendations[..i], key).None?
      {
        assert recommendations[..i + 1][..i] == recommendations[..i];
        if recommendations[i].key == Some(key) {
          assert recommendations == recommendations[..i + 1] + recommendations[i + 1..];
          FindIsStable(recommendations[..i + 1], recommendations[i + 1..], key);
          return Some(Persisted(recommendations[i], modelRuns[i], true));
        }
      }
      assert recommendations[..|recommendations|] == recommendations;
      found := None;
    }

    /** Both inserts commit together; a taken key rolls both back. */
    method RecordDecision(e: Entry) returns (got: Persisted)
      requires Consistent(View())
      modifies this
      ensures (View(), got) == Record(old(View()), e)
    {
      hide Consistent, Find;
      var run := ModelRun(
        |modelRuns| + 1, e.identity, e.payload, if e.error.Some? then FAILED else COMPLETED, e.error);
      var recommendation := Recommendation(
        |recommendations| + 1, run.id, e.signal.id, e.decision, EntryKey(e));
      ghost var before := View();
      ConsistentLengths(before);
      if e.keyed {
        var existing := FindByEvaluationKey(KeyOf(e.signal, e.identity));
        if existing.Some? {
          return existing.value;
        }
      }
      modelRuns := modelRuns + [run];
      recommendations := recommendations + [recommendation];
      got := Persisted(recommendation, run, false);
    }
  }

  class DecisionService {
    const repository: DecisionRepository
    const settings: Settings

    constructor (repository: DecisionRepository, settings: Settings)
      ensures this.repository == repository && this.settings == settings
    {
      this.repository, this.settings := repository, settings;
    }

    /** `answer` is what the adapter would do if it were asked; `asked` says whether it was. */
    method Evaluate(signalId: int, force: bool, answer: Answer)
      returns (r: Result<Persisted, EvaluationError>, asked: bool)
      requires Consistent(repository.View()) && ValidPolicy(settings.policy)
      modifies repository
      ensures Consistent(repository.View())
      ensures (r, repository.View())
        == Evaluated(old(repository.View()), repository.signals, settings, signalId, answer, force)
      ensures asked ==>
        var signal := FindSignal(repository.signals, signalId);
        && signal.Some? && signal.value.status == CANDIDATE
        && (!force ==> !Stored(old(repository.View()), KeyOf(signal.value, settings.identity)))
    {
      hide Consistent, EntryFor, Find, Record, FindSignal;
      asked := false;
      if !settings.enabled {
        return Err(DecisionDisabled), false;
      }
      var loaded := repository.LoadSignal(signalId);
      if loaded.None? {
        return Err(SignalNotFound), false;
      }
      var signal := loaded.value;
      if signal.status != CANDIDATE {
        return Err(SignalIneligible), false;
      }
      ConsistentLengths(repository.View());
      if !force {
        var existing := repository.FindByEvaluationKey(KeyOf(signal, settings.identity));
        if existing.Some? {
          return Ok(existing.value), false;
        }
      }
      asked := signal.features.Features?;
      var entry := EntryFor(signal, settings, answer, force);
      if entry.None? {
        return Err(Crashed), asked;
      }
      EntryIsSound(signal, settings, answer, force);
      RecordKeepsConsistency(repository.View(), entry.value);
      var got := repository.RecordDecision(entry.value);
      r := Ok(got);
    }
  }
}
