// What the decision service says about an answer, what it stores, and which candidates it takes, written on the answer,
// the signal and the settings.

module DecisionLaws {
  import opened Options
  import opened Collections
  import opened DecisionOutput
  import opened DecisionStore
  import opened DecisionDrain
  import opened DecisionAutomation
  import Text

  // ----- prohibited keys

  const FRAGMENTS: set<string> :=
    {"quantity", "order", "broker", "position_size", "risk_override", "access_token", "api_key", "secret"}

  lemma FragmentsAreListed()
    ensures forall i :: 0 <= i < |PROHIBITED| ==> PROHIBITED[i] in FRAGMENTS
    ensures forall fragment :: fragment in FRAGMENTS ==> fragment in PROHIBITED
  {
    assert PROHIBITED[0] == "quantity" && PROHIBITED[1] == "order" && PROHIBITED[2] == "broker";
    assert PROHIBITED[3] == "position_size" && PROHIBITED[4] == "risk_override" && PROHIBITED[5] == "access_token";
    assert PROHIBITED[6] == "api_key" && PROHIBITED[7] == "secret";
  }

  /** A key is prohibited if, in small letters, it contains one of the eight fragments. */
  lemma ProhibitedIffFragment(key: string)
    ensures ProhibitedKey(key)
      <==> exists fragment :: fragment in FRAGMENTS && Text.Contains(Text.Lower(key), fragment)
  {
    hide Text.Contains, Text.Lower;
    FragmentsAreListed();
    if fragment :| fragment in FRAGMENTS && Text.Contains(Text.Lower(key), fragment) {
      var i :| 0 <= i < |PROHIBITED| && PROHIBITED[i] == fragment;
    }
  }

  function KeysOf(fields: seq<Field>): seq<string> {
    seq(|fields|, i requires 0 <= i < |fields| => fields[i].key)
  }

  /** Sanitizing an object keeps every field whose key is not prohibited, in order. */
  lemma {:induction false} SanitizingKeepsOtherKeys(v: Json, k: nat, secrets: seq<string>)
    requires v.Object? && k <= |v.fields|
    requires forall i :: 0 <= i < |secrets| ==> secrets[i] != ""
    ensures KeysOf(SanitizeFields(v, k, secrets)) == Filter(key => !ProhibitedKey(key), KeysOf(v.fields[..k]))
  {
    hide ProhibitedKey, Sanitize;
    if k > 0 {
      SanitizingKeepsOtherKeys(v, k - 1, secrets);
      var keys := KeysOf(v.fields[..k]);
      assert keys[..k - 1] == KeysOf(v.fields[..k - 1]) && keys[k - 1] == v.fields[k - 1].key;
      var before, after := SanitizeFields(v, k - 1, secrets), SanitizeFields(v, k, secrets);
      if !ProhibitedKey(v.fields[k - 1].key) {
        assert KeysOf(after) == KeysOf(before) + [v.fields[k - 1].key];
      }
    }
  }

  // ----- validation

  /** What can be wrong with an answer, in the order it is checked. */
  function Problems(raw: Json, strategy: string, context: Context, p: Policy): seq<(bool, string)> {
    var parsed := p.parse(raw);
    [(!raw.Object?, "malformed_output"),
     (HasProhibitedKey(raw), "prohibited_output_field"),
     (HasSecret(raw, p.secrets), "prohibited_output_value"),
     (p.mentionsExternalFact(raw), "external_fact_claim"),
     (parsed.None?, "schema_validation_failed"),
     (parsed.Some?
      && parsed.value.strategyTemplate !in {"opening_range_breakout_long", "vwap_pullback_continuation_long"},
      "strategy_not_allowlisted"),
     (parsed.Some? && parsed.value.strategyTemplate != strategy, "strategy_mismatch"),
     (parsed.Some? && parsed.value.sufficiency == INSUFFICIENT, "data_insufficient"),
     (parsed.Some? && parsed.value.verdict == ELIGIBLE && parsed.value.confidence < p.minConfidence,
      "eligible_confidence_below_minimum"),
     (parsed.Some? && parsed.value.verdict == ELIGIBLE && context.mode == FUTURE_LIVE_ELIGIBILITY
      && !(context.quoteFresh && (context.spreadRequired ==> context.spreadValidated)),
      "future_live_context_incomplete")]
  }

  lemma FirstProblemAt(raw: Json, strategy: string, context: Context, p: Policy, k: nat)
    requires k < 10 && Problems(raw, strategy, context, p)[k].0
    requires forall j :: 0 <= j < k ==> !Problems(raw, strategy, context, p)[j].0
    ensures var code := Problems(raw, strategy, context, p)[k].1;
      && Validate(raw, strategy, context, p) == Refused(strategy, code)
      && FirstHolding(Problems(raw, strategy, context, p)) == Some(code)
  {
    hide FirstHolding, HasProhibitedKey, HasSecret, ShadowWatch;
    var problems := Problems(raw, strategy, context, p);
    FirstHoldingAt(problems, k);
    assert k > 0 ==> !problems[0].0;
    assert k > 1 ==> !problems[1].0;
    assert k > 2 ==> !problems[2].0;
    assert k > 3 ==> !problems[3].0;
    assert k > 4 ==> !problems[4].0;
    assert k > 5 ==> !problems[5].0;
    assert k > 6 ==> !problems[6].0;
    assert k > 7 ==> !problems[7].0;
    assert k > 8 ==> !problems[8].0;
  }

  /** The facts whose absence a shadow run only warns about. */
  function MissingFacts(context: Context): seq<string> {
    (if context.quoteFresh then [] else ["quote_fresh_missing"])
    + (if context.spreadRequired && !context.spreadValidated then ["spread_validation_missing"] else [])
  }

  /** With no problem, the answer stands, except that an eligible one with missing facts becomes a watch in live
      shadow. */
  lemma NoProblemKeeps(raw: Json, strategy: string, context: Context, p: Policy)
    requires forall j :: 0 <= j < 10 ==> !Problems(raw, strategy, context, p)[j].0
    ensures FirstHolding(Problems(raw, strategy, context, p)).None? && p.parse(raw).Some?
    ensures var d, missing := p.parse(raw).value, MissingFacts(context);
      var warnings := FirstOccurrences(d.warnings + missing);
      Validate(raw, strategy, context, p)
      == if d.verdict != ELIGIBLE || context.mode != LIVE_SHADOW || missing == [] then Validated(d, None)
         else if |warnings| > 20 then Raised
         else Validated(
                Decision(WATCH, d.strategyTemplate, d.confidence, d.reasons, warnings, None, None, d.sufficiency), None)
  {
    hide FirstHolding, HasProhibitedKey, HasSecret, FirstOccurrences;
    var problems := Problems(raw, strategy, context, p);
    NoneHolds(problems);
    assert !problems[0].0 && !problems[1].0 && !problems[2].0 && !problems[3].0 && !problems[4].0;
    assert !problems[5].0 && !problems[6].0 && !problems[7].0 && !problems[8].0 && !problems[9].0;
  }

  /** THE FIRST PROBLEM DECIDES. An answer with a problem is turned into a rejection of no confidence that names the
      first one; without one it stands, or, in live shadow with facts missing, becomes a watch that lists them. */
  lemma ValidationNamesFirstProblem(raw: Json, strategy: string, context: Context, p: Policy)
    ensures var first := FirstHolding(Problems(raw, strategy, context, p));
      && (first.Some? ==>
            Validate(raw, strategy, context, p)
            == Validated(Decision(REJECT, strategy, 0.0, [first.value], [], None, None, INSUFFICIENT), first))
      && (first.None? ==>
            && p.parse(raw).Some?
            && var d, missing := p.parse(raw).value, MissingFacts(context);
               var warnings := FirstOccurrences(d.warnings + missing);
               Validate(raw, strategy, context, p)
               == if d.verdict != ELIGIBLE || context.mode != LIVE_SHADOW || missing == [] then Validated(d, None)
                  else if |warnings| > 20 then Raised
                  else Validated(
                    Decision(WATCH, d.strategyTemplate, d.confidence, d.reasons, warnings, None, None, d.sufficiency),
                    None))
  {
    hide FirstHolding, Problems, Validate, FirstOccurrences, MissingFacts;
    var k := FirstHoldingIndex(Problems(raw, strategy, context, p));
    TenProblems(raw, strategy, context, p);
    if k < 10 {
      FirstProblemAt(raw, strategy, context, p, k);
    } else {
      NoProblemKeeps(raw, strategy, context, p);
    }
  }

  lemma TenProblems(raw: Json, strategy: string, context: Context, p: Policy)
    ensures |Problems(raw, strategy, context, p)| == 10
  {
  }

  lemma FirstHoldingIndex<T>(findings: seq<(bool, T)>) returns (k: nat)
    ensures k <= |findings| && (k < |findings| ==> findings[k].0)
    ensures forall j :: 0 <= j < k ==> !findings[j].0
  {
    k := 0;
    while k < |findings| && !findings[k].0
      invariant k <= |findings| && forall j :: 0 <= j < k ==> !findings[j].0
    {
      k := k + 1;
    }
  }

  /** What a decision may not be: less than certain of nothing or more than certain, without a reason or with more than
      twenty, with more than twenty warnings, or aimed below half or above five times its risk. */
  lemma SchemaLimits(d: Decision)
    ensures !MeetsSchema(d)
      <==> || d.confidence < 0.0 || 1.0 < d.confidence
           || d.reasons == [] || 20 < |d.reasons| || 20 < |d.warnings|
           || (d.targetRMultiple.Some? && (d.targetRMultiple.value < 0.5 || 5.0 < d.targetRMultiple.value))
  {
  }

  // ----- what is stored

  /** Two evaluations share a key iff they are of one signal, by id and key, under one identity. */
  lemma KeysAgreeIff(a: DecisionSignal, i: Identity, b: DecisionSignal, j: Identity)
    ensures KeyOf(a, i) == KeyOf(b, j)
      <==> (&& a.id == b.id && a.signalKey == b.signalKey
            && i.adapter == j.adapter && i.model == j.model && i.promptVersion == j.promptVersion && i.mode == j.mode)
  {
  }

  /** The code of an evaluation that fails before or at the adapter. */
  function FailureCode(signal: DecisionSignal, answer: Answer): Option<string> {
    if signal.features == MissingFeatures then Some("signal_features_missing")
    else if signal.features == InvalidFeatures then Some("signal_features_invalid")
    else if answer.AdapterFailed? then Some(answer.code)
    else None
  }

  /** What an evaluation would store. A failure stores a rejection and its code; a crash stores nothing; an answer
      stores what validation makes of it, with the answer itself sanitized, or only a diagnostic when it is no
      object. */
  lemma EntryTellsWhatHappened(signal: DecisionSignal, settings: Settings, answer: Answer, force: bool)
    requires forall i :: 0 <= i < |settings.policy.secrets| ==> settings.policy.secrets[i] != ""
    ensures var code, e := FailureCode(signal, answer), EntryFor(signal, settings, answer, force);
      && (code.Some? ==>
            e == Some(Entry(
                        signal, settings.identity,
                        Decision(REJECT, signal.strategy, 0.0, [code.value], [], None, None, INSUFFICIENT),
                        Object([Field("error_code", Text_(code.value))]), code, !force)))
      && (code.None? && answer.AdapterCrashed? ==> e.None?)
      && (code.None? && answer.Answered? ==>
            && signal.features.Features?
            && var f := signal.features;
               var v := Validate(
                 answer.output, signal.strategy,
                 Context(settings.identity.mode, f.quoteFresh, f.spreadRequired, f.spreadValidated), settings.policy);
               var payload :=
                 if answer.output.Object? then Sanitize(answer.output, settings.policy.secrets)
                 else Object([Field("diagnostic", Text_("non_object_output"))]);
               e == if v.Raised? then None
                    else Some(Entry(signal, settings.identity, v.decision, payload, v.error, !force)))
  {
    hide Validate, Sanitize;
  }

  /** A recording adds the run and the recommendation of the entry, numbered and linked, unless its key is stored. */
  lemma RecordingAddsEntry(s: Store, e: Entry)
    requires |s.runs| == |s.recommendations|
    ensures var n := |s.runs| + 1;
      var key := if e.keyed then Some(KeyOf(e.signal, e.identity)) else None;
      var run := ModelRun(n, e.identity, e.payload, if e.error.Some? then FAILED else COMPLETED, e.error);
      var recommendation := Recommendation(n, n, e.signal.id, e.decision, key);
      (key.None? || forall i :: 0 <= i < n - 1 ==> s.recommendations[i].key != key) ==>
        Record(s, e)
        == (Store(s.runs + [run], s.recommendations + [recommendation]), Persisted(recommendation, run, false))
  {
  }

  /** A request is refused when decisions are disabled, when no signal has the id, and when it is no candidate; a stored
      key is answered from the store unless forced; otherwise what happened is recorded, or, when nothing can be, the
      evaluation raises. */
  lemma EvaluationDecides(
    s: Store, signals: seq<DecisionSignal>, settings: Settings, signalId: int, answer: Answer, force: bool)
    requires |s.runs| == |s.recommendations|
    requires forall i :: 0 <= i < |settings.policy.secrets| ==> settings.policy.secrets[i] != ""
    ensures var (r, after) := Evaluated(s, signals, settings, signalId, answer, force);
      var found := FindSignal(signals, signalId);
      if !settings.enabled then r == Err(DecisionDisabled) && after == s
      else if found.None? then r == Err(SignalNotFound) && after == s
      else if found.value.status != CANDIDATE then r == Err(SignalIneligible) && after == s
      else
        var key, e := KeyOf(found.value, settings.identity), EntryFor(found.value, settings, answer, force);
        if !force && Stored(s, key) then r == Ok(ExistingAt(s, key)) && after == s
        else if e.None? then r == Err(Crashed) && after == s
        else r.Ok? && (after, r.value) == Record(s, e.value)
  {
    hide EntryFor, Find, FindSignal;
  }

  // ----- which candidates

  /** The earliest of what can be taken: pending candidates of the window and symbols, oldest or newest created
      first and then by id, each once; what is left out when the limit is reached comes later. */
  lemma BatchTakesFirst(
    signals: seq<DecisionSignal>, s: Store, settings: Settings, w: Window, oldestFirst: bool, limit: nat)
    requires DistinctIds(signals)
    ensures var batch := RoundBatch(signals, s, settings.identity, w, oldestFirst, limit);
      && DistinctIds(batch) && |batch| <= limit
      && (forall x :: x in batch ==> x in signals && Waiting(s, settings.identity, w, x))
      && (forall i, j :: 0 <= i < j < |batch| ==> Before(batch[i], batch[j], oldestFirst))
      && (forall x :: x in signals && Waiting(s, settings.identity, w, x) && x !in batch ==>
            |batch| == limit && forall y :: y in batch ==> Before(y, x, oldestFirst))
  {
    hide Pending, Listed, Waiting, Before;
    ListedIsOrdered(signals, s, settings.identity, w, oldestFirst);
    RoundBatchIsPending(signals, s, settings, w, oldestFirst, limit);
    var listed := Listed(signals, s, settings.identity, w, oldestFirst);
    forall x ensures Pending(s, settings.identity, w, x) <==> Waiting(s, settings.identity, w, x) {
      PendingIsWaiting(s, settings.identity, w, x);
    }
    forall i, j | 0 <= i < j < |listed| ensures Before(listed[i], listed[j], oldestFirst) {
      OrderMeans(listed[i], listed[j], oldestFirst);
    }
    FirstOfListed(listed, limit, oldestFirst);
  }

  lemma OrderMeans(a: DecisionSignal, b: DecisionSignal, oldestFirst: bool)
    requires (if oldestFirst then OldestFirst else NewestFirst)(a, b)
    ensures Before(a, b, oldestFirst)
  {
  }

  /** The first `limit` of an ordered list. */
  lemma FirstOfListed(listed: seq<DecisionSignal>, limit: nat, oldestFirst: bool)
    requires forall i, j :: 0 <= i < j < |listed| ==> Before(listed[i], listed[j], oldestFirst)
    ensures var batch := Take(listed, limit);
      && batch <= listed && |batch| <= limit
      && (forall x :: x in batch ==> x in listed)
      && (forall x :: x in listed && x !in batch ==>
            |batch| == limit && forall y :: y in batch ==> Before(y, x, oldestFirst))
  {
    hide Before;
    var batch := Take(listed, limit);
    forall x | x in listed && x !in batch
      ensures |batch| == limit && forall y :: y in batch ==> Before(y, x, oldestFirst)
    {
      var j :| 0 <= j < |listed| && listed[j] == x;
      forall k | 0 <= k < |batch| ensures listed[k] != x {
        assert batch[k] == listed[k] && batch[k] in batch;
      }
      forall y | y in batch ensures Before(y, x, oldestFirst) {
        var i :| 0 <= i < |batch| && batch[i] == y;
        assert listed[i] == y;
      }
    }
  }

  /** A candidate of the window and symbols that no recommendation was made for under the identity. */
  ghost predicate Waiting(s: Store, identity: Identity, w: Window, x: DecisionSignal) {
    && x.status == CANDIDATE
    && (w.symbols != [] ==> x.symbol in w.symbols)
    && (w.startedAt.Some? ==> w.startedAt.value <= x.createdAt)
    && (w.finishedAt.Some? ==> x.createdAt <= w.finishedAt.value)
    && !exists i :: 0 <= i < |s.recommendations| && i < |s.runs|
         && s.recommendations[i].signalId == x.id && s.runs[i].identity == identity
  }

  lemma PendingIsWaiting(s: Store, identity: Identity, w: Window, x: DecisionSignal)
    ensures Pending(s, identity, w, x) <==> Waiting(s, identity, w, x)
  {
  }

  predicate Before(a: DecisionSignal, b: DecisionSignal, oldestFirst: bool) {
    if a.createdAt == b.createdAt then a.id <= b.id
    else if oldestFirst then a.createdAt < b.createdAt
    else b.createdAt < a.createdAt
  }

  /** A batch is bounded by the setting, and that by one and fifty; a manual round also by what was asked for. */
  lemma RoundIsBounded(limit: int, setting: int)
    ensures BoundedMax(setting) == if setting <= 1 then 1 else if setting >= 50 then 50 else setting
    ensures var bound := BoundedMax(setting);
      RoundLimit(limit, setting) == if limit <= 1 then 1 else if limit >= bound then bound else limit
  {
  }

  /** An automatic run is skipped for the first reason that applies. */
  lemma SkipNamesFirstReason(a: AutomationSettings, enabled: bool, dryRun: bool, candidates: int)
    ensures SkipReason(a, enabled, dryRun, candidates)
         == FirstHolding([(!a.autoEvaluate, AutoEvaluationDisabled), (!enabled, DecisionServiceDisabled),
                          (!a.candidatesOnly, CandidateOnlyRequired), (dryRun, ScannerDryRun),
                          (candidates < 1, NoCandidates)])
  {
    hide FirstHolding;
    var reasons := [(!a.autoEvaluate, AutoEvaluationDisabled), (!enabled, DecisionServiceDisabled),
                    (!a.candidatesOnly, CandidateOnlyRequired), (dryRun, ScannerDryRun),
                    (candidates < 1, NoCandidates)];
    if reasons[0].0 {
      FirstHoldingAt(reasons, 0);
    } else if reasons[1].0 {
      FirstHoldingAt(reasons, 1);
    } else if reasons[2].0 {
      FirstHoldingAt(reasons, 2);
    } else if reasons[3].0 {
      FirstHoldingAt(reasons, 3);
    } else if reasons[4].0 {
      FirstHoldingAt(reasons, 4);
    } else {
      NoneHolds(reasons);
    }
  }

  /** An evaluation fails when it raises or what it records carries an error code. */
  predicate Fails(x: DecisionSignal, settings: Settings, answer: Answer)
    requires forall i :: 0 <= i < |settings.policy.secrets| ==> settings.policy.secrets[i] != ""
  {
    var e := EntryFor(x, settings, answer, false);
    e.None? || e.value.error.Some?
  }

  /** How many of the first `k` evaluations of a batch fail. */
  function Failures(batch: seq<DecisionSignal>, settings: Settings, answers: seq<Answer>, k: nat): nat
    requires k <= |batch| <= |answers|
    requires forall i :: 0 <= i < |settings.policy.secrets| ==> settings.policy.secrets[i] != ""
  {
    if k == 0 then 0
    else Failures(batch, settings, answers, k - 1) + (if Fails(batch[k - 1], settings, answers[k - 1]) then 1 else 0)
  }

  lemma PendingIsCounted(
    s: Store, signals: seq<DecisionSignal>, settings: Settings, x: DecisionSignal, answer: Answer, c: Counts)
    requires Consistent(s) && ValidPolicy(settings.policy) && settings.enabled
    requires DistinctIds(signals) && x in signals && x.status == CANDIDATE
    requires !EvaluatedBy(s, x.id, settings.identity)
    ensures |s.runs| == |s.recommendations|
    ensures Tallied(c, Evaluated(s, signals, settings, x.id, answer, false).0).failed
         == c.failed + (if Fails(x, settings, answer) then 1 else 0)
  {
    hide Find, Consistent, EntryFor, EvaluatedBy;
    FindsItself(signals, x);
    PendingIsNotStored(s, x, settings.identity);
    ConsistentLengths(s);
    if EntryFor(x, settings, answer, false).Some? {
      EntryIsSound(x, settings, answer, false);
    }
  }

  /** A batch of pending candidates reports as failed exactly those whose evaluation raises or records an error code. */
  lemma {:induction false} BatchCountsFailures(
    s: Store, signals: seq<DecisionSignal>, settings: Settings, w: Window, batch: seq<DecisionSignal>,
    answers: seq<Answer>, k: nat)
    requires Consistent(s) && ValidPolicy(settings.policy) && settings.enabled && DistinctIds(signals)
    requires PendingBatch(s, signals, settings, w, batch) && k <= |batch| <= |answers|
    ensures |s.runs| == |s.recommendations|
    ensures Batch(s, signals, settings, batch, answers, k).1.failed == Failures(batch, settings, answers, k)
  {
    hide Consistent, Evaluated, Fails, EvaluatedBy, PendingOf, Records, Tallied;
    ConsistentLengths(s);
    if k > 0 {
      BatchCountsFailures(s, signals, settings, w, batch, answers, k - 1);
      BatchEvaluates(s, signals, settings, w, batch, answers, k - 1);
      var (t, c) := Batch(s, signals, settings, batch, answers, k - 1);
      assert Pending(t, settings.identity, w, batch[k - 1]);
      PendingIsCounted(t, signals, settings, batch[k - 1], answers[k - 1], c);
    }
  }
}
