// What a language-model adapter may answer, and what the decision service makes of it.

module DecisionOutput {
  import opened Options
  import opened Collections
  import Text

  // ----- raw output

  datatype Json =
    | Null
    | Bool(flag: bool)
    | Number(value: real)
    | Text_(text: string)
    | Items(items: seq<Json>)
    | Object(fields: seq<Field>)

  datatype Field = Field(key: string, value: Json)

  const PROHIBITED: seq<string> :=
    ["quantity", "order", "broker", "position_size", "risk_override", "access_token", "api_key", "secret"]

  predicate ProhibitedKey(key: string) {
    exists i :: 0 <= i < |PROHIBITED| && Text.Contains(Text.Lower(key), PROHIBITED[i])
  }

  /** A prohibited key occurs somewhere inside. */
  predicate HasProhibitedKey(v: Json) {
    match v
    case Object(fields) =>
      exists i :: 0 <= i < |fields| && (ProhibitedKey(fields[i].key) || HasProhibitedKey(fields[i].value))
    case Items(items) => exists i :: 0 <= i < |items| && HasProhibitedKey(items[i])
    case _ => false
  }

  /** A configured secret occurs inside some text. */
  predicate HasSecret(v: Json, secrets: seq<string>) {
    match v
    case Object(fields) => exists i :: 0 <= i < |fields| && HasSecret(fields[i].value, secrets)
    case Items(items) => exists i :: 0 <= i < |items| && HasSecret(items[i], secrets)
    case Text_(text) => exists i :: 0 <= i < |secrets| && Text.Contains(text, secrets[i])
    case _ => false
  }

  const MARK := "[redacted]"

  function Redact(text: string, secrets: seq<string>): string
    requires forall i :: 0 <= i < |secrets| ==> secrets[i] != ""
  {
    if secrets == [] then text
    else Text.Replace(Redact(text, secrets[..|secrets| - 1]), secrets[|secrets| - 1], MARK)
  }

  /** Drops prohibited keys at every depth and redacts secrets. */
  function Sanitize(v: Json, secrets: seq<string>): Json
    requires forall i :: 0 <= i < |secrets| ==> secrets[i] != ""
    decreases v, if v.Object? then |v.fields| + 1 else 0
  {
    match v
    case Object(fields) => Object(SanitizeFields(v, |fields|, secrets))
    case Items(items) => Items(seq(|items|, i requires 0 <= i < |items| => Sanitize(items[i], secrets)))
    case Text_(text) => Text_(Redact(text, secrets))
    case _ => v
  }

  /** The first `k` fields of an object, sanitized. */
  function SanitizeFields(v: Json, k: nat, secrets: seq<string>): seq<Field>
    requires v.Object? && k <= |v.fields|
    requires forall i :: 0 <= i < |secrets| ==> secrets[i] != ""
    decreases v, k
  {
    if k == 0 then []
    else
      var field := v.fields[k - 1];
      var before := SanitizeFields(v, k - 1, secrets);
      if ProhibitedKey(field.key) then before
      else before + [Field(field.key, Sanitize(field.value, secrets))]
  }

  ghost predicate CleanFields(fields: seq<Field>) {
    forall i :: 0 <= i < |fields| ==> !ProhibitedKey(fields[i].key) && !HasProhibitedKey(fields[i].value)
  }

  lemma {:induction false} SanitizedFieldsAreClean(v: Json, k: nat, secrets: seq<string>)
    requires v.Object? && k <= |v.fields|
    requires forall i :: 0 <= i < |secrets| ==> secrets[i] != ""
    ensures CleanFields(SanitizeFields(v, k, secrets))
    decreases v, k
  {
    if k > 0 {
      SanitizedFieldsAreClean(v, k - 1, secrets);
      SanitizedHasNoProhibitedKey(v.fields[k - 1].value, secrets);
    }
  }

  /** What is stored never holds a prohibited key, at any depth, whatever the adapter answered. */
  lemma {:induction false} SanitizedHasNoProhibitedKey(v: Json, secrets: seq<string>)
    requires forall i :: 0 <= i < |secrets| ==> secrets[i] != ""
    ensures !HasProhibitedKey(Sanitize(v, secrets))
    decreases v, if v.Object? then |v.fields| + 1 else 0
  {
    match v
    case Object(fields) =>
      SanitizedFieldsAreClean(v, |fields|, secrets);
    case Items(items) =>
      forall i | 0 <= i < |items| ensures !HasProhibitedKey(Sanitize(items[i], secrets)) {
        SanitizedHasNoProhibitedKey(items[i], secrets);
      }
    case _ =>
  }

  lemma {:induction false} RedactNothing(text: string, secrets: seq<string>)
    requires forall i :: 0 <= i < |secrets| ==> secrets[i] != "" && !Text.Contains(text, secrets[i])
    ensures Redact(text, secrets) == text
  {
    if secrets != [] {
      RedactNothing(text, secrets[..|secrets| - 1]);
      Text.ReplaceNothing(text, secrets[|secrets| - 1], MARK);
    }
  }

  lemma {:induction false} CleanFieldsAreKept(v: Json, k: nat, secrets: seq<string>)
    requires v.Object? && k <= |v.fields|
    requires forall i :: 0 <= i < |secrets| ==> secrets[i] != ""
    requires !HasProhibitedKey(v) && !HasSecret(v, secrets)
    ensures SanitizeFields(v, k, secrets) == v.fields[..k]
    decreases v, k
  {
    if k > 0 {
      CleanFieldsAreKept(v, k - 1, secrets);
      CleanOutputIsStoredVerbatim(v.fields[k - 1].value, secrets);
    }
  }

  /** An output without prohibited keys and secrets is stored unchanged. */
  lemma {:induction false} CleanOutputIsStoredVerbatim(v: Json, secrets: seq<string>)
    requires forall i :: 0 <= i < |secrets| ==> secrets[i] != ""
    requires !HasProhibitedKey(v) && !HasSecret(v, secrets)
    ensures Sanitize(v, secrets) == v
    decreases v, if v.Object? then |v.fields| + 1 else 0
  {
    match v
    case Object(fields) =>
      CleanFieldsAreKept(v, |fields|, secrets);
    case Items(items) =>
      forall i | 0 <= i < |items| ensures Sanitize(items[i], secrets) == items[i] {
        CleanOutputIsStoredVerbatim(items[i], secrets);
      }
    case Text_(text) =>
      RedactNothing(text, secrets);
    case _ =>
  }

  // ----- validated output

  datatype Verdict = ELIGIBLE | WATCH | REJECT

  datatype Sufficiency = SUFFICIENT | INSUFFICIENT

  datatype Mode = HISTORICAL_REPLAY | LIVE_SHADOW | FUTURE_LIVE_ELIGIBILITY

  datatype Decision = Decision(
    verdict: Verdict,
    strategyTemplate: string,
    confidence: real,
    reasons: seq<string>,
    warnings: seq<string>,
    stopMethod: Option<string>,
    targetRMultiple: Option<real>,
    sufficiency: Sufficiency)

  const MAX_NOTES := 20

  /** The schema's own limits; building a decision outside them raises. */
  predicate MeetsSchema(d: Decision) {
    && 0.0 <= d.confidence <= 1.0
    && 1 <= |d.reasons| <= MAX_NOTES
    && |d.warnings| <= MAX_NOTES
    && (d.targetRMultiple.Some? ==> 0.5 <= d.targetRMultiple.value <= 5.0)
  }

  /** The parts of the model input that validation looks at. */
  datatype Context = Context(mode: Mode, quoteFresh: bool, spreadRequired: bool, spreadValidated: bool)

  /** Settings, with the text pattern and the schema parser taken as given. */
  datatype Policy = Policy(
    minConfidence: real,
    secrets: seq<string>,
    mentionsExternalFact: Json -> bool,
    parse: Json -> Option<Decision>)

  ghost predicate ValidPolicy(p: Policy) {
    && (forall i :: 0 <= i < |p.secrets| ==> p.secrets[i] != "")
    && forall v :: p.parse(v).Some? ==> MeetsSchema(p.parse(v).value)
  }

  const STRATEGIES: set<string> := {"opening_range_breakout_long", "vwap_pullback_continuation_long"}

  /** Either a decision, with an error code when it was forced to a rejection, or an exception. */
  datatype Validation = Validated(decision: Decision, error: Option<string>) | Raised

  function SafeReject(strategy: string, reason: string): (d: Decision)
    ensures MeetsSchema(d) && d.verdict == REJECT
  {
    Decision(REJECT, strategy, 0.0, [reason], [], None, None, INSUFFICIENT)
  }

  function Refused(strategy: string, reason: string): Validation {
    Validated(SafeReject(strategy, reason), Some(reason))
  }

  function ContextWarnings(c: Context): seq<string> {
    (if c.quoteFresh then [] else ["quote_fresh_missing"])
    + (if c.spreadRequired && !c.spreadValidated then ["spread_validation_missing"] else [])
  }

  /** A watch with the context warnings added; too many warnings raise. */
  function ShadowWatch(d: Decision, warnings: seq<string>): Validation {
    var merged := FirstOccurrences(d.warnings + warnings);
    if |merged| > MAX_NOTES then Raised
    else Validated(d.(verdict := WATCH, warnings := merged, stopMethod := None, targetRMultiple := None), None)
  }

  function Validate(raw: Json, strategy: string, context: Context, p: Policy): Validation {
    if !raw.Object? then Refused(strategy, "malformed_output")
    else if HasProhibitedKey(raw) then Refused(strategy, "prohibited_output_field")
    else if HasSecret(raw, p.secrets) then Refused(strategy, "prohibited_output_value")
    else if p.mentionsExternalFact(raw) then Refused(strategy, "external_fact_claim")
    else
      match p.parse(raw)
      case None => Refused(strategy, "schema_validation_failed")
      case Some(d) =>
        if d.strategyTemplate !in STRATEGIES then Refused(strategy, "strategy_not_allowlisted")
        else if d.strategyTemplate != strategy then Refused(strategy, "strategy_mismatch")
        else if d.sufficiency == INSUFFICIENT then Refused(strategy, "data_insufficient")
        else if d.verdict == ELIGIBLE && d.confidence < p.minConfidence then
          Refused(strategy, "eligible_confidence_below_minimum")
        else if d.verdict == ELIGIBLE && ContextWarnings(context) != [] && context.mode == LIVE_SHADOW then
          ShadowWatch(d, ContextWarnings(context))
        else if d.verdict == ELIGIBLE && ContextWarnings(context) != [] && context.mode == FUTURE_LIVE_ELIGIBILITY then
          Refused(strategy, "future_live_context_incomplete")
        else Validated(d, None)
  }

  /** Passes every check that does not depend on the verdict. */
  predicate Admissible(raw: Json, strategy: string, p: Policy) {
    && raw.Object?
    && !HasProhibitedKey(raw) && !HasSecret(raw, p.secrets) && !p.mentionsExternalFact(raw)
    && p.parse(raw).Some?
    && strategy in STRATEGIES
    && p.parse(raw).value.strategyTemplate == strategy
    && p.parse(raw).value.sufficiency == SUFFICIENT
  }

  predicate ContextComplete(c: Context) {
    c.quoteFresh && (c.spreadRequired ==> c.spreadValidated)
  }

  /** Exactly which answers end as ELIGIBLE: admissible ones, confident enough, and, unless the mode is a
      historical replay, with a fresh quote and any required spread validated. */
  lemma EligibleIff(raw: Json, strategy: string, context: Context, p: Policy)
    ensures var v := Validate(raw, strategy, context, p);
      (v.Validated? && v.decision.verdict == ELIGIBLE)
      <==> (&& Admissible(raw, strategy, p)
            && p.parse(raw).value.verdict == ELIGIBLE
            && p.parse(raw).value.confidence >= p.minConfidence
            && (context.mode == HISTORICAL_REPLAY || ContextComplete(context)))
  {
    hide HasProhibitedKey, HasSecret, FirstOccurrences;
  }

  lemma InadmissibleIsRefused(raw: Json, strategy: string, context: Context, p: Policy)
    requires !Admissible(raw, strategy, p)
    ensures var v := Validate(raw, strategy, context, p);
      v.Validated? && v.error.Some? && v == Refused(strategy, v.error.value)
  {
    hide HasProhibitedKey, HasSecret, ContextWarnings, ShadowWatch, SafeReject;
  }

  lemma AdmissibleIsKeptOrRefused(raw: Json, strategy: string, context: Context, p: Policy)
    requires Admissible(raw, strategy, p)
    ensures var v, d := Validate(raw, strategy, context, p), p.parse(raw).value;
      || v == Validated(d, None)
      || v == ShadowWatch(d, ContextWarnings(context))
      || (v.Validated? && v.error.Some? && v == Refused(strategy, v.error.value))
  {
    hide HasProhibitedKey, HasSecret, ContextWarnings, ShadowWatch, SafeReject;
  }

  lemma ShadowWatchMeetsSchema(d: Decision, warnings: seq<string>)
    requires MeetsSchema(d)
    ensures var v := ShadowWatch(d, warnings);
      v.Validated? ==>
        && MeetsSchema(v.decision) && v.error.None?
        && v.decision.strategyTemplate == d.strategyTemplate && v.decision.sufficiency == d.sufficiency
  {
    hide FirstOccurrences;
  }

  /** An error code always comes with a rejection of no confidence; without one the strategy is the signal's and
      the data are sufficient. */
  lemma FailureMeansReject(raw: Json, strategy: string, context: Context, p: Policy)
    requires ValidPolicy(p) && Validate(raw, strategy, context, p).Validated?
    ensures var v := Validate(raw, strategy, context, p);
      && MeetsSchema(v.decision)
      && v.decision.strategyTemplate == strategy
      && (v.error.Some? ==> v.decision.verdict == REJECT && v.decision.confidence == 0.0)
      && (v.error.None? ==> v.decision.sufficiency == SUFFICIENT && Admissible(raw, strategy, p))
  {
    hide Validate, HasProhibitedKey, HasSecret, ContextWarnings, ShadowWatch, MeetsSchema;
    if Admissible(raw, strategy, p) {
      AdmissibleIsKeptOrRefused(raw, strategy, context, p);
      ShadowWatchMeetsSchema(p.parse(raw).value, ContextWarnings(context));
    } else {
      InadmissibleIsRefused(raw, strategy, context, p);
    }
  }

  /** In live shadow an eligible answer over an incomplete context is kept as a watch that carries the answer's
      own warnings and the missing facts, once each, or, when those are more than twenty, raises. */
  lemma ShadowDowngrade(raw: Json, strategy: string, context: Context, p: Policy)
    requires Admissible(raw, strategy, p) && p.parse(raw).value.verdict == ELIGIBLE
    requires p.parse(raw).value.confidence >= p.minConfidence
    requires context.mode == LIVE_SHADOW && !ContextComplete(context)
    ensures var v, d := Validate(raw, strategy, context, p), p.parse(raw).value;
      && (v.Raised? <==> |FirstOccurrences(d.warnings + ContextWarnings(context))| > MAX_NOTES)
      && (v.Validated? ==>
            && v.error.None? && v.decision.verdict == WATCH
            && v.decision.reasons == d.reasons && v.decision.confidence == d.confidence
            && forall w :: w in v.decision.warnings <==> w in d.warnings || w in ContextWarnings(context))
  {
    hide HasProhibitedKey, HasSecret, FirstOccurrences;
    FirstOccurrencesAreUnique(p.parse(raw).value.warnings + ContextWarnings(context));
  }

  /** Nothing else raises. */
  lemma RaisesOnlyInShadow(raw: Json, strategy: string, context: Context, p: Policy)
    requires Validate(raw, strategy, context, p).Raised?
    ensures context.mode == LIVE_SHADOW && !ContextComplete(context) && Admissible(raw, strategy, p)
    ensures |p.parse(raw).value.warnings + ContextWarnings(context)| > MAX_NOTES
  {
    hide HasProhibitedKey, HasSecret;
    FirstOccurrencesNoLonger(p.parse(raw).value.warnings + ContextWarnings(context));
  }
}
