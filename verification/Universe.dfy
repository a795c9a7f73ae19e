// Selecting the trading universe: a messy pool of symbols is classified, scored, ranked and cut.

module UniversePool {
  import opened Options
  import opened Collections
  import opened Ordering
  import opened TextOrder
  import Text

  // ----- parsing

  datatype Entry = Entry(exchange: string, name: string)

  /** Position of the first colon, or the length when there is none. */
  function FirstColon(s: string): (i: nat)
    ensures i <= |s| && forall k :: 0 <= k < i ==> s[k] != ':'
    ensures i < |s| ==> s[i] == ':'
  {
    if s == [] || s[0] == ':' then 0 else 1 + FirstColon(s[1..])
  }

  function Clean(s: string): string {
    Text.Upper(Text.Strip(s))
  }

  /** EXCHANGE:TRADINGSYMBOL with exactly one colon and neither part blank. */
  function Parse(raw: string): Option<Entry> {
    var i := FirstColon(raw);
    if i == |raw| || ':' in raw[i + 1..] then None
    else
      var exchange, name := Clean(raw[..i]), Clean(raw[i + 1..]);
      if exchange == "" || name == "" then None else Some(Entry(exchange, name))
  }

  function KeyText(e: Entry): string {
    e.exchange + ":" + e.name
  }

  predicate PlainChar(c: char) {
    'A' <= c <= 'Z' || '0' <= c <= '9'
  }

  predicate Plain(name: string) {
    name != "" && forall i :: 0 <= i < |name| ==> PlainChar(name[i])
  }

  predicate NotNse(key: string) {
    Parse(key).Some? && Parse(key).value.exchange != "NSE"
  }

  predicate Special(key: string) {
    Parse(key).Some? && !Plain(Parse(key).value.name)
  }

  lemma {:induction false} StripKeepsMembers(s: string, c: char)
    requires c !in s
    ensures c !in Text.Strip(s)
  {
    if s == [] {
    } else if Text.IsSpace(s[0]) {
      StripKeepsMembers(s[1..], c);
    } else if Text.IsSpace(s[|s| - 1]) {
      StripKeepsMembers(s[..|s| - 1], c);
    }
  }

  lemma CleanIsClean(s: string)
    requires ':' !in s
    ensures ':' !in Clean(s)
    ensures Clean(Clean(s)) == Clean(s)
  {
    StripKeepsMembers(s, ':');
    var stripped := Text.Strip(s);
    var clean := Clean(s);
    assert forall i :: 0 <= i < |clean| ==> clean[i] == Text.UpperChar(stripped[i]);
    assert forall c: char :: Text.UpperChar(c) == ':' ==> c == ':';
    if clean != [] {
      assert !Text.IsSpace(clean[0]) && !Text.IsSpace(clean[|clean| - 1]);
    }
    assert Text.Strip(clean) == clean;
    assert Text.Upper(clean) == clean;
  }

  lemma ColonAfter(a: string, b: string)
    requires ':' !in a
    ensures FirstColon(a + ":" + b) == |a|
  {
    var s := a + ":" + b;
    assert s[|a|] == ':';
    assert forall k :: 0 <= k < |a| ==> s[k] == a[k] && a[k] in a;
  }

  /** A key is its own key, so keys determine exchange and name, and no unparseable entry equals a key. */
  lemma KeyParsesToItself(raw: string)
    requires Parse(raw).Some?
    ensures Parse(KeyText(Parse(raw).value)) == Parse(raw)
  {
    hide Clean;
    var i := FirstColon(raw);
    var e := Parse(raw).value;
    assert ':' !in raw[..i];
    CleanIsClean(raw[..i]);
    CleanIsClean(raw[i + 1..]);
    ColonAfter(e.exchange, e.name);
    var key := KeyText(e);
    assert key[..|e.exchange|] == e.exchange && key[|e.exchange| + 1..] == e.name;
  }

  // ----- classification

  /** The keys of the well-formed entries, in order. */
  function Keys(entries: seq<string>): seq<string> {
    if entries == [] then []
    else
      var last := Parse(entries[|entries| - 1]);
      Keys(entries[..|entries| - 1]) + (if last.Some? then [KeyText(last.value)] else [])
  }

  predicate Malformed(raw: string) {
    Parse(raw).None?
  }

  /** The values met before, each time they are met again. */
  function Repeats(values: seq<string>): seq<string> {
    if values == [] then []
    else
      var rest, last := values[..|values| - 1], values[|values| - 1];
      Repeats(rest) + (if last in rest then [last] else [])
  }

  /** `sorted(set(values))`. */
  function SortedSet(values: seq<string>): (r: seq<string>)
    ensures multiset(r) == multiset(FirstOccurrences(values))
  {
    Sort(TextLe, FirstOccurrences(values))
  }

  datatype PoolSettings = PoolSettings(excludeSpecial: bool, requireActive: bool, maxPool: int)

  datatype Validation = Validation(
    normalized: seq<string>,
    invalid: seq<string>,
    duplicates: seq<string>,
    nonNse: seq<string>,
    special: seq<string>,
    active: seq<string>,
    missing: seq<string>,
    inactive: seq<string>,
    eligible: seq<string>)

  function Syntactic(normalized: seq<string>, nonNse: seq<string>, special: seq<string>, settings: PoolSettings)
    : seq<string>
  {
    Filter(key => key !in nonNse && !(settings.excludeSpecial && key in special), normalized)
  }

  /** `instruments` says, for every known key, whether it is active. */
  function Classified(entries: seq<string>, instruments: map<string, bool>, settings: PoolSettings): Validation {
    var keys := Keys(entries);
    var normalized := FirstOccurrences(keys);
    var nonNse, special := SortedSet(Filter(NotNse, keys)), SortedSet(Filter(Special, keys));
    var syntactic := Syntactic(normalized, nonNse, special, settings);
    var missing := Sort(TextLe, Filter(key => key !in instruments, syntactic));
    var inactive := Sort(TextLe, Filter(key => key in instruments && !instruments[key], syntactic));
    var active := Sort(TextLe, Filter(key => key in instruments && instruments[key], syntactic));
    Validation(
      normalized, Filter(Malformed, entries), SortedSet(Repeats(keys)), nonNse, special, active, missing, inactive,
      Filter(key => key !in missing && (!settings.requireActive || key !in inactive), syntactic))
  }

  datatype PoolError =
    | PoolFileUnreadable
    | PoolEmpty
    | EntriesMalformed
    | DuplicateSymbol
    | OnlyNseSupported
    | SpecialSymbolsExcluded
    | PoolExceedsMaximum
    | SymbolsNotSynced
    | SymbolsInactive

  /** Where the entries came from, with what loading them reported. */
  datatype PoolSource = PoolSource(entries: seq<string>, errors: seq<PoolError>, warnings: seq<string>)

  datatype PoolReport = PoolReport(
    lists: Validation, configuredCount: nat, overLimit: bool, errors: seq<PoolError>, warnings: seq<string>)

  predicate OverLimit(entries: seq<string>, settings: PoolSettings) {
    settings.maxPool < 1 || |entries| > settings.maxPool
  }

  /** What each error means. */
  predicate Applies(e: PoolError, source: PoolSource, v: Validation, settings: PoolSettings) {
    match e
    case PoolFileUnreadable => false
    case PoolEmpty => source.entries == []
    case EntriesMalformed => v.invalid != []
    case DuplicateSymbol => v.duplicates != []
    case OnlyNseSupported => v.nonNse != []
    case SpecialSymbolsExcluded => v.special != [] && settings.excludeSpecial
    case PoolExceedsMaximum => OverLimit(source.entries, settings)
    case SymbolsNotSynced => v.missing != []
    case SymbolsInactive => v.inactive != [] && settings.requireActive
  }

  const REPORTED: seq<PoolError> :=
    [PoolEmpty, EntriesMalformed, DuplicateSymbol, OnlyNseSupported, SpecialSymbolsExcluded, PoolExceedsMaximum,
     SymbolsNotSynced, SymbolsInactive]

  /** The loading errors, then those that apply, each once. */
  function Errors(source: PoolSource, v: Validation, settings: PoolSettings): seq<PoolError> {
    FirstOccurrences(source.errors + Filter(e => Applies(e, source, v, settings), REPORTED))
  }

  function Reported(source: PoolSource, instruments: map<string, bool>, settings: PoolSettings): PoolReport {
    var v := Classified(source.entries, instruments, settings);
    PoolReport(
      v, |source.entries|, OverLimit(source.entries, settings), Errors(source, v, settings),
      FirstOccurrences(source.warnings))
  }

  /** An error is reported iff loading reported it or its condition holds; none is reported twice. */
  lemma ErrorsAreExact(source: PoolSource, v: Validation, settings: PoolSettings)
    ensures NoDuplicates(Errors(source, v, settings))
    ensures forall e: PoolError ::
      e in Errors(source, v, settings) <==> e in source.errors || Applies(e, source, v, settings)
  {
    hide Applies, FirstOccurrences, Filter;
    var applying := Filter(e => Applies(e, source, v, settings), REPORTED);
    FirstOccurrencesAreUnique(source.errors + applying);
    FilterMembers(e => Applies(e, source, v, settings), REPORTED);
    forall e: PoolError ensures Applies(e, source, v, settings) ==> e in REPORTED {
      ApplyingIsReported(e, source, v, settings);
    }
  }

  lemma ApplyingIsReported(e: PoolError, source: PoolSource, v: Validation, settings: PoolSettings)
    ensures Applies(e, source, v, settings) ==> e in REPORTED
  {
    assert REPORTED[0] == PoolEmpty && REPORTED[1] == EntriesMalformed && REPORTED[2] == DuplicateSymbol;
    assert REPORTED[3] == OnlyNseSupported && REPORTED[4] == SpecialSymbolsExcluded;
    assert REPORTED[5] == PoolExceedsMaximum && REPORTED[6] == SymbolsNotSynced && REPORTED[7] == SymbolsInactive;
  }

  /** The errors among the first `k`, in order. */
  ghost function ErrorsUpto(k: nat, source: PoolSource, v: Validation, settings: PoolSettings): seq<PoolError>
    requires k <= 8
  {
    source.errors + Filter(e => Applies(e, source, v, settings), REPORTED[..k])
  }

  lemma ErrorsStep(k: nat, e: PoolError, source: PoolSource, v: Validation, settings: PoolSettings)
    requires k < 8 && REPORTED[k] == e
    ensures ErrorsUpto(k + 1, source, v, settings)
         == if Applies(e, source, v, settings) then ErrorsUpto(k, source, v, settings) + [e]
            else ErrorsUpto(k, source, v, settings)
  {
    hide Applies;
    assert REPORTED[..k + 1][..k] == REPORTED[..k];
  }

  lemma ErrorsEnds(source: PoolSource, v: Validation, settings: PoolSettings)
    ensures ErrorsUpto(0, source, v, settings) == source.errors
    ensures FirstOccurrences(ErrorsUpto(8, source, v, settings)) == Errors(source, v, settings)
  {
    hide Applies, FirstOccurrences;
    assert REPORTED[..8] == REPORTED && REPORTED[..0] == [];
  }

  lemma ErrorsSteps(source: PoolSource, v: Validation, settings: PoolSettings)
    ensures var before := ErrorsUpto(0, source, v, settings);
      ErrorsUpto(1, source, v, settings) == if source.entries == [] then before + [PoolEmpty] else before
    ensures var before := ErrorsUpto(1, source, v, settings);
      ErrorsUpto(2, source, v, settings) == if v.invalid != [] then before + [EntriesMalformed] else before
    ensures var before := ErrorsUpto(2, source, v, settings);
      ErrorsUpto(3, source, v, settings) == if v.duplicates != [] then before + [DuplicateSymbol] else before
    ensures var before := ErrorsUpto(3, source, v, settings);
      ErrorsUpto(4, source, v, settings) == if v.nonNse != [] then before + [OnlyNseSupported] else before
    ensures var before := ErrorsUpto(4, source, v, settings);
      ErrorsUpto(5, source, v, settings) == if v.special != [] && settings.excludeSpecial
        then before + [SpecialSymbolsExcluded] else before
    ensures var before := ErrorsUpto(5, source, v, settings);
      ErrorsUpto(6, source, v, settings) == if settings.maxPool < 1 || |source.entries| > settings.maxPool
        then before + [PoolExceedsMaximum] else before
    ensures var before := ErrorsUpto(6, source, v, settings);
      ErrorsUpto(7, source, v, settings) == if v.missing != [] then before + [SymbolsNotSynced] else before
    ensures var before := ErrorsUpto(7, source, v, settings);
      ErrorsUpto(8, source, v, settings) == if v.inactive != [] && settings.requireActive
        then before + [SymbolsInactive] else before
  {
    hide ErrorsUpto;
    ErrorsStep(0, PoolEmpty, source, v, settings);
    ErrorsStep(1, EntriesMalformed, source, v, settings);
    ErrorsStep(2, DuplicateSymbol, source, v, settings);
    ErrorsStep(3, OnlyNseSupported, source, v, settings);
    ErrorsStep(4, SpecialSymbolsExcluded, source, v, settings);
    ErrorsStep(5, PoolExceedsMaximum, source, v, settings);
    ErrorsStep(6, SymbolsNotSynced, source, v, settings);
    ErrorsStep(7, SymbolsInactive, source, v, settings);
  }

  /** Collects the errors of the parsed lists. */
  method CollectErrors(source: PoolSource, v: Validation, settings: PoolSettings) returns (errors: seq<PoolError>)
    ensures errors == Errors(source, v, settings)
  {
    hide ErrorsUpto, FirstOccurrences, Errors;
    ErrorsSteps(source, v, settings);
    ErrorsEnds(source, v, settings);
    errors := source.errors;
    if source.entries == [] {
      errors := errors + [PoolEmpty];
    }
    assert errors == ErrorsUpto(1, source, v, settings);
    if v.invalid != [] {
      errors := errors + [EntriesMalformed];
    }
    assert errors == ErrorsUpto(2, source, v, settings);
    if v.duplicates != [] {
      errors := errors + [DuplicateSymbol];
    }
    assert errors == ErrorsUpto(3, source, v, settings);
    if v.nonNse != [] {
      errors := errors + [OnlyNseSupported];
    }
    assert errors == ErrorsUpto(4, source, v, settings);
    if v.special != [] && settings.excludeSpecial {
      errors := errors + [SpecialSymbolsExcluded];
    }
    assert errors == ErrorsUpto(5, source, v, settings);
    if settings.maxPool < 1 || |source.entries| > settings.maxPool {
      errors := errors + [PoolExceedsMaximum];
    }
    assert errors == ErrorsUpto(6, source, v, settings);
    if v.missing != [] {
      errors := errors + [SymbolsNotSynced];
    }
    assert errors == ErrorsUpto(7, source, v, settings);
    if v.inactive != [] && settings.requireActive {
      errors := errors + [SymbolsInactive];
    }
    assert errors == ErrorsUpto(8, source, v, settings);
    errors := Unique(errors);
  }

  /** The whole validation. */
  method Validate(source: PoolSource, instruments: map<string, bool>, settings: PoolSettings)
    returns (report: PoolReport)
    ensures report == Reported(source, instruments, settings)
  {
    hide Classified, Errors, FirstOccurrences;
    var v := Classify(source.entries, instruments, settings);
    var errors := CollectErrors(source, v, settings);
    var warnings := Unique(source.warnings);
    report := PoolReport(v, |source.entries|, OverLimit(source.entries, settings), errors, warnings);
  }

  /** The parsing loop, then the eligibility lists. */
  method Classify(entries: seq<string>, instruments: map<string, bool>, settings: PoolSettings)
    returns (v: Validation)
    ensures v == Classified(entries, instruments, settings)
  {
    hide Parse, KeyText, Plain, FirstOccurrences, Filter, Repeats;
    Empties();
    var normalized: seq<string>, invalid: seq<string>, duplicates: seq<string> := [], [], [];
    var nonNse: seq<string>, special: seq<string> := [], [];
    var seen: set<string> := {};
    for i := 0 to |entries|
      invariant forall key :: key in seen <==> key in Keys(entries[..i])
      invariant normalized == FirstOccurrences(Keys(entries[..i]))
      invariant invalid == Filter(Malformed, entries[..i])
      invariant duplicates == Repeats(Keys(entries[..i]))
      invariant nonNse == Filter(NotNse, Keys(entries[..i]))
      invariant special == Filter(Special, Keys(entries[..i]))
    {
      var entry := Parse(entries[i]);
      EntryGrows(entries, i);
      if entry.None? {
        invalid := invalid + [entries[i]];
        continue;
      }
      var key := KeyText(entry.value);
      KeyParsesToItself(entries[i]);
      KeyGrows(Keys(entries[..i]), key);
      if entry.value.exchange != "NSE" {
        nonNse := nonNse + [key];
      }
      if !Plain(entry.value.name) {
        special := special + [key];
      }
      if key in seen {
        duplicates := duplicates + [key];
      } else {
        seen := seen + {key};
        normalized := normalized + [key];
      }
    }
    assert entries[..|entries|] == entries;
    nonNse, special := SortedSet(nonNse), SortedSet(special);
    var syntactic := Syntactic(normalized, nonNse, special, settings);
    var missing := Sort(TextLe, Filter(key => key !in instruments, syntactic));
    var inactive := Sort(TextLe, Filter(key => key in instruments && !instruments[key], syntactic));
    var active := Sort(TextLe, Filter(key => key in instruments && instruments[key], syntactic));
    var eligible := Filter(key => key !in missing && (!settings.requireActive || key !in inactive), syntactic);
    v := Validation(
      normalized, invalid, SortedSet(duplicates), nonNse, special, active, missing, inactive, eligible);
  }

  lemma Empties()
    ensures FirstOccurrences<string>([]) == [] && Repeats([]) == []
    ensures Filter(Malformed, []) == [] && Filter(NotNse, []) == [] && Filter(Special, []) == []
  {
  }

  lemma EntryGrows(entries: seq<string>, i: nat)
    requires i < |entries|
    ensures var parsed := Parse(entries[i]);
      Keys(entries[..i + 1])
      == (if parsed.Some? then Keys(entries[..i]) + [KeyText(parsed.value)] else Keys(entries[..i]))
    ensures Filter(Malformed, entries[..i + 1])
         == Filter(Malformed, entries[..i]) + (if Parse(entries[i]).None? then [entries[i]] else [])
  {
    hide Parse, KeyText;
    assert entries[..i + 1][..i] == entries[..i];
  }

  lemma KeyGrows(keys: seq<string>, key: string)
    ensures FirstOccurrences(keys + [key]) == FirstOccurrences(keys) + (if key in keys then [] else [key])
    ensures Repeats(keys + [key]) == Repeats(keys) + (if key in keys then [key] else [])
    ensures Filter(NotNse, keys + [key]) == Filter(NotNse, keys) + (if NotNse(key) then [key] else [])
    ensures Filter(Special, keys + [key]) == Filter(Special, keys) + (if Special(key) then [key] else [])
  {
    hide NotNse, Special;
    assert (keys + [key])[..|keys|] == keys;
  }

  // ----- what classification means

  lemma SortedSetMembers(values: seq<string>)
    ensures forall x :: x in SortedSet(values) <==> x in values
    ensures NoDuplicates(SortedSet(values)) && SortedBy(TextLe, SortedSet(values))
  {
    FirstOccurrencesAreUnique(values);
    SameMultisetSameMembers(SortedSet(values), FirstOccurrences(values));
    RearrangedUnique(FirstOccurrences(values), SortedSet(values));
    TextIsOrdered();
    SortSorts(TextLe, FirstOccurrences(values));
  }

  lemma SortedFilter(p: string -> bool, values: seq<string>)
    ensures forall x :: x in Sort(TextLe, Filter(p, values)) <==> x in values && p(x)
  {
    TextIsOrdered();
    SortSorts(TextLe, Filter(p, values));
    FilterMembers(p, values);
  }

  lemma {:induction false} KeysAreParsed(entries: seq<string>)
    ensures forall key :: key in Keys(entries) <==>
      exists i :: 0 <= i < |entries| && Parse(entries[i]).Some? && KeyText(Parse(entries[i]).value) == key
    ensures forall key :: key in Keys(entries) ==> Parse(key).Some?
  {
    hide Parse, KeyText;
    if entries != [] {
      var n := |entries| - 1;
      KeysAreParsed(entries[..n]);
      forall i | 0 <= i < |entries| && Parse(entries[i]).Some?
        ensures KeyText(Parse(entries[i]).value) in Keys(entries)
      {
        if i < n {
          assert entries[..n][i] == entries[i];
        }
      }
      forall key | key in Keys(entries)
        ensures exists i :: 0 <= i < |entries| && Parse(entries[i]).Some? && KeyText(Parse(entries[i]).value) == key
      {
        if key in Keys(entries[..n]) {
          var i :| 0 <= i < n && Parse(entries[..n][i]).Some? && KeyText(Parse(entries[..n][i]).value) == key;
          assert entries[i] == entries[..n][i];
        }
      }
      if Parse(entries[n]).Some? {
        KeyParsesToItself(entries[n]);
      }
    }
  }

  /** The lists a validation fills, said member by member. */
  ghost predicate ListsAreExact(v: Validation, instruments: map<string, bool>, settings: PoolSettings) {
    && NoDuplicates(v.normalized) && NoDuplicates(v.eligible)
    && (forall key :: key in v.nonNse <==> key in v.normalized && NotNse(key))
    && (forall key :: key in v.special <==> key in v.normalized && Special(key))
    && (forall key :: key in v.missing <==> Candidate(v, settings, key) && key !in instruments)
    && (forall key :: key in v.inactive <==> Candidate(v, settings, key) && key in instruments && !instruments[key])
    && (forall key :: key in v.active <==> Candidate(v, settings, key) && key in instruments && instruments[key])
    && (forall key :: key in v.eligible <==>
          Candidate(v, settings, key) && key in instruments && (settings.requireActive ==> instruments[key]))
  }

  predicate Candidate(v: Validation, settings: PoolSettings, key: string) {
    key in v.normalized && !NotNse(key) && !(settings.excludeSpecial && Special(key))
  }

  lemma SyntacticMembers(entries: seq<string>, instruments: map<string, bool>, settings: PoolSettings, key: string)
    ensures var v := Classified(entries, instruments, settings);
      && (key in v.normalized <==> key in Keys(entries))
      && (key in v.nonNse <==> key in Keys(entries) && NotNse(key))
      && (key in v.special <==> key in Keys(entries) && Special(key))
      && (key in Syntactic(v.normalized, v.nonNse, v.special, settings) <==> Candidate(v, settings, key))
  {
    hide NotNse, Special, Keys, Filter, SortedSet, FirstOccurrences;
    var v := Classified(entries, instruments, settings);
    var keys := Keys(entries);
    FirstOccurrencesAreUnique(keys);
    FilterMembers(NotNse, keys);
    FilterMembers(Special, keys);
    SortedSetMembers(Filter(NotNse, keys));
    SortedSetMembers(Filter(Special, keys));
    FilterMembers(x => x !in v.nonNse && !(settings.excludeSpecial && x in v.special), v.normalized);
  }

  /** Every list of the validation holds exactly the keys it is named after. */
  lemma ClassificationIsExact(entries: seq<string>, instruments: map<string, bool>, settings: PoolSettings)
    ensures ListsAreExact(Classified(entries, instruments, settings), instruments, settings)
    ensures forall key :: key in Classified(entries, instruments, settings).normalized <==> key in Keys(entries)
    ensures forall raw :: raw in Classified(entries, instruments, settings).invalid <==> raw in entries && Malformed(raw)
  {
    hide NotNse, Special, Keys, Filter, SortedSet, FirstOccurrences, Malformed, Sort, Syntactic, Candidate;
    var v := Classified(entries, instruments, settings);
    forall key
      ensures key in v.normalized <==> key in Keys(entries)
      ensures key in v.nonNse <==> key in v.normalized && NotNse(key)
      ensures key in v.special <==> key in v.normalized && Special(key)
      ensures key in Syntactic(v.normalized, v.nonNse, v.special, settings) <==> Candidate(v, settings, key)
    {
      SyntacticMembers(entries, instruments, settings, key);
    }
    var syntactic := Syntactic(v.normalized, v.nonNse, v.special, settings);
    SortedFilter(key => key !in instruments, syntactic);
    SortedFilter(key => key in instruments && !instruments[key], syntactic);
    SortedFilter(key => key in instruments && instruments[key], syntactic);
    FilterMembers(key => key !in v.missing && (!settings.requireActive || key !in v.inactive), syntactic);
    FilterMembers(Malformed, entries);
    EligibleIsUnique(entries, instruments, settings);
  }

  lemma EligibleIsUnique(entries: seq<string>, instruments: map<string, bool>, settings: PoolSettings)
    ensures var v := Classified(entries, instruments, settings);
      NoDuplicates(v.normalized) && NoDuplicates(v.eligible)
  {
    hide Filter, SortedSet, FirstOccurrences, Keys, Sort;
    var v := Classified(entries, instruments, settings);
    FirstOccurrencesAreUnique(Keys(entries));
    FilterKeepsUnique(key => key !in v.nonNse && !(settings.excludeSpecial && key in v.special), v.normalized);
    var syntactic := Syntactic(v.normalized, v.nonNse, v.special, settings);
    FilterKeepsUnique(key => key !in v.missing && (!settings.requireActive || key !in v.inactive), syntactic);
  }

  /** No malformed entry is the key of a well-formed one. */
  lemma MalformedIsNoKey(entries: seq<string>, instruments: map<string, bool>, settings: PoolSettings, x: string)
    ensures var v := Classified(entries, instruments, settings);
      !(x in v.normalized && x in v.invalid)
  {
    ClassificationIsExact(entries, instruments, settings);
    KeysAreParsed(entries);
  }
}

module UniverseSelection {
  import opened Options
  import opened Collections
  import opened Ordering
  import opened TextOrder
  import opened UniversePool
  import Text

  datatype Reason =
    | MissingInstrument
    | InactiveInstrument
    | SpecialCharacterSymbol
    | InvalidFormatSymbol
    | NonNseSymbol
    | Scoring(detail: string)

  /** What scoring a symbol's candles yields; the value is opaque, only its order matters. */
  datatype Score = Score(total: real, included: bool, exclusions: seq<string>)

  datatype SymbolResult = SymbolResult(
    symbol: string, rank: Option<nat>, total: real, included: bool, reasons: seq<Reason>)

  // ----- exclusions

  /** `reason` once per occurrence of `x`. */
  function Copies(reason: Reason, symbols: seq<string>, x: string): (r: seq<Reason>)
    ensures r != [] <==> x in symbols
  {
    if symbols == [] then []
    else
      var rest := Copies(reason, symbols[..|symbols| - 1], x);
      assert symbols == symbols[..|symbols| - 1] + [symbols[|symbols| - 1]];
      if symbols[|symbols| - 1] == x then rest + [reason] else rest
  }

  function ReasonsFor(v: Validation, x: string): seq<Reason> {
    Copies(MissingInstrument, v.missing, x) + Copies(InactiveInstrument, v.inactive, x)
    + Copies(SpecialCharacterSymbol, v.special, x) + Copies(InvalidFormatSymbol, v.invalid, x)
    + Copies(NonNseSymbol, v.nonNse, x)
  }

  function ExcludedSymbols(v: Validation): seq<string> {
    SortedSet(v.missing + v.inactive + v.special + v.invalid + v.nonNse)
  }

  function Exclusion(v: Validation, x: string): SymbolResult {
    SymbolResult(x, None, 0.0, false, ReasonsFor(v, x))
  }

  function Exclusions(v: Validation): (r: seq<SymbolResult>)
    ensures |r| == |ExcludedSymbols(v)|
  {
    var symbols := ExcludedSymbols(v);
    seq(|symbols|, i requires 0 <= i < |symbols| => Exclusion(v, symbols[i]))
  }

  /** A Python dict of reasons: its keys in insertion order, and what they map to. */
  datatype Dict = Dict(order: seq<string>, reasons: map<string, seq<Reason>>)

  const EMPTY := Dict([], map[])

  function Get(d: Dict, x: string): seq<Reason> {
    if x in d.reasons then d.reasons[x] else []
  }

  /** The keys are the symbols `added` so far, in the order of their first appearance. */
  ghost predicate Holds(d: Dict, added: seq<string>) {
    && d.order == FirstOccurrences(added)
    && forall x :: x in d.reasons <==> x in added
  }

  /** `setdefault(x, []).append(reason)`. */
  function Append(d: Dict, x: string, reason: Reason): Dict {
    Dict(if x in d.reasons then d.order else d.order + [x], d.reasons[x := Get(d, x) + [reason]])
  }

  lemma AppendHolds(d: Dict, added: seq<string>, x: string, reason: Reason)
    requires Holds(d, added)
    ensures Holds(Append(d, x, reason), added + [x])
    ensures forall y :: Get(Append(d, x, reason), y) == (if y == x then Get(d, y) + [reason] else Get(d, y))
  {
    assert (added + [x])[..|added|] == added;
  }

  lemma CopiesGrow(reason: Reason, symbols: seq<string>, i: nat, x: string)
    requires i < |symbols|
    ensures Copies(reason, symbols[..i + 1], x)
         == (if symbols[i] == x then Copies(reason, symbols[..i], x) + [reason] else Copies(reason, symbols[..i], x))
  {
    assert symbols[..i + 1][..i] == symbols[..i];
  }

  /** Appends `reason` for every symbol of one list. */
  method AddReasons(d: Dict, symbols: seq<string>, reason: Reason, ghost added: seq<string>) returns (r: Dict)
    requires Holds(d, added)
    ensures Holds(r, added + symbols)
    ensures forall x :: Get(r, x) == Get(d, x) + Copies(reason, symbols, x)
  {
    hide Holds, Get, Append, Copies;
    r := d;
    assert added + symbols[..0] == added;
    NoCopies(reason, symbols[..0]);
    for i := 0 to |symbols|
      invariant Holds(r, added + symbols[..i])
      invariant forall x :: Get(r, x) == Get(d, x) + Copies(reason, symbols[..i], x)
    {
      AppendHolds(r, added + symbols[..i], symbols[i], reason);
      assert (added + symbols[..i]) + [symbols[i]] == added + symbols[..i + 1];
      forall x ensures Get(Append(r, symbols[i], reason), x) == Get(d, x) + Copies(reason, symbols[..i + 1], x) {
        CopiesGrow(reason, symbols, i, x);
      }
      r := Append(r, symbols[i], reason);
    }
    assert symbols[..|symbols|] == symbols;
  }

  lemma NoCopies(reason: Reason, symbols: seq<string>)
    requires symbols == []
    ensures forall x :: Copies(reason, symbols, x) == []
  {
  }

  lemma EmptyHolds()
    ensures Holds(EMPTY, []) && forall x :: Get(EMPTY, x) == []
  {
  }

  /** Collects the reasons of five lists by symbol. */
  method CollectReasons(v: Validation) returns (d: Dict)
    ensures Holds(d, v.missing + v.inactive + v.special + v.invalid + v.nonNse)
    ensures forall x :: Get(d, x) == ReasonsFor(v, x)
  {
    hide Holds, Get, Copies;
    EmptyHolds();
    d := AddReasons(EMPTY, v.missing, MissingInstrument, []);
    assert [] + v.missing == v.missing;
    d := AddReasons(d, v.inactive, InactiveInstrument, v.missing);
    d := AddReasons(d, v.special, SpecialCharacterSymbol, v.missing + v.inactive);
    d := AddReasons(d, v.invalid, InvalidFormatSymbol, v.missing + v.inactive + v.special);
    d := AddReasons(d, v.nonNse, NonNseSymbol, v.missing + v.inactive + v.special + v.invalid);
  }

  /** Then lists the symbols in order. */
  method ValidationExclusions(v: Validation) returns (r: seq<SymbolResult>)
    ensures r == Exclusions(v)
  {
    hide FirstOccurrences, Copies, ReasonsFor, Sort;
    var d := CollectReasons(v);
    var symbols := Sort(TextLe, d.order);
    assert symbols == ExcludedSymbols(v);
    SortedSetMembers(v.missing + v.inactive + v.special + v.invalid + v.nonNse);
    r := [];
    for i := 0 to |symbols|
      invariant |r| == i && r == Exclusions(v)[..i]
    {
      assert symbols[i] in ExcludedSymbols(v);
      assert Get(d, symbols[i]) == ReasonsFor(v, symbols[i]);
      r := r + [SymbolResult(symbols[i], None, 0.0, false, d.reasons[symbols[i]])];
    }
  }

  // ----- scoring, ranking, cutting

  /** Everything outside the pool: the known instruments, and what scoring a symbol yields, which depends on the
      symbol and on whether its instrument counts as active. */
  datatype Market = Market(instruments: map<string, bool>, benchmarkLoaded: bool, score: (string, bool) -> Score)

  function Details(exclusions: seq<string>): seq<Reason> {
    seq(|exclusions|, i requires 0 <= i < |exclusions| => Scoring(exclusions[i]))
  }

  function Scored(market: Market, v: Validation, x: string): SymbolResult {
    var score := market.score(x, x !in v.inactive);
    SymbolResult(x, None, score.total, score.included, Details(score.exclusions))
  }

  function ScoredResults(market: Market, v: Validation): (r: seq<SymbolResult>)
    ensures |r| == |v.eligible|
  {
    seq(|v.eligible|, i requires 0 <= i < |v.eligible| => Scored(market, v, v.eligible[i]))
  }

  /** Higher score first, then the symbol. */
  predicate Better(a: SymbolResult, b: SymbolResult) {
    a.total > b.total || (a.total == b.total && TextLe(a.symbol, b.symbol))
  }

  predicate Included(r: SymbolResult) {
    r.included
  }

  predicate NotIncluded(r: SymbolResult) {
    !r.included
  }

  function Ranked(results: seq<SymbolResult>): (r: seq<SymbolResult>)
    ensures forall i :: 0 <= i < |r| ==> r[i].rank == Some(i + 1)
  {
    var included := Sort(Better, Filter(Included, results));
    seq(|included|, i requires 0 <= i < |included| => included[i].(rank := Some(i + 1)))
  }

  datatype SelectionRun = SelectionRun(
    selected: seq<string>, ranked: seq<SymbolResult>, excluded: seq<SymbolResult>)

  /** A run as returned and stored. */
  datatype StoredRun = StoredRun(
    run: SelectionRun, poolCount: nat, scoredCount: nat, selectedCount: nat, errors: seq<PoolError>,
    warnings: seq<string>)

  function Symbols(results: seq<SymbolResult>): (r: seq<string>)
    ensures |r| == |results|
    ensures forall i :: 0 <= i < |results| ==> r[i] == results[i].symbol
  {
    seq(|results|, i requires 0 <= i < |results| => results[i].symbol)
  }

  function Results(entries: seq<string>, market: Market, settings: PoolSettings): seq<SymbolResult> {
    var v := Classified(entries, market.instruments, settings);
    Exclusions(v) + ScoredResults(market, v)
  }

  function Selection(
    entries: seq<string>, market: Market, settings: PoolSettings, limit: nat, includeExcluded: bool): SelectionRun
  {
    var results := Results(entries, market, settings);
    var ranked := Ranked(results);
    SelectionRun(
      Symbols(Take(ranked, limit)), ranked, if includeExcluded then Filter(NotIncluded, results) else [])
  }

  function StoredSelection(
    source: PoolSource, market: Market, settings: PoolSettings, limit: nat, includeExcluded: bool): StoredRun
  {
    var run := Selection(source.entries, market, settings, limit, includeExcluded);
    var report := Reported(source, market.instruments, settings);
    StoredRun(
      run, report.configuredCount, |run.ranked|, |run.selected|, report.errors,
      FirstOccurrences(report.warnings + (if market.benchmarkLoaded then [] else ["benchmark_missing"])))
  }

  datatype SelectionError = SelectionDisabled | UnsupportedTimeframe | InvalidLimit | InvalidCandles | InvalidPolicy

  datatype SelectionSettings = SelectionSettings(
    enabled: bool, pool: PoolSettings, timeframe: string, outputLimit: int, minCandles: int, stalePolicy: string,
    storeRuns: bool)

  datatype SelectionRequest = SelectionRequest(
    limit: Option<int>, timeframe: Option<string>, minCandles: Option<int>, stalePolicy: Option<string>,
    dryRun: bool, includeExcluded: bool)

  /** `value or default`, of a number. */
  function OrDefault(value: Option<int>, default: int): int {
    if value.None? || value.value == 0 then default else value.value
  }

  /** `value or default`, of a text. */
  function OrText(value: Option<string>, default: string): string {
    if value.None? || value.value == "" then default else value.value
  }

  /** The stale policy is compared without surrounding blanks and case. */
  function StalePolicy(settings: SelectionSettings, request: SelectionRequest): string {
    Text.Lower(Text.Strip(OrText(request.stalePolicy, settings.stalePolicy)))
  }

  function Refusal(settings: SelectionSettings, request: SelectionRequest): Option<SelectionError> {
    var limit := OrDefault(request.limit, settings.outputLimit);
    if !settings.enabled then Some(SelectionDisabled)
    else if OrText(request.timeframe, settings.timeframe) != "1minute" then Some(UnsupportedTimeframe)
    else if limit < 1 || limit > settings.pool.maxPool then Some(InvalidLimit)
    else if OrDefault(request.minCandles, settings.minCandles) < 1 then Some(InvalidCandles)
    else if StalePolicy(settings, request) !in {"exclude", "warn", "ignore"} then Some(InvalidPolicy)
    else None
  }

  lemma AcceptedLimit(settings: SelectionSettings, request: SelectionRequest)
    requires Refusal(settings, request).None?
    ensures 1 <= OrDefault(request.limit, settings.outputLimit) <= settings.pool.maxPool
  {
    hide StalePolicy;
  }

  class UniverseSelectionService {
    const settings: SelectionSettings
    var runs: seq<StoredRun>

    constructor (settings: SelectionSettings)
      ensures this.settings == settings && runs == []
    {
      this.settings, runs := settings, [];
    }

    /** Extends the exclusions by one result per eligible symbol. */
    method ScoreEligible(market: Market, v: Validation, exclusions: seq<SymbolResult>) returns (r: seq<SymbolResult>)
      ensures r == exclusions + ScoredResults(market, v)
    {
      hide Scored;
      r := exclusions;
      ghost var scored := ScoredResults(market, v);
      for i := 0 to |v.eligible|
        invariant r == exclusions + scored[..i]
      {
        r := r + [Scored(market, v, v.eligible[i])];
      }
      assert scored[..|scored|] == scored;
    }

    /** Exclude, score, rank, cut. */
    method SelectFrom(v: Validation, entries: seq<string>, market: Market, limit: nat, includeExcluded: bool)
      returns (run: SelectionRun)
      requires v == Classified(entries, market.instruments, settings.pool)
      ensures run == Selection(entries, market, settings.pool, limit, includeExcluded)
    {
      hide Classified, Exclusions, ScoredResults, Filter, Ranked, Symbols, Take;
      var results := ValidationExclusions(v);
      results := ScoreEligible(market, v, results);
      var ranked := Ranked(results);
      var chosen := Take(ranked, limit);
      var excluded := Filter(NotIncluded, results);
      run := SelectionRun(Symbols(chosen), ranked, if includeExcluded then excluded else []);
    }

    method Select(source: PoolSource, market: Market, request: SelectionRequest)
      returns (r: Result<StoredRun, SelectionError>)
      modifies this`runs
      ensures var refusal := Refusal(settings, request);
        var limit := OrDefault(request.limit, settings.outputLimit);
        && (refusal.Some? ==> r == Err(refusal.value) && runs == old(runs))
        && (refusal.None? ==>
              && limit >= 1
              && r == Ok(StoredSelection(source, market, settings.pool, limit, request.includeExcluded))
              && runs == old(runs) + (if settings.storeRuns && !request.dryRun then [r.value] else []))
    {
      hide Refusal, OrDefault, Selection, Classified, Errors, FirstOccurrences;
      var refusal := Refusal(settings, request);
      if refusal.Some? {
        return Err(refusal.value);
      }
      AcceptedLimit(settings, request);
      var report := Validate(source, market.instruments, settings.pool);
      var run := SelectFrom(
        report.lists, source.entries, market, OrDefault(request.limit, settings.outputLimit), request.includeExcluded);
      var warnings := Unique(report.warnings + (if market.benchmarkLoaded then [] else ["benchmark_missing"]));
      var stored := StoredRun(
        run, report.configuredCount, |run.ranked|, |run.selected|, report.errors, warnings);
      if settings.storeRuns && !request.dryRun {
        runs := runs + [stored];
      }
      r := Ok(stored);
    }
  }

  // ----- every entry once

  function Count(results: seq<SymbolResult>, x: string): nat {
    if results == [] then 0
    else Count(results[..|results| - 1], x) + (if results[|results| - 1].symbol == x then 1 else 0)
  }

  lemma {:induction false} CountConcatenates(a: seq<SymbolResult>, b: seq<SymbolResult>, x: string)
    ensures Count(a + b, x) == Count(a, x) + Count(b, x)
  {
    if b == [] {
      assert a + b == a;
    } else {
      CountConcatenates(a, b[..|b| - 1], x);
      assert (a + b)[..|a + b| - 1] == a + b[..|b| - 1];
    }
  }

  lemma CountAppend(s: seq<SymbolResult>, r: SymbolResult, x: string)
    ensures Count(s + [r], x) == Count(s, x) + (if r.symbol == x then 1 else 0)
  {
    assert (s + [r])[..|s|] == s;
  }

  lemma {:induction false} CountInsert(s: seq<SymbolResult>, r: SymbolResult, x: string)
    ensures Count(Insert(Better, s, r), x) == Count(s, x) + (if r.symbol == x then 1 else 0)
  {
    if s == [] || Better(s[|s| - 1], r) {
      CountAppend(s, r, x);
    } else {
      CountInsert(s[..|s| - 1], r, x);
      CountAppend(Insert(Better, s[..|s| - 1], r), s[|s| - 1], x);
    }
  }

  lemma {:induction false} CountSort(s: seq<SymbolResult>, x: string)
    ensures Count(Sort(Better, s), x) == Count(s, x)
  {
    if s != [] {
      CountSort(s[..|s| - 1], x);
      CountInsert(Sort(Better, s[..|s| - 1]), s[|s| - 1], x);
    }
  }

  lemma {:induction false} CountSameSymbols(a: seq<SymbolResult>, b: seq<SymbolResult>, x: string)
    requires |a| == |b| && forall i :: 0 <= i < |a| ==> a[i].symbol == b[i].symbol
    ensures Count(a, x) == Count(b, x)
  {
    if a != [] {
      CountSameSymbols(a[..|a| - 1], b[..|b| - 1], x);
    }
  }

  lemma FilterGrows(p: SymbolResult -> bool, results: seq<SymbolResult>, k: nat)
    requires k < |results|
    ensures Filter(p, results[..k + 1])
         == if p(results[k]) then Filter(p, results[..k]) + [results[k]] else Filter(p, results[..k])
  {
    assert results[..k + 1][..k] == results[..k];
  }

  lemma CountGrows(results: seq<SymbolResult>, k: nat, x: string)
    requires k < |results|
    ensures Count(results[..k + 1], x) == Count(results[..k], x) + (if results[k].symbol == x then 1 else 0)
  {
    assert results[..k + 1][..k] == results[..k];
  }

  lemma NothingSplits(x: string)
    ensures Filter(Included, []) == [] && Filter(NotIncluded, []) == [] && Count([], x) == 0
  {
  }

  lemma {:induction false} CountSplitsUpto(results: seq<SymbolResult>, k: nat, x: string)
    requires k <= |results|
    ensures Count(Filter(Included, results[..k]), x) + Count(Filter(NotIncluded, results[..k]), x)
         == Count(results[..k], x)
  {
    hide Filter, Count;
    if k == 0 {
      NothingSplits(x);
    } else {
      CountSplitsUpto(results, k - 1, x);
      FilterGrows(Included, results, k - 1);
      FilterGrows(NotIncluded, results, k - 1);
      CountGrows(results, k - 1, x);
      CountAppend(Filter(Included, results[..k - 1]), results[k - 1], x);
      CountAppend(Filter(NotIncluded, results[..k - 1]), results[k - 1], x);
    }
  }

  lemma CountSplits(results: seq<SymbolResult>, x: string)
    ensures Count(Filter(Included, results), x) + Count(Filter(NotIncluded, results), x) == Count(results, x)
  {
    CountSplitsUpto(results, |results|, x);
    assert results[..|results|] == results;
  }

  lemma {:induction false} CountUnique(results: seq<SymbolResult>, symbols: seq<string>, x: string)
    requires |results| == |symbols| && forall i :: 0 <= i < |symbols| ==> results[i].symbol == symbols[i]
    requires NoDuplicates(symbols)
    ensures Count(results, x) == if x in symbols then 1 else 0
  {
    if symbols != [] {
      var n := |symbols| - 1;
      CountUnique(results[..n], symbols[..n], x);
      LastIsNew(symbols);
      assert symbols == symbols[..n] + [symbols[n]];
    }
  }

  lemma CountOfResults(entries: seq<string>, market: Market, settings: PoolSettings, x: string)
    ensures var v := Classified(entries, market.instruments, settings);
      Count(Results(entries, market, settings), x)
      == (if x in ExcludedSymbols(v) then 1 else 0) + (if x in v.eligible then 1 else 0)
  {
    hide Classified, Count, ReasonsFor;
    var v := Classified(entries, market.instruments, settings);
    CountConcatenates(Exclusions(v), ScoredResults(market, v), x);
    SortedSetMembers(v.missing + v.inactive + v.special + v.invalid + v.nonNse);
    CountUnique(Exclusions(v), ExcludedSymbols(v), x);
    EligibleIsUnique(entries, market.instruments, settings);
    CountUnique(ScoredResults(market, v), v.eligible, x);
  }

  lemma CountOfRun(results: seq<SymbolResult>, x: string)
    ensures Count(Ranked(results) + Filter(NotIncluded, results), x) == Count(results, x)
  {
    hide Count, Sort;
    var included := Filter(Included, results);
    CountSplits(results, x);
    CountSort(included, x);
    CountSameSymbols(Ranked(results), Sort(Better, included), x);
    CountConcatenates(Ranked(results), Filter(NotIncluded, results), x);
  }

  /** A distinct pool entry: the key of a well-formed entry, or a malformed entry as written. */
  predicate InPool(entries: seq<string>, x: string) {
    x in Keys(entries) || (x in entries && Malformed(x))
  }

  /** Scored although the validation also excludes it: a known NSE symbol that is special or inactive while the
      settings let it pass. */
  predicate PassesAnyway(entries: seq<string>, instruments: map<string, bool>, settings: PoolSettings, x: string) {
    && x in Keys(entries) && !NotNse(x) && x in instruments
    && (Special(x) || !instruments[x])
    && (settings.excludeSpecial ==> !Special(x))
    && (settings.requireActive ==> instruments[x])
  }

  lemma WhereEntriesGo(entries: seq<string>, instruments: map<string, bool>, settings: PoolSettings, x: string)
    ensures var v := Classified(entries, instruments, settings);
      && (InPool(entries, x) <==> x in ExcludedSymbols(v) || x in v.eligible)
      && (x in ExcludedSymbols(v) && x in v.eligible <==> PassesAnyway(entries, instruments, settings, x))
  {
    hide Classified, NotNse, Special, Malformed, Keys;
    var v := Classified(entries, instruments, settings);
    ClassificationIsExact(entries, instruments, settings);
    MalformedIsNoKey(entries, instruments, settings, x);
    SortedSetMembers(v.missing + v.inactive + v.special + v.invalid + v.nonNse);
  }

  /** Every distinct pool entry lands exactly once among ranked and excluded, except that a known NSE symbol which is
      special or inactive while the settings let it pass lands exactly twice; nothing else lands. */
  lemma EntriesLandOnce(entries: seq<string>, market: Market, settings: PoolSettings, limit: nat, x: string)
    ensures var run := Selection(entries, market, settings, limit, true);
      Count(run.ranked + run.excluded, x)
      == (if !InPool(entries, x) then 0
          else if PassesAnyway(entries, market.instruments, settings, x) then 2 else 1)
  {
    hide Classified, Count, Ranked, Filter, ExcludedSymbols, InPool, PassesAnyway;
    CountOfRun(Results(entries, market, settings), x);
    CountOfResults(entries, market, settings, x);
    WhereEntriesGo(entries, market.instruments, settings, x);
  }

  /** With both exclusions on that never happens. */
  lemma BothFlagsLandOnce(entries: seq<string>, market: Market, settings: PoolSettings, limit: nat, x: string)
    requires settings.requireActive && settings.excludeSpecial
    ensures var run := Selection(entries, market, settings, limit, true);
      Count(run.ranked + run.excluded, x) == if InPool(entries, x) then 1 else 0
  {
    hide Selection, Count, Keys, NotNse, Special, InPool;
    EntriesLandOnce(entries, market, settings, limit, x);
  }

  /** Without the active-instrument rule a known inactive NSE symbol lands twice, whatever it scores. */
  lemma InactiveLandsTwice(entries: seq<string>, market: Market, settings: PoolSettings, limit: nat, x: string)
    requires !settings.requireActive
    requires x in Keys(entries) && !NotNse(x) && (settings.excludeSpecial ==> !Special(x))
    requires x in market.instruments && !market.instruments[x]
    ensures var run := Selection(entries, market, settings, limit, true);
      Count(run.ranked + run.excluded, x) == 2
  {
    hide Selection, Count, Keys, NotNse, Special;
    EntriesLandOnce(entries, market, settings, limit, x);
  }

  // ----- ranks and cut

  lemma BetterIsOrdered()
    ensures TotalPreorder(Better)
  {
    TextIsOrdered();
  }

  /** Ranks run 1..n over the included symbols, never from a lower score to a higher one and on equal scores in text
      order, and the selected symbols are the first `limit` of them, so no symbol that is cut scores more than a
      selected one. */
  lemma RanksFollowOrder(
    entries: seq<string>, market: Market, settings: PoolSettings, limit: nat, includeExcluded: bool)
    ensures var run := Selection(entries, market, settings, limit, includeExcluded);
      && (forall i :: 0 <= i < |run.ranked| ==> run.ranked[i].rank == Some(i + 1) && run.ranked[i].included)
      && (forall i, j :: 0 <= i < j < |run.ranked| ==>
            && run.ranked[j].total <= run.ranked[i].total
            && (run.ranked[j].total == run.ranked[i].total ==> TextLe(run.ranked[i].symbol, run.ranked[j].symbol)))
      && |run.selected| == (if |run.ranked| <= limit then |run.ranked| else limit)
      && forall i :: 0 <= i < |run.selected| ==> run.selected[i] == run.ranked[i].symbol
  {
    hide Classified, Results, Filter, Sort;
    var results := Results(entries, market, settings);
    var included := Sort(Better, Filter(Included, results));
    BetterIsOrdered();
    SortSorts(Better, Filter(Included, results));
    FilterMembers(Included, results);
    var ranked := Ranked(results);
    forall i | 0 <= i < |ranked| ensures ranked[i].included {
      assert included[i] in included;
    }
    assert forall i, j :: 0 <= i < j < |ranked| ==> Better(included[i], included[j]);
  }

  // ----- arrangement

  lemma SamePoolSameValidation(a: seq<string>, b: seq<string>, instruments: map<string, bool>, settings: PoolSettings)
    requires forall e :: e in a <==> e in b
    ensures var v, w := Classified(a, instruments, settings), Classified(b, instruments, settings);
      && (forall x :: x in v.eligible <==> x in w.eligible)
      && (forall x :: x in v.inactive <==> x in w.inactive)
  {
    hide Classified, NotNse, Special, Parse, KeyText;
    ClassificationIsExact(a, instruments, settings);
    ClassificationIsExact(b, instruments, settings);
    SameKeys(a, b);
    SameKeys(b, a);
  }

  lemma SameKeys(a: seq<string>, b: seq<string>)
    requires forall e :: e in a ==> e in b
    ensures forall key :: key in Keys(a) ==> key in Keys(b)
  {
    hide Parse, KeyText;
    KeysAreParsed(a);
    KeysAreParsed(b);
    forall key | key in Keys(a) ensures key in Keys(b) {
      var i :| 0 <= i < |a| && Parse(a[i]).Some? && KeyText(Parse(a[i]).value) == key;
      assert a[i] in b;
      var j :| 0 <= j < |b| && b[j] == a[i];
    }
  }

  lemma {:induction false} ExclusionsAreNotIncluded(results: seq<SymbolResult>)
    requires forall i :: 0 <= i < |results| ==> !results[i].included
    ensures Filter(Included, results) == []
  {
    if results != [] {
      ExclusionsAreNotIncluded(results[..|results| - 1]);
    }
  }

  lemma IncludedAreScored(entries: seq<string>, market: Market, settings: PoolSettings)
    ensures var v := Classified(entries, market.instruments, settings);
      Filter(Included, Results(entries, market, settings)) == Filter(Included, ScoredResults(market, v))
  {
    hide Classified, Scored, ReasonsFor, ExcludedSymbols;
    var v := Classified(entries, market.instruments, settings);
    FilterConcatenates(Included, Exclusions(v), ScoredResults(market, v));
    ExclusionsAreNotIncluded(Exclusions(v));
  }

  lemma ScoredAreUnique(market: Market, v: Validation)
    requires NoDuplicates(v.eligible)
    ensures NoDuplicates(ScoredResults(market, v))
  {
    var results := ScoredResults(market, v);
    forall i, j | 0 <= i < j < |results| ensures results[i] != results[j] {
      assert results[i].symbol == v.eligible[i] && results[j].symbol == v.eligible[j];
    }
  }

  lemma SameScored(market: Market, v: Validation, w: Validation)
    requires forall x :: x in v.eligible ==> x in w.eligible
    requires forall x :: x in v.inactive <==> x in w.inactive
    ensures forall r :: r in ScoredResults(market, v) ==> r in ScoredResults(market, w)
  {
    var a, b := ScoredResults(market, v), ScoredResults(market, w);
    forall r | r in a ensures r in b {
      var i :| 0 <= i < |a| && a[i] == r;
      assert v.eligible[i] in w.eligible;
      var j :| 0 <= j < |w.eligible| && w.eligible[j] == v.eligible[i];
      assert b[j] == r;
    }
  }

  lemma SameSymbolSameResult(market: Market, v: Validation, a: SymbolResult, b: SymbolResult)
    requires a in ScoredResults(market, v) && b in ScoredResults(market, v)
    requires Better(a, b) && Better(b, a)
    ensures a == b
  {
    TextAntisymmetric(a.symbol, b.symbol);
    assert a == Scored(market, v, a.symbol) && b == Scored(market, v, b.symbol);
  }

  lemma SameIncluded(a: seq<string>, b: seq<string>, market: Market, settings: PoolSettings)
    requires forall e :: e in a <==> e in b
    ensures Sort(Better, Filter(Included, Results(a, market, settings)))
         == Sort(Better, Filter(Included, Results(b, market, settings)))
  {
    hide Classified, Scored, Results, Filter, Sort, Better;
    var v, w := Classified(a, market.instruments, settings), Classified(b, market.instruments, settings);
    IncludedAreScored(a, market, settings);
    IncludedAreScored(b, market, settings);
    EligibleIsUnique(a, market.instruments, settings);
    EligibleIsUnique(b, market.instruments, settings);
    SamePoolSameValidation(a, b, market.instruments, settings);
    ScoredAreUnique(market, v);
    ScoredAreUnique(market, w);
    SameScored(market, v, w);
    SameScored(market, w, v);
    var left, right := Filter(Included, ScoredResults(market, v)), Filter(Included, ScoredResults(market, w));
    FilterKeepsUnique(Included, ScoredResults(market, v));
    FilterKeepsUnique(Included, ScoredResults(market, w));
    FilterMembers(Included, ScoredResults(market, v));
    FilterMembers(Included, ScoredResults(market, w));
    SameMembersSameMultiset(left, right);
    forall x, y | x in left && y in left && Better(x, y) && Better(y, x) ensures x == y {
      SameSymbolSameResult(market, v, x, y);
    }
    BetterIsOrdered();
    SortIgnoresArrangement(Better, left, right);
  }

  /** Rearranging or repeating pool entries changes neither the ranking nor the selection. */
  lemma SelectionIgnoresArrangement(
    a: seq<string>, b: seq<string>, market: Market, settings: PoolSettings, limit: nat, includeExcluded: bool)
    requires forall e :: e in a <==> e in b
    ensures var left := Selection(a, market, settings, limit, includeExcluded);
      var right := Selection(b, market, settings, limit, includeExcluded);
      left.ranked == right.ranked && left.selected == right.selected
  {
    hide Classified, Results, Filter, Sort;
    SameIncluded(a, b, market, settings);
  }
}
