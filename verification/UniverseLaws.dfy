// What the pool and the selection say, written on the entries as typed, the instruments, the scores and the settings.

module UniverseLaws {
  import opened Options
  import opened Collections
  import opened Ordering
  import opened TextOrder
  import opened UniversePool
  import opened UniverseSelection
  import opened TextLaws
  import Text

  // ----- entries

  /** One text before and one after a single colon, neither of them blank. */
  ghost predicate ReadsAs(raw: string, left: string, right: string, e: Entry) {
    && raw == left + ":" + right && ':' !in left && ':' !in right
    && e.exchange == Text.Upper(Text.Strip(left)) && e.name == Text.Upper(Text.Strip(right))
    && e.exchange != "" && e.name != ""
  }

  lemma ParsedReads(raw: string, e: Entry)
    requires Parse(raw) == Some(e)
    ensures exists left, right :: ReadsAs(raw, left, right, e)
  {
    hide Text.Upper, Text.Strip;
    var i := FirstColon(raw);
    assert raw == raw[..i] + ":" + raw[i + 1..];
    assert ReadsAs(raw, raw[..i], raw[i + 1..], e);
  }

  lemma ReadingParses(raw: string, left: string, right: string, e: Entry)
    requires ReadsAs(raw, left, right, e)
    ensures Parse(raw) == Some(e)
  {
    hide Text.Upper, Text.Strip;
    var i := FirstColon(raw);
    ColonAt(left, right, i);
    assert raw[..i] == left && raw[i + 1..] == right;
  }

  /** An entry is read iff it is one text before and one after a single colon, and then as both in capitals, without
      surrounding blanks. */
  lemma EntryIffOneColon(raw: string, e: Entry)
    ensures Parse(raw) == Some(e) <==> exists left, right :: ReadsAs(raw, left, right, e)
  {
    hide Parse, ReadsAs;
    if Parse(raw) == Some(e) {
      ParsedReads(raw, e);
    }
    if left, right :| ReadsAs(raw, left, right, e) {
      ReadingParses(raw, left, right, e);
    }
  }

  lemma ColonAt(left: string, right: string, i: nat)
    requires ':' !in left && i == FirstColon(left + ":" + right)
    ensures i == |left|
  {
    var raw := left + ":" + right;
    assert raw[|left|] == ':';
    forall k | 0 <= k < |left| ensures raw[k] != ':' {
      assert raw[k] == left[k] && left[k] in left;
    }
  }

  /** A name is plain if it has a character and all are capitals or digits. */
  lemma PlainIffCapitalsAndDigits(name: string)
    ensures Plain(name) <==> name != "" && forall i :: 0 <= i < |name| ==> name[i] in CAPITAL + DIGITS
  {
    forall i | 0 <= i < |name| ensures PlainChar(name[i]) <==> name[i] in CAPITAL + DIGITS {
      CapitalLetters(name[i]);
      DigitCharacters(name[i]);
    }
  }

  /** The kinds of a parsed entry's key. */
  lemma KeyKinds(raw: string)
    requires Parse(raw).Some?
    ensures var e := Parse(raw).value;
      && KeyText(e) == e.exchange + ":" + e.name
      && (NotNse(KeyText(e)) <==> e.exchange != "NSE")
      && (Special(KeyText(e)) <==> !Plain(e.name))
  {
    hide Parse, Plain;
    KeyParsesToItself(raw);
  }

  /** The lists of a validation are in text order without repetition; the duplicates are the keys met more than once. */
  lemma ListsAreSorted(entries: seq<string>, instruments: map<string, bool>, settings: PoolSettings)
    ensures var v := Classified(entries, instruments, settings);
      && SortedBy(TextLe, v.missing) && SortedBy(TextLe, v.inactive) && SortedBy(TextLe, v.active)
      && SortedBy(TextLe, v.nonNse) && SortedBy(TextLe, v.special) && SortedBy(TextLe, v.duplicates)
      && NoDuplicates(v.duplicates)
      && forall key :: key in v.duplicates <==> multiset(Keys(entries))[key] >= 2
  {
    hide Keys, NotNse, Special, Filter, Sort, FirstOccurrences, Repeats, Syntactic, SortedSet;
    var keys := Keys(entries);
    var v := Classified(entries, instruments, settings);
    var syntactic := Syntactic(v.normalized, v.nonNse, v.special, settings);
    TextIsOrdered();
    SortSorts(TextLe, Filter(key => key !in instruments, syntactic));
    SortSorts(TextLe, Filter(key => key in instruments && !instruments[key], syntactic));
    SortSorts(TextLe, Filter(key => key in instruments && instruments[key], syntactic));
    SortedSetMembers(Filter(NotNse, keys));
    SortedSetMembers(Filter(Special, keys));
    SortedSetMembers(Repeats(keys));
    forall key ensures key in Repeats(keys) <==> multiset(keys)[key] >= 2 {
      RepeatsAreMetTwice(keys, key);
    }
  }

  lemma {:induction false} RepeatsAreMetTwice(values: seq<string>, x: string)
    ensures x in Repeats(values) <==> multiset(values)[x] >= 2
  {
    if values != [] {
      var n := |values| - 1;
      RepeatsAreMetTwice(values[..n], x);
      assert values == values[..n] + [values[n]];
      assert values[n] in values[..n] <==> multiset(values[..n])[values[n]] >= 1;
    }
  }

  // ----- errors

  function Say(applies: bool, e: PoolError): seq<PoolError> {
    if applies then [e] else []
  }

  lemma SayStep(before: seq<PoolError>, applies: bool, e: PoolError)
    ensures (if applies then before + [e] else before) == before + Say(applies, e)
  {
  }

  /** The errors of a validation, each once: those of loading, then what is wrong with the pool, in this order. */
  lemma ErrorsInOrder(source: PoolSource, v: Validation, settings: PoolSettings)
    ensures Errors(source, v, settings)
         == FirstOccurrences(
              source.errors
              + Say(source.entries == [], PoolEmpty)
              + Say(v.invalid != [], EntriesMalformed)
              + Say(v.duplicates != [], DuplicateSymbol)
              + Say(v.nonNse != [], OnlyNseSupported)
              + Say(settings.excludeSpecial && v.special != [], SpecialSymbolsExcluded)
              + Say(settings.maxPool < 1 || settings.maxPool < |source.entries|, PoolExceedsMaximum)
              + Say(v.missing != [], SymbolsNotSynced)
              + Say(settings.requireActive && v.inactive != [], SymbolsInactive))
  {
    hide Errors, FirstOccurrences, ErrorsUpto, Say;
    ErrorsEnds(source, v, settings);
    ErrorsSteps(source, v, settings);
    SayStep(ErrorsUpto(0, source, v, settings), source.entries == [], PoolEmpty);
    SayStep(ErrorsUpto(1, source, v, settings), v.invalid != [], EntriesMalformed);
    SayStep(ErrorsUpto(2, source, v, settings), v.duplicates != [], DuplicateSymbol);
    SayStep(ErrorsUpto(3, source, v, settings), v.nonNse != [], OnlyNseSupported);
    SayStep(ErrorsUpto(4, source, v, settings), settings.excludeSpecial && v.special != [], SpecialSymbolsExcluded);
    SayStep(ErrorsUpto(5, source, v, settings), settings.maxPool < 1 || settings.maxPool < |source.entries|,
            PoolExceedsMaximum);
    SayStep(ErrorsUpto(6, source, v, settings), v.missing != [], SymbolsNotSynced);
    SayStep(ErrorsUpto(7, source, v, settings), settings.requireActive && v.inactive != [], SymbolsInactive);
  }

  // ----- exclusions

  lemma CountUpToLast(symbols: seq<string>, x: string)
    requires symbols != []
    ensures multiset(symbols)[x]
         == multiset(symbols[..|symbols| - 1])[x] + (if symbols[|symbols| - 1] == x then 1 else 0)
  {
    assert symbols == symbols[..|symbols| - 1] + [symbols[|symbols| - 1]];
  }

  lemma OneMoreCopy(reason: Reason, count: nat)
    ensures seq(0, _ => reason) == [] && seq(count + 1, _ => reason) == seq(count, _ => reason) + [reason]
  {
  }

  lemma {:induction false} CopiesCount(reason: Reason, symbols: seq<string>, x: string)
    ensures Copies(reason, symbols, x) == seq(multiset(symbols)[x], _ => reason)
  {
    if symbols == [] {
      assert multiset(symbols)[x] == 0;
    } else {
      var front := symbols[..|symbols| - 1];
      CopiesCount(reason, front, x);
      CountUpToLast(symbols, x);
      OneMoreCopy(reason, multiset(front)[x]);
    }
  }

  /** Why a symbol is excluded: each list it is on gives its own reason, as often as it is there, in this order. */
  lemma ReasonsNameLists(v: Validation, x: string)
    ensures Exclusion(v, x)
         == SymbolResult(
              x, None, 0.0, false,
              seq(multiset(v.missing)[x], _ => MissingInstrument)
              + seq(multiset(v.inactive)[x], _ => InactiveInstrument)
              + seq(multiset(v.special)[x], _ => SpecialCharacterSymbol)
              + seq(multiset(v.invalid)[x], _ => InvalidFormatSymbol) + seq(multiset(v.nonNse)[x], _ => NonNseSymbol))
  {
    hide Copies;
    CopiesCount(MissingInstrument, v.missing, x);
    CopiesCount(InactiveInstrument, v.inactive, x);
    CopiesCount(SpecialCharacterSymbol, v.special, x);
    CopiesCount(InvalidFormatSymbol, v.invalid, x);
    CopiesCount(NonNseSymbol, v.nonNse, x);
  }

  // ----- the best scores

  /** The score of a pool symbol as the market gives it. */
  function ScoreOf(market: Market, x: string): Score
    requires x in market.instruments
  {
    market.score(x, market.instruments[x])
  }

  /** A symbol that may be selected: eligible in the pool and included by its score. */
  ghost predicate InRace(entries: seq<string>, market: Market, settings: PoolSettings, x: string) {
    && x in Classified(entries, market.instruments, settings).eligible
    && x in market.instruments && ScoreOf(market, x).included
  }

  lemma EligibleIsKnown(entries: seq<string>, instruments: map<string, bool>, settings: PoolSettings, x: string)
    requires x in Classified(entries, instruments, settings).eligible
    ensures x in instruments && (x in Classified(entries, instruments, settings).inactive <==> !instruments[x])
  {
    hide Classified, Candidate;
    ClassificationIsExact(entries, instruments, settings);
  }

  /** Every ranked result is an eligible symbol with its own score, and every symbol in the race is ranked. */
  lemma RankedAreScored(entries: seq<string>, market: Market, settings: PoolSettings, limit: nat)
    ensures var ranked := Selection(entries, market, settings, limit, true).ranked;
      && (forall r :: r in ranked ==>
            InRace(entries, market, settings, r.symbol) && r.total == ScoreOf(market, r.symbol).total)
      && forall x :: InRace(entries, market, settings, x) ==> exists r :: r in ranked && r.symbol == x
  {
    hide Classified, Exclusions, Filter, Sort;
    var v := Classified(entries, market.instruments, settings);
    var results := Results(entries, market, settings);
    var included := Sort(Better, Filter(Included, results));
    BetterIsOrdered();
    SortSorts(Better, Filter(Included, results));
    FilterMembers(Included, results);
    var ranked := Selection(entries, market, settings, limit, true).ranked;
    forall r | r in ranked
      ensures InRace(entries, market, settings, r.symbol) && r.total == ScoreOf(market, r.symbol).total
    {
      var i :| 0 <= i < |ranked| && ranked[i] == r;
      assert included[i] in included;
      IncludedIsScored(market, v, included[i]);
      EligibleIsKnown(entries, market.instruments, settings, r.symbol);
    }
    forall x | InRace(entries, market, settings, x) ensures exists r :: r in ranked && r.symbol == x {
      var s := Scored(market, v, x);
      EligibleIsKnown(entries, market.instruments, settings, x);
      ScoredIsIncluded(market, v, x);
      assert s in included;
      var i :| 0 <= i < |included| && included[i] == s;
      assert ranked[i].symbol == x && ranked[i] in ranked;
    }
  }

  lemma IncludedIsScored(market: Market, v: Validation, r: SymbolResult)
    requires r in Exclusions(v) + ScoredResults(market, v) && r.included
    ensures r.symbol in v.eligible && r == Scored(market, v, r.symbol)
  {
    hide ExcludedSymbols, Details;
    var all := Exclusions(v) + ScoredResults(market, v);
    var i :| 0 <= i < |all| && all[i] == r;
    forall k | 0 <= k < |Exclusions(v)| ensures !all[k].included {
      assert all[k] == Exclusions(v)[k];
    }
    assert i >= |Exclusions(v)| ==> all[i] == ScoredResults(market, v)[i - |Exclusions(v)|];
  }

  lemma ScoredIsIncluded(market: Market, v: Validation, x: string)
    requires x in v.eligible
    ensures Scored(market, v, x) in Exclusions(v) + ScoredResults(market, v)
  {
    hide ExcludedSymbols, Details;
    var k :| 0 <= k < |v.eligible| && v.eligible[k] == x;
    assert ScoredResults(market, v)[k] == Scored(market, v, x);
    assert (Exclusions(v) + ScoredResults(market, v))[|Exclusions(v)| + k] == Scored(market, v, x);
  }

  /** THE BEST ARE SELECTED. Whatever the pool and the market: every selected symbol is in the race, as many are
      selected as the limit allows, and no symbol left out scores more than a selected one, nor as much with an
      earlier text. */
  lemma BestScoresAreSelected(
    entries: seq<string>, market: Market, settings: PoolSettings, limit: nat, x: string, y: string)
    requires var selected := Selection(entries, market, settings, limit, true).selected;
      x in selected && InRace(entries, market, settings, y) && y !in selected
    ensures InRace(entries, market, settings, x)
    ensures ScoreOf(market, y).total <= ScoreOf(market, x).total
    ensures ScoreOf(market, y).total == ScoreOf(market, x).total ==> TextLe(x, y)
    ensures |Selection(entries, market, settings, limit, true).selected| == limit
  {
    hide Selection, InRace, ScoreOf;
    var run := Selection(entries, market, settings, limit, true);
    RanksFollowOrder(entries, market, settings, limit, true);
    RankedAreScored(entries, market, settings, limit);
    var i :| 0 <= i < |run.selected| && run.selected[i] == x;
    var r :| r in run.ranked && r.symbol == y;
    var j :| 0 <= j < |run.ranked| && run.ranked[j] == r;
    assert run.ranked[i] in run.ranked;
    if j < |run.selected| {
      assert run.selected[j] == y;
    }
  }

  // ----- requests

  /** What can be wrong with a request: a limit or a minimum of zero and an empty text stand for the configured
      value. */
  function Problems(settings: SelectionSettings, request: SelectionRequest): seq<(bool, SelectionError)> {
    var limit := if request.limit in {None, Some(0)} then settings.outputLimit else request.limit.value;
    var candles := if request.minCandles in {None, Some(0)} then settings.minCandles else request.minCandles.value;
    var timeframe :=
      if request.timeframe.None? || request.timeframe.value == "" then settings.timeframe else request.timeframe.value;
    var policy :=
      if request.stalePolicy.None? || request.stalePolicy.value == "" then settings.stalePolicy
      else request.stalePolicy.value;
    [(!settings.enabled, SelectionDisabled),
     (timeframe != "1minute", UnsupportedTimeframe),
     (!(1 <= limit <= settings.pool.maxPool), InvalidLimit),
     (candles < 1, InvalidCandles),
     (Text.Lower(Text.Strip(policy)) !in {"exclude", "warn", "ignore"}, InvalidPolicy)]
  }

  lemma DefaultsStandIn(number: Option<int>, default_: int, text: Option<string>, configured: string)
    ensures OrDefault(number, default_) == if number in {None, Some(0)} then default_ else number.value
    ensures OrText(text, configured) == if text.None? || text.value == "" then configured else text.value
  {
  }

  /** The branches of a refusal are the problems. */
  lemma RefusalBranches(settings: SelectionSettings, request: SelectionRequest)
    ensures |Problems(settings, request)| == 5
    ensures var p, r := Problems(settings, request), Refusal(settings, request);
      && (p[0].0 ==> r == Some(p[0].1)) && (!p[0].0 && p[1].0 ==> r == Some(p[1].1))
      && (!p[0].0 && !p[1].0 && p[2].0 ==> r == Some(p[2].1))
      && (!p[0].0 && !p[1].0 && !p[2].0 && p[3].0 ==> r == Some(p[3].1))
      && (!p[0].0 && !p[1].0 && !p[2].0 && !p[3].0 && p[4].0 ==> r == Some(p[4].1))
      && (!p[0].0 && !p[1].0 && !p[2].0 && !p[3].0 && !p[4].0 ==> r == None)
  {
    hide Text.Lower, Text.Strip, OrDefault, OrText;
    DefaultsStandIn(request.limit, settings.outputLimit, request.timeframe, settings.timeframe);
    DefaultsStandIn(request.minCandles, settings.minCandles, request.stalePolicy, settings.stalePolicy);
  }

  /** A request is refused for the first of them. */
  lemma RefusalNamesFirstProblem(settings: SelectionSettings, request: SelectionRequest)
    ensures Refusal(settings, request) == FirstHolding(Problems(settings, request))
  {
    hide Problems, Refusal, FirstHolding;
    RefusalBranches(settings, request);
    var problems := Problems(settings, request);
    if problems[0].0 {
      FirstHoldingAt(problems, 0);
    } else if problems[1].0 {
      FirstHoldingAt(problems, 1);
    } else if problems[2].0 {
      FirstHoldingAt(problems, 2);
    } else if problems[3].0 {
      FirstHoldingAt(problems, 3);
    } else if problems[4].0 {
      FirstHoldingAt(problems, 4);
    } else {
      NoneHolds(problems);
    }
  }

  /** The numbers, errors and warnings of a returned run. */
  lemma RunReportsPool(source: PoolSource, market: Market, settings: PoolSettings, limit: nat, includeExcluded: bool)
    ensures var stored := StoredSelection(source, market, settings, limit, includeExcluded);
      && stored.poolCount == |source.entries|
      && stored.scoredCount == |stored.run.ranked| && stored.selectedCount == |stored.run.selected|
      && stored.errors == Errors(source, Classified(source.entries, market.instruments, settings), settings)
      && (forall w ::
            w in stored.warnings <==> w in source.warnings || (w == "benchmark_missing" && !market.benchmarkLoaded))
      && (!includeExcluded ==> stored.run.excluded == [])
  {
    hide Classified, Results, Ranked, Errors, FirstOccurrences;
    FirstOccurrencesAreUnique(source.warnings);
    FirstOccurrencesAreUnique(
      FirstOccurrences(source.warnings) + (if market.benchmarkLoaded then [] else ["benchmark_missing"]));
  }
}
