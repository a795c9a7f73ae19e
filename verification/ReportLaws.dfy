// What summaries and reports count, written on the outcomes and the journal rows themselves.

module ReportLaws {
  import opened Options
  import opened PaperTypes
  import opened PaperLedger
  import opened PaperSummary
  import opened PaperReconciliation
  import opened PaperReport

  /** How many positions of a list satisfy a test. */
  ghost function HowMany<T(!new)>(s: seq<T>, p: T -> bool): nat {
    |set k | 0 <= k < |s| && p(s[k])|
  }

  lemma HowManyMore<T(!new)>(s: seq<T>, p: T -> bool)
    requires s != []
    ensures HowMany(s, p) == HowMany(s[..|s| - 1], p) + (if p(s[|s| - 1]) then 1 else 0)
  {
    var n := |s| - 1;
    var all := set k | 0 <= k < |s| && p(s[k]);
    var front := set k | 0 <= k < n && p(s[..n][k]);
    assert n !in front && forall k :: k in front <==> k in all && k != n;
    assert all == if p(s[n]) then front + {n} else front;
  }

  lemma CountedAreIndices<T(!new)>(s: seq<T>, p: T -> bool) returns (counted: set<int>)
    ensures HowMany(s, p) == |counted| && forall k :: k in counted ==> 0 <= k < |s|
  {
    counted := set k | 0 <= k < |s| && p(s[k]);
  }

  lemma NothingToCount<T(!new)>(s: seq<T>, p: T -> bool)
    requires s == []
    ensures HowMany(s, p) == 0
  {
    var counted := CountedAreIndices(s, p);
    assert counted == {};
  }

  // ----- summaries

  lemma KindsAreReadOff(o: Outcome)
    requires WellShaped(o)
    ensures KindOf(o) == Rejection <==> o.rejectionReason.Some?
    ensures KindOf(o) == Missed <==> o.entryStatus == EntryNoFill
    ensures KindOf(o) == Traded <==> o.tradeCreated
  {
  }

  lemma {:induction false} KindCountIsNumber(outcomes: seq<Outcome>, kind: Kind, p: Outcome -> bool)
    requires forall k :: 0 <= k < |outcomes| ==> (p(outcomes[k]) <==> KindOf(outcomes[k]) == kind)
    ensures CountKind(outcomes, kind) == HowMany(outcomes, p)
  {
    hide HowMany, KindOf;
    if outcomes != [] {
      KindCountIsNumber(outcomes[..|outcomes| - 1], kind, p);
      HowManyMore(outcomes, p);
    } else {
      NothingToCount(outcomes, p);
    }
  }

  /** The counts of a summary are the numbers of outcomes with a reason for their rejection, with a missed fill, and
      with a trade. */
  lemma SummaryCountsOutcomes(outcomes: seq<Outcome>)
    requires forall k :: 0 <= k < |outcomes| ==> WellShaped(outcomes[k])
    ensures CountKind(outcomes, Rejection) == HowMany(outcomes, (o: Outcome) => o.rejectionReason.Some?)
    ensures CountKind(outcomes, Missed) == HowMany(outcomes, (o: Outcome) => o.entryStatus == EntryNoFill)
    ensures CountKind(outcomes, Traded) == HowMany(outcomes, (o: Outcome) => o.tradeCreated)
  {
    hide HowMany, WellShaped, KindOf, CountKind;
    forall k | 0 <= k < |outcomes|
      ensures KindOf(outcomes[k]) == Rejection <==> outcomes[k].rejectionReason.Some?
      ensures KindOf(outcomes[k]) == Missed <==> outcomes[k].entryStatus == EntryNoFill
      ensures KindOf(outcomes[k]) == Traded <==> outcomes[k].tradeCreated
    {
      KindsAreReadOff(outcomes[k]);
    }
    KindCountIsNumber(outcomes, Rejection, (o: Outcome) => o.rejectionReason.Some?);
    KindCountIsNumber(outcomes, Missed, (o: Outcome) => o.entryStatus == EntryNoFill);
    KindCountIsNumber(outcomes, Traded, (o: Outcome) => o.tradeCreated);
  }

  // ----- reports

  lemma {:induction false} CountIsNumber(p: Listed -> bool, listed: seq<Listed>)
    ensures CountWhere(p, listed) == HowMany(listed, p)
  {
    if listed != [] {
      hide HowMany;
      CountIsNumber(p, listed[..|listed| - 1]);
      HowManyMore(listed, p);
    } else {
      NothingToCount(listed, p);
    }
  }

  lemma {:induction false} CountSame(p: Listed -> bool, q: Listed -> bool, listed: seq<Listed>)
    requires forall x :: p(x) == q(x)
    ensures HowMany(listed, p) == HowMany(listed, q)
  {
    if listed != [] {
      hide HowMany;
      CountSame(p, q, listed[..|listed| - 1]);
      HowManyMore(listed, p);
      HowManyMore(listed, q);
    } else {
      NothingToCount(listed, p);
      NothingToCount(listed, q);
    }
  }

  /** WHAT A REPORT COUNTS: rows by their flag, status, reason and verdict, where an empty verdict is unknown. */
  lemma ReportCountsRows(listed: seq<Listed>, status: EntryStatus, reason: ExitReason, verdict: string)
    ensures CountWhere(IsSimulated, listed) == HowMany(listed, (x: Listed) => x.row.simulated)
    ensures CountWhere(IsRejected, listed) == HowMany(listed, (x: Listed) => x.row.rejectionReason != None)
    ensures CountWhere(IsDecided, listed) == HowMany(listed, (x: Listed) => x.verdict != None)
    ensures CountWhere(WithStatus(status), listed) == HowMany(listed, (x: Listed) => x.row.entryStatus == status)
    ensures CountWhere(WithReason(reason), listed) == HowMany(listed, (x: Listed) => x.row.exitReason == reason)
    ensures CountWhere(WithVerdict(verdict), listed)
         == HowMany(listed, (x: Listed) =>
              x.verdict.Some?
              && if x.verdict.value == "" then verdict == "UNKNOWN" else x.verdict.value == verdict)
  {
    hide HowMany;
    CountIsNumber(IsSimulated, listed);
    CountIsNumber(IsRejected, listed);
    CountIsNumber(IsDecided, listed);
    CountIsNumber(WithStatus(status), listed);
    CountIsNumber(WithReason(reason), listed);
    CountIsNumber(WithVerdict(verdict), listed);
    CountSame(IsSimulated, (x: Listed) => x.row.simulated, listed);
    CountSame(IsRejected, (x: Listed) => x.row.rejectionReason != None, listed);
    CountSame(IsDecided, (x: Listed) => x.verdict != None, listed);
    CountSame(WithStatus(status), (x: Listed) => x.row.entryStatus == status, listed);
    CountSame(WithReason(reason), (x: Listed) => x.row.exitReason == reason, listed);
    CountSame(WithVerdict(verdict), (x: Listed) =>
      x.verdict.Some? && if x.verdict.value == "" then verdict == "UNKNOWN" else x.verdict.value == verdict, listed);
  }

  lemma {:induction false} ReversedAt<T>(s: seq<T>, k: nat)
    requires k < |s|
    ensures |Reversed(s)| == |s| && Reversed(s)[k] == s[|s| - 1 - k]
  {
    if |s| > 1 {
      ReversedAt(s[..|s| - 1], if k > 0 then k - 1 else 0);
    }
  }

  lemma {:induction false} AttachedAt(rows: seq<JournalRow>, decisions: map<int, string>, k: nat)
    requires k < |rows|
    ensures |Attach(rows, decisions)| == |rows|
    ensures Attach(rows, decisions)[k]
         == Listed(rows[k], if rows[k].signalId in decisions then Some(decisions[rows[k].signalId]) else None)
  {
    if |rows| > 1 {
      AttachedAt(rows[..|rows| - 1], decisions, if k < |rows| - 1 then k else 0);
    }
  }

  /** A report lists the newest rows first, each with the decision on its signal. */
  lemma NewestAreListed(journal: seq<JournalRow>, decisions: map<int, string>, limit: nat, k: nat)
    requires k < limit && k < |journal|
    ensures var listed, row := ListOutcomes(journal, decisions, limit), journal[|journal| - 1 - k];
      && k < |listed|
      && listed[k] == Listed(row, if row.signalId in decisions then Some(decisions[row.signalId]) else None)
  {
    hide Reversed, Attach;
    var recent := if |journal| <= limit then journal else journal[|journal| - limit..];
    ReversedAt(recent, k);
    AttachedAt(Reversed(recent), decisions, k);
  }

  /** Totals add amount by amount. */
  lemma SumsAddUp(rows: seq<JournalRow>, row: JournalRow, trades: seq<Trade>, trade: Trade)
    ensures SumRows([]) == SumTrades([]) == Amounts(0.0, 0.0, 0.0)
    ensures var s := SumRows(rows);
      SumRows(rows + [row]) == Amounts(s.gross + row.gross, s.costs + row.costs, s.net + row.net)
    ensures var s := SumTrades(trades);
      SumTrades(trades + [trade]) == Amounts(s.gross + trade.gross, s.costs + trade.costs, s.net + trade.net)
  {
    assert (rows + [row])[..|rows|] == rows && (trades + [trade])[..|trades|] == trades;
  }

  /** The limit of a report is between one and ten thousand, and what was asked for in between. */
  lemma ReportIsBounded(limit: int)
    ensures ReportLimit(limit) == if limit <= 1 then 1 else if limit >= 10_000 then 10_000 else limit
  {
  }
}
