// Which secrets the redaction keeps out of the stored texts: a question of how a secret can meet the mark that
// replaces it.

module DecisionRedaction {
  import opened DecisionOutput
  import Text

  // ----- meeting the mark

  /** The last `k` characters of the mark begin the secret. */
  predicate BeginsInMark(q: string, k: nat) {
    1 <= k <= |MARK| && k < |q| && MARK[|MARK| - k..] <= q
  }

  /** The first `k` characters of the mark end the secret. */
  predicate EndsInMark(q: string, k: nat) {
    1 <= k <= |MARK| && k < |q| && q[|q| - k..] <= MARK
  }

  /** The secret overlaps the mark at neither end and does not contain it. */
  ghost predicate Clear(q: string) {
    && q != ""
    && (forall k: nat :: !BeginsInMark(q, k) && !EndsInMark(q, k))
    && !Text.Contains(q, MARK)
  }

  ghost predicate AllClear(secrets: seq<string>) {
    forall i :: 0 <= i < |secrets| ==> Clear(secrets[i])
  }

  lemma BeginningHasBracket(q: string, k: nat)
    requires BeginsInMark(q, k)
    ensures ']' in q
  {
    assert q[k - 1] == MARK[|MARK| - k..][k - 1] == ']';
  }

  lemma EndHasBracket(q: string, k: nat)
    requires EndsInMark(q, k)
    ensures '[' in q
  {
    assert q[|q| - k] == q[|q| - k..][0] == '[';
  }

  lemma MarkHasBracket(q: string)
    requires Text.Contains(q, MARK)
    ensures '[' in q
  {
    var i := Text.ContainedAt(q, MARK);
    assert q[i] == q[i..][0] == '[';
  }

  /** A secret without the brackets of the mark is clear. */
  lemma BracketlessIsClear(q: string)
    requires q != "" && '[' !in q && ']' !in q
    ensures Clear(q)
  {
    forall k: nat ensures !BeginsInMark(q, k) && !EndsInMark(q, k) {
      if BeginsInMark(q, k) {
        BeginningHasBracket(q, k);
      }
      if EndsInMark(q, k) {
        EndHasBracket(q, k);
      }
    }
    if Text.Contains(q, MARK) {
      MarkHasBracket(q);
    }
  }

  /** Neither the text nor any end of it begins like the mark. */
  ghost predicate NeverMeets(q: string) {
    forall k :: 0 <= k < |q| ==> !(q[k..] <= MARK) && !(MARK <= q[k..])
  }

  lemma ClearNeverMeets(q: string)
    requires Clear(q) && !Text.Contains(MARK, q)
    ensures NeverMeets(q)
  {
    forall k | 0 <= k < |q| ensures !(q[k..] <= MARK) && !(MARK <= q[k..]) {
      assert q[0..] == q;
      assert q <= MARK ==> Text.Contains(MARK, q);
      assert k > 0 && q[k..] <= MARK ==> EndsInMark(q, |q| - k);
      if MARK <= q[k..] {
        Text.ContainsAt(q, MARK, k);
      }
    }
  }

  lemma {:induction false} PrefixSurvives(text: string, part: string, q: string)
    requires part != "" && NeverMeets(q) && q <= Text.Replace(text, part, MARK)
    ensures q <= text
  {
    if q != "" && |text| >= |part| {
      assert q[0..] == q;
      if part <= text {
        MarkFirst(Text.Replace(text[|part|..], part, MARK), q);
      } else {
        var rest := Text.Replace(text[1..], part, MARK);
        assert ([text[0]] + rest)[1..] == rest;
        forall k | 0 <= k < |q[1..]| ensures !(q[1..][k..] <= MARK) && !(MARK <= q[1..][k..]) {
          assert q[1..][k..] == q[k + 1..];
        }
        PrefixSurvives(text[1..], part, q[1..]);
        assert text == [text[0]] + text[1..] && q == [q[0]] + q[1..];
      }
    }
  }

  lemma MarkFirst(after: string, q: string)
    requires q <= MARK + after
    ensures q <= MARK || MARK <= q
  {
    if |q| <= |MARK| {
      assert q == (MARK + after)[..|q|] == MARK[..|q|];
    } else {
      assert q[..|MARK|] == (MARK + after)[..|MARK|] == MARK;
    }
  }

  /** What the mark, from its `k`-th character on, shows of a secret that begins in no end of it. */
  lemma {:induction false} MarkHidesNothing(k: nat, after: string, q: string)
    requires k <= |MARK| && q != "" && (forall n: nat :: !BeginsInMark(q, n)) && !Text.Contains(MARK, q)
    requires Text.Contains(MARK[k..] + after, q)
    ensures Text.Contains(after, q)
    decreases |MARK| - k
  {
    hide BeginsInMark;
    var all := MARK[k..] + after;
    if k == |MARK| {
      assert all == after;
    } else {
      NotAtMark(k, after, q);
      assert all[1..] == MARK[k + 1..] + after;
      MarkHidesNothing(k + 1, after, q);
    }
  }

  lemma NotAtMark(k: nat, after: string, q: string)
    requires k < |MARK| && (forall n: nat :: !BeginsInMark(q, n)) && !Text.Contains(MARK, q)
    ensures !(q <= MARK[k..] + after)
  {
    hide Text.Contains;
    var n := |MARK| - k;
    if q <= MARK[k..] + after {
      PartsOfMark(k, after, q);
      if |q| <= n {
        Text.ContainsAt(MARK, q, k);
      }
    }
  }

  lemma PartsOfMark(k: nat, after: string, q: string)
    requires k < |MARK| && q <= MARK[k..] + after
    ensures var n := |MARK| - k;
      if |q| <= n then q <= MARK[k..] else BeginsInMark(q, n)
  {
    var all, n := MARK[k..] + after, |MARK| - k;
    if |q| <= n {
      assert q == all[..|q|] == MARK[k..][..|q|];
    } else {
      assert MARK[k..] == all[..n] == q[..n];
    }
  }

  /** Replacing removes the replaced secret and brings in no other. */
  lemma {:induction false} ReplacedIsFree(text: string, part: string, q: string)
    requires part != "" && Clear(q) && !Text.Contains(MARK, q)
    requires q == part || !Text.Contains(text, q)
    ensures !Text.Contains(Text.Replace(text, part, MARK), q)
  {
    hide Clear;
    ClearMeans(q);
    if |text| < |part| {
      if q == part && Text.Contains(text, q) {
        Text.ContainsFits(text, q);
      }
    } else if part <= text {
      var rest := text[|part|..];
      assert text == text[..|part|] + rest;
      if q != part && Text.Contains(rest, q) {
        Text.ContainsLater(text[..|part|], rest, q);
      }
      ReplacedIsFree(rest, part, q);
      if Text.Contains(MARK + Text.Replace(rest, part, MARK), q) {
        assert MARK[0..] == MARK;
        MarkHidesNothing(0, Text.Replace(rest, part, MARK), q);
      }
    } else {
      var rest := Text.Replace(text[1..], part, MARK);
      ReplacedIsFree(text[1..], part, q);
      assert ([text[0]] + rest)[1..] == rest;
      if q <= [text[0]] + rest {
        ClearNeverMeets(q);
        PrefixSurvives(text, part, q);
      }
    }
  }

  lemma ClearMeans(q: string)
    requires Clear(q)
    ensures q != "" && forall n: nat :: !BeginsInMark(q, n)
  {
  }

  lemma AllClearMeans(secrets: seq<string>, n: nat)
    requires AllClear(secrets) && n <= |secrets|
    ensures AllClear(secrets[..n]) && forall i :: 0 <= i < |secrets| ==> secrets[i] != ""
  {
    forall i | 0 <= i < n ensures Clear(secrets[..n][i]) {
      assert secrets[..n][i] == secrets[i];
    }
  }

  lemma {:induction false} RedactedIsFree(text: string, secrets: seq<string>, i: nat)
    requires AllClear(secrets) && i < |secrets| && !Text.Contains(MARK, secrets[i])
    ensures !Text.Contains(Redact(text, secrets), secrets[i])
  {
    hide Clear, Text.Contains, Text.Replace;
    var n := |secrets| - 1;
    AllClearMeans(secrets, n);
    if i < n {
      assert secrets[..n][i] == secrets[i];
      RedactedIsFree(text, secrets[..n], i);
    }
    ReplacedIsFree(Redact(text, secrets[..n]), secrets[n], secrets[i]);
  }

  /** Replacing keeps a secret that the mark itself contains. */
  lemma {:induction false} ReplacedKeeps(text: string, part: string, q: string)
    requires part != "" && Text.Contains(MARK, q) && Text.Contains(text, q)
    ensures Text.Contains(Text.Replace(text, part, MARK), q)
  {
    if Text.Contains(text, part) {
      ReplacedHasMark(text, part, q);
    } else {
      Text.ReplaceNothing(text, part, MARK);
    }
  }

  lemma {:induction false} ReplacedHasMark(text: string, part: string, q: string)
    requires part != "" && Text.Contains(MARK, q) && Text.Contains(text, part)
    ensures Text.Contains(Text.Replace(text, part, MARK), q)
  {
    Text.ContainsFits(text, part);
    if part <= text {
      Text.ContainsEarlier(MARK, Text.Replace(text[|part|..], part, MARK), q);
    } else {
      ReplacedHasMark(text[1..], part, q);
      Text.ContainsLater([text[0]], Text.Replace(text[1..], part, MARK), q);
    }
  }

  lemma {:induction false} RedactedKeeps(text: string, secrets: seq<string>, q: string)
    requires forall i :: 0 <= i < |secrets| ==> secrets[i] != ""
    requires Text.Contains(MARK, q) && Text.Contains(text, q)
    ensures Text.Contains(Redact(text, secrets), q)
  {
    if secrets != [] {
      RedactedKeeps(text, secrets[..|secrets| - 1], q);
      ReplacedKeeps(Redact(text, secrets[..|secrets| - 1]), secrets[|secrets| - 1], q);
    }
  }

  // ----- whole payloads

  ghost predicate FreeFields(fields: seq<Field>, secrets: seq<string>) {
    forall i :: 0 <= i < |fields| ==> !HasSecret(fields[i].value, secrets)
  }

  ghost predicate MarkIsFree(secrets: seq<string>) {
    forall i :: 0 <= i < |secrets| ==> !Text.Contains(MARK, secrets[i])
  }

  lemma {:induction false} SanitizedFieldsAreFree(v: Json, k: nat, secrets: seq<string>)
    requires v.Object? && k <= |v.fields| && AllClear(secrets) && MarkIsFree(secrets)
    ensures FreeFields(SanitizeFields(v, k, secrets), secrets)
    decreases v, k
  {
    if k > 0 {
      SanitizedFieldsAreFree(v, k - 1, secrets);
      SanitizedHasNoSecret(v.fields[k - 1].value, secrets);
    }
  }

  lemma {:induction false} SanitizedHasNoSecret(v: Json, secrets: seq<string>)
    requires AllClear(secrets) && MarkIsFree(secrets)
    ensures !HasSecret(Sanitize(v, secrets), secrets)
    decreases v, if v.Object? then |v.fields| + 1 else 0
  {
    match v
    case Object(fields) =>
      SanitizedFieldsAreFree(v, |fields|, secrets);
    case Items(items) =>
      forall i | 0 <= i < |items| ensures !HasSecret(Sanitize(items[i], secrets), secrets) {
        SanitizedHasNoSecret(items[i], secrets);
      }
    case Text_(text) =>
      forall i | 0 <= i < |secrets| ensures !Text.Contains(Redact(text, secrets), secrets[i]) {
        RedactedIsFree(text, secrets, i);
      }
    case _ =>
  }

  /** The stored form of an answer still shows a secret. */
  ghost predicate Leaks(v: Json, secrets: seq<string>)
    requires forall i :: 0 <= i < |secrets| ==> secrets[i] != ""
  {
    HasSecret(Sanitize(v, secrets), secrets)
  }

  /** Any number of clear secrets stay out of every text of every stored payload iff none occurs in the mark that
      replaces them. Keys are not redacted: see `SecretKeysAreStored`. */
  lemma RedactionIsCompleteIff(secrets: seq<string>)
    requires AllClear(secrets)
    ensures (forall v :: !Leaks(v, secrets)) <==> MarkIsFree(secrets)
  {
    hide Redact;
    if MarkIsFree(secrets) {
      forall v ensures !Leaks(v, secrets) {
        SanitizedHasNoSecret(v, secrets);
      }
    } else {
      var i :| 0 <= i < |secrets| && Text.Contains(MARK, secrets[i]);
      var v := Text_(secrets[i]);
      assert Text.Contains(secrets[i], secrets[i]);
      RedactedKeeps(secrets[i], secrets, secrets[i]);
      assert Leaks(v, secrets);
    }
  }

  // ----- one secret, whatever it looks like

  /** A match of the secret begins among the first `n` characters of those characters followed by the secret. */
  predicate MatchesEarlier(q: string, n: nat) {
    n <= |q| && exists j :: 0 <= j < n && q <= (q[..n] + q)[j..]
  }

  predicate EndsFreely(q: string, k: nat) {
    EndsInMark(q, k) && !MatchesEarlier(q, |q| - k)
  }

  /** The mark can complete the secret: it contains it or lies in it, the secret begins in an end of the mark, or it
      ends in a beginning of the mark and the part before can stand in front of a match without one of its own. */
  ghost predicate Completed(q: string) {
    || Text.Contains(MARK, q)
    || Text.Contains(q, MARK)
    || (exists k: nat :: BeginsInMark(q, k))
    || (exists k: nat :: EndsFreely(q, k))
  }

  /** With `front` passed over, the redacted text does not begin with a secret that the text did not begin with. */
  lemma {:induction false} FrontSurvives(front: string, text: string, q: string)
    requires q != "" && !Completed(q)
    requires forall j :: 0 <= j < |front| ==> !(q <= (front + text)[j..])
    requires q <= front + Text.Replace(text, q, MARK)
    ensures q <= front + text
    decreases |text|
  {
    hide Completed;
    if |text| >= |q| && q <= text {
      if front == "" {
        assert front + text == text;
      } else {
        MarkInFront(front, text, Text.Replace(text[|q|..], q, MARK), q);
      }
    } else if |text| >= |q| {
      var next, rest := front + [text[0]], text[1..];
      assert next + rest == front + text;
      assert next + Text.Replace(rest, q, MARK) == front + Text.Replace(text, q, MARK);
      assert (front + text)[|front|..] == text;
      FrontSurvives(next, rest, q);
    }
  }

  lemma WithinFront(front: string, one: string, other: string, q: string)
    requires q <= front + one && |q| <= |front|
    ensures q <= (front + other)[0..]
  {
    assert q == (front + one)[..|q|] == front[..|q|];
    assert (front + other)[0..] == front + other;
    assert (front + other)[..|q|] == front[..|q|];
  }

  lemma BeyondFront(front: string, s: string, q: string)
    requires q <= front + s && |front| < |q|
    ensures q[..|front|] == front && q[|front|..] <= s
  {
    var all := front + s;
    assert q[..|front|] == all[..|front|];
    assert q[|front|..] <= all[|front|..] == s;
  }

  /** A match with a front in which none begins cannot be read in the redacted text from before the front. */
  lemma MarkInFront(front: string, text: string, after: string, q: string)
    requires front != "" && q <= text && !Completed(q)
    requires forall j :: 0 <= j < |front| ==> !(q <= (front + text)[j..])
    ensures !(q <= front + (MARK + after))
  {
    hide Text.Contains, MatchesEarlier;
    var n := |front|;
    if q <= front + (MARK + after) {
      if |q| <= n {
        WithinFront(front, MARK + after, text, q);
      } else {
        BeyondFront(front, MARK + after, q);
        MarkFirst(after, q[n..]);
        if MARK <= q[n..] {
          Text.ContainsAt(q, MARK, n);
        } else {
          EndsUnfreely(front, text, q);
        }
      }
    }
  }

  lemma EndsUnfreely(front: string, text: string, q: string)
    requires front != "" && |front| < |q| && q[..|front|] == front && q[|front|..] <= MARK
    requires q <= text && !Completed(q)
    ensures exists j :: 0 <= j < |front| && q <= (front + text)[j..]
  {
    var n := |front|;
    assert EndsInMark(q, |q| - n);
    assert !EndsFreely(q, |q| - n);
    var j :| 0 <= j < n && q <= (q[..n] + q)[j..];
    EarlierMatch(front, text, q, j);
  }

  lemma EarlierMatch(front: string, text: string, q: string, j: nat)
    requires q <= text && j < |front| && q <= (front + q)[j..]
    ensures q <= (front + text)[j..]
  {
    assert (front + text)[..|front| + |q|] == front + q;
    assert (front + text)[j..][..|q|] == (front + q)[j..][..|q|];
  }

  lemma {:induction false} ReplacedIsGone(text: string, q: string)
    requires q != "" && !Completed(q)
    ensures !Text.Contains(Text.Replace(text, q, MARK), q)
  {
    hide Completed;
    if |text| < |q| {
      if Text.Contains(text, q) {
        Text.ContainsFits(text, q);
      }
    } else if q <= text {
      var rest := Text.Replace(text[|q|..], q, MARK);
      ReplacedIsGone(text[|q|..], q);
      if Text.Contains(MARK + rest, q) {
        NotCompletedMeans(q);
        assert MARK[0..] == MARK;
        MarkHidesNothing(0, rest, q);
      }
    } else {
      var rest := Text.Replace(text[1..], q, MARK);
      ReplacedIsGone(text[1..], q);
      assert ([text[0]] + rest)[1..] == rest;
      if q <= [text[0]] + rest {
        assert "" + text == text && "" + Text.Replace(text, q, MARK) == [text[0]] + rest;
        FrontSurvives("", text, q);
      }
    }
  }

  lemma NotCompletedMeans(q: string)
    requires !Completed(q)
    ensures (forall n: nat :: !BeginsInMark(q, n)) && !Text.Contains(MARK, q)
  {
  }

  /** A text that redaction turns into one that shows the secret. */
  lemma CompletedIsShown(q: string) returns (text: string)
    requires q != "" && Completed(q)
    ensures Text.Contains(Text.Replace(text, q, MARK), q)
  {
    hide BeginsInMark, EndsFreely, Text.Contains, Text.Replace;
    if Text.Contains(MARK, q) {
      text := q;
      ShownAsMark(q);
    } else if exists k: nat :: BeginsInMark(q, k) {
      var k: nat :| BeginsInMark(q, k);
      text := ShownAtBeginning(q, k);
    } else if Text.Contains(q, MARK) {
      text := ShownAroundMark(q);
    } else {
      var k: nat :| EndsFreely(q, k);
      text := ShownAtEnd(q, k);
    }
  }

  lemma ShownAsMark(q: string)
    requires q != "" && Text.Contains(MARK, q)
    ensures Text.Contains(Text.Replace(q, q, MARK), q)
  {
    ReplacedHasMark(q, q, q);
  }

  lemma ShownAtBeginning(q: string, k: nat) returns (text: string)
    requires BeginsInMark(q, k)
    ensures Text.Contains(Text.Replace(text, q, MARK), q)
  {
    var rest := q[k..];
    text := q + rest;
    OneMatch(q, rest);
    var shown := MARK + rest;
    assert shown[|MARK| - k..] == MARK[|MARK| - k..] + rest == q;
    Text.ContainsAt(shown, q, |MARK| - k);
  }

  /** The characters before the mark, then a match, then what follows it. */
  lemma ShownInFront(q: string, n: nat, rest: string)
    requires n < |q| && !MatchesEarlier(q, n) && |rest| < |q|
    requires q[n..] <= MARK + rest
    ensures Text.Contains(Text.Replace(q[..n] + (q + rest), q, MARK), q)
  {
    hide MatchesEarlier, Text.Contains, Text.Replace;
    NoEarlierMatch(q, n, rest);
    Text.ReplaceSkips(q[..n], q + rest, q, MARK);
    OneMatch(q, rest);
    PutTogether(q, n, MARK + rest);
  }

  lemma OneMatch(q: string, rest: string)
    requires q != "" && |rest| < |q|
    ensures Text.Replace(q + rest, q, MARK) == MARK + rest
  {
    assert (q + rest)[|q|..] == rest;
  }

  lemma PutTogether(q: string, n: nat, s: string)
    requires n < |q| && q[n..] <= s
    ensures Text.Contains(q[..n] + s, q)
  {
    assert q == q[..n] + q[n..];
    assert (q[..n] + s)[0..] == q[..n] + s;
    Text.ContainsAt(q[..n] + s, q, 0);
  }

  lemma NoEarlierMatch(q: string, n: nat, rest: string)
    requires n < |q| && !MatchesEarlier(q, n)
    ensures forall j :: 0 <= j < n ==> !(q <= (q[..n] + (q + rest))[j..])
  {
    forall j | 0 <= j < n ensures !(q <= (q[..n] + (q + rest))[j..]) {
      assert (q[..n] + (q + rest))[j..][..|q|] == (q[..n] + q)[j..][..|q|];
    }
  }

  /** A match in front of a mark puts another mark before it. */
  lemma MarkMovesBack(q: string, n: nat, j: nat)
    requires n + |MARK| <= |q| && MARK <= q[n..]
    requires j < n && q <= (q[..n] + q)[j..]
    ensures MARK <= q[j..]
  {
    var twice := q[..n] + q;
    forall i | 0 <= i < |MARK| ensures q[j..][i] == MARK[i] {
      assert q[n + i] == q[n..][i] == MARK[i];
      assert q[n + i] == twice[j..][n + i] == twice[j + n + i];
      assert twice[n + (j + i)] == q[j + i];
    }
    assert q[j..][..|MARK|] == MARK;
  }

  /** Up to its first mark a secret cannot be found in front of itself: the two marks would have to overlap. */
  lemma FirstMarkMatchesOnce(q: string, n: nat)
    requires n + |MARK| <= |q| && MARK <= q[n..] && forall j :: 0 <= j < n ==> !(MARK <= q[j..])
    ensures !MatchesEarlier(q, n)
    ensures q[n..] <= MARK + q[n + |MARK|..]
  {
    assert q[n..] == MARK + q[n + |MARK|..];
    var twice := q[..n] + q;
    forall j | 0 <= j < n ensures !(q <= twice[j..]) {
      if q <= twice[j..] {
        MarkMovesBack(q, n, j);
      }
    }
  }

  lemma ShownAroundMark(q: string) returns (text: string)
    requires Text.Contains(q, MARK)
    ensures Text.Contains(Text.Replace(text, q, MARK), q)
  {
    hide MatchesEarlier, Text.Replace;
    var n := Text.ContainedAt(q, MARK);
    var rest := q[n + |MARK|..];
    text := q[..n] + (q + rest);
    FirstMarkMatchesOnce(q, n);
    ShownInFront(q, n, rest);
  }

  lemma ShownAtEnd(q: string, k: nat) returns (text: string)
    requires EndsFreely(q, k)
    ensures Text.Contains(Text.Replace(text, q, MARK), q)
  {
    hide MatchesEarlier, Text.Replace;
    text := q[..|q| - k] + (q + "");
    ShownInFront(q, |q| - k, "");
  }

  /** ONE SECRET, EXACTLY. Whatever it looks like, it stays out of every text of every stored payload iff the mark
      cannot complete it. */
  lemma OneSecretIsGoneIff(q: string)
    requires q != ""
    ensures (forall v :: !Leaks(v, [q])) <==> !Completed(q)
  {
    hide Completed;
    if !Completed(q) {
      forall v ensures !Leaks(v, [q]) {
        SanitizedHasNot(v, q);
      }
    } else {
      var text := CompletedIsShown(q);
      RedactOne(text, q);
      assert Leaks(Text_(text), [q]);
    }
  }

  lemma RedactOne(text: string, q: string)
    requires q != ""
    ensures Redact(text, [q]) == Text.Replace(text, q, MARK)
  {
    assert [q][..0] == [];
    assert Redact(text, []) == text;
  }

  lemma {:induction false} SanitizedFieldsHaveNot(v: Json, k: nat, q: string)
    requires v.Object? && k <= |v.fields| && q != "" && !Completed(q)
    ensures FreeFields(SanitizeFields(v, k, [q]), [q])
    decreases v, k
  {
    if k > 0 {
      SanitizedFieldsHaveNot(v, k - 1, q);
      SanitizedHasNot(v.fields[k - 1].value, q);
    }
  }

  lemma {:induction false} SanitizedHasNot(v: Json, q: string)
    requires q != "" && !Completed(q)
    ensures !HasSecret(Sanitize(v, [q]), [q])
    decreases v, if v.Object? then |v.fields| + 1 else 0
  {
    hide Completed;
    match v
    case Object(fields) =>
      SanitizedFieldsHaveNot(v, |fields|, q);
    case Items(items) =>
      forall i | 0 <= i < |items| ensures !HasSecret(Sanitize(items[i], [q]), [q]) {
        SanitizedHasNot(items[i], q);
      }
    case Text_(text) =>
      RedactOne(text, q);
      ReplacedIsGone(text, q);
    case _ =>
  }

  /** A key that is not prohibited is stored as it is, whatever secrets it holds. */
  lemma SecretKeysAreStored(key: string, value: Json, secrets: seq<string>)
    requires forall i :: 0 <= i < |secrets| ==> secrets[i] != ""
    ensures var stored := Sanitize(Object([Field(key, value)]), secrets);
      stored == Object(if ProhibitedKey(key) then [] else [Field(key, Sanitize(value, secrets))])
  {
    var v := Object([Field(key, value)]);
    assert SanitizeFields(v, 0, secrets) == [];
    assert v.fields[0] == Field(key, value);
    assert SanitizeFields(v, 1, secrets) == if ProhibitedKey(key) then [] else [Field(key, Sanitize(value, secrets))];
  }
}
