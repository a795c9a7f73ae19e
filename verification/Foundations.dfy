// Values shared by every component: optional values, instants and IST session
// arithmetic, decimal rounding, stable sorting, and the one-minute candle.

module Options {
  datatype Option<+T> = None | Some(value: T)

  datatype Result<+T, +E> = Ok(value: T) | Err(error: E)
}

/** Comprehensions and `next(...)` over lists. */
module Collections {
  import opened Options

  function Filter<T>(p: T -> bool, s: seq<T>): seq<T> {
    if s == [] then []
    else Filter(p, s[..|s| - 1]) + (if p(s[|s| - 1]) then [s[|s| - 1]] else [])
  }

  /** The first of several findings that holds. */
  function FirstHolding<T>(findings: seq<(bool, T)>): Option<T> {
    if findings == [] then None else if findings[0].0 then Some(findings[0].1) else FirstHolding(findings[1..])
  }

  lemma {:induction false} FirstHoldingAt<T>(findings: seq<(bool, T)>, k: nat)
    requires k < |findings| && findings[k].0 && forall j :: 0 <= j < k ==> !findings[j].0
    ensures FirstHolding(findings) == Some(findings[k].1)
  {
    if k > 0 {
      FirstHoldingAt(findings[1..], k - 1);
    }
  }

  lemma {:induction false} NoneHolds<T>(findings: seq<(bool, T)>)
    requires forall j :: 0 <= j < |findings| ==> !findings[j].0
    ensures FirstHolding(findings) == None
  {
    if findings != [] {
      NoneHolds(findings[1..]);
    }
  }

  /** The first position whose element satisfies `p`. */
  function FirstIndex<T>(p: T -> bool, s: seq<T>): (i: Option<nat>)
    ensures i.Some? ==> i.value < |s| && p(s[i.value])
  {
    if s == [] then None
    else
      var before := FirstIndex(p, s[..|s| - 1]);
      if before.Some? then before
      else if p(s[|s| - 1]) then Some(|s| - 1)
      else None
  }

  lemma {:induction false} FilterMembers<T>(p: T -> bool, s: seq<T>)
    ensures forall x :: x in Filter(p, s) <==> x in s && p(x)
  {
    if s != [] {
      FilterMembers(p, s[..|s| - 1]);
      assert s == s[..|s| - 1] + [s[|s| - 1]];
    }
  }

  lemma {:induction false} FilterConcatenates<T>(p: T -> bool, a: seq<T>, b: seq<T>)
    ensures Filter(p, a + b) == Filter(p, a) + Filter(p, b)
  {
    if b == [] {
      assert a + b == a;
    } else {
      FilterConcatenates(p, a, b[..|b| - 1]);
      assert (a + b)[..|a + b| - 1] == a + b[..|b| - 1];
    }
  }

  lemma {:induction false} FilterEverything<T>(p: T -> bool, s: seq<T>)
    requires forall x :: x in s ==> p(x)
    ensures Filter(p, s) == s
  {
    if s != [] {
      var n := |s| - 1;
      assert s[n] in s;
      forall x | x in s[..n] ensures p(x) {
        var i :| 0 <= i < n && s[i] == x;
      }
      FilterEverything(p, s[..n]);
      assert s == s[..n] + [s[n]];
    }
  }

  lemma {:induction false} FilterNothing<T>(p: T -> bool, s: seq<T>)
    requires forall x :: x in s ==> !p(x)
    ensures Filter(p, s) == []
  {
    if s != [] {
      var n := |s| - 1;
      assert s[n] in s;
      forall x | x in s[..n] ensures !p(x) {
        var i :| 0 <= i < n && s[i] == x;
      }
      FilterNothing(p, s[..n]);
    }
  }

  lemma {:induction false} FirstIndexIsFirst<T>(p: T -> bool, s: seq<T>)
    ensures FirstIndex(p, s).Some? ==> forall k :: 0 <= k < FirstIndex(p, s).value ==> !p(s[k])
    ensures FirstIndex(p, s).None? ==> forall k :: 0 <= k < |s| ==> !p(s[k])
  {
    if s != [] {
      FirstIndexIsFirst(p, s[..|s| - 1]);
    }
  }

  lemma FirstIndexUnique<T>(p: T -> bool, s: seq<T>, i: nat)
    requires i < |s| && p(s[i])
    requires forall k :: 0 <= k < i ==> !p(s[k])
    ensures FirstIndex(p, s) == Some(i)
  {
    FirstIndexIsFirst(p, s);
  }

  lemma {:induction false} FirstIndexExtends<T>(p: T -> bool, a: seq<T>, b: seq<T>)
    requires FirstIndex(p, a).Some?
    ensures FirstIndex(p, a + b) == FirstIndex(p, a)
  {
    if b == [] {
      assert a + b == a;
    } else {
      FirstIndexExtends(p, a, b[..|b| - 1]);
      assert (a + b)[..|a + b| - 1] == a + b[..|b| - 1];
    }
  }

  /** `values[:limit]`. */
  function Take<T>(values: seq<T>, limit: nat): (r: seq<T>)
    ensures |r| == if |values| <= limit then |values| else limit
  {
    if |values| <= limit then values else values[..limit]
  }

  /** The first occurrence of every value, in order. */
  function FirstOccurrences<T(==)>(values: seq<T>): seq<T> {
    if values == [] then []
    else
      var rest, last := values[..|values| - 1], values[|values| - 1];
      if last in rest then FirstOccurrences(rest) else FirstOccurrences(rest) + [last]
  }

  ghost predicate NoDuplicates<T>(values: seq<T>) {
    forall i, j :: 0 <= i < j < |values| ==> values[i] != values[j]
  }

  lemma {:induction false} FirstOccurrencesAreUnique<T>(values: seq<T>)
    ensures NoDuplicates(FirstOccurrences(values))
    ensures forall x :: x in FirstOccurrences(values) <==> x in values
  {
    if values != [] {
      var n := |values| - 1;
      FirstOccurrencesAreUnique(values[..n]);
      assert values == values[..n] + [values[n]];
    }
  }

  lemma {:induction false} FirstOccurrencesOfUnique<T>(values: seq<T>)
    requires NoDuplicates(values)
    ensures FirstOccurrences(values) == values
  {
    if values != [] {
      FirstOccurrencesOfUnique(values[..|values| - 1]);
    }
  }

  method Unique<T(==)>(values: seq<T>) returns (output: seq<T>)
    ensures output == FirstOccurrences(values)
  {
    var seen: set<T> := {};
    output := [];
    for i := 0 to |values|
      invariant forall x :: x in seen <==> x in values[..i]
      invariant output == FirstOccurrences(values[..i])
    {
      assert values[..i + 1][..i] == values[..i];
      if values[i] !in seen {
        seen := seen + {values[i]};
        output := output + [values[i]];
      }
    }
    assert values[..|values|] == values;
  }

  lemma {:induction false} FilterKeepsUnique<T>(p: T -> bool, values: seq<T>)
    requires NoDuplicates(values)
    ensures NoDuplicates(Filter(p, values))
  {
    if values != [] {
      var n := |values| - 1;
      FilterKeepsUnique(p, values[..n]);
      FilterMembers(p, values[..n]);
    }
  }

  lemma RepeatedLast<T>(values: seq<T>, x: T)
    requires values != [] && values[|values| - 1] == x
    ensures FirstOccurrences(values + [x]) == FirstOccurrences(values)
  {
    assert (values + [x])[..|values|] == values;
  }

  lemma {:induction false} FirstOccurrencesNoLonger<T>(values: seq<T>)
    ensures |FirstOccurrences(values)| <= |values|
  {
    if values != [] {
      FirstOccurrencesNoLonger(values[..|values| - 1]);
    }
  }

  lemma SomeMember<T>(s: set<T>) returns (x: T)
    requires s != {}
    ensures x in s
  {
    x :| x in s;
  }
}

/** ASCII text, as symbols and modes are written. */
module Text {
  function UpperChar(c: char): (r: char)
    ensures r == c || ('a' <= c <= 'z' && 'A' <= r <= 'Z')
  {
    if 'a' <= c <= 'z' then (c as int - 32) as char else c
  }

  function Upper(s: string): (r: string)
    ensures |r| == |s|
    ensures forall i :: 0 <= i < |s| ==> r[i] == UpperChar(s[i])
  {
    if s == [] then [] else Upper(s[..|s| - 1]) + [UpperChar(s[|s| - 1])]
  }

  predicate IsSpace(c: char) {
    9 <= c as int <= 13 || 28 <= c as int <= 32
  }

  /** `str.strip()`. */
  function Strip(s: string): (r: string)
    ensures r != [] ==> !IsSpace(r[0]) && !IsSpace(r[|r| - 1])
    ensures |r| <= |s|
  {
    if s == [] then []
    else if IsSpace(s[0]) then Strip(s[1..])
    else if IsSpace(s[|s| - 1]) then Strip(s[..|s| - 1])
    else s
  }

  function LowerChar(c: char): (r: char)
    ensures r == c || ('A' <= c <= 'Z' && 'a' <= r <= 'z')
  {
    if 'A' <= c <= 'Z' then (c as int + 32) as char else c
  }

  function Lower(s: string): (r: string)
    ensures |r| == |s|
    ensures forall i :: 0 <= i < |s| ==> r[i] == LowerChar(s[i])
  {
    if s == [] then [] else Lower(s[..|s| - 1]) + [LowerChar(s[|s| - 1])]
  }

  predicate StartsWith(s: string, prefix: string) {
    prefix <= s
  }

  predicate Contains(s: string, part: string) {
    part <= s || (s != "" && Contains(s[1..], part))
  }

  /** `s.replace(part, other)`: left to right, without overlaps. */
  function Replace(s: string, part: string, other: string): string
    requires part != ""
  {
    if |s| < |part| then s
    else if part <= s then other + Replace(s[|part|..], part, other)
    else [s[0]] + Replace(s[1..], part, other)
  }

  lemma {:induction false} ReplaceNothing(s: string, part: string, other: string)
    requires part != "" && !Contains(s, part)
    ensures Replace(s, part, other) == s
  {
    if |s| >= |part| {
      ReplaceNothing(s[1..], part, other);
    }
  }

  lemma {:induction false} ContainsFits(s: string, part: string)
    requires Contains(s, part)
    ensures |part| <= |s|
  {
    if !(part <= s) {
      ContainsFits(s[1..], part);
    }
  }

  /** What a text ends with contains no more than the text. */
  lemma {:induction false} ContainsLater(before: string, s: string, part: string)
    requires Contains(s, part)
    ensures Contains(before + s, part)
  {
    if before == "" {
      assert before + s == s;
    } else {
      ContainsLater(before[1..], s, part);
      assert (before + s)[1..] == before[1..] + s;
    }
  }

  lemma {:induction false} ContainsEarlier(s: string, after: string, part: string)
    requires Contains(s, part)
    ensures Contains(s + after, part)
  {
    if !(part <= s) {
      ContainsEarlier(s[1..], after, part);
      assert (s + after)[1..] == s[1..] + after;
    }
  }

  lemma {:induction false} ContainsAt(s: string, part: string, i: nat)
    requires i <= |s| && part <= s[i..]
    ensures Contains(s, part)
  {
    assert s[..i] + s[i..] == s;
    ContainsLater(s[..i], s[i..], part);
  }

  lemma {:induction false} ContainedAt(s: string, part: string) returns (i: nat)
    requires Contains(s, part)
    ensures i <= |s| && part <= s[i..]
    ensures forall j :: 0 <= j < i ==> !(part <= s[j..])
  {
    if part <= s {
      i := 0;
      assert s[0..] == s;
    } else {
      var later := ContainedAt(s[1..], part);
      i := later + 1;
      assert s[1..][later..] == s[i..];
      forall j | 0 <= j < i ensures !(part <= s[j..]) {
        if j > 0 {
          assert s[1..][j - 1..] == s[j..];
        } else {
          assert s[0..] == s;
        }
      }
    }
  }

  /** Replacing passes over a front in which no match begins. */
  lemma {:induction false} ReplaceSkips(front: string, s: string, part: string, other: string)
    requires part != "" && |part| <= |s|
    requires forall j :: 0 <= j < |front| ==> !(part <= (front + s)[j..])
    ensures Replace(front + s, part, other) == front + Replace(s, part, other)
  {
    if front == "" {
      assert front + s == s && front + Replace(s, part, other) == Replace(s, part, other);
    } else {
      var text := front + s;
      assert text[0..] == text && text[1..] == front[1..] + s;
      assert front == [text[0]] + front[1..];
      forall j | 0 <= j < |front| - 1 ensures !(part <= (front[1..] + s)[j..]) {
        assert text[1..][j..] == text[j + 1..];
      }
      ReplaceSkips(front[1..], s, part, other);
    }
  }
}

/** Python's order on strings. */
module TextOrder {
  import opened Ordering

  predicate TextLe(a: string, b: string) {
    a == [] || (b != [] && (a[0] < b[0] || (a[0] == b[0] && TextLe(a[1..], b[1..]))))
  }

  lemma {:induction false} TextTotal(a: string, b: string)
    ensures TextLe(a, b) || TextLe(b, a)
  {
    if a != [] && b != [] {
      TextTotal(a[1..], b[1..]);
    }
  }

  lemma {:induction false} TextTransitive(a: string, b: string, c: string)
    requires TextLe(a, b) && TextLe(b, c)
    ensures TextLe(a, c)
  {
    if a != [] && b != [] && c != [] && a[0] == b[0] == c[0] {
      TextTransitive(a[1..], b[1..], c[1..]);
    }
  }

  lemma {:induction false} TextAntisymmetric(a: string, b: string)
    requires TextLe(a, b) && TextLe(b, a)
    ensures a == b
  {
    if a != [] {
      TextAntisymmetric(a[1..], b[1..]);
      assert a == [a[0]] + a[1..] && b == [b[0]] + b[1..];
    }
  }

  lemma TextIsOrdered()
    ensures TotalPreorder(TextLe)
  {
    forall a, b ensures TextLe(a, b) || TextLe(b, a) {
      TextTotal(a, b);
    }
    forall a, b, c | TextLe(a, b) && TextLe(b, c) ensures TextLe(a, c) {
      TextTransitive(a, b, c);
    }
  }
}

/** Instants are whole microseconds since the Unix epoch in UTC, the resolution of the source's
    datetimes. India Standard Time is UTC+05:30 all year, so an IST date and an IST time of day are
    quotient and remainder after adding 19 800 seconds. */
module MarketClock {
  type Instant = int

  const SECOND: int := 1_000_000
  const MINUTE: int := 60_000_000
  const DAY: int := 86_400_000_000

  function MinuteOf(t: Instant): (m: Instant)
    ensures m <= t < m + 60_000_000 && m % 60_000_000 == 0
  {
    t - t % 60_000_000
  }

  function IstDate(t: Instant): int {
    (t + 19_800_000_000) / 86_400_000_000
  }

  /** Microseconds since midnight IST. */
  function IstTime(t: Instant): (time: int)
    ensures 0 <= time < DAY
    ensures t + 19_800_000_000 == IstDate(t) * DAY + time
  {
    (t + 19_800_000_000) % 86_400_000_000
  }

  /** The clock runs: the epoch fell on date zero at 05:30, a day later is the next date at the same time, and until
      midnight only the time moves. */
  lemma IstClockRuns(t: Instant, d: int)
    ensures IstDate(0) == 0 && IstTime(0) == TimeOfDay(5, 30) == 330 * MINUTE
    ensures IstDate(t + DAY) == IstDate(t) + 1 && IstTime(t + DAY) == IstTime(t)
    ensures 0 <= IstTime(t) + d < DAY ==> IstDate(t + d) == IstDate(t) && IstTime(t + d) == IstTime(t) + d
    ensures MINUTE == 60 * SECOND && DAY == 24 * 60 * MINUTE
  {
  }

  /** `hour:minute` as a time of day. */
  function TimeOfDay(hour: nat, minute: nat): int {
    hour * 3_600_000_000 + minute * 60_000_000
  }
}

/** Decimal arithmetic is exact over `real`; `quantize` is the only place digits are lost. */
module Rounding {
  /** Nearest integer, ties away from zero (ROUND_HALF_UP). */
  function HalfUp(x: real): int {
    if x >= 0.0 then (x + 0.5).Floor else -((0.5 - x).Floor)
  }

  /** Nearest integer, ties to the even neighbour (ROUND_HALF_EVEN, the decimal default). */
  function HalfEven(x: real): int {
    var low := x.Floor;
    var rest := x - low as real;
    if rest < 0.5 || (rest == 0.5 && low % 2 == 0) then low else low + 1
  }

  /** Four decimal places, as indicators are published. */
  function Q4(x: real): real {
    HalfUp(x * 10000.0) as real / 10000.0
  }

  /** Six decimal places, as prices are stored. */
  function Q6(x: real): real {
    HalfUp(x * 1000000.0) as real / 1000000.0
  }

  /** Six decimal places with the default context rounding, as journal payloads are written. */
  function Money(x: real): real {
    HalfEven(x * 1000000.0) as real / 1000000.0
  }

  /** A multiple of 0.000001. */
  ghost predicate OnGrid(x: real) {
    exists units: int :: IsUnits(x, units)
  }

  ghost predicate IsUnits(x: real, units: int) {
    x * 1000000.0 == units as real
  }

  lemma HalfUpIsNearestAndMonotone(x: real, y: real)
    requires x <= y
    ensures HalfUp(x) <= HalfUp(y)
    ensures -0.5 <= HalfUp(x) as real - x <= 0.5
  {
  }

  /** Which integer is nearest, a tie going away from zero. */
  lemma HalfUpExactly(x: real, n: int)
    ensures HalfUp(x) == n
      <==> if x >= 0.0 then n as real - 0.5 <= x < n as real + 0.5 else n as real - 0.5 < x <= n as real + 0.5
  {
  }

  /** ... or to the even neighbour. */
  lemma HalfEvenExactly(x: real, n: int)
    ensures HalfEven(x) == n
      <==> n as real - 0.5 <= x <= n as real + 0.5 && (x in {n as real - 0.5, n as real + 0.5} ==> n % 2 == 0)
  {
  }

  /** Published numbers, exactly: four places with ties away from zero, six places likewise, and six places with ties to
      the even digit. */
  lemma PlacesExactly(x: real, n: int)
    ensures Q4(x) * 10000.0 == n as real
      <==> if x >= 0.0 then n as real - 0.5 <= x * 10000.0 < n as real + 0.5
           else n as real - 0.5 < x * 10000.0 <= n as real + 0.5
    ensures Q6(x) * 1000000.0 == n as real
      <==> if x >= 0.0 then n as real - 0.5 <= x * 1000000.0 < n as real + 0.5
           else n as real - 0.5 < x * 1000000.0 <= n as real + 0.5
    ensures Money(x) * 1000000.0 == n as real
      <==> n as real - 0.5 <= x * 1000000.0 <= n as real + 0.5
           && (x * 1000000.0 in {n as real - 0.5, n as real + 0.5} ==> n % 2 == 0)
  {
    hide HalfUp, HalfEven;
    HalfUpExactly(x * 10000.0, n);
    HalfUpExactly(x * 1000000.0, n);
    HalfEvenExactly(x * 1000000.0, n);
  }

  /** Rounding to four places is monotone and errs by at most half a unit. */
  lemma Q4MonotoneWithHalfUnitError(x: real, y: real)
    requires x <= y
    ensures Q4(x) <= Q4(y)
    ensures -0.00005 <= Q4(x) - x <= 0.00005
  {
    HalfUpIsNearestAndMonotone(x * 10000.0, y * 10000.0);
  }

  lemma Q6OnGrid(x: real)
    ensures OnGrid(Q6(x))
    ensures -0.0000005 <= Q6(x) - x <= 0.0000005
  {
    HalfUpIsNearestAndMonotone(x * 1000000.0, x * 1000000.0);
    assert IsUnits(Q6(x), HalfUp(x * 1000000.0));
  }

  /** Both roundings leave a stored price alone. */
  lemma GridIsFixed(x: real)
    requires OnGrid(x)
    ensures Q6(x) == x && Money(x) == x
  {
    var units :| IsUnits(x, units);
    assert HalfUp(units as real) == units;
    assert HalfEven(units as real) == units;
  }

  lemma GridDifference(x: real, y: real)
    requires OnGrid(x) && OnGrid(y)
    ensures OnGrid(x - y)
  {
    var m :| IsUnits(x, m);
    var n :| IsUnits(y, n);
    assert IsUnits(x - y, m - n);
  }

  lemma GridSum(x: real, y: real)
    requires OnGrid(x) && OnGrid(y)
    ensures OnGrid(x + y)
  {
    var m :| IsUnits(x, m);
    var n :| IsUnits(y, n);
    assert IsUnits(x + y, m + n);
  }

  lemma {:induction false} GridMultiple(x: real, k: nat, product: real)
    requires OnGrid(x)
    requires product == x * k as real
    ensures OnGrid(product)
  {
    if k == 0 {
      assert IsUnits(product, 0);
    } else {
      GridMultiple(x, k - 1, product - x);
      GridSum(product - x, x);
    }
  }
}

/** Python's `sorted`: stable, by a total preorder. */
module Ordering {
  import opened Collections

  ghost predicate TotalPreorder<T(!new)>(le: (T, T) -> bool) {
    && (forall x, y :: le(x, y) || le(y, x))
    && (forall x, y, z :: le(x, y) && le(y, z) ==> le(x, z))
  }

  ghost predicate SortedBy<T>(le: (T, T) -> bool, s: seq<T>) {
    forall i, j :: 0 <= i < j < |s| ==> le(s[i], s[j])
  }

  /** Puts `x` behind every element that is not greater. */
  function Insert<T>(le: (T, T) -> bool, s: seq<T>, x: T): (r: seq<T>)
    ensures multiset(r) == multiset(s) + multiset{x}
    ensures |r| == |s| + 1
  {
    if s == [] || le(s[|s| - 1], x) then s + [x]
    else
      assert s == s[..|s| - 1] + [s[|s| - 1]];
      Insert(le, s[..|s| - 1], x) + [s[|s| - 1]]
  }

  function Sort<T>(le: (T, T) -> bool, s: seq<T>): (r: seq<T>)
    ensures multiset(r) == multiset(s)
    ensures |r| == |s|
  {
    if s == [] then []
    else
      assert s == s[..|s| - 1] + [s[|s| - 1]];
      Insert(le, Sort(le, s[..|s| - 1]), s[|s| - 1])
  }

  lemma SameMultisetSameMembers<T>(a: seq<T>, b: seq<T>)
    requires multiset(a) == multiset(b)
    ensures forall x :: x in a <==> x in b
  {
    forall x ensures x in a <==> x in b {
      assert x in a <==> x in multiset(a);
      assert x in b <==> x in multiset(b);
    }
  }

  lemma {:induction false} UniqueCounts<T>(s: seq<T>, x: T)
    requires NoDuplicates(s)
    ensures multiset(s)[x] == if x in s then 1 else 0
  {
    if s != [] {
      var n := |s| - 1;
      UniqueCounts(s[..n], x);
      assert s == s[..n] + [s[n]];
      LastIsNew(s);
    }
  }

  lemma LastIsNew<T>(s: seq<T>)
    requires NoDuplicates(s) && s != []
    ensures s[|s| - 1] !in s[..|s| - 1]
  {
  }

  lemma RepeatCountsTwice<T>(s: seq<T>, i: nat, j: nat)
    requires i < j < |s| && s[i] == s[j]
    ensures multiset(s)[s[i]] >= 2
  {
    assert s == s[..j] + [s[j]] + s[j + 1..];
    assert s[..j][i] == s[i];
    assert s[i] in multiset(s[..j]);
  }

  lemma RearrangedUnique<T>(a: seq<T>, b: seq<T>)
    requires NoDuplicates(a) && multiset(a) == multiset(b)
    ensures NoDuplicates(b)
  {
    forall i, j | 0 <= i < j < |b| ensures b[i] != b[j] {
      if b[i] == b[j] {
        RepeatCountsTwice(b, i, j);
        UniqueCounts(a, b[i]);
      }
    }
  }

  lemma SameMembersSameMultiset<T>(a: seq<T>, b: seq<T>)
    requires NoDuplicates(a) && NoDuplicates(b)
    requires forall x :: x in a <==> x in b
    ensures multiset(a) == multiset(b)
  {
    forall x ensures multiset(a)[x] == multiset(b)[x] {
      UniqueCounts(a, x);
      UniqueCounts(b, x);
    }
  }

  lemma {:induction false} InsertKeepsSorted<T(!new)>(le: (T, T) -> bool, s: seq<T>, x: T)
    requires TotalPreorder(le) && SortedBy(le, s)
    ensures SortedBy(le, Insert(le, s, x))
  {
    if s == [] || le(s[|s| - 1], x) {
    } else {
      var last := s[|s| - 1];
      var rest := Insert(le, s[..|s| - 1], x);
      InsertKeepsSorted(le, s[..|s| - 1], x);
      forall i | 0 <= i < |rest| ensures le(rest[i], last) {
        assert rest[i] in multiset(rest);
        assert rest[i] in s[..|s| - 1] || rest[i] == x;
      }
    }
  }

  lemma {:induction false} SortSorts<T(!new)>(le: (T, T) -> bool, s: seq<T>)
    requires TotalPreorder(le)
    ensures SortedBy(le, Sort(le, s))
    ensures forall x :: x in Sort(le, s) <==> x in s
  {
    if s == [] {
    } else {
      SortSorts(le, s[..|s| - 1]);
      InsertKeepsSorted(le, Sort(le, s[..|s| - 1]), s[|s| - 1]);
      SameMultisetSameMembers(Sort(le, s), s);
    }
  }

  lemma {:induction false} InsertBehindSmaller<T>(le: (T, T) -> bool, a: seq<T>, b: seq<T>, x: T)
    requires forall y :: y in a ==> le(y, x)
    ensures Insert(le, a + b, x) == a + Insert(le, b, x)
  {
    if b == [] {
      assert a + b == a;
    } else if le(b[|b| - 1], x) {
      assert (a + b)[|a + b| - 1] == b[|b| - 1];
      assert (a + b) + [x] == a + (b + [x]);
    } else {
      assert (a + b)[|a + b| - 1] == b[|b| - 1];
      InsertBehindSmaller(le, a, b[..|b| - 1], x);
      assert (a + b)[..|a + b| - 1] == a + b[..|b| - 1];
    }
  }

  /** Appending strictly greater elements leaves the sorted front alone. */
  lemma {:induction false} SortExtends<T(!new)>(le: (T, T) -> bool, a: seq<T>, b: seq<T>)
    requires forall x, y :: x in a && y in b ==> le(x, y)
    ensures Sort(le, a + b) == Sort(le, a) + Sort(le, b)
  {
    if b == [] {
      assert a + b == a;
    } else {
      hide Insert, SortedBy;
      var last, rest := b[|b| - 1], b[..|b| - 1];
      assert last in b && forall y :: y in rest ==> y in b;
      SortExtends(le, a, rest);
      assert (a + b)[|a + b| - 1] == last && (a + b)[..|a + b| - 1] == a + rest;
      SameMultisetSameMembers(Sort(le, a), a);
      assert forall y :: y in Sort(le, a) ==> y in a && le(y, last);
      InsertBehindSmaller(le, Sort(le, a), Sort(le, rest), last);
    }
  }

  predicate Tied<T(!new)>(le: (T, T) -> bool, x: T, y: T) {
    le(x, y) && le(y, x)
  }

  lemma {:induction false} InsertKeepsTies<T(!new)>(le: (T, T) -> bool, s: seq<T>, x: T, z: T)
    requires TotalPreorder(le)
    ensures Filter(y => Tied(le, y, z), Insert(le, s, x)) == Filter(y => Tied(le, y, z), s + [x])
  {
    var p := (y: T) => Tied(le, y, z);
    assert (s + [x])[..|s|] == s;
    if s != [] && !le(s[|s| - 1], x) {
      var front, last := s[..|s| - 1], s[|s| - 1];
      InsertKeepsTies(le, front, x, z);
      assert (front + [x])[..|front|] == front;
      assert (Insert(le, front, x) + [last])[..|front| + 1] == Insert(le, front, x);
      assert !(p(x) && p(last));
    }
  }

  /** Sorting is stable: elements that tie keep their order. */
  lemma {:induction false} SortIsStable<T(!new)>(le: (T, T) -> bool, s: seq<T>, z: T)
    requires TotalPreorder(le)
    ensures Filter(y => Tied(le, y, z), Sort(le, s)) == Filter(y => Tied(le, y, z), s)
  {
    if s != [] {
      var front, last := s[..|s| - 1], s[|s| - 1];
      var sorted := Sort(le, front);
      SortIsStable(le, front, z);
      InsertKeepsTies(le, sorted, last, z);
      assert (sorted + [last])[..|sorted|] == sorted;
    }
  }

  lemma {:induction false} FilterKeepsSorted<T(!new)>(le: (T, T) -> bool, p: T -> bool, s: seq<T>)
    requires SortedBy(le, s)
    ensures SortedBy(le, Filter(p, s))
  {
    if s != [] {
      var n := |s| - 1;
      FilterKeepsSorted(le, p, s[..n]);
      FilterMembers(p, s[..n]);
      forall x | x in Filter(p, s[..n]) ensures le(x, s[n]) {
        var i :| 0 <= i < n && s[i] == x;
      }
    }
  }

  /** A sorted list already in order is a fixed point of the sort. */
  lemma {:induction false} SortOfSorted<T>(le: (T, T) -> bool, s: seq<T>)
    requires SortedBy(le, s)
    ensures Sort(le, s) == s
  {
    if s == [] {
    } else {
      SortOfSorted(le, s[..|s| - 1]);
    }
  }

  lemma GreatestIsLast<T>(le: (T, T) -> bool, a: seq<T>, b: seq<T>)
    requires SortedBy(le, a) && SortedBy(le, b)
    requires a != [] && |a| == |b|
    requires forall x :: x in a <==> x in b
    requires forall x, y :: x in a && y in a && le(x, y) && le(y, x) ==> x == y
    ensures a[|a| - 1] == b[|b| - 1]
  {
    var n := |a| - 1;
    assert a[n] in b && b[n] in a;
    var i :| 0 <= i <= n && b[i] == a[n];
    var j :| 0 <= j <= n && a[j] == b[n];
    assert i == n || le(b[i], b[n]);
    assert j == n || le(a[j], a[n]);
  }

  lemma WithoutLast<T>(s: seq<T>)
    requires s != []
    ensures multiset(s[..|s| - 1]) == multiset(s) - multiset{s[|s| - 1]}
  {
    assert s == s[..|s| - 1] + [s[|s| - 1]];
  }

  /** Without ties between different elements the sorted arrangement is unique. */
  lemma {:induction false} SortedArrangementIsUnique<T>(le: (T, T) -> bool, a: seq<T>, b: seq<T>)
    requires SortedBy(le, a) && SortedBy(le, b)
    requires multiset(a) == multiset(b)
    requires forall x, y :: x in a && y in a && le(x, y) && le(y, x) ==> x == y
    ensures a == b
  {
    assert |multiset(a)| == |a| && |multiset(b)| == |b|;
    if a != [] {
      SameMultisetSameMembers(a, b);
      GreatestIsLast(le, a, b);
      WithoutLast(a);
      WithoutLast(b);
      SortedArrangementIsUnique(le, a[..|a| - 1], b[..|b| - 1]);
      assert a == a[..|a| - 1] + [a[|a| - 1]];
      assert b == b[..|b| - 1] + [b[|b| - 1]];
    }
  }

  /** Rearranging the input does not change the sorted result when no two elements tie. */
  lemma SortIgnoresArrangement<T(!new)>(le: (T, T) -> bool, a: seq<T>, b: seq<T>)
    requires TotalPreorder(le)
    requires multiset(a) == multiset(b)
    requires forall x, y :: x in a && y in a && le(x, y) && le(y, x) ==> x == y
    ensures Sort(le, a) == Sort(le, b)
  {
    SortSorts(le, a);
    SortSorts(le, b);
    SortedArrangementIsUnique(le, Sort(le, a), Sort(le, b));
  }
}

/** The one-minute candle every component reads. */
module Candles {
  import opened MarketClock
  import opened Ordering

  datatype Candle = Candle(
    instrumentId: int,
    timeframe: string,
    startedAt: Instant,
    open: real,
    high: real,
    low: real,
    close: real,
    volume: int)

  /** What the candle builder promises and the simulator and indicators rely on. */
  predicate WellFormed(c: Candle) {
    && c.low <= c.open <= c.high
    && c.low <= c.close <= c.high
    && 0 <= c.volume
  }

  predicate AllWellFormed(cs: seq<Candle>) {
    forall i :: 0 <= i < |cs| ==> WellFormed(cs[i])
  }

  function TotalVolume(cs: seq<Candle>): int {
    if cs == [] then 0 else TotalVolume(cs[..|cs| - 1]) + cs[|cs| - 1].volume
  }

  predicate StartsNoLater(a: Candle, b: Candle) {
    a.startedAt <= b.startedAt
  }

  ghost predicate DistinctStarts(cs: seq<Candle>) {
    forall i, j :: 0 <= i < j < |cs| ==> cs[i].startedAt != cs[j].startedAt
  }

  /** Every candle of `more` starts after every candle of `cs`. */
  ghost predicate AllLater(cs: seq<Candle>, more: seq<Candle>) {
    forall x, y :: x in cs && y in more ==> x.startedAt < y.startedAt
  }

  /** `sorted(candles, key=started_at)`. */
  function ByStart(cs: seq<Candle>): (r: seq<Candle>)
    ensures multiset(r) == multiset(cs) && |r| == |cs|
  {
    Sort(StartsNoLater, cs)
  }

  lemma ByStartSorts(cs: seq<Candle>)
    ensures SortedBy(StartsNoLater, ByStart(cs))
    ensures forall x :: x in ByStart(cs) <==> x in cs
  {
    SortSorts(StartsNoLater, cs);
  }

  lemma ByStartExtends(cs: seq<Candle>, more: seq<Candle>)
    requires AllLater(cs, more)
    ensures ByStart(cs + more) == ByStart(cs) + ByStart(more)
  {
    SortExtends(StartsNoLater, cs, more);
  }

  lemma ByStartIgnoresArrangement(a: seq<Candle>, b: seq<Candle>)
    requires multiset(a) == multiset(b)
    requires DistinctStarts(a)
    ensures ByStart(a) == ByStart(b)
  {
    SortIgnoresArrangement(StartsNoLater, a, b);
  }
}
