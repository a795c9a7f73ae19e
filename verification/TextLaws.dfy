// Python's text operations on ASCII, stated on letters and positions.

module TextLaws {
  import opened TextOrder
  import Text

  const SMALL := "abcdefghijklmnopqrstuvwxyz"
  const CAPITAL := "ABCDEFGHIJKLMNOPQRSTUVWXYZ"
  const DIGITS := "0123456789"

  lemma LetterAt(i: nat)
    requires i < 26
    ensures SMALL[i] as int == 'a' as int + i && CAPITAL[i] as int == 'A' as int + i
  {
    SmallAt(i);
    CapitalAt(i);
  }

  lemma SmallAt(i: nat)
    requires i < 26
    ensures SMALL[i] as int == 'a' as int + i
  {
  }

  lemma CapitalAt(i: nat)
    requires i < 26
    ensures CAPITAL[i] as int == 'A' as int + i
  {
  }

  lemma DigitAt(i: nat)
    requires i < 10
    ensures DIGITS[i] as int == '0' as int + i
  {
  }

  lemma SmallLetters(c: char)
    ensures c in SMALL <==> 'a' <= c <= 'z'
  {
    if 'a' <= c <= 'z' {
      SmallAt(c as int - 'a' as int);
      assert SMALL[c as int - 'a' as int] == c;
    } else if c in SMALL {
      var i: nat :| i < |SMALL| && SMALL[i] == c;
      SmallAt(i);
      assert false;
    }
  }

  lemma CapitalLetters(c: char)
    ensures c in CAPITAL <==> 'A' <= c <= 'Z'
  {
    if 'A' <= c <= 'Z' {
      CapitalAt(c as int - 'A' as int);
      assert CAPITAL[c as int - 'A' as int] == c;
    } else if c in CAPITAL {
      var i: nat :| i < |CAPITAL| && CAPITAL[i] == c;
      CapitalAt(i);
      assert false;
    }
  }

  lemma DigitCharacters(c: char)
    ensures c in DIGITS <==> '0' <= c <= '9'
  {
    if '0' <= c <= '9' {
      DigitAt(c as int - '0' as int);
      assert DIGITS[c as int - '0' as int] == c;
    } else if c in DIGITS {
      var i: nat :| i < |DIGITS| && DIGITS[i] == c;
      DigitAt(i);
      assert false;
    }
  }

  /** Upper and lower case swap the two alphabets and touch nothing else. */
  lemma CasesSwapAlphabets(i: nat, c: char)
    requires i < 26
    ensures Text.UpperChar(SMALL[i]) == CAPITAL[i] && Text.LowerChar(CAPITAL[i]) == SMALL[i]
    ensures c !in SMALL ==> Text.UpperChar(c) == c
    ensures c !in CAPITAL ==> Text.LowerChar(c) == c
  {
    LetterAt(i);
    SmallLetters(c);
    CapitalLetters(c);
  }

  /** Blank are the tab, line and page separators, the four information separators, and the space. */
  lemma BlanksAreSpaces(c: char)
    ensures Text.IsSpace(c) <==> c as int in {9, 10, 11, 12, 13, 28, 29, 30, 31, 32}
  {
  }

  predicate Blank(s: string) {
    forall i :: 0 <= i < |s| ==> Text.IsSpace(s[i])
  }

  lemma BlankInFront(s: string, front: string, core: string, back: string)
    requires s != "" && Text.IsSpace(s[0]) && s[1..] == front + core + back && Blank(front)
    ensures s == ([s[0]] + front) + core + back && Blank([s[0]] + front)
  {
    hide Text.IsSpace;
    assert s == [s[0]] + s[1..];
  }

  lemma BlankBehind(s: string, front: string, core: string, back: string)
    requires s != "" && Text.IsSpace(s[|s| - 1]) && s[..|s| - 1] == front + core + back && Blank(back)
    ensures s == front + core + (back + [s[|s| - 1]]) && Blank(back + [s[|s| - 1]])
  {
    hide Text.IsSpace;
    assert s == s[..|s| - 1] + [s[|s| - 1]];
  }

  /** Stripping takes blanks off both ends, and all of them. */
  lemma {:induction false} StripTakesBlanks(s: string) returns (front: string, back: string)
    ensures s == front + Text.Strip(s) + back && Blank(front) && Blank(back)
    ensures var t := Text.Strip(s); t != "" ==> !Text.IsSpace(t[0]) && !Text.IsSpace(t[|t| - 1])
  {
    hide Text.IsSpace;
    front, back := "", "";
    if s != "" && Text.IsSpace(s[0]) {
      front, back := StripTakesBlanks(s[1..]);
      BlankInFront(s, front, Text.Strip(s[1..]), back);
      front := [s[0]] + front;
    } else if s != "" && Text.IsSpace(s[|s| - 1]) {
      var n := |s| - 1;
      front, back := StripTakesBlanks(s[..n]);
      BlankBehind(s, front, Text.Strip(s[..n]), back);
      back := back + [s[n]];
    }
  }

  /** The texts agree up to the `k`-th character, where the first is smaller. */
  predicate SmallerAt(a: string, b: string, k: nat) {
    k < |a| && k < |b| && a[..k] == b[..k] && a[k] < b[k]
  }

  lemma SmallerAtHead(a: string, b: string, k: nat)
    requires SmallerAt(a, b, k) && k > 0
    ensures a[0] == b[0] && SmallerAt(a[1..], b[1..], k - 1)
  {
    assert a[0] == a[..k][0] && b[0] == b[..k][0];
    assert a[1..][..k - 1] == a[..k][1..] && b[1..][..k - 1] == b[..k][1..];
  }

  lemma SmallerAtNext(a: string, b: string, k: nat)
    requires a != "" && b != "" && a[0] == b[0] && SmallerAt(a[1..], b[1..], k)
    ensures SmallerAt(a, b, k + 1)
  {
    assert a[..k + 1] == [a[0]] + a[1..][..k] && b[..k + 1] == [b[0]] + b[1..][..k];
  }

  lemma {:induction false} OrderedIsSmaller(a: string, b: string)
    requires TextLe(a, b)
    ensures a <= b || exists k: nat :: SmallerAt(a, b, k)
  {
    hide SmallerAt;
    if a != "" && a[0] == b[0] {
      OrderedIsSmaller(a[1..], b[1..]);
      if k: nat :| SmallerAt(a[1..], b[1..], k) {
        SmallerAtNext(a, b, k);
      } else {
        assert a == [a[0]] + a[1..] && b == [b[0]] + b[1..];
      }
    } else if a != "" {
      SmallerAtOnce(a, b);
    }
  }

  lemma SmallerAtOnce(a: string, b: string)
    requires a != "" && b != "" && a[0] < b[0]
    ensures SmallerAt(a, b, 0)
  {
    assert a[..0] == b[..0];
  }

  lemma {:induction false} SmallerIsOrdered(a: string, b: string, k: nat)
    requires SmallerAt(a, b, k)
    ensures TextLe(a, b)
  {
    if k > 0 {
      SmallerAtHead(a, b, k);
      SmallerIsOrdered(a[1..], b[1..], k - 1);
    }
  }

  lemma {:induction false} PrefixIsOrdered(a: string, b: string)
    requires a <= b
    ensures TextLe(a, b)
  {
    if a != "" {
      assert a[1..] == b[1..][..|a| - 1];
      PrefixIsOrdered(a[1..], b[1..]);
    }
  }

  /** Text order: one is the beginning of the other, or the first place where they differ decides. */
  lemma TextLeIff(a: string, b: string)
    ensures TextLe(a, b) <==> a <= b || exists k: nat :: SmallerAt(a, b, k)
  {
    hide TextLe, SmallerAt;
    if TextLe(a, b) {
      OrderedIsSmaller(a, b);
    }
    if a <= b {
      PrefixIsOrdered(a, b);
    }
    if k: nat :| SmallerAt(a, b, k) {
      SmallerIsOrdered(a, b, k);
    }
  }

  /** A part is contained where it stands at some position. */
  lemma {:induction false} ContainsIff(s: string, part: string)
    ensures Text.Contains(s, part) <==> exists i :: 0 <= i <= |s| && part <= s[i..]
  {
    if Text.Contains(s, part) {
      var i := Text.ContainedAt(s, part);
    }
    if i: nat :| i <= |s| && part <= s[i..] {
      Text.ContainsAt(s, part, i);
    }
  }
}
