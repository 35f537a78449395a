/**
 * The string handling wb_agent.py relies on: Python's `str.isdigit`/`int()` over
 * ASCII digit strings, `str(n)` for naturals, `str.split(sep)`, `str.strip()`,
 * `str.replace(pat, "")`, `str.startswith`, the bot-mention strip of the command
 * loop and the digit/underscore filter of `type_slowly_numbers`.
 */
module Text {
  import opened Wrappers

  predicate IsDigit(c: char) { '0' <= c <= '9' }

  predicate IsDigitString(s: string) { |s| > 0 && forall i :: 0 <= i < |s| ==> IsDigit(s[i]) }

  function DigitValue(c: char): nat requires IsDigit(c) { (c - '0') as nat }

  function DigitChar(d: nat): (c: char)
    requires d < 10
    ensures IsDigit(c) && DigitValue(c) == d
  {
    ('0' as int + d) as char
  }

  /** Decimal value of a string of ASCII digits, most significant digit first. */
  function DigitsValue(s: string): nat
    requires forall i :: 0 <= i < |s| ==> IsDigit(s[i])
  {
    if |s| == 0 then 0 else DigitsValue(s[..|s| - 1]) * 10 + DigitValue(s[|s| - 1])
  }

  /** Python's `int(s)` restricted to ASCII digit strings; `None` is the ValueError. */
  function ParseNat(s: string): (r: Option<nat>)
    ensures r.Some? <==> IsDigitString(s)
  {
    if IsDigitString(s) then Some(DigitsValue(s)) else None
  }

  /** Python's `str(n)` for a natural number: decimal, no leading zeros. */
  function NatToString(n: nat): (s: string)
    ensures IsDigitString(s)
    ensures |s| > 1 ==> s[0] != '0'
    decreases n
  {
    if n < 10 then [DigitChar(n)] else NatToString(n / 10) + [DigitChar(n % 10)]
  }

  /** `int(str(n)) == n`. */
  lemma {:induction false} ParseNatToString(n: nat)
    ensures ParseNat(NatToString(n)) == Some(n)
    decreases n
  {
    var s := NatToString(n);
    if n < 10 {
      assert s[..|s| - 1] == [];
    } else {
      ParseNatToString(n / 10);
      assert s[..|s| - 1] == NatToString(n / 10);
      assert DigitsValue(s) == DigitsValue(NatToString(n / 10)) * 10 + n % 10;
    }
  }

  /** Different numbers print differently. */
  lemma NatToStringInjective(n: nat, m: nat)
    requires NatToString(n) == NatToString(m)
    ensures n == m
  {
    ParseNatToString(n);
    ParseNatToString(m);
  }

  /** `s.startswith(p)`. */
  predicate StartsWith(s: string, p: string) { |p| <= |s| && s[..|p|] == p }

  /** `pat` starts at index `i` of `s`. */
  predicate OccursAt(pat: string, s: string, i: int)
  {
    0 <= i && i + |pat| <= |s| && s[i..i + |pat|] == pat
  }

  /** Python's `pat in s`. */
  ghost predicate Occurs(pat: string, s: string)
  {
    exists i :: OccursAt(pat, s, i)
  }

  /** Index of the first `c` in `s`, or `|s|` when there is none. */
  function IndexOf(s: string, c: char): (i: nat)
    ensures i <= |s| && forall k :: 0 <= k < i ==> s[k] != c
    ensures i < |s| ==> s[i] == c
  {
    if |s| == 0 then 0
    else if s[0] == c then 0
    else IndexOf(s[1..], c) + 1
  }

  /** Python's `s.split(sep)` for a one-character separator. */
  function Split(s: string, sep: char): (parts: seq<string>)
    ensures |parts| >= 1
    decreases |s|
  {
    var i := IndexOf(s, sep);
    if i == |s| then [s] else [s[..i]] + Split(s[i + 1..], sep)
  }

  /** Python's `sep.join(parts)`. */
  function Join(parts: seq<string>, sep: char): string
    requires |parts| >= 1
  {
    if |parts| == 1 then parts[0] else parts[0] + [sep] + Join(parts[1..], sep)
  }

  /** The first part runs up to the first separator, and there is only one part exactly when there is no separator. */
  lemma SplitHead(s: string, sep: char, i: nat)
    requires i == IndexOf(s, sep)
    ensures Split(s, sep)[0] == s[..i]
    ensures |Split(s, sep)| == 1 <==> sep !in s
  {
    if i < |s| {
      assert s[i] in s;
    }
  }

  /** The parts after the first are the split of what follows the first separator. */
  lemma SplitRest(s: string, sep: char, i: nat)
    requires i == IndexOf(s, sep) && i < |s|
    ensures Split(s, sep) == [s[..i]] + Split(s[i + 1..], sep)
  {
  }

  lemma JoinCons(head: string, tail: seq<string>, sep: char)
    requires |tail| >= 1
    ensures Join([head] + tail, sep) == head + [sep] + Join(tail, sep)
  {
    assert ([head] + tail)[1..] == tail;
  }

  /** A string is the part before index `i`, the character there, and the part after. */
  lemma Recompose(s: string, i: nat)
    requires i < |s|
    ensures s[..i] + [s[i]] + s[i + 1..] == s
  {
  }

  lemma JoinSplitStep(s: string, sep: char, i: nat)
    requires i == IndexOf(s, sep) && i < |s|
    ensures Join(Split(s, sep), sep) == s[..i] + [sep] + Join(Split(s[i + 1..], sep), sep)
  {
    SplitRest(s, sep, i);
    JoinCons(s[..i], Split(s[i + 1..], sep), sep);
  }

  /** Splitting and joining again gives back the string. */
  lemma {:induction false} JoinSplit(s: string, sep: char)
    ensures Join(Split(s, sep), sep) == s
    decreases |s|
  {
    var i := IndexOf(s, sep);
    if i < |s| {
      JoinSplitStep(s, sep, i);
      JoinSplit(s[i + 1..], sep);
      Recompose(s, i);
    }
  }

  /** A string without the separator is its own single part. */
  lemma SplitNone(s: string, sep: char)
    requires sep !in s
    ensures Split(s, sep) == [s]
  {
  }

  /** The first separator ends the first part; the rest splits on its own. */
  lemma SplitFirst(a: string, b: string, sep: char)
    requires sep !in a
    ensures Split(a + [sep] + b, sep) == [a] + Split(b, sep)
  {
    var s := a + [sep] + b;
    var i := IndexOf(s, sep);
    assert s[..|a|] == a;
    assert forall k :: 0 <= k < |a| ==> s[k] == a[k];
    assert s[|a|] == sep;
    assert i == |a|;
    assert s[i + 1..] == b;
  }

  /** Splitting a string that holds exactly one separator gives its two sides. */
  lemma SplitAround(a: string, b: string, sep: char)
    requires sep !in a && sep !in b
    ensures Split(a + [sep] + b, sep) == [a, b]
  {
    SplitFirst(a, b, sep);
    SplitNone(b, sep);
  }

  /** The ASCII characters Python's `str.isspace` accepts: tab through carriage return, the four separators 0x1C-0x1F, and space. */
  predicate IsSpace(c: char) { '\t' <= c <= '\r' || '\U{1C}' <= c <= ' ' }

  /** Python's `s.lstrip()`: the suffix left once the leading whitespace is dropped (see `StripLeftSuffix`). */
  function StripLeft(s: string): (r: string)
    ensures |r| <= |s|
    ensures r == [] || !IsSpace(r[0])
  {
    if |s| > 0 && IsSpace(s[0]) then StripLeft(s[1..]) else s
  }

  /** `lstrip()` keeps a suffix of the text and drops whitespace only. */
  lemma {:induction false} StripLeftSuffix(s: string)
    ensures StripLeft(s) == s[|s| - |StripLeft(s)|..]
    ensures forall i :: 0 <= i < |s| - |StripLeft(s)| ==> IsSpace(s[i])
  {
    if |s| > 0 && IsSpace(s[0]) {
      StripLeftSuffix(s[1..]);
      assert forall i :: 1 <= i < |s| ==> s[i] == s[1..][i - 1];
    }
  }

  /** Python's `s.rstrip()`: the prefix left once the trailing whitespace is dropped (see `StripRightPrefix`). */
  function StripRight(s: string): (r: string)
    ensures |r| <= |s| && r == s[..|r|]
    ensures r == [] || !IsSpace(r[|r| - 1])
  {
    if |s| > 0 && IsSpace(s[|s| - 1]) then StripRight(s[..|s| - 1]) else s
  }

  /** What `rstrip()` drops is whitespace only. */
  lemma {:induction false} StripRightPrefix(s: string)
    ensures forall i :: |StripRight(s)| <= i < |s| ==> IsSpace(s[i])
  {
    if |s| > 0 && IsSpace(s[|s| - 1]) {
      StripRightPrefix(s[..|s| - 1]);
    }
  }

  /** Python's `s.strip()` over ASCII whitespace (see `StripInfix`). */
  function Strip(s: string): (r: string)
    ensures r == [] || (!IsSpace(r[0]) && !IsSpace(r[|r| - 1]))
  {
    StripRight(StripLeft(s))
  }

  /**
   * `strip()` keeps the infix of the text from position `k` on, where
   * everything before `k` and everything after the infix is whitespace;
   * with the ends of the infix not whitespace, that infix is unique.
   */
  lemma StripInfix(s: string)
    ensures var r, k := Strip(s), |s| - |StripLeft(s)|;
      && k + |r| <= |s| && r == s[k..k + |r|]
      && (forall i :: 0 <= i < k ==> IsSpace(s[i]))
      && (forall i :: k + |r| <= i < |s| ==> IsSpace(s[i]))
  {
    var t := StripLeft(s);
    var r := StripRight(t);
    assert Strip(s) == r;
    StripLeftSuffix(s);
    StripRightPrefix(t);
    var k := |s| - |t|;
    assert t == s[k..];
    assert r == t[..|r|];
    assert s[k..][..|r|] == s[k..k + |r|];
    forall i | k + |r| <= i < |s| ensures IsSpace(s[i]) {
      assert s[i] == t[i - k];
    }
  }

  /** A string with no surrounding whitespace is left alone by `strip()`. */
  lemma StripUntrimmed(s: string)
    requires s == [] || (!IsSpace(s[0]) && !IsSpace(s[|s| - 1]))
    ensures Strip(s) == s
  {
  }

  /** A numeral followed by one whitespace character, as a line read from a file, strips to the numeral. */
  lemma StripNumeralLine(digits: string, end: char)
    requires IsDigitString(digits) && IsSpace(end)
    ensures Strip(digits + [end]) == digits
  {
    var line := digits + [end];
    assert !IsSpace(line[0]) by { assert line[0] == digits[0] && IsDigit(digits[0]); }
    assert StripLeft(line) == line;
    assert line[..|line| - 1] == digits;
    assert !IsSpace(digits[|digits| - 1]) by { assert IsDigit(digits[|digits| - 1]); }
    assert StripRight(digits) == digits;
  }

  /** Python's `s.replace(pat, "")`: every non-overlapping occurrence, scanning left to right, is removed. */
  function RemoveAll(s: string, pat: string): (r: string)
    requires pat != []
    ensures |r| <= |s|
    decreases |s|
  {
    if |s| < |pat| then s
    else if s[..|pat|] == pat then RemoveAll(s[|pat|..], pat)
    else [s[0]] + RemoveAll(s[1..], pat)
  }

  /** Removing a pattern that does not occur changes nothing. */
  lemma {:induction false} RemoveAllAbsent(s: string, pat: string)
    requires pat != [] && !Occurs(pat, s)
    ensures RemoveAll(s, pat) == s
    decreases |s|
  {
    if |s| >= |pat| {
      assert s[0..|pat|] == s[..|pat|];
      assert !OccursAt(pat, s, 0);
      assert [s[0]] + s[1..] == s;
      forall i | 0 <= i && i + |pat| <= |s[1..]|
        ensures !OccursAt(pat, s[1..], i)
      {
        assert s[1..][i..i + |pat|] == s[i + 1..i + 1 + |pat|];
        assert !OccursAt(pat, s, i + 1);
      }
      RemoveAllAbsent(s[1..], pat);
    }
  }

  /** An occurrence in `s[1..]` is an occurrence in `s` one position later. */
  lemma OccursAtTail(pat: string, s: string, j: nat)
    requires |s| > 0
    ensures OccursAt(pat, s[1..], j) <==> OccursAt(pat, s, j + 1)
  {
    if j + |pat| <= |s| - 1 {
      assert s[1..][j..j + |pat|] == s[j + 1..j + 1 + |pat|];
    }
  }

  /** The scan's two steps, stated through `OccursAt`. */
  lemma RemoveAllStep(s: string, pat: string)
    requires pat != [] && |pat| <= |s|
    ensures OccursAt(pat, s, 0) ==> RemoveAll(s, pat) == RemoveAll(s[|pat|..], pat)
    ensures !OccursAt(pat, s, 0) ==> RemoveAll(s, pat) == [s[0]] + RemoveAll(s[1..], pat)
  {
    assert s[0..0 + |pat|] == s[..|pat|];
  }

  /** No occurrence of `pat` starts in `s` before index `i`. */
  predicate NoneBefore(pat: string, s: string, i: nat)
  {
    forall j :: 0 <= j < i ==> !OccursAt(pat, s, j)
  }

  /** Dropping the first character moves the occurrences one position back. */
  lemma NoneBeforeTail(pat: string, s: string, i: nat)
    requires 0 < i && NoneBefore(pat, s, i) && OccursAt(pat, s, i)
    ensures NoneBefore(pat, s[1..], i - 1) && OccursAt(pat, s[1..], i - 1)
  {
    OccursAtTail(pat, s, i - 1);
    forall j | 0 <= j < i - 1 ensures !OccursAt(pat, s[1..], j) {
      OccursAtTail(pat, s, j);
    }
  }

  /** The kept first character, put back in front of the rest of the cut. */
  lemma ConsCut(s: string, i: nat, rest: string)
    requires 0 < i <= |s|
    ensures [s[0]] + (s[1..][..i - 1] + rest) == s[..i] + rest
  {
    assert [s[0]] + s[1..][..i - 1] == s[..i];
  }

  /** The cut at index `i > 0` of `s` is the first character and the cut at `i - 1` of `s[1..]`. */
  lemma RemoveAllKeepFirst(s: string, pat: string, i: nat, rest: string)
    requires pat != [] && 0 < i && i + |pat| <= |s| && !OccursAt(pat, s, 0)
    requires rest == RemoveAll(s[i + |pat|..], pat)
    requires RemoveAll(s[1..], pat) == s[1..][..i - 1] + RemoveAll(s[1..][i - 1 + |pat|..], pat)
    ensures RemoveAll(s, pat) == s[..i] + rest
  {
    calc {
      RemoveAll(s, pat);
    == { RemoveAllStep(s, pat); }
      [s[0]] + RemoveAll(s[1..], pat);
    == { assert s[1..][i - 1 + |pat|..] == s[i + |pat|..]; }
      [s[0]] + (s[1..][..i - 1] + rest);
    == { ConsCut(s, i, rest); }
      s[..i] + rest;
    }
  }

  /**
   * `replace` cuts at the leftmost occurrence and carries on after it: with
   * `RemoveAllAbsent`, this pins the result down as the text between the
   * leftmost non-overlapping occurrences, whatever the scan's own steps.
   */
  lemma {:induction false} RemoveAllFirst(s: string, pat: string, i: nat)
    requires pat != [] && OccursAt(pat, s, i) && NoneBefore(pat, s, i)
    ensures RemoveAll(s, pat) == s[..i] + RemoveAll(s[i + |pat|..], pat)
    decreases i
  {
    if i == 0 {
      calc {
        RemoveAll(s, pat);
      == { RemoveAllStep(s, pat); }
        RemoveAll(s[|pat|..], pat);
      == { assert s[..i] == []; }
        s[..i] + RemoveAll(s[i + |pat|..], pat);
      }
    } else {
      NoneBeforeTail(pat, s, i);
      RemoveAllFirst(s[1..], pat, i - 1);
      RemoveAllKeepFirst(s, pat, i, RemoveAll(s[i + |pat|..], pat));
    }
  }

  /**
   * The prefix-replacement idiom `(pat + key).replace(pat, "")` gives `key` back
   * exactly when the key holds no further copy of the pattern.
   */
  lemma StripPrefixRoundTrip(pat: string, key: string)
    requires pat != [] && !Occurs(pat, key)
    ensures RemoveAll(pat + key, pat) == key
  {
    assert (pat + key)[..|pat|] == pat;
    assert (pat + key)[|pat|..] == key;
    RemoveAllAbsent(key, pat);
  }

  /** A pattern cannot occur in a string lacking the pattern's first character. */
  lemma AbsentFirstChar(pat: string, s: string)
    requires pat != [] && pat[0] !in s
    ensures !Occurs(pat, s)
  {
    forall i | 0 <= i && i + |pat| <= |s|
      ensures !OccursAt(pat, s, i)
    {
      assert s[i] in s;
      assert s[i..i + |pat|][0] == s[i];
    }
  }

  /** `text.split("@")[0]` when the text holds '@', else the text: the command before the first '@'. */
  function StripMention(text: string): (r: string)
    ensures '@' !in r
    ensures StartsWith(text, r)
    ensures '@' in text ==> text[|r|] == '@'
    ensures '@' !in text ==> r == text
  {
    var i := IndexOf(text, '@');
    SplitHead(text, '@', i);
    if '@' in text then
      Split(text, '@')[0]
    else text
  }

  predicate Typeable(c: char) { IsDigit(c) || c == '_' }

  /** The characters `type_slowly_numbers` actually types: digits and '_' in their original order. */
  function Typed(text: string): (r: string)
    ensures |r| <= |text|
    ensures forall i :: 0 <= i < |r| ==> Typeable(r[i])
  {
    if |text| == 0 then []
    else if Typeable(text[0]) then [text[0]] + Typed(text[1..])
    else Typed(text[1..])
  }

  /** Typing distributes over concatenation. */
  lemma {:induction false} TypedAppend(a: string, b: string)
    ensures Typed(a + b) == Typed(a) + Typed(b)
    decreases |a|
  {
    if |a| == 0 {
      assert a + b == b;
    } else {
      assert (a + b)[0] == a[0];
      assert (a + b)[1..] == a[1..] + b;
      TypedAppend(a[1..], b);
    }
  }

  /** A text made only of digits and '_' is typed unchanged; any other character is skipped. */
  lemma {:induction false} TypedExactly(text: string)
    ensures Typed(text) == text <==> forall i :: 0 <= i < |text| ==> Typeable(text[i])
    decreases |text|
  {
    if |text| > 0 {
      TypedExactly(text[1..]);
      if !Typeable(text[0]) {
        assert |Typed(text)| < |text|;
      }
    }
  }
}
