/**
 * The handful of Python string operations the system relies on, over
 * `string` (a sequence of Unicode scalar values): substring test (`w in t`),
 * `startswith`, `strip()`, `split(sep)` with its inverse `join`, and
 * `lower()` restricted to ASCII letters.
 */
module Text {

  /** `w` occurs in `t` starting at index `i`. */
  predicate OccursAt(t: string, w: string, i: nat)
  {
    i + |w| <= |t| && t[i..i + |w|] == w
  }

  /** Python's `w in t` for two strings, scanning from the left. */
  predicate Contains(t: string, w: string)
    ensures w == [] ==> Contains(t, w)
    ensures Contains(t, w) ==> |w| <= |t|
    decreases |t|
  {
    if |w| > |t| then false
    else if w <= t then true
    else Contains(t[1..], w)
  }

  lemma {:induction false} ContainsAt(t: string, w: string, i: nat)
    requires OccursAt(t, w, i)
    ensures Contains(t, w)
    decreases i
  {
    if i == 0 {
      assert t[..|w|] == w;
    } else {
      assert t[1..][i - 1..i - 1 + |w|] == t[i..i + |w|];
      ContainsAt(t[1..], w, i - 1);
    }
  }

  lemma {:induction false} ContainsWitness(t: string, w: string) returns (i: nat)
    requires Contains(t, w)
    ensures OccursAt(t, w, i)
    decreases |t|
  {
    if w <= t {
      i := 0;
    } else {
      var j := ContainsWitness(t[1..], w);
      assert t[1..][j..j + |w|] == t[j + 1..j + 1 + |w|];
      i := j + 1;
    }
  }

  /** The scanning definition agrees with "occurs at some index". */
  lemma ContainsIffOccurs(t: string, w: string)
    ensures Contains(t, w) <==> exists i: nat :: OccursAt(t, w, i)
  {
    if Contains(t, w) {
      var i := ContainsWitness(t, w);
    }
    forall i: nat | OccursAt(t, w, i) ensures Contains(t, w) {
      ContainsAt(t, w, i);
    }
  }

  /** A word occurs in any text that has it between two other pieces. */
  lemma ContainsInfix(a: string, w: string, b: string)
    ensures Contains(a + w + b, w)
  {
    var t := a + w + b;
    assert t[|a|..|a| + |w|] == w;
    ContainsAt(t, w, |a|);
  }

  /** A word with a character the text lacks does not occur in it. */
  lemma {:induction false} MissingCharNotContained(t: string, w: string, c: char)
    requires c in w && c !in t
    ensures !Contains(t, w)
    decreases |t|
  {
    if |w| <= |t| && !(w <= t) {
      MissingCharNotContained(t[1..], w, c);
    }
  }

  /** A word occurring in `a + [c] + b` occurs in `a`, occurs in `b`, or holds `c`. */
  lemma ContainedAcrossGap(a: string, c: char, b: string, w: string)
    ensures Contains(a + [c] + b, w) ==> Contains(a, w) || Contains(b, w) || c in w
  {
    var t := a + [c] + b;
    if Contains(t, w) {
      var i := ContainsWitness(t, w);
      if i + |w| <= |a| {
        assert a[i..i + |w|] == t[i..i + |w|];
        ContainsAt(a, w, i);
      } else if i > |a| {
        assert b[i - |a| - 1..i - |a| - 1 + |w|] == t[i..i + |w|];
        ContainsAt(b, w, i - |a| - 1);
      } else {
        assert w[|a| - i] == t[|a|];
      }
    }
  }

  /** A word missing a character before a gap and another after it does not span the gap either. */
  lemma NotContainedAcrossGap(a: string, c: char, b: string, w: string, inA: char, inB: char)
    requires c !in w
    requires inA in w && inA !in a && inB in w && inB !in b
    ensures !Contains(a + [c] + b, w)
  {
    MissingCharNotContained(a, w, inA);
    MissingCharNotContained(b, w, inB);
    ContainedAcrossGap(a, c, b, w);
  }

  /** No word occurs whose marked character (`marks[i]` for `words[i]`) the text lacks. */
  lemma MarkedWordsNotContained(t: string, words: seq<string>, marks: seq<char>)
    requires |marks| == |words|
    requires forall i :: 0 <= i < |words| ==> marks[i] in words[i] && marks[i] !in t
    ensures forall w :: w in words ==> !Contains(t, w)
  {
    forall w | w in words ensures !Contains(t, w) {
      var i :| 0 <= i < |words| && words[i] == w;
      MissingCharNotContained(t, w, marks[i]);
    }
  }

  /** Python's `s.startswith(p)`. */
  predicate StartsWith(s: string, p: string)
  {
    p <= s
  }

  /**
   * The ASCII characters for which Python's `str.isspace()` holds, and which
   * `str.strip()` therefore removes: tab, line feed, vertical tab, form feed,
   * carriage return, the four separators U+001C to U+001F, and space.
   */
  predicate IsSpace(c: char)
  {
    c == ' ' || c == '\t' || c == '\n' || c == '\r' || c == '\U{000B}' || c == '\U{000C}'
    || ('\U{001C}' <= c <= '\U{001F}')
  }

  predicate IsBlank(s: string)
  {
    forall i :: 0 <= i < |s| ==> IsSpace(s[i])
  }

  /** Neither end of `s` is whitespace (vacuous for the empty string). */
  predicate Trimmed(s: string)
  {
    s == [] || (!IsSpace(s[0]) && !IsSpace(s[|s| - 1]))
  }

  /** `s.lstrip()`: the suffix left after dropping the leading whitespace. */
  function TrimLeft(s: string): (r: string)
    ensures |r| <= |s| && r == s[|s| - |r|..]
    ensures IsBlank(s[..|s| - |r|])
    ensures r == [] || !IsSpace(r[0])
    decreases |s|
  {
    if s != [] && IsSpace(s[0]) then TrimLeft(s[1..]) else s
  }

  /** `s.rstrip()`: the prefix left after dropping the trailing whitespace. */
  function TrimRight(s: string): (r: string)
    ensures |r| <= |s| && r == s[..|r|]
    ensures IsBlank(s[|r|..])
    ensures r == [] || !IsSpace(r[|r| - 1])
    decreases |s|
  {
    if s != [] && IsSpace(s[|s| - 1]) then
      var r := TrimRight(s[..|s| - 1]);
      assert forall k :: |r| <= k < |s| - 1 ==> s[k] == s[..|s| - 1][|r|..][k - |r|];
      r
    else s
  }

  /** `s.strip()`: `s` without its leading and trailing whitespace. */
  function Strip(s: string): (r: string)
    ensures Trimmed(r)
    ensures r == [] <==> IsBlank(s)
    ensures exists i, j :: 0 <= i <= j <= |s| && r == s[i..j] && IsBlank(s[..i]) && IsBlank(s[j..])
  {
    var l := TrimLeft(s);
    var r := TrimRight(l);
    BlankSplit(s, |s| - |l|);
    BlankSplit(l, |r|);
    var i := |s| - |l|;
    assert r == s[i..i + |r|] && s[i + |r|..] == l[|r|..];
    r
  }

  /** A string is blank exactly when both pieces of any cut of it are. */
  lemma BlankSplit(s: string, k: nat)
    requires k <= |s|
    ensures IsBlank(s) <==> IsBlank(s[..k]) && IsBlank(s[k..])
  {
    if IsBlank(s[..k]) && IsBlank(s[k..]) {
      forall i | 0 <= i < |s| ensures IsSpace(s[i]) {
        if i < k { assert s[i] == s[..k][i]; } else { assert s[i] == s[k..][i - k]; }
      }
    }
  }

  /** Stripping a string whose ends are not whitespace changes nothing. */
  lemma StripTrimmed(s: string)
    requires Trimmed(s)
    ensures Strip(s) == s
  {
  }

  /** Python's `s.split(sep)` for a one-character separator: always at least one part. */
  function Split(s: string, sep: char): (parts: seq<string>)
    ensures |parts| >= 1
    ensures forall p :: p in parts ==> sep !in p
    decreases |s|
  {
    if s == [] then [[]]
    else
      var rest := Split(s[1..], sep);
      if s[0] == sep then [[]] + rest
      else [[s[0]] + rest[0]] + rest[1..]
  }

  /** `sep.join(parts)`. */
  function Join(parts: seq<string>, sep: char): string
    requires |parts| >= 1
    decreases |parts|
  {
    if |parts| == 1 then parts[0] else parts[0] + [sep] + Join(parts[1..], sep)
  }

  lemma {:induction false} SplitAfterPlainPrefix(p: string, t: string, sep: char)
    requires sep !in p
    ensures Split(p + t, sep) == [p + Split(t, sep)[0]] + Split(t, sep)[1..]
    decreases |p|
  {
    if p != [] {
      assert (p + t)[1..] == p[1..] + t;
      SplitAfterPlainPrefix(p[1..], t, sep);
      assert [p[0]] + (p[1..] + Split(t, sep)[0]) == p + Split(t, sep)[0];
    } else {
      assert p + t == t;
      assert p + Split(t, sep)[0] == Split(t, sep)[0];
    }
  }

  /** Splitting undoes joining, when no part holds the separator. */
  lemma {:induction false} SplitJoin(parts: seq<string>, sep: char)
    requires |parts| >= 1
    requires forall p :: p in parts ==> sep !in p
    ensures Split(Join(parts, sep), sep) == parts
    decreases |parts|
  {
    if |parts| == 1 {
      SplitAfterPlainPrefix(parts[0], [], sep);
      assert parts[0] + [] == parts[0];
      assert Split([], sep) == [[]];
      assert parts == [parts[0]];
    } else {
      var tail := Join(parts[1..], sep);
      SplitJoin(parts[1..], sep);
      assert Join(parts, sep) == parts[0] + ([sep] + tail);
      SplitAfterPlainPrefix(parts[0], [sep] + tail, sep);
      assert ([sep] + tail)[1..] == tail;
      assert Split([sep] + tail, sep) == [[]] + Split(tail, sep);
      assert parts[0] + [] == parts[0];
      assert parts == [parts[0]] + parts[1..];
    }
  }

  /** Joining undoes splitting. */
  lemma {:induction false} JoinSplit(s: string, sep: char)
    ensures Join(Split(s, sep), sep) == s
    decreases |s|
  {
    if s != [] {
      var rest := Split(s[1..], sep);
      JoinSplit(s[1..], sep);
      if s[0] == sep {
        assert ([[]] + rest)[1..] == rest;
      } else {
        var parts := [[s[0]] + rest[0]] + rest[1..];
        if |rest| > 1 {
          assert parts[1..] == rest[1..];
          assert Join(rest, sep) == rest[0] + [sep] + Join(rest[1..], sep);
        }
      }
    }
  }

  /** The first character of a join is that of its first part. */
  lemma {:induction false} JoinFirst(parts: seq<string>, sep: char)
    requires |parts| >= 1 && parts[0] != []
    ensures Join(parts, sep) != [] && Join(parts, sep)[0] == parts[0][0]
  {
  }

  /** The last character of a join is that of its last part. */
  lemma {:induction false} JoinLast(parts: seq<string>, sep: char)
    requires |parts| >= 1 && parts[|parts| - 1] != []
    ensures var j := Join(parts, sep); j != [] && j[|j| - 1] == parts[|parts| - 1][|parts[|parts| - 1]| - 1]
    decreases |parts|
  {
    if |parts| > 1 {
      JoinLast(parts[1..], sep);
    }
  }

  predicate IsUpperAscii(c: char)
  {
    'A' <= c <= 'Z'
  }

  /** `c.lower()` for ASCII letters; every other character is left as it is. */
  function LowerChar(c: char): (l: char)
    ensures IsUpperAscii(c) ==> l as int == c as int + 32
    ensures !IsUpperAscii(c) ==> l == c
    ensures !IsUpperAscii(l)
  {
    if IsUpperAscii(c) then (c as int + 32) as char else c
  }

  /** `s.lower()` restricted to ASCII. */
  function Lower(s: string): (r: string)
    ensures |r| == |s|
    ensures forall i :: 0 <= i < |s| ==> r[i] == LowerChar(s[i])
  {
    seq(|s|, i requires 0 <= i < |s| => LowerChar(s[i]))
  }

  /**
   * Lower-casing leaves no ASCII capital, so doing it twice changes nothing
   * more; a text is its own lower case exactly when it has no ASCII capital;
   * and only capitals are changed.
   */
  lemma LowerFolds(s: string)
    ensures forall i :: 0 <= i < |Lower(s)| ==> !IsUpperAscii(Lower(s)[i])
    ensures Lower(Lower(s)) == Lower(s)
    ensures Lower(s) == s <==> forall i :: 0 <= i < |s| ==> !IsUpperAscii(s[i])
    ensures forall i :: 0 <= i < |s| && Lower(s)[i] != s[i] ==> IsUpperAscii(s[i])
  {
    var l := Lower(s);
    assert forall i :: 0 <= i < |l| ==> Lower(l)[i] == l[i];
    if Lower(s) == s {
      forall i | 0 <= i < |s| ensures !IsUpperAscii(s[i]) {
        assert l[i] == s[i];
      }
    }
  }

  /** Text without ASCII capitals (all Arabic text, for one) is its own lower case. */
  lemma LowerOfNoCapitals(s: string)
    requires forall c :: c in s ==> !IsUpperAscii(c)
    ensures Lower(s) == s
  {
    assert forall i :: 0 <= i < |s| ==> s[i] in s;
  }
}
