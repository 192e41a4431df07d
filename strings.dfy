/** Python `str` operations the resolution engine relies on: ASCII case
    mapping, `split` on a one-character separator, `join`, `replace` and
    `startswith`. */
module Strings {

  predicate IsUpper(c: char) { 'A' <= c <= 'Z' }

  predicate IsLower(c: char) { 'a' <= c <= 'z' }

  /** `str.lower` on one character (ASCII letters only). */
  function ToLower(c: char): (r: char)
    ensures IsUpper(c) ==> IsLower(r) && r as int == c as int + 32
    ensures !IsUpper(c) ==> r == c
    ensures !IsUpper(r)
  {
    if IsUpper(c) then (c as int + 32) as char else c
  }

  /** `str.lower` (ASCII letters only). */
  function Lower(s: string): (r: string)
    ensures |r| == |s|
    ensures forall i :: 0 <= i < |s| ==> r[i] == ToLower(s[i])
    ensures NoUpper(r)
  {
    if s == [] then [] else [ToLower(s[0])] + Lower(s[1..])
  }

  /** No ASCII upper-case letter occurs in `s`. */
  predicate NoUpper(s: string) {
    forall i :: 0 <= i < |s| ==> !IsUpper(s[i])
  }

  /** `name != name.lower()` holds exactly when an upper-case letter occurs. */
  lemma LowerChangesIffUpper(s: string)
    ensures Lower(s) == s <==> NoUpper(s)
  {
    if !NoUpper(s) {
      var i :| 0 <= i < |s| && IsUpper(s[i]);
      assert Lower(s)[i] != s[i];
    }
  }

  predicate StartsWith(s: string, prefix: string) {
    |prefix| <= |s| && s[..|prefix|] == prefix
  }

  lemma StartsWithAppend(p: string, s: string)
    ensures StartsWith(p + s, p)
  {
    assert (p + s)[..|p|] == p;
  }

  /** A string that starts with `p + q` starts with `p`. */
  lemma StartsWithShorter(s: string, p: string, q: string)
    requires StartsWith(s, p + q)
    ensures StartsWith(s, p)
  {
    assert s[..|p|] == (p + q)[..|p|];
  }

  /** Index of the first occurrence of `sep` in `s`. */
  function IndexOf(s: string, sep: char): (i: nat)
    requires sep in s
    ensures i < |s| && s[i] == sep && sep !in s[..i]
  {
    if s[0] == sep then 0 else 1 + IndexOf(s[1..], sep)
  }

  /** `s.split(sep)` for a one-character separator: empty pieces are kept,
      and a string without the separator is one piece. */
  function Split(s: string, sep: char): (r: seq<string>)
    ensures |r| >= 1
    ensures forall k :: 0 <= k < |r| ==> sep !in r[k]
    decreases |s|
  {
    if sep !in s then [s]
    else
      var i := IndexOf(s, sep);
      [s[..i]] + Split(s[i + 1..], sep)
  }

  /** `sep.join(parts)`. */
  function Join(parts: seq<string>, sep: string): string {
    if |parts| == 0 then ""
    else if |parts| == 1 then parts[0]
    else parts[0] + sep + Join(parts[1..], sep)
  }

  /** Splitting a string that starts with a separator-free piece and a
      separator peels that piece off. */
  lemma SplitCons(a: string, sep: char, b: string)
    requires sep !in a
    ensures Split(a + [sep] + b, sep) == [a] + Split(b, sep)
  {
    var s := a + [sep] + b;
    assert s[|a|] == sep;
    assert s[..|a|] == a;
    var i := IndexOf(s, sep);
    assert i == |a|;
    assert s[i + 1..] == b;
  }

  /** `sep.join(s.split(sep)) == s`. */
  lemma {:induction false} JoinSplit(s: string, sep: char)
    ensures Join(Split(s, sep), [sep]) == s
    decreases |s|
  {
    if sep in s {
      var i := IndexOf(s, sep);
      var parts := Split(s, sep);
      assert parts == [s[..i]] + Split(s[i + 1..], sep);
      assert parts[1..] == Split(s[i + 1..], sep);
      JoinSplit(s[i + 1..], sep);
      assert Join(parts, [sep]) == s[..i] + [sep] + Join(parts[1..], [sep]);
      assert s == s[..i] + [sep] + s[i + 1..];
    }
  }

  /** `sep.join(parts).split(sep) == parts` when no part holds the separator. */
  lemma {:induction false} SplitJoin(parts: seq<string>, sep: char)
    requires |parts| >= 1
    requires forall k :: 0 <= k < |parts| ==> sep !in parts[k]
    ensures Split(Join(parts, [sep]), sep) == parts
  {
    if |parts| > 1 {
      SplitJoin(parts[1..], sep);
      SplitCons(parts[0], sep, Join(parts[1..], [sep]));
      assert parts == [parts[0]] + parts[1..];
    }
  }

  /** Splitting a join of separator-free pieces followed by the separator
      and more text gives back the pieces, then the pieces of that text. */
  lemma SplitJoinThen(parts: seq<string>, sep: char, b: string)
    requires |parts| >= 1
    requires forall k :: 0 <= k < |parts| ==> sep !in parts[k]
    ensures Split(Join(parts, [sep]) + [sep] + b, sep) == parts + Split(b, sep)
  {
    SplitJoin(parts, sep);
    SplitAppend(Join(parts, [sep]), sep, b);
  }

  /** Splitting `a + sep + b` splits both halves and concatenates. */
  lemma {:induction false} SplitAppend(a: string, sep: char, b: string)
    ensures Split(a + [sep] + b, sep) == Split(a, sep) + Split(b, sep)
    decreases |a|
  {
    if sep !in a {
      SplitCons(a, sep, b);
    } else {
      var i := IndexOf(a, sep);
      var head, rest := a[..i], a[i + 1..];
      var tail := rest + [sep] + b;
      assert a == head + [sep] + rest;
      assert a + [sep] + b == head + [sep] + tail;
      SplitCons(head, sep, tail);
      SplitCons(head, sep, rest);
      SplitAppend(rest, sep, b);
      ConcatAssoc([head], Split(rest, sep), Split(b, sep));
    }
  }

  lemma ConcatAssoc<T>(x: seq<T>, y: seq<T>, z: seq<T>)
    ensures x + (y + z) == (x + y) + z
  {
  }

  /** `s.replace(pat, rep)`: every non-overlapping occurrence of `pat`,
      scanning left to right, is replaced. */
  function Replace(s: string, pat: string, rep: string): (r: string)
    requires |pat| > 0
    decreases |s|
  {
    if |s| < |pat| then s
    else if s[..|pat|] == pat then rep + Replace(s[|pat|..], pat, rep)
    else [s[0]] + Replace(s[1..], pat, rep)
  }

  /** `pat in s` for a string pattern. */
  predicate Occurs(s: string, pat: string) {
    exists i :: 0 <= i <= |s| && StartsWith(s[i..], pat)
  }

  /** Replacing a pattern that does not occur changes nothing. */
  lemma {:induction false} ReplaceAbsent(s: string, pat: string, rep: string)
    requires |pat| > 0 && !Occurs(s, pat)
    ensures Replace(s, pat, rep) == s
    decreases |s|
  {
    if |s| >= |pat| {
      assert s[0..] == s;
      assert !Occurs(s[1..], pat) by {
        forall i | 0 <= i <= |s[1..]|
          ensures !StartsWith(s[1..][i..], pat)
        {
          assert s[1..][i..] == s[i + 1..];
        }
      }
      ReplaceAbsent(s[1..], pat, rep);
    }
  }

  /** A leading occurrence is replaced and scanning resumes after it. */
  lemma ReplaceLeading(pat: string, s: string, rep: string)
    requires |pat| > 0
    ensures Replace(pat + s, pat, rep) == rep + Replace(s, pat, rep)
  {
    assert (pat + s)[..|pat|] == pat;
    assert (pat + s)[|pat|..] == s;
  }

  /** Replacing one character by another everywhere in a join of pieces
      that do not hold it joins the pieces with the new character. */
  lemma {:induction false} ReplaceSeparator(parts: seq<string>, a: char, b: char)
    requires forall k :: 0 <= k < |parts| ==> a !in parts[k]
    ensures Replace(Join(parts, [a]), [a], [b]) == Join(parts, [b])
  {
    if |parts| == 1 {
      ReplaceNoChar(parts[0], a, [b]);
    } else if |parts| > 1 {
      ReplaceSeparator(parts[1..], a, b);
      ReplaceNoCharThen(parts[0], a, b, Join(parts[1..], [a]));
    }
  }

  lemma {:induction false} ReplaceNoChar(s: string, a: char, b: string)
    requires a !in s
    ensures Replace(s, [a], b) == s
    decreases |s|
  {
    if |s| >= 1 {
      assert s[..1] == [s[0]];
      ReplaceNoChar(s[1..], a, b);
    }
  }

  lemma {:induction false} ReplaceNoCharThen(s: string, a: char, b: char, t: string)
    requires a !in s
    ensures Replace(s + [a] + t, [a], [b]) == s + [b] + Replace(t, [a], [b])
    decreases |s|
  {
    var u := s + [a] + t;
    if |s| == 0 {
      assert u == [a] + t;
      ReplaceLeading([a], t, [b]);
    } else {
      assert u[..1] == [s[0]];
      assert u[1..] == s[1..] + [a] + t;
      ReplaceNoCharThen(s[1..], a, b, t);
    }
  }
}
