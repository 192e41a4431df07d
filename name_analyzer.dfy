/** Splitting of (dotted) names into lower-case word parts, used to
    classify packages as test code (pycograph/helpers/name_analyzer.py). */
module NameAnalyzer {
  import opened Strings

  /** A non-empty run of lower-case ASCII letters. */
  predicate IsLowerWord(w: string) {
    |w| >= 1 && forall i :: 0 <= i < |w| ==> IsLower(w[i])
  }

  /** Length of the longest prefix of `t` made of lower-case letters. */
  function LowerRun(t: string): (n: nat)
    ensures n <= |t|
    ensures forall i :: 0 <= i < n ==> IsLower(t[i])
    ensures n < |t| ==> !IsLower(t[n])
  {
    if |t| > 0 && IsLower(t[0]) then 1 + LowerRun(t[1..]) else 0
  }

  /** Length of the longest prefix of `t` made of upper-case letters. */
  function UpperRun(t: string): (n: nat)
    ensures n <= |t|
    ensures forall i :: 0 <= i < n ==> IsUpper(t[i])
    ensures n < |t| ==> !IsUpper(t[n])
  {
    if |t| > 0 && IsUpper(t[0]) then 1 + UpperRun(t[1..]) else 0
  }

  /** The regular expression anchor `$` (no MULTILINE) holds at position `k`:
      the end of the string, or just before a final newline. */
  predicate AtEnd(s: string, k: nat) {
    k == |s| || (k + 1 == |s| && s[k] == '\n')
  }

  /** The lower-cased word at the front of `s[..k]`, when `s[0]` is upper case
      and the rest of `s[..k]` is letters of one case. */
  lemma LowerWord(s: string, k: nat, lowerTail: bool)
    requires 1 <= k <= |s| && IsUpper(s[0])
    requires forall i :: 1 <= i < k ==> if lowerTail then IsLower(s[i]) else IsUpper(s[i])
    ensures IsLowerWord(Lower(s[..k]))
  {
    var w := Lower(s[..k]);
    forall i | 0 <= i < |w| ensures IsLower(w[i]) {
      assert w[i] == ToLower(s[i]);
    }
  }

  /** `re.findall(r"[A-Z](?:[a-z]+|[A-Z]*(?=[A-Z]|$))", s)`, each match
      lower-cased, written out as a left-to-right scan. At an upper-case
      letter a match takes the following run of lower-case letters; without
      one, it takes the following run of upper-case letters in full when the
      run reaches the end, and otherwise the run minus its last letter (which
      starts the next match). Anything a match does not cover is dropped. */
  function CamelScan(s: string): (r: seq<string>)
    ensures forall k :: 0 <= k < |r| ==> IsLowerWord(r[k])
    decreases |s|
  {
    if |s| == 0 then []
    else if !IsUpper(s[0]) then CamelScan(s[1..])
    else if |s| > 1 && IsLower(s[1]) then
      var j := 1 + LowerRun(s[1..]);
      LowerWord(s, j, true);
      [Lower(s[..j])] + CamelScan(s[j..])
    else
      var k := 1 + UpperRun(s[1..]);
      if AtEnd(s, k) then
        LowerWord(s, k, false);
        [Lower(s[..k])] + CamelScan(s[k..])
      else if k > 1 then
        LowerWord(s, k - 1, false);
        [Lower(s[..k - 1])] + CamelScan(s[k - 1..])
      else CamelScan(s[1..])
  }

  /** `split_camel_case`: every part is a non-empty lower-case word. */
  function SplitCamelCase(camelName: string): (r: seq<string>)
    ensures forall k :: 0 <= k < |r| ==> IsLowerWord(r[k])
  {
    CamelScan(camelName)
  }

  /** A name without upper-case letters has no camel-case parts. */
  lemma {:induction false} CamelScanNoUpper(s: string)
    requires NoUpper(s)
    ensures CamelScan(s) == []
    decreases |s|
  {
    if |s| > 0 {
      CamelScanNoUpper(s[1..]);
    }
  }

  /** An upper-case letter followed by one or more lower-case letters. */
  predicate IsCapitalized(w: string) {
    |w| >= 2 && IsUpper(w[0]) && forall i :: 1 <= i < |w| ==> IsLower(w[i])
  }

  function Concat(ws: seq<string>): string {
    if ws == [] then "" else ws[0] + Concat(ws[1..])
  }

  function LowerAll(ws: seq<string>): (r: seq<string>)
    ensures |r| == |ws|
  {
    if ws == [] then [] else [Lower(ws[0])] + LowerAll(ws[1..])
  }

  lemma LowerRunExact(t: string, m: nat)
    requires m <= |t|
    requires forall i :: 0 <= i < m ==> IsLower(t[i])
    requires m < |t| ==> !IsLower(t[m])
    ensures LowerRun(t) == m
  {
  }

  /** Camel-case splitting takes a run of capitalized words apart again:
      `split_camel_case("PycoThing") == ["pyco", "thing"]`. */
  lemma {:induction false} CamelScanWords(ws: seq<string>)
    requires forall k :: 0 <= k < |ws| ==> IsCapitalized(ws[k])
    ensures CamelScan(Concat(ws)) == LowerAll(ws)
  {
    if ws != [] {
      var w, rest := ws[0], Concat(ws[1..]);
      var s := Concat(ws);
      assert s == w + rest;
      assert |rest| > 0 ==> IsUpper(rest[0]) by {
        if |rest| > 0 {
          assert rest == ws[1] + Concat(ws[2..]);
        }
      }
      assert s[1..] == w[1..] + rest;
      LowerRunExact(s[1..], |w| - 1);
      assert s[..|w|] == w;
      assert s[|w|..] == rest;
      CamelScanWords(ws[1..]);
    }
  }

  lemma UpperRunExact(t: string, m: nat)
    requires m <= |t|
    requires forall i :: 0 <= i < m ==> IsUpper(t[i])
    requires m < |t| ==> !IsUpper(t[m])
    ensures UpperRun(t) == m
  {
  }

  /** One step of the scan at an upper-case letter not followed by a
      lower-case one. */
  lemma CamelScanUpperStep(s: string, k: nat)
    requires |s| >= 1 && IsUpper(s[0]) && (|s| > 1 ==> IsUpper(s[1]))
    requires k == 1 + UpperRun(s[1..])
    ensures AtEnd(s, k) ==> CamelScan(s) == [Lower(s[..k])] + CamelScan(s[k..])
    ensures !AtEnd(s, k) && k > 1 ==> CamelScan(s) == [Lower(s[..k - 1])] + CamelScan(s[k - 1..])
  {
    assert !(|s| > 1 && IsLower(s[1]));
  }

  /** A run of upper-case letters is one part when it ends the name or is
      followed by capitalized words, which then split as before:
      `split_camel_case("HTTPServer") == ["http", "server"]` and
      `split_camel_case("ABC") == ["abc"]`. */
  lemma CamelScanAcronym(u: string, ws: seq<string>)
    requires |u| >= 1 && forall i :: 0 <= i < |u| ==> IsUpper(u[i])
    requires forall k :: 0 <= k < |ws| ==> IsCapitalized(ws[k])
    ensures CamelScan(u + Concat(ws)) == [Lower(u)] + LowerAll(ws)
  {
    if ws == [] {
      assert u + Concat(ws) == u;
      UpperRunExact(u[1..], |u| - 1);
      CamelScanUpperStep(u, |u|);
      assert u[..|u|] == u && u[|u|..] == [];
    } else {
      var rest := Concat(ws);
      assert rest == ws[0] + Concat(ws[1..]);
      assert IsUpper(rest[0]) && IsLower(rest[1]);
      AcronymBeforeWord(u, rest);
      CamelScanWords(ws);
    }
  }

  /** An upper-case run before an upper-case letter and a lower-case one
      ends just before that letter. */
  lemma AcronymBeforeWord(u: string, rest: string)
    requires |u| >= 1 && forall i :: 0 <= i < |u| ==> IsUpper(u[i])
    requires |rest| >= 2 && IsUpper(rest[0]) && IsLower(rest[1])
    ensures CamelScan(u + rest) == [Lower(u)] + CamelScan(rest)
  {
    var s := u + rest;
    var t := s[1..];
    forall i | 0 <= i < |u| ensures IsUpper(t[i]) {
      if i + 1 < |u| {
        assert t[i] == u[i + 1];
      } else {
        assert t[i] == rest[0];
      }
    }
    assert t[|u|] == rest[1];
    UpperRunExact(t, |u|);
    CamelScanUpperStep(s, |u| + 1);
    assert s[..|u|] == u && s[|u|..] == rest;
  }

  /** `determine_name_parts`: a snake-case name is lower-cased and split on
      "_" (empty pieces kept); a name with an upper-case letter is split as
      camel case; any other name is its own single part. Every part is free
      of upper-case letters and of "_". */
  function DetermineNameParts(name: string): (r: seq<string>)
    ensures forall k :: 0 <= k < |r| ==> NoUpper(r[k]) && '_' !in r[k]
    ensures '_' in name ==> Join(r, "_") == Lower(name)
    ensures '_' !in name && NoUpper(name) ==> r == [name]
    ensures '_' !in name && !NoUpper(name) ==> r == SplitCamelCase(name)
  {
    LowerChangesIffUpper(name);
    if '_' in name then
      var r := Split(Lower(name), '_');
      JoinSplit(Lower(name), '_');
      assert forall k :: 0 <= k < |r| ==> NoUpper(r[k]) by {
        SplitNoUpper(Lower(name), '_');
      }
      r
    else if name != Lower(name) then
      var r := SplitCamelCase(name);
      assert forall k :: 0 <= k < |r| ==> '_' !in r[k] by {
        forall k | 0 <= k < |r| ensures '_' !in r[k] {
          assert IsLowerWord(r[k]);
        }
      }
      r
    else [name]
  }

  /** The pieces of a string without upper-case letters have none either. */
  lemma {:induction false} SplitNoUpper(s: string, sep: char)
    requires NoUpper(s)
    ensures forall k :: 0 <= k < |Split(s, sep)| ==> NoUpper(Split(s, sep)[k])
    decreases |s|
  {
    if sep in s {
      var i := IndexOf(s, sep);
      assert NoUpper(s[..i]) by {
        forall j | 0 <= j < i ensures !IsUpper(s[..i][j]) {
          assert s[..i][j] == s[j];
        }
      }
      var t := s[i + 1..];
      assert NoUpper(t) by {
        forall j | 0 <= j < |t| ensures !IsUpper(t[j]) {
          assert t[j] == s[i + 1 + j];
        }
      }
      SplitNoUpper(s[i + 1..], sep);
    }
  }

  /** The in-order concatenation of the parts of each segment. */
  function SegmentParts(segments: seq<string>): (r: seq<string>)
    ensures forall k :: 0 <= k < |r| ==> NoUpper(r[k]) && '_' !in r[k]
  {
    if segments == [] then []
    else DetermineNameParts(segments[0]) + SegmentParts(segments[1..])
  }

  lemma {:induction false} SegmentPartsAppend(a: seq<string>, b: seq<string>)
    ensures SegmentParts(a + b) == SegmentParts(a) + SegmentParts(b)
  {
    if a != [] {
      assert (a + b)[0] == a[0];
      assert (a + b)[1..] == a[1..] + b;
      SegmentPartsAppend(a[1..], b);
      ConcatAssoc(DetermineNameParts(a[0]), SegmentParts(a[1..]), SegmentParts(b));
    } else {
      assert a + b == b;
    }
  }

  /** `determine_full_name_parts`: the parts of every "."-separated segment,
      in order. */
  function DetermineFullNameParts(fullName: string): (r: seq<string>)
    ensures forall k :: 0 <= k < |r| ==> NoUpper(r[k]) && '_' !in r[k]
  {
    SegmentParts(Split(fullName, '.'))
  }

  /** The parts of a dotted name are the parts of its prefix followed by the
      parts of the rest. */
  lemma FullNamePartsAppend(a: string, b: string)
    ensures DetermineFullNameParts(a + "." + b)
        == DetermineFullNameParts(a) + DetermineFullNameParts(b)
  {
    SplitAppend(a, '.', b);
    SegmentPartsAppend(Split(a, '.'), Split(b, '.'));
  }

  /** A name without "." is a single segment. */
  lemma SingleSegmentParts(name: string)
    requires '.' !in name
    ensures DetermineFullNameParts(name) == DetermineNameParts(name)
  {
    assert Split(name, '.') == [name];
    assert [name][1..] == [];
    assert SegmentParts([name]) == DetermineNameParts(name) + SegmentParts([]);
  }
}

/** Worked examples of name splitting. */
module NameExamples {
  import opened Strings
  import opened NameAnalyzer

  /** Lower-casing a capital followed by lower-case letters. */
  lemma LowerCapital(c: char, tail: string, d: char)
    requires IsUpper(c) && d as int == c as int + 32 && NoUpper(tail)
    ensures Lower([c] + tail) == [d] + tail
  {
    var s := [c] + tail;
    assert Lower(s)[0] == d;
    forall i | 0 < i < |s| ensures Lower(s)[i] == s[i] {
      assert s[i] == tail[i - 1];
    }
  }

  lemma SnakeSplit(s: string)
    requires s == "sample_pkg"
    ensures Split(s, '_') == ["sample", "pkg"]
  {
    assert s == "sample" + ['_'] + "pkg";
    SplitCons("sample", '_', "pkg");
  }

  /** A snake-case segment: `"sample_pkg"` gives sample, pkg. */
  lemma SnakeExample(name: string)
    requires name == "sample_pkg"
    ensures DetermineNameParts(name) == ["sample", "pkg"]
  {
    assert name[6] == '_';
    assert NoUpper(name);
    LowerChangesIffUpper(name);
    SnakeSplit(Lower(name));
  }

  /** Lower-casing a two-word list word by word. */
  lemma LowerAllPair(a: string, b: string)
    ensures LowerAll([a, b]) == [Lower(a), Lower(b)]
  {
    assert [a, b][1..] == [b];
    assert [b][1..] == [];
  }

  lemma CamelWordsLower()
    ensures LowerAll(["Pyco", "Thing"]) == ["pyco", "thing"]
  {
    LowerAllPair("Pyco", "Thing");
    assert "Pyco" == ['P'] + "yco";
    assert "pyco" == ['p'] + "yco";
    LowerCapital('P', "yco", 'p');
    assert "Thing" == ['T'] + "hing";
    assert "thing" == ['t'] + "hing";
    LowerCapital('T', "hing", 't');
  }

  lemma CamelScanExample()
    ensures CamelScan("PycoThing") == ["pyco", "thing"]
  {
    assert Concat(["Pyco", "Thing"]) == "PycoThing";
    CamelScanWords(["Pyco", "Thing"]);
    CamelWordsLower();
  }

  lemma LowerHttp(u: string)
    requires u == "HTTP"
    ensures Lower(u) == "http"
  {
    var r := Lower(u);
    assert r[0] == 'h' && r[1] == 't' && r[2] == 't' && r[3] == 'p';
  }

  lemma LowerServer(w: string)
    requires w == "Server"
    ensures IsCapitalized(w) && Lower(w) == "server"
  {
    var r := Lower(w);
    assert r[0] == 's' && r[1] == 'e' && r[2] == 'r' && r[3] == 'v' && r[4] == 'e' && r[5] == 'r';
  }

  /** An upper-case run followed by one capitalized word. */
  lemma AcronymWord(u: string, w: string)
    requires |u| >= 1 && forall i :: 0 <= i < |u| ==> IsUpper(u[i])
    requires IsCapitalized(w)
    ensures CamelScan(u + w) == [Lower(u), Lower(w)]
  {
    var ws := [w];
    assert ws[1..] == [];
    assert Concat(ws) == w;
    CamelScanAcronym(u, ws);
  }

  /** An upper-case run before a capitalized word: `"HTTPServer"` gives
      http, server. */
  lemma AcronymExample(name: string, u: string, w: string)
    requires u == "HTTP" && w == "Server" && name == u + w
    ensures SplitCamelCase(name) == ["http", "server"]
  {
    LowerServer(w);
    AcronymWord(u, w);
    LowerHttp(u);
  }

  /** A segment without "_" that starts with a capital is split as camel case. */
  lemma CamelNameParts(name: string)
    requires |name| > 0 && IsUpper(name[0]) && '_' !in name
    ensures DetermineNameParts(name) == CamelScan(name)
  {
  }

  /** A camel-case segment: `"PycoThing"` gives pyco, thing. */
  lemma CamelExample(name: string)
    requires name == "PycoThing"
    ensures DetermineNameParts(name) == ["pyco", "thing"]
  {
    CamelNameParts(name);
    CamelScanExample();
  }

  /** A leading dot-free segment contributes its own parts first. */
  lemma LeadingSegmentParts(a: string, b: string)
    requires '.' !in a
    ensures DetermineFullNameParts(a + "." + b)
         == DetermineNameParts(a) + DetermineFullNameParts(b)
  {
    FullNamePartsAppend(a, b);
    SingleSegmentParts(a);
  }

  /** A lower-case segment without "_" is its own single part. */
  lemma PlainParts(name: string)
    requires '_' !in name && NoUpper(name)
    ensures DetermineNameParts(name) == [name]
  {
  }

  lemma CamelFullParts(name: string)
    requires name == "PycoThing"
    ensures DetermineFullNameParts(name) == ["pyco", "thing"]
  {
    assert '.' !in name by {
      forall i | 0 <= i < |name| ensures name[i] != '.' {
      }
    }
    SingleSegmentParts(name);
    CamelExample(name);
  }

  lemma TailExample(a: string, b: string, n: string)
    requires a == "dummy" && b == "PycoThing" && n == a + "." + b
    ensures DetermineFullNameParts(n) == ["dummy", "pyco", "thing"]
  {
    assert '.' !in a && '_' !in a && NoUpper(a);
    LeadingSegmentParts(a, b);
    PlainParts(a);
    CamelFullParts(b);
  }

  /** The concatenation of two literal part lists, stated apart from the
      name analysis so that it is solved on its own. */
  lemma MiddleConcat(x: seq<string>, y: seq<string>, z: seq<string>)
    requires x == ["sample", "pkg"] && y == ["dummy", "pyco", "thing"] && z == x + y
    ensures z == ["sample", "pkg", "dummy", "pyco", "thing"]
  {
  }

  lemma MiddleExample(a: string, t: string, n: string)
    requires a == "sample_pkg" && t == "dummy" + "." + "PycoThing" && n == a + "." + t
    ensures DetermineFullNameParts(n) == ["sample", "pkg", "dummy", "pyco", "thing"]
  {
    assert '.' !in a;
    LeadingSegmentParts(a, t);
    SnakeExample(a);
    TailExample("dummy", "PycoThing", t);
    MiddleConcat(DetermineNameParts(a), DetermineFullNameParts(t), DetermineFullNameParts(n));
  }

  /** The concatenation of two literal part lists, stated apart from the
      name analysis so that it is solved on its own. */
  lemma HeadConcat(x: seq<string>, y: seq<string>, z: seq<string>)
    requires x == ["pkg"] && y == ["sample", "pkg", "dummy", "pyco", "thing"] && z == x + y
    ensures z == ["pkg", "sample", "pkg", "dummy", "pyco", "thing"]
  {
  }

  /** The recorded example: "pkg.sample_pkg.dummy.PycoThing" splits into
      pkg, sample, pkg, dummy, pyco, thing. */
  lemma FullNamePartsExample(n: string)
    requires n == "pkg.sample_pkg.dummy.PycoThing"
    ensures DetermineFullNameParts(n) == ["pkg", "sample", "pkg", "dummy", "pyco", "thing"]
  {
    var a, t := "pkg", "sample_pkg" + "." + ("dummy" + "." + "PycoThing");
    assert n == a + "." + t;
    assert '.' !in a && '_' !in a && NoUpper(a);
    LeadingSegmentParts(a, t);
    PlainParts(a);
    MiddleExample("sample_pkg", "dummy" + "." + "PycoThing", t);
    HeadConcat(DetermineNameParts(a), DetermineFullNameParts(t), DetermineFullNameParts(n));
  }
}
