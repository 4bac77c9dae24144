/** The Python string operations the modelled code relies on. */
module Text {

  /** Python's whitespace: what `str.strip` removes and `\s` matches. */
  predicate IsSpace(c: char) {
    || '\U{0009}' <= c <= '\U{000D}'
    || '\U{001C}' <= c <= '\U{0020}'
    || c == '\U{0085}' || c == '\U{00A0}' || c == '\U{1680}'
    || '\U{2000}' <= c <= '\U{200A}'
    || c == '\U{2028}' || c == '\U{2029}' || c == '\U{202F}' || c == '\U{205F}' || c == '\U{3000}'
  }

  /** The characters at which `str.splitlines` ends a line. */
  predicate IsLineBreak(c: char) {
    || '\U{000A}' <= c <= '\U{000D}'
    || '\U{001C}' <= c <= '\U{001E}'
    || c == '\U{0085}' || c == '\U{2028}' || c == '\U{2029}'
  }

  predicate AllSpace(s: string) {
    forall i :: 0 <= i < |s| ==> IsSpace(s[i])
  }

  predicate NoBreak(s: string) {
    forall i :: 0 <= i < |s| ==> !IsLineBreak(s[i])
  }

  predicate NoSpace(s: string) {
    forall i :: 0 <= i < |s| ==> !IsSpace(s[i])
  }

  /** Neither end is whitespace. */
  predicate Trimmed(s: string) {
    s == [] || (!IsSpace(s[0]) && !IsSpace(s[|s| - 1]))
  }

  // ---------------------------------------------------------------------------------------------
  // strip
  // ---------------------------------------------------------------------------------------------

  function LStrip(s: string): string {
    if s != [] && IsSpace(s[0]) then LStrip(s[1..]) else s
  }

  function RStrip(s: string): string {
    if s != [] && IsSpace(s[|s| - 1]) then RStrip(s[..|s| - 1]) else s
  }

  function Strip(s: string): string {
    RStrip(LStrip(s))
  }

  lemma {:induction false} LStripSplit(s: string) returns (a: string)
    ensures s == a + LStrip(s) && AllSpace(a)
    ensures LStrip(s) == [] || !IsSpace(LStrip(s)[0])
  {
    if s != [] && IsSpace(s[0]) {
      var a' := LStripSplit(s[1..]);
      a := [s[0]] + a';
    } else {
      a := [];
    }
  }

  lemma {:induction false} RStripSplit(s: string) returns (b: string)
    ensures s == RStrip(s) + b && AllSpace(b)
    ensures RStrip(s) == [] || !IsSpace(RStrip(s)[|RStrip(s)| - 1])
  {
    if s != [] && IsSpace(s[|s| - 1]) {
      var b' := RStripSplit(s[..|s| - 1]);
      b := b' + [s[|s| - 1]];
      assert s == s[..|s| - 1] + [s[|s| - 1]];
    } else {
      b := [];
    }
  }

  /** Stripping removes exactly an outer run of whitespace on both sides. */
  lemma StripSplit(s: string) returns (a: string, b: string)
    ensures s == a + Strip(s) + b && AllSpace(a) && AllSpace(b) && Trimmed(Strip(s))
  {
    a := LStripSplit(s);
    b := RStripSplit(LStrip(s));
    assert a + (Strip(s) + b) == a + Strip(s) + b;
  }

  lemma {:induction false} LStripOf(a: string, m: string)
    requires AllSpace(a) && (m == [] || !IsSpace(m[0]))
    ensures LStrip(a + m) == m
  {
    if a == [] {
      assert a + m == m;
    } else {
      assert (a + m)[1..] == a[1..] + m;
      LStripOf(a[1..], m);
    }
  }

  lemma {:induction false} RStripOf(m: string, b: string)
    requires AllSpace(b) && (m == [] || !IsSpace(m[|m| - 1]))
    ensures RStrip(m + b) == m
  {
    if b == [] {
      assert m + b == m;
    } else {
      assert (m + b)[..|m + b| - 1] == m + b[..|b| - 1];
      RStripOf(m, b[..|b| - 1]);
    }
  }

  lemma StripOf(a: string, m: string, b: string)
    requires AllSpace(a) && AllSpace(b) && Trimmed(m)
    ensures Strip(a + m + b) == m
  {
    if m == [] {
      assert a + m + b == (a + b) + [];
      LStripOf(a + b, []);
    } else {
      assert a + m + b == a + (m + b);
      LStripOf(a, m + b);
      RStripOf(m, b);
    }
  }

  lemma StripTrimmed(m: string)
    requires Trimmed(m)
    ensures Strip(m) == m
  {
    StripOf([], m, []);
    assert [] + m + [] == m;
  }

  lemma StripBlank(s: string)
    ensures Strip(s) == [] <==> AllSpace(s)
  {
    var a, b := StripSplit(s);
    if Strip(s) == [] {
      assert s == a + b;
    }
    if AllSpace(s) {
      StripOf(s, [], []);
      assert s + [] + [] == s;
    }
  }

  // ---------------------------------------------------------------------------------------------
  // slices, join, split
  // ---------------------------------------------------------------------------------------------

  /** `s[:n]`, where a negative bound counts from the end. */
  function Take<T>(s: seq<T>, n: int): (r: seq<T>)
    ensures r <= s
    ensures n >= 0 ==> |r| <= n
    ensures 0 <= n <= |s| ==> |r| == n
  {
    if n >= |s| then s
    else if n >= 0 then s[..n]
    else if |s| + n <= 0 then []
    else s[..|s| + n]
  }

  /** `s[n:]`, where a negative bound counts from the end. */
  function Drop<T>(s: seq<T>, n: int): (r: seq<T>)
    ensures Take(s, n) + r == s
  {
    s[|Take(s, n)|..]
  }

  function Join(sep: string, parts: seq<string>): string {
    if parts == [] then ""
    else if |parts| == 1 then parts[0]
    else parts[0] + sep + Join(sep, parts[1..])
  }

  lemma {:induction false} JoinSnoc(sep: string, parts: seq<string>, last: string)
    requires parts != []
    ensures Join(sep, parts + [last]) == Join(sep, parts) + sep + last
  {
    if |parts| == 1 {
      assert (parts + [last])[1..] == [last];
    } else {
      assert (parts + [last])[1..] == parts[1..] + [last];
      JoinSnoc(sep, parts[1..], last);
    }
  }

  function FirstBreak(s: string): (i: nat)
    ensures i <= |s| && NoBreak(s[..i])
    ensures i < |s| ==> IsLineBreak(s[i])
  {
    if s == [] || IsLineBreak(s[0]) then 0
    else
      var i := FirstBreak(s[1..]);
      assert s[..1 + i] == [s[0]] + s[1..][..i];
      1 + i
  }

  /** `str.splitlines()`; a carriage return followed by a line feed counts once. */
  function SplitLines(s: string): (lines: seq<string>)
    ensures forall i :: 0 <= i < |lines| ==> NoBreak(lines[i])
    decreases |s|
  {
    if s == [] then []
    else
      var i := FirstBreak(s);
      if i == |s| then
        assert s[..i] == s;
        [s]
      else if s[i] == '\r' && i + 1 < |s| && s[i + 1] == '\n' then [s[..i]] + SplitLines(s[i + 2..])
      else [s[..i]] + SplitLines(s[i + 1..])
  }

  lemma {:induction false} FirstBreakOf(line: string, rest: string)
    requires NoBreak(line)
    ensures FirstBreak(line + "\n" + rest) == |line|
  {
    if line != [] {
      assert (line + "\n" + rest)[1..] == line[1..] + "\n" + rest;
      FirstBreakOf(line[1..], rest);
    }
  }

  lemma SplitFirstLine(line: string, rest: string)
    requires NoBreak(line)
    ensures SplitLines(line + "\n" + rest) == [line] + SplitLines(rest)
  {
    var s := line + "\n" + rest;
    FirstBreakOf(line, rest);
    assert s[..|line|] == line && s[|line|] == '\n' && s[|line| + 1..] == rest;
  }

  /** Writing lines out, each ended by a line feed, and splitting the text gives the lines back. */
  lemma {:induction false} SplitJoined(lines: seq<string>)
    requires lines != [] && forall i :: 0 <= i < |lines| ==> NoBreak(lines[i])
    ensures SplitLines(Join("\n", lines) + "\n") == lines
  {
    var first, tail := lines[0], lines[1..];
    if |lines| == 1 {
      assert first + "\n" == first + "\n" + "";
      SplitFirstLine(first, "");
    } else {
      var rest := Join("\n", tail) + "\n";
      assert Join("\n", lines) + "\n" == first + "\n" + rest;
      SplitFirstLine(first, rest);
      SplitJoined(tail);
      assert lines == [first] + tail;
    }
  }

  // ---------------------------------------------------------------------------------------------
  // search and replace
  // ---------------------------------------------------------------------------------------------

  predicate OccursAt(pat: string, s: string, k: int) {
    0 <= k && k + |pat| <= |s| && s[k..k + |pat|] == pat
  }

  ghost predicate Occurs(pat: string, s: string) {
    exists k :: OccursAt(pat, s, k)
  }

  lemma OccursTail(pat: string, s: string, j: int)
    requires s != [] && 0 < j
    ensures OccursAt(pat, s, j) <==> OccursAt(pat, s[1..], j - 1)
  {
    if j + |pat| <= |s| {
      assert s[1..][j - 1..j - 1 + |pat|] == s[j..j + |pat|];
    }
  }

  /** `s.find(pat)`: the leftmost occurrence, or -1. */
  function Find(pat: string, s: string): (k: int)
    ensures k == -1 || OccursAt(pat, s, k)
    ensures forall j :: 0 <= j && (k == -1 || j < k) ==> !OccursAt(pat, s, j)
  {
    if |pat| <= |s| && s[..|pat|] == pat then 0
    else if s == [] then -1
    else
      var k := Find(pat, s[1..]);
      assert forall j :: 0 < j ==> (OccursAt(pat, s, j) <==> OccursAt(pat, s[1..], j - 1)) by {
        forall j | 0 < j { OccursTail(pat, s, j); }
      }
      if k == -1 then -1 else k + 1
  }

  /** `s.replace(pat, rep)`: all occurrences, left to right, without overlap. */
  function ReplaceAll(s: string, pat: string, rep: string): string
    requires pat != []
    decreases |s|
  {
    if s == [] then []
    else if pat <= s then rep + ReplaceAll(s[|pat|..], pat, rep)
    else [s[0]] + ReplaceAll(s[1..], pat, rep)
  }

  lemma {:induction false} ReplaceNothing(s: string, pat: string, rep: string)
    requires pat != [] && !Occurs(pat, s)
    ensures ReplaceAll(s, pat, rep) == s
    decreases |s|
  {
    if s != [] {
      assert !OccursAt(pat, s, 0);
      forall k | OccursAt(pat, s[1..], k) ensures false {
        assert OccursAt(pat, s, k + 1);
      }
      ReplaceNothing(s[1..], pat, rep);
    }
  }

  lemma ReplaceHere(pat: string, t: string, rep: string)
    requires pat != []
    ensures ReplaceAll(pat + t, pat, rep) == rep + ReplaceAll(t, pat, rep)
  {
    assert (pat + t)[|pat|..] == t;
  }

  lemma ReplaceLater(c: char, t: string, pat: string, rep: string)
    requires pat != [] && c != pat[0]
    ensures ReplaceAll([c] + t, pat, rep) == [c] + ReplaceAll(t, pat, rep)
  {
    assert ([c] + t)[1..] == t;
  }
}
