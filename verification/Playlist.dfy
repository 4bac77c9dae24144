/**
 Rewriting an HLS playlist so that its URIs point at the local service
 (src/media2text/api/routes/playback.py).  EXT-X-MAP is defined in section 4.3.2.5 of RFC 8216.
 */
module Playlist {
  import opened Wrappers
  import opened Text

  // ---------------------------------------------------------------------------------------------
  // The two URI patterns
  // ---------------------------------------------------------------------------------------------

  /** Whether `c` matches the pattern letter `p` when case is ignored. */
  predicate SameLetter(c: char, p: char) {
    || c == p
    || ('a' <= p <= 'z' && (c as int) + 32 == p as int)
    || (p == 's' && c == '\U{017F}')
    || (p == 'i' && (c == '\U{0131}' || c == '\U{0130}'))
  }

  /** Which characters match the letters of the two patterns. */
  lemma LettersAre(c: char)
    ensures SameLetter(c, 's') <==> c in {'s', 'S', '\U{017F}'}
    ensures SameLetter(c, 'e') <==> c in {'e', 'E'}
    ensures SameLetter(c, 'g') <==> c in {'g', 'G'}
    ensures SameLetter(c, 'm') <==> c in {'m', 'M'}
    ensures SameLetter(c, 'i') <==> c in {'i', 'I', '\U{0131}', '\U{0130}'}
    ensures SameLetter(c, 'n') <==> c in {'n', 'N'}
    ensures SameLetter(c, 't') <==> c in {'t', 'T'}
    ensures SameLetter(c, 'p') <==> c in {'p', 'P'}
  {
  }

  predicate IsDigit(c: char) {
    '0' <= c <= '9'
  }

  function CountDigits(s: string): (d: nat)
    ensures d <= |s|
    ensures forall i :: 0 <= i < d ==> IsDigit(s[i])
    ensures d < |s| ==> !IsDigit(s[d])
  {
    if s == "" || !IsDigit(s[0]) then 0 else 1 + CountDigits(s[1..])
  }

  function Number(digits: string): nat
    requires forall i :: 0 <= i < |digits| ==> IsDigit(digits[i])
  {
    if digits == "" then 0
    else
      var last := digits[|digits| - 1];
      assert IsDigit(last);
      10 * Number(digits[..|digits| - 1]) + (last as int - '0' as int)
  }

  predicate StartsWithSeg(s: string) {
    |s| >= 4 && SameLetter(s[0], 's') && SameLetter(s[1], 'e') && SameLetter(s[2], 'g') && s[3] == '-'
  }

  /** `seg-(\d+)\.m4s` at the beginning of `s`, with `d` digits. */
  predicate IsSeg(s: string, d: nat) {
    && StartsWithSeg(s)
    && d >= 1 && |s| >= 8 + d
    && (forall i :: 4 <= i < 4 + d ==> IsDigit(s[i]))
    && s[4 + d] == '.' && SameLetter(s[5 + d], 'm') && s[6 + d] == '4' && SameLetter(s[7 + d], 's')
  }

  function SegDigits(s: string): (d: nat)
    ensures |s| >= 4 ==> d <= |s| - 4 && forall i :: 0 <= i < d ==> IsDigit(s[4..][i])
  {
    if |s| < 4 then 0 else CountDigits(s[4..])
  }

  predicate SegHere(s: string) {
    IsSeg(s, SegDigits(s))
  }

  /** The group of the leftmost match; the optional prefix `parts/` does not change it. */
  function PartIndex(s: string): Option<nat> {
    if SegHere(s) then Some(Number(s[4..][..SegDigits(s)]))
    else if s == "" then None
    else PartIndex(s[1..])
  }

  /** The digits of a match are all the digits there. */
  lemma OneMatchHere(s: string, d: nat)
    requires IsSeg(s, d)
    ensures d == SegDigits(s)
  {
    assert s[4..][d] == '.';
    assert forall i :: 0 <= i < d ==> IsDigit(s[4..][i]);
  }

  /** A match at position `k`, and none before. */
  ghost predicate IsLeftmost(s: string, k: nat, d: nat) {
    && k <= |s| && IsSeg(s[k..], d)
    && forall j, e: nat :: 0 <= j < k ==> !IsSeg(s[j..], e)
  }

  ghost predicate NoMatch(s: string) {
    forall j, d: nat :: 0 <= j <= |s| ==> !IsSeg(s[j..], d)
  }

  lemma NotHere(s: string)
    requires !SegHere(s)
    ensures forall d: nat :: !IsSeg(s, d)
  {
    forall d: nat ensures !IsSeg(s, d) {
      if IsSeg(s, d) {
        OneMatchHere(s, d);
      }
    }
  }

  lemma LaterMatch(s: string, k: nat, d: nat)
    requires s != "" && (forall e: nat :: !IsSeg(s, e)) && IsLeftmost(s[1..], k, d)
    ensures IsLeftmost(s, k + 1, d) && s[k + 1..] == s[1..][k..]
  {
    forall j, e: nat | 0 <= j < k + 1 ensures !IsSeg(s[j..], e) {
      if j == 0 {
        assert s[0..] == s;
      } else {
        assert s[j..] == s[1..][j - 1..];
      }
    }
  }

  lemma NoLaterMatch(s: string)
    requires s != "" && (forall e: nat :: !IsSeg(s, e)) && NoMatch(s[1..])
    ensures NoMatch(s)
  {
    forall j, e: nat | 0 <= j <= |s| ensures !IsSeg(s[j..], e) {
      if j == 0 {
        assert s[0..] == s;
      } else {
        assert s[j..] == s[1..][j - 1..];
      }
    }
  }

  /** The number of a line is that of the leftmost match in it; without a match there is none. */
  lemma {:induction false} PartIndexIs(s: string)
    ensures PartIndex(s).None? ==> NoMatch(s)
    ensures PartIndex(s).Some? ==>
              exists k: nat, d: nat :: IsLeftmost(s, k, d) && PartIndex(s).value == Number(s[k..][4..4 + d])
  {
    if SegHere(s) {
      var d := SegDigits(s);
      assert s[0..] == s && s[0..][4..4 + d] == s[4..][..d];
      assert IsLeftmost(s, 0, d);
    } else {
      NotHere(s);
      if s == "" {
        assert NoMatch("");
      } else {
        PartIndexIs(s[1..]);
        if PartIndex(s).Some? {
          var k: nat, d: nat :| IsLeftmost(s[1..], k, d) && PartIndex(s[1..]).value == Number(s[1..][k..][4..4 + d]);
          LaterMatch(s, k, d);
        } else {
          NoLaterMatch(s);
        }
      }
    }
  }

  predicate IsInitName(s: string) {
    && |s| == 8
    && SameLetter(s[0], 'i') && SameLetter(s[1], 'n') && SameLetter(s[2], 'i') && SameLetter(s[3], 't')
    && s[4] == '.' && SameLetter(s[5], 'm') && SameLetter(s[6], 'p') && s[7] == '4'
  }

  /** The letters of `init.mp4`, in any case, and nothing else. */
  lemma InitNameIff(s: string)
    ensures IsInitName(s) <==>
            && |s| == 8 && s[4] == '.' && s[7] == '4'
            && s[0] in {'i', 'I', '\U{0131}', '\U{0130}'} && s[1] in {'n', 'N'}
            && s[2] in {'i', 'I', '\U{0131}', '\U{0130}'} && s[3] in {'t', 'T'}
            && s[5] in {'m', 'M'} && s[6] in {'p', 'P'}
  {
    forall c | c in s {
      LettersAre(c);
    }
  }

  /** The letters of `seg-`, digits and `.m4s`, in any case, at the beginning. */
  lemma SegIff(s: string, d: nat)
    ensures IsSeg(s, d) <==>
            && d >= 1 && |s| >= 8 + d
            && s[0] in {'s', 'S', '\U{017F}'} && s[1] in {'e', 'E'} && s[2] in {'g', 'G'} && s[3] == '-'
            && (forall i :: 4 <= i < 4 + d ==> '0' <= s[i] <= '9')
            && s[4 + d] == '.' && s[5 + d] in {'m', 'M'} && s[6 + d] == '4' && s[7 + d] in {'s', 'S', '\U{017F}'}
  {
    forall c | c in s {
      LettersAre(c);
    }
  }

  predicate EndsWith(s: string, tail: string) {
    |s| >= |tail| && s[|s| - |tail|..] == tail
  }

  // ---------------------------------------------------------------------------------------------
  // Rewriting
  // ---------------------------------------------------------------------------------------------

  const MAP_TAG := "#EXT-X-MAP:"
  const INIT_NAME := "init.mp4"
  const MAP_URI := "URI=\"init.mp4\""

  function Base(sid: string): string {
    "/api/sessions/" + sid
  }

  function InitRoute(sid: string): string {
    Base(sid) + "/init.mp4"
  }

  function NewMapUri(sid: string): string {
    "URI=\"" + InitRoute(sid) + "\""
  }

  function Decimal(n: nat): (s: string)
    ensures s != "" && forall i :: 0 <= i < |s| ==> IsDigit(s[i])
  {
    var last := [('0' as int + n % 10) as char];
    if n < 10 then last else Decimal(n / 10) + last
  }

  function PartRoute(sid: string, n: nat): string {
    Base(sid) + "/parts/" + Decimal(n)
  }

  predicate IsMapLine(line: string) {
    MAP_TAG <= Strip(line) && Find(INIT_NAME, Strip(line)) != -1
  }

  predicate IsInitLine(line: string) {
    IsInitName(Strip(line)) || EndsWith(Strip(line), "/init.mp4")
  }

  function RewriteInit(sid: string, line: string): Option<string> {
    if IsMapLine(line) then Some(ReplaceAll(line, MAP_URI, NewMapUri(sid)))
    else if IsInitLine(line) then Some(InitRoute(sid))
    else None
  }

  predicate IsPlain(line: string) {
    Strip(line) == "" || Strip(line)[0] == '#'
  }

  function RewriteLine(sid: string, line: string): string {
    var init := RewriteInit(sid, line);
    if init.Some? then init.value
    else if IsPlain(line) then line
    else
      var part := PartIndex(Strip(line));
      if part.Some? then PartRoute(sid, part.value) else line
  }

  function Rewriter(sid: string): string -> string {
    (line: string) => RewriteLine(sid, line)
  }

  function MapLines(f: string -> string, lines: seq<string>): (out: seq<string>)
    ensures |out| == |lines| && forall i :: 0 <= i < |lines| ==> out[i] == f(lines[i])
  {
    seq(|lines|, i requires 0 <= i < |lines| => f(lines[i]))
  }

  function RewriteLines(sid: string, lines: seq<string>): (out: seq<string>)
    ensures |out| == |lines|
  {
    MapLines(Rewriter(sid), lines)
  }

  /** Writes lines out, with a line feed at the end unless there is one already. */
  function WriteOut(lines: seq<string>): string {
    var body := Join("\n", lines);
    if EndsWith(body, "\n") then body else body + "\n"
  }

  function Rewrite(sid: string, text: string): string {
    WriteOut(RewriteLines(sid, SplitLines(text)))
  }

  lemma RewriteOneMore(sid: string, lines: seq<string>, i: nat)
    requires i < |lines|
    ensures RewriteLines(sid, lines[..i + 1]) == RewriteLines(sid, lines[..i]) + [RewriteLine(sid, lines[i])]
  {
    assert lines[..i + 1] == lines[..i] + [lines[i]];
  }

  /**
   What becomes of a line: in a map tag that names the init file its URI is replaced; an init file, a
   part's file and nothing else give way to their routes; blank lines, comments and other tags stay.
   */
  ghost predicate IsRewritten(sid: string, line: string, out: string) {
    var text := Strip(line);
    if "#EXT-X-MAP:" <= text && Occurs("init.mp4", text) then
      out == ReplaceAll(line, "URI=\"init.mp4\"", "URI=\"/api/sessions/" + sid + "/init.mp4\"")
    else if IsInitName(text) || (|text| >= 9 && text[|text| - 9..] == "/init.mp4") then
      out == "/api/sessions/" + sid + "/init.mp4"
    else if text == "" || text[0] == '#' || PartIndex(text).None? then out == line
    else out == "/api/sessions/" + sid + "/parts/" + Decimal(PartIndex(text).value)
  }

  lemma LineIs(sid: string, line: string)
    ensures IsRewritten(sid, line, RewriteLine(sid, line))
  {
    var text := Strip(line);
    assert Find(INIT_NAME, text) != -1 <==> Occurs("init.mp4", text);
    assert |"/init.mp4"| == 9;
    assert "URI=\"" + ("/api/sessions/" + sid + "/init.mp4") + "\"" == "URI=\"/api/sessions/" + sid + "/init.mp4\"";
  }

  /** The text is these lines, with one line feed at its end. */
  ghost predicate IsWrittenOut(lines: seq<string>, body: string) {
    var text := Join("\n", lines);
    body == if text != "" && text[|text| - 1] == '\n' then text else text + "\n"
  }

  lemma RewriteIs(sid: string, text: string)
    ensures var out := RewriteLines(sid, SplitLines(text));
            && IsWrittenOut(out, Rewrite(sid, text))
            && forall i :: 0 <= i < |out| ==> IsRewritten(sid, SplitLines(text)[i], out[i])
  {
    var lines := SplitLines(text);
    forall i | 0 <= i < |lines| ensures IsRewritten(sid, lines[i], RewriteLines(sid, lines)[i]) {
      LineIs(sid, lines[i]);
    }
  }

  method RewriteM3u8(text: string, sid: string) returns (body: string)
    ensures body == Rewrite(sid, text)
    ensures exists out :: |out| == |SplitLines(text)| && IsWrittenOut(out, body)
              && forall i :: 0 <= i < |out| ==> IsRewritten(sid, SplitLines(text)[i], out[i])
  {
    RewriteIs(sid, text);
    var lines := SplitLines(text);
    var out := [];
    for i := 0 to |lines|
      invariant out == RewriteLines(sid, lines[..i])
    {
      RewriteOneMore(sid, lines, i);
      var line := lines[i];
      var stripped := Strip(line);
      var init := RewriteInit(sid, line);
      if init.Some? {
        out := out + [init.value];
        continue;
      }
      if stripped == "" || stripped[0] == '#' {
        out := out + [line];
        continue;
      }
      var part := PartIndex(stripped);
      if part.Some? {
        out := out + [PartRoute(sid, part.value)];
        continue;
      }
      out := out + [line];
    }
    assert lines[..|lines|] == lines;
    body := Join("\n", out);
    if !EndsWith(body, "\n") {
      body := body + "\n";
    }
  }

  // ---------------------------------------------------------------------------------------------
  // Numbers
  // ---------------------------------------------------------------------------------------------

  lemma {:induction false} DecimalNumber(n: nat)
    ensures Number(Decimal(n)) == n
  {
    var s := Decimal(n);
    if n >= 10 {
      DecimalNumber(n / 10);
      assert s[..|s| - 1] == Decimal(n / 10);
    } else {
      assert s[..0] == "";
    }
  }

  // ---------------------------------------------------------------------------------------------
  // A route is left alone by a second rewrite
  // ---------------------------------------------------------------------------------------------

  /** Session ids that a replacement template and a line can hold: no backslash and no line break. */
  predicate PlainSid(sid: string) {
    NoBreak(sid) && '\\' !in sid
  }

  /** Plain session ids that contain neither of the two patterns. */
  ghost predicate GoodSid(sid: string) {
    PlainSid(sid) && PartIndex(sid).None? && !Occurs(MAP_URI, sid)
  }

  lemma {:induction false} NoPartIff(s: string)
    ensures PartIndex(s).None? <==> forall k :: 0 <= k <= |s| ==> !SegHere(s[k..])
  {
    if s == "" {
      assert s[0..] == s;
    } else {
      NoPartIff(s[1..]);
      assert s[0..] == s;
      assert forall k :: 0 < k <= |s| ==> s[k..] == s[1..][k - 1..];
      if SegHere(s) {
        assert SegHere(s[0..]);
      } else if PartIndex(s[1..]).Some? {
        var k :| 0 <= k <= |s[1..]| && SegHere(s[1..][k..]);
        assert SegHere(s[k + 1..]);
      }
    }
  }

  lemma SegHasNoSlash(s: string, d: nat, i: nat)
    requires IsSeg(s, d) && i < 8 + d
    ensures s[i] != '/'
  {
    if 4 <= i < 4 + d {
      assert IsDigit(s[i]);
    }
  }

  lemma {:induction false} CountIs(s: string, d: nat)
    requires d < |s| && (forall i :: 0 <= i < d ==> IsDigit(s[i])) && !IsDigit(s[d])
    ensures CountDigits(s) == d
  {
    if d > 0 {
      assert IsDigit(s[0]);
      CountIs(s[1..], d - 1);
    }
  }

  /** A match that ends inside a prefix is a match in that prefix. */
  lemma SegInPrefix(s: string, n: nat)
    requires SegHere(s) && 8 + SegDigits(s) <= n <= |s|
    ensures SegHere(s[..n])
  {
    var d, t := SegDigits(s), s[..n];
    assert t[4..] == s[4..][..n - 4];
    assert t[4..][d] == s[4 + d];
    assert forall i :: 0 <= i < d ==> t[4..][i] == s[4..][i];
    CountIs(t[4..], d);
    assert forall i :: 0 <= i < |t| ==> t[i] == s[i];
  }

  /** A match in `left + "/" + right` lies on one side of the slash. */
  lemma SegBesideSlash(left: string, right: string, k: nat)
    requires k <= |left + "/" + right| && SegHere((left + "/" + right)[k..])
    ensures (k <= |left| && SegHere(left[k..])) || (k > |left| && SegHere(right[k - |left| - 1..]))
  {
    var s, n := left + "/" + right, |left|;
    var d := SegDigits(s[k..]);
    if k > n {
      assert s[k..] == right[k - n - 1..];
    } else {
      assert s[k..][n - k] == s[n] == '/';
      if 8 + d > n - k {
        SegHasNoSlash(s[k..], d, n - k);
      }
      SegInPrefix(s[k..], n - k);
      assert s[k..][..n - k] == left[k..];
    }
  }

  lemma NoPartAcrossSlash(left: string, right: string)
    requires PartIndex(left).None? && PartIndex(right).None?
    ensures PartIndex(left + "/" + right).None?
  {
    var s := left + "/" + right;
    NoPartIff(s);
    NoPartIff(left);
    NoPartIff(right);
    if PartIndex(s).Some? {
      var k :| 0 <= k <= |s| && SegHere(s[k..]);
      SegBesideSlash(left, right, k);
    }
  }

  lemma DigitsHaveNoPart(s: string)
    requires forall i :: 0 <= i < |s| ==> IsDigit(s[i])
    ensures PartIndex(s).None?
  {
    NoPartIff(s);
    forall k | 0 <= k <= |s| ensures !SegHere(s[k..]) {
      if k < |s| {
        assert IsDigit(s[k]) && s[k..][0] == s[k];
      }
    }
  }

  lemma ShortHasNoPart(s: string)
    requires |s| < 9
    ensures PartIndex(s).None?
  {
    NoPartIff(s);
  }

  lemma NoPartInPath(a: string, sid: string, b: string, d: string)
    requires PartIndex(a).None? && PartIndex(sid).None? && PartIndex(b).None? && PartIndex(d).None?
    ensures PartIndex(a + "/" + (sid + "/" + (b + "/" + d))).None?
  {
    NoPartAcrossSlash(b, d);
    NoPartAcrossSlash(sid, b + "/" + d);
    NoPartAcrossSlash(a, sid + "/" + (b + "/" + d));
  }

  lemma RouteSplit(sid: string, d: string)
    ensures "/api/sessions/" + sid + "/parts/" + d
         == ("/api" + "/" + "sessions") + "/" + (sid + "/" + ("parts" + "/" + d))
  {
    var left, right := ("/api" + "/" + "sessions") + "/", "/" + "parts" + "/";
    assert left == "/api/sessions/";
    assert right == "/parts/";
    assert left + sid + right + d == left + (sid + "/" + ("parts" + "/" + d));
  }

  lemma RouteHasNoPart(sid: string, n: nat)
    requires PartIndex(sid).None?
    ensures PartIndex(PartRoute(sid, n)).None?
  {
    ShortHasNoPart("/api");
    ShortHasNoPart("sessions");
    ShortHasNoPart("parts");
    NoPartAcrossSlash("/api", "sessions");
    DigitsHaveNoPart(Decimal(n));
    NoPartInPath("/api" + "/" + "sessions", sid, "parts", Decimal(n));
    RouteSplit(sid, Decimal(n));
  }

  // ---------------------------------------------------------------------------------------------
  // Replacing the URI of a map tag
  // ---------------------------------------------------------------------------------------------

  predicate HasNoU(s: string) {
    forall i :: 0 <= i < |s| ==> s[i] != 'U'
  }

  lemma MapUriShape()
    ensures |MAP_URI| == 14 && MAP_URI[0] == 'U' && MAP_URI[5] == 'i' && HasNoU(MAP_URI[1..])
    ensures forall i :: 0 <= i < 14 ==> MAP_URI[i] != '/'
  {
  }

  /**
   A word without a slash that begins with a letter the surroundings do not repeat starts nowhere
   in `head + sid + tail`, unless it occurs in `sid`.
   */
  lemma NoStartInside(w: string, head: string, sid: string, tail: string, t: string, e: nat, k: nat)
    requires w != "" && (forall i :: 0 <= i < |w| ==> w[i] != '/') && !Occurs(w, sid)
    requires e < |w| && e < |head| && head[e] == '/' && tail != "" && tail[0] == '/'
    requires forall i :: 0 < i < |head| ==> head[i] != w[0]
    requires forall i :: 0 <= i < |tail| ==> tail[i] != w[0]
    requires k < |head| + |sid| + |tail|
    ensures !(w <= (head + sid + tail + t)[k..])
  {
    var s := head + sid + tail + t;
    var j := |head| + |sid|;
    if k == 0 {
      assert s[k..][e] == head[e];
    } else if k < |head| {
      assert s[k..][0] == head[k];
    } else if k >= j {
      assert s[k..][0] == tail[k - j];
    } else if k + |w| > j {
      assert s[k..][j - k] == tail[0];
    } else {
      assert !OccursAt(w, sid, k - |head|);
      assert s[k..][..|w|] == sid[k - |head|..k - |head| + |w|];
    }
  }

  /** No occurrence starts inside a new URI, whatever follows it. */
  lemma NewUriKept(sid: string, t: string, k: nat)
    requires !Occurs(MAP_URI, sid) && k < |NewMapUri(sid)|
    ensures !(MAP_URI <= (NewMapUri(sid) + t)[k..])
  {
    var head, tail := "URI=\"/api/sessions/", "/init.mp4\"";
    assert NewMapUri(sid) == head + sid + tail by {
      assert head == "URI=\"" + "/api/sessions/" && tail == "/init.mp4" + "\"";
    }
    MapUriShape();
    NoStartInside(MAP_URI, head, sid, tail, t, 5, k);
  }

  lemma {:induction false} ReplaceSkips(a: string, t: string, pat: string, rep: string)
    requires pat != "" && forall k :: 0 <= k < |a| ==> !(pat <= (a + t)[k..])
    ensures ReplaceAll(a + t, pat, rep) == a + ReplaceAll(t, pat, rep)
    decreases |a|
  {
    if a == "" {
      assert a + t == t;
      assert a + ReplaceAll(t, pat, rep) == ReplaceAll(t, pat, rep);
    } else {
      assert (a + t)[0..] == a + t;
      assert (a + t)[1..] == a[1..] + t;
      assert forall k :: 0 <= k < |a[1..]| ==> (a[1..] + t)[k..] == (a + t)[k + 1..];
      ReplaceSkips(a[1..], t, pat, rep);
      assert a == [a[0]] + a[1..];
    }
  }

  lemma ConsPrefix(p: string, c: char, rest: string)
    requires p != ""
    ensures p <= [c] + rest <==> p[0] == c && p[1..] <= rest
  {
    var s := [c] + rest;
    assert forall i :: 0 < i < |s| ==> s[i] == rest[i - 1];
    if p <= s {
      assert p[1..] == s[1..|p|] == rest[..|p| - 1];
    }
    if p[0] == c && p[1..] <= rest {
      assert forall i :: 0 < i < |p| ==> p[i] == p[1..][i - 1];
      assert p == s[..|p|];
    }
  }

  /** Replacing puts nothing without a `U` in front that was not there. */
  lemma {:induction false} PrefixWasThere(sid: string, u: string, w: string)
    requires HasNoU(w)
    ensures w <= ReplaceAll(u, MAP_URI, NewMapUri(sid)) ==> w <= u
    decreases |w|
  {
    var rep := NewMapUri(sid);
    if w == "" || u == "" {
    } else if MAP_URI <= u {
      assert (rep + ReplaceAll(u[|MAP_URI|..], MAP_URI, rep))[0] == rep[0] == 'U';
    } else {
      ConsPrefix(w, u[0], ReplaceAll(u[1..], MAP_URI, rep));
      ConsPrefix(w, u[0], u[1..]);
      assert u == [u[0]] + u[1..];
      PrefixWasThere(sid, u[1..], w[1..]);
    }
  }

  lemma {:induction false} ReplaceTwice(sid: string, s: string)
    requires !Occurs(MAP_URI, sid)
    ensures var r := ReplaceAll(s, MAP_URI, NewMapUri(sid)); ReplaceAll(r, MAP_URI, NewMapUri(sid)) == r
    decreases |s|
  {
    var rep := NewMapUri(sid);
    if s == "" {
    } else if MAP_URI <= s {
      var rest := ReplaceAll(s[|MAP_URI|..], MAP_URI, rep);
      forall k | 0 <= k < |rep| ensures !(MAP_URI <= (rep + rest)[k..]) {
        NewUriKept(sid, rest, k);
      }
      ReplaceSkips(rep, rest, MAP_URI, rep);
      ReplaceTwice(sid, s[|MAP_URI|..]);
    } else {
      var rest := ReplaceAll(s[1..], MAP_URI, rep);
      MapUriShape();
      PrefixWasThere(sid, s[1..], MAP_URI[1..]);
      ConsPrefix(MAP_URI, s[0], rest);
      ConsPrefix(MAP_URI, s[0], s[1..]);
      assert s == [s[0]] + s[1..];
      ReplaceTwice(sid, s[1..]);
      assert ([s[0]] + rest)[1..] == rest;
    }
  }

  lemma {:induction false} ReplacedOccurs(s: string, pat: string, rep: string, k: nat) returns (j: nat)
    requires pat != "" && OccursAt(pat, s, k)
    ensures OccursAt(rep, ReplaceAll(s, pat, rep), j)
    decreases |s|
  {
    if pat <= s {
      j := 0;
    } else {
      assert k > 0;
      OccursTail(pat, s, k);
      var j' := ReplacedOccurs(s[1..], pat, rep, k - 1);
      j := j' + 1;
      OccursTail(rep, ReplaceAll(s, pat, rep), j);
      assert ReplaceAll(s, pat, rep)[1..] == ReplaceAll(s[1..], pat, rep);
    }
  }

  /** With a single occurrence, everything around it stays as it is. */
  lemma ReplaceSingle(left: string, pat: string, right: string, rep: string)
    requires pat != "" && !Occurs(pat, right)
    requires forall k :: 0 <= k < |left| ==> !(pat <= (left + (pat + right))[k..])
    ensures ReplaceAll(left + (pat + right), pat, rep) == left + (rep + right)
  {
    ReplaceSkips(left, pat + right, pat, rep);
    assert (pat + right)[|pat|..] == right;
    ReplaceNothing(right, pat, rep);
  }

  lemma {:induction false} RStripKeeps(m: string, y: string)
    requires m != "" && !IsSpace(m[|m| - 1])
    ensures m <= RStrip(m + y)
    decreases |y|
  {
    if y != "" {
      assert (m + y)[..|m + y| - 1] == m + y[..|y| - 1];
      RStripKeeps(m, y[..|y| - 1]);
    } else {
      assert m + y == m;
    }
  }

  /** Stripping cuts off no occurrence of a word without whitespace. */
  lemma OccursStripped(w: string, s: string, k: nat)
    requires w != "" && NoSpace(w) && OccursAt(w, s, k)
    ensures Occurs(w, Strip(s))
  {
    var a, b := StripSplit(s);
    var m := Strip(s);
    var last := k + |w| - 1;
    assert s[k] == w[0] && s[last] == w[|w| - 1];
    assert forall i :: 0 <= i < |a| ==> IsSpace(a[i]) && s[i] == a[i];
    assert forall i :: |a| + |m| <= i < |s| ==> IsSpace(b[i - |a| - |m|]) && s[i] == b[i - |a| - |m|];
    assert m[k - |a|..k - |a| + |w|] == w;
    assert OccursAt(w, m, k - |a|);
  }

  lemma InitInNewUri(sid: string)
    ensures OccursAt(INIT_NAME, NewMapUri(sid), |NewMapUri(sid)| - 9)
  {
    var rep := NewMapUri(sid);
    assert rep == "URI=\"/api/sessions/" + sid + "/init.mp4\"";
    assert rep[|rep| - 9..|rep| - 1] == INIT_NAME;
  }

  /** Replacing leaves the tag in front alone. */
  lemma TagKept(sid: string, a: string, y: string)
    requires AllSpace(a)
    ensures ReplaceAll((a + MAP_TAG) + y, MAP_URI, NewMapUri(sid))
         == (a + MAP_TAG) + ReplaceAll(y, MAP_URI, NewMapUri(sid))
  {
    var m := a + MAP_TAG;
    assert HasNoU(m);
    forall k | 0 <= k < |m| ensures !(MAP_URI <= (m + y)[k..]) {
      assert (m + y)[k..][0] == m[k];
    }
    ReplaceSkips(m, y, MAP_URI, NewMapUri(sid));
  }

  /** Stripping a line that begins with a word keeps the word in front. */
  lemma StripKeepsHead(a: string, m: string, z: string)
    requires AllSpace(a) && Trimmed(m) && m != ""
    ensures m <= Strip((a + m) + z)
  {
    assert (a + m) + z == a + (m + z);
    LStripOf(a, m + z);
    RStripKeeps(m, z);
  }

  lemma TagInFront(line: string) returns (a: string, y: string)
    requires MAP_TAG <= Strip(line)
    ensures line == (a + MAP_TAG) + y && AllSpace(a)
  {
    var a', b := StripSplit(line);
    a := a';
    var rest := Strip(line)[|MAP_TAG|..];
    assert Strip(line) == MAP_TAG + rest;
    y := rest + b;
  }

  /** A rewritten map tag is still a map tag that names the init segment. */
  lemma MapLineStays(sid: string, line: string)
    requires IsMapLine(line)
    ensures IsMapLine(ReplaceAll(line, MAP_URI, NewMapUri(sid)))
  {
    var a, y := TagInFront(line);
    TagKept(sid, a, y);
    StripKeepsHead(a, MAP_TAG, ReplaceAll(y, MAP_URI, NewMapUri(sid)));
    assert OccursAt(INIT_NAME, Strip(line), Find(INIT_NAME, Strip(line)));
    InitStays(sid, line);
  }

  lemma OccursInside(w: string, v: string, s: string, i: nat, j: nat)
    requires OccursAt(w, v, i) && OccursAt(v, s, j)
    ensures OccursAt(w, s, j + i)
  {
    var part := s[j + i..j + i + |w|];
    forall x | 0 <= x < |w| ensures part[x] == w[x] {
      assert s[j..j + |v|][i + x] == v[i + x] == v[i..i + |w|][x];
    }
    assert part == w;
  }

  /** A word that occurs before the replacement, and in what is put in, occurs afterwards. */
  lemma ReplacedStillHas(w: string, line: string, pat: string, rep: string, i: nat)
    requires w != "" && NoSpace(w) && pat != ""
    requires Occurs(w, Strip(line)) && OccursAt(w, rep, i)
    ensures Occurs(w, Strip(ReplaceAll(line, pat, rep)))
  {
    if Occurs(pat, line) {
      var k: nat :| OccursAt(pat, line, k);
      var j := ReplacedOccurs(line, pat, rep, k);
      OccursInside(w, rep, ReplaceAll(line, pat, rep), i, j);
      OccursStripped(w, ReplaceAll(line, pat, rep), j + i);
    } else {
      ReplaceNothing(line, pat, rep);
    }
  }

  lemma InitStays(sid: string, line: string)
    requires Occurs(INIT_NAME, Strip(line))
    ensures Occurs(INIT_NAME, Strip(ReplaceAll(line, MAP_URI, NewMapUri(sid))))
  {
    InitInNewUri(sid);
    ReplacedStillHas(INIT_NAME, line, MAP_URI, NewMapUri(sid), |NewMapUri(sid)| - 9);
  }

  // ---------------------------------------------------------------------------------------------
  // Lines
  // ---------------------------------------------------------------------------------------------

  predicate IsPartLine(line: string) {
    !IsMapLine(line) && !IsInitLine(line) && !IsPlain(line) && PartIndex(Strip(line)).Some?
  }

  lemma RouteTrimmed(sid: string, n: nat)
    ensures Strip(PartRoute(sid, n)) == PartRoute(sid, n)
    ensures Strip(InitRoute(sid)) == InitRoute(sid)
  {
    var s := PartRoute(sid, n);
    assert s[0] == '/' && s[|s| - 1] == Decimal(n)[|Decimal(n)| - 1];
    StripTrimmed(s);
    var t := InitRoute(sid);
    assert t[0] == '/' && t[|t| - 1] == '4';
    StripTrimmed(t);
  }

  lemma RouteIsNoInit(sid: string, n: nat)
    ensures !IsMapLine(PartRoute(sid, n)) && !IsInitLine(PartRoute(sid, n)) && !IsPlain(PartRoute(sid, n))
  {
    RouteTrimmed(sid, n);
    var s, d := PartRoute(sid, n), Decimal(n);
    assert s[0] == '/';
    assert s == (Base(sid) + "/parts") + ("/" + d);
    assert s[|s| - 2] == ("/" + d)[|d| - 1];
    assert s[|s| - 2] != 'p';
    assert |s| >= 9 && s[|s| - 9..][7] == s[|s| - 2];
  }

  /** Rewriting a rewritten line changes nothing. */
  lemma LineTwice(sid: string, line: string)
    requires GoodSid(sid)
    ensures RewriteLine(sid, RewriteLine(sid, line)) == RewriteLine(sid, line)
  {
    if IsMapLine(line) {
      MapLineStays(sid, line);
      ReplaceTwice(sid, line);
    } else if IsInitLine(line) {
      RouteTrimmed(sid, 0);
      var t := InitRoute(sid);
      assert t[0] == '/';
      assert t[|t| - 9..] == "/init.mp4";
    } else if IsPartLine(line) {
      var n := PartIndex(Strip(line)).value;
      RouteTrimmed(sid, n);
      RouteIsNoInit(sid, n);
      RouteHasNoPart(sid, n);
    }
  }

  // ---------------------------------------------------------------------------------------------
  // Only these session ids will do
  // ---------------------------------------------------------------------------------------------

  lemma SegExtends(left: string, more: string)
    requires SegHere(left)
    ensures SegHere(left + more) && PartIndex(left + more) == PartIndex(left)
  {
    var d, s := SegDigits(left), left + more;
    assert s[4..] == left[4..] + more;
    assert forall i :: 0 <= i < d ==> s[4..][i] == left[4..][i];
    assert s[4..][d] == left[4 + d];
    CountIs(s[4..], d);
    assert forall i :: 0 <= i < |left| ==> s[i] == left[i];
    assert s[4..][..d] == left[4..][..d];
  }

  lemma SegAtFront(left: string, right: string)
    ensures SegHere(left + "/" + right) <==> SegHere(left)
  {
    var s := left + "/" + right;
    if SegHere(left) {
      assert s == left + ("/" + right);
      SegExtends(left, "/" + right);
    }
    if SegHere(s) {
      assert s[0..] == s && left[0..] == left;
      SegBesideSlash(left, right, 0);
    }
  }

  /** The leftmost match of a path is that of the first segment that has one. */
  lemma {:induction false} PartOfPath(left: string, right: string)
    ensures PartIndex(left + "/" + right) == if PartIndex(left).Some? then PartIndex(left) else PartIndex(right)
  {
    var s := left + "/" + right;
    SegAtFront(left, right);
    if SegHere(left) {
      assert s == left + ("/" + right);
      SegExtends(left, "/" + right);
    } else if left == "" {
      assert s[1..] == right;
    } else {
      assert s[1..] == left[1..] + "/" + right;
      PartOfPath(left[1..], right);
    }
  }

  lemma PartOfRoute(sid: string, n: nat)
    requires PartIndex(sid).Some?
    ensures PartIndex(PartRoute(sid, n)) == PartIndex(sid)
  {
    ShortHasNoPart("/api");
    ShortHasNoPart("sessions");
    NoPartAcrossSlash("/api", "sessions");
    RouteSplit(sid, Decimal(n));
    var rest := "parts" + "/" + Decimal(n);
    PartOfPath("/api" + "/" + "sessions", sid + "/" + rest);
    PartOfPath(sid, rest);
  }

  function SegmentName(n: nat): string {
    "seg-" + Decimal(n) + ".m4s"
  }

  lemma SegmentDigits(head: string, d: string, tail: string)
    requires |head| == 4 && (forall i :: 0 <= i < |d| ==> IsDigit(d[i])) && tail != "" && !IsDigit(tail[0])
    ensures SegDigits(head + d + tail) == |d| && (head + d + tail)[4..][..|d|] == d
  {
    var s := head + d + tail;
    assert s[4..] == d + tail;
    CountIs(s[4..], |d|);
  }

  lemma SegmentNameMatches(n: nat)
    ensures SegHere(SegmentName(n)) && PartIndex(SegmentName(n)) == Some(n)
  {
    var s, d := SegmentName(n), Decimal(n);
    SegmentDigits("seg-", d, ".m4s");
    assert forall i :: 4 <= i < 4 + |d| ==> s[i] == d[i - 4];
    DecimalNumber(n);
  }

  lemma SegmentNameIsPart(n: nat)
    ensures IsPartLine(SegmentName(n)) && PartIndex(Strip(SegmentName(n))) == Some(n)
  {
    var s := SegmentName(n);
    assert s[0] == 's' && s[|s| - 1] == 's';
    StripTrimmed(s);
    SegmentNameMatches(n);
  }

  lemma {:induction false} ReplaceGrows(s: string, pat: string, rep: string)
    requires pat != "" && |pat| < |rep|
    ensures |ReplaceAll(s, pat, rep)| >= |s|
    ensures Occurs(pat, s) ==> |ReplaceAll(s, pat, rep)| > |s|
    decreases |s|
  {
    if s != "" {
      if pat <= s {
        ReplaceGrows(s[|pat|..], pat, rep);
      } else {
        ReplaceGrows(s[1..], pat, rep);
        if k: nat :| OccursAt(pat, s, k) {
          assert k > 0;
          OccursTail(pat, s, k);
        }
      }
    }
  }

  lemma MapLineGrows(sid: string, k: nat)
    requires OccursAt(MAP_URI, sid, k)
    ensures exists line :: RewriteLine(sid, RewriteLine(sid, line)) != RewriteLine(sid, line)
  {
    var rep, line := NewMapUri(sid), MAP_TAG + MAP_URI;
    MapLineHasInit();
    MapLineStays(sid, line);
    var once := ReplaceAll(line, MAP_URI, rep);
    assert OccursAt(MAP_URI, line, |MAP_TAG|);
    var j := ReplacedOccurs(line, MAP_URI, rep, |MAP_TAG|);
    SidInNewUri(sid);
    OccursInside(MAP_URI, sid, rep, k, 19);
    OccursInside(MAP_URI, rep, once, 19 + k, j);
    ReplaceGrows(once, MAP_URI, rep);
    assert RewriteLine(sid, RewriteLine(sid, line)) != RewriteLine(sid, line);
  }

  lemma SidInNewUri(sid: string)
    ensures OccursAt(sid, NewMapUri(sid), 19) && |NewMapUri(sid)| > |MAP_URI|
  {
    var head := "URI=\"" + "/api/sessions/";
    assert |head| == 19;
    assert NewMapUri(sid) == head + sid + "/init.mp4\"";
  }

  lemma MapLineHasInit()
    ensures IsMapLine(MAP_TAG + MAP_URI)
  {
    var line := MAP_TAG + MAP_URI;
    StripTrimmed(line);
    assert line[16..24] == INIT_NAME;
    assert OccursAt(INIT_NAME, line, 16);
  }

  /** Rewriting a line again is always harmless exactly if the session id contains neither pattern. */
  lemma HarmlessIff(sid: string)
    requires PlainSid(sid)
    ensures GoodSid(sid) <==> forall line :: RewriteLine(sid, RewriteLine(sid, line)) == RewriteLine(sid, line)
  {
    if GoodSid(sid) {
      forall line ensures RewriteLine(sid, RewriteLine(sid, line)) == RewriteLine(sid, line) {
        LineTwice(sid, line);
      }
    } else if k: nat :| OccursAt(MAP_URI, sid, k) {
      MapLineGrows(sid, k);
    } else {
      var m := PartIndex(sid).value;
      var line, once, twice := PartRouteMoves(sid, m, m + 1);
    }
  }

  lemma RoutesDiffer(sid: string, m: nat, n: nat)
    requires m != n
    ensures PartRoute(sid, m) != PartRoute(sid, n)
  {
    RouteIndexOf(sid, m);
    RouteIndexOf(sid, n);
  }

  lemma PartLineRewrites(sid: string, line: string, n: nat)
    requires IsPartLine(line) && PartIndex(Strip(line)) == Some(n)
    ensures RewriteLine(sid, line) == PartRoute(sid, n)
  {
  }

  lemma RouteIsPartLine(sid: string, n: nat)
    requires PartIndex(sid).Some?
    ensures IsPartLine(PartRoute(sid, n)) && PartIndex(Strip(PartRoute(sid, n))) == PartIndex(sid)
  {
    PartOfRoute(sid, n);
    RouteTrimmed(sid, n);
    RouteIsNoInit(sid, n);
  }

  lemma SegmentRewrites(sid: string, n: nat)
    ensures RewriteLine(sid, SegmentName(n)) == PartRoute(sid, n)
  {
    SegmentNameIsPart(n);
    PartLineRewrites(sid, SegmentName(n), n);
  }

  lemma RouteRewrites(sid: string, n: nat)
    requires PartIndex(sid).Some?
    ensures RewriteLine(sid, PartRoute(sid, n)) == PartRoute(sid, PartIndex(sid).value)
  {
    RouteIsPartLine(sid, n);
    PartLineRewrites(sid, PartRoute(sid, n), PartIndex(sid).value);
  }

  lemma PartRouteMoves(sid: string, m: nat, n: nat) returns (line: string, once: string, twice: string)
    requires PartIndex(sid) == Some(m) && m != n
    ensures RewriteLine(sid, line) == once && RewriteLine(sid, once) == twice && once != twice
  {
    line, once, twice := SegmentName(n), PartRoute(sid, n), PartRoute(sid, m);
    SegmentRewrites(sid, n);
    RouteRewrites(sid, n);
    RoutesDiffer(sid, m, n);
  }

  predicate Blank(line: string) {
    Strip(line) == ""
  }

  lemma {:induction false} ReplaceKeepsInk(s: string, pat: string, rep: string)
    requires pat != "" && !AllSpace(s) && !AllSpace(rep)
    ensures !AllSpace(ReplaceAll(s, pat, rep))
    decreases |s|
  {
    var r := ReplaceAll(s, pat, rep);
    if pat <= s {
      var i :| 0 <= i < |rep| && !IsSpace(rep[i]);
      assert r[i] == rep[i];
    } else if IsSpace(s[0]) {
      var i :| 0 <= i < |s| && !IsSpace(s[i]);
      assert s[1..][i - 1] == s[i];
      ReplaceKeepsInk(s[1..], pat, rep);
      var j :| 0 <= j < |ReplaceAll(s[1..], pat, rep)| && !IsSpace(ReplaceAll(s[1..], pat, rep)[j]);
      assert r[j + 1] == ReplaceAll(s[1..], pat, rep)[j];
    } else {
      assert r[0] == s[0];
    }
  }

  /** Blank lines stay as they are and other lines stay non-blank. */
  lemma BlankKept(sid: string, line: string)
    ensures Blank(RewriteLine(sid, line)) <==> Blank(line)
    ensures Blank(line) ==> RewriteLine(sid, line) == line
  {
    if IsMapLine(line) {
      var rep := NewMapUri(sid);
      assert rep[0] == 'U';
      StripBlank(line);
      StripBlank(ReplaceAll(line, MAP_URI, rep));
      ReplaceKeepsInk(line, MAP_URI, rep);
    } else {
      RouteTrimmed(sid, PartIndex(Strip(line)).GetOr(0));
    }
  }

  lemma {:induction false} ReplaceKeepsLine(s: string, pat: string, rep: string)
    requires pat != "" && NoBreak(s) && NoBreak(rep)
    ensures NoBreak(ReplaceAll(s, pat, rep))
    decreases |s|
  {
    if s != "" {
      if pat <= s {
        ReplaceKeepsLine(s[|pat|..], pat, rep);
      } else {
        ReplaceKeepsLine(s[1..], pat, rep);
      }
    }
  }

  lemma LineStaysLine(sid: string, line: string)
    requires NoBreak(sid) && NoBreak(line)
    ensures NoBreak(RewriteLine(sid, line))
  {
    BaseIsLine(sid);
    if IsMapLine(line) {
      ReplaceKeepsLine(line, MAP_URI, NewMapUri(sid));
    } else if IsPartLine(line) {
      DigitsAreLine(Decimal(PartIndex(Strip(line)).value));
    }
  }

  lemma BaseIsLine(sid: string)
    requires NoBreak(sid)
    ensures NoBreak(Base(sid)) && NoBreak(InitRoute(sid)) && NoBreak(NewMapUri(sid)) && NoBreak(Base(sid) + "/parts/")
  {
    assert NoBreak("/api/sessions/") && NoBreak("/init.mp4") && NoBreak("URI=\"");
    assert NoBreak("\"") && NoBreak("/parts/");
  }

  lemma DigitsAreLine(s: string)
    requires forall i :: 0 <= i < |s| ==> IsDigit(s[i])
    ensures NoBreak(s)
  {
    assert forall i :: 0 <= i < |s| ==> IsDigit(s[i]) && !IsLineBreak(s[i]);
  }

  // ---------------------------------------------------------------------------------------------
  // Texts
  // ---------------------------------------------------------------------------------------------

  predicate AreLines(lines: seq<string>) {
    forall i :: 0 <= i < |lines| ==> NoBreak(lines[i])
  }

  /** The lines one gets by splitting what was written out. */
  function Reread(lines: seq<string>): seq<string> {
    if lines == [] then [""]
    else if DropsLast(lines) then lines[..|lines| - 1]
    else lines
  }

  predicate DropsLast(lines: seq<string>) {
    |lines| >= 2 && lines[|lines| - 1] == ""
  }

  lemma {:induction false} JoinEnds(lines: seq<string>)
    requires AreLines(lines)
    ensures EndsWith(Join("\n", lines), "\n") <==> DropsLast(lines)
  {
    if |lines| == 1 {
      var s := lines[0];
      assert s != "" ==> s[|s| - 1..] == [s[|s| - 1]];
    } else if lines != [] {
      var last := lines[|lines| - 1];
      JoinSnoc("\n", lines[..|lines| - 1], last);
      assert lines == lines[..|lines| - 1] + [last];
      var s := Join("\n", lines);
      assert s[|s| - 1..] == [s[|s| - 1]];
    }
  }

  lemma WrittenLines(lines: seq<string>)
    requires AreLines(lines)
    ensures SplitLines(WriteOut(lines)) == Reread(lines)
  {
    JoinEnds(lines);
    if lines == [] {
      SplitJoined([""]);
      assert Join("\n", [""]) + "\n" == "\n" == WriteOut([]);
    } else if DropsLast(lines) {
      var front := lines[..|lines| - 1];
      JoinSnoc("\n", front, "");
      assert lines == front + [""];
      assert Join("\n", front) + "\n" + "" == Join("\n", front) + "\n";
      SplitJoined(front);
    } else {
      SplitJoined(lines);
    }
  }

  function NonBlank(lines: seq<string>): seq<string> {
    if lines == [] then []
    else (if Blank(lines[0]) then [] else [lines[0]]) + NonBlank(lines[1..])
  }

  lemma NonBlankOne(line: string)
    ensures NonBlank([line]) == if Strip(line) == "" then [] else [line]
  {
  }

  lemma {:induction false} NonBlankCat(a: seq<string>, b: seq<string>)
    ensures NonBlank(a + b) == NonBlank(a) + NonBlank(b)
  {
    if a == [] {
      assert a + b == b;
    } else {
      assert (a + b)[1..] == a[1..] + b;
      NonBlankCat(a[1..], b);
    }
  }

  lemma {:induction false} NonBlankSnoc(lines: seq<string>, last: string)
    requires Blank(last)
    ensures NonBlank(lines + [last]) == NonBlank(lines)
  {
    if lines == [] {
      assert (lines + [last])[1..] == [];
    } else {
      assert (lines + [last])[1..] == lines[1..] + [last];
      NonBlankSnoc(lines[1..], last);
    }
  }

  lemma RereadKeepsInk(lines: seq<string>)
    ensures NonBlank(Reread(lines)) == NonBlank(lines)
  {
    if DropsLast(lines) {
      assert lines == lines[..|lines| - 1] + [""];
      NonBlankSnoc(lines[..|lines| - 1], "");
    } else if lines == [] {
      NonBlankSnoc([], "");
      assert [] + [""] == [""];
    }
  }

  lemma MapCons(f: string -> string, line: string, rest: seq<string>)
    ensures MapLines(f, [line] + rest) == [f(line)] + MapLines(f, rest)
  {
    var all := [line] + rest;
    assert forall i :: 0 < i < |all| ==> all[i] == rest[i - 1];
  }

  lemma RewriteCons(sid: string, line: string, rest: seq<string>)
    ensures RewriteLines(sid, [line] + rest) == [RewriteLine(sid, line)] + RewriteLines(sid, rest)
  {
    MapCons(Rewriter(sid), line, rest);
  }

  lemma {:induction false} NonBlankRewritten(sid: string, lines: seq<string>)
    ensures NonBlank(RewriteLines(sid, lines)) == RewriteLines(sid, NonBlank(lines))
  {
    if lines != [] {
      var line, rest := lines[0], lines[1..];
      assert lines == [line] + rest;
      RewriteCons(sid, line, rest);
      assert RewriteLines(sid, lines)[1..] == RewriteLines(sid, rest);
      BlankKept(sid, line);
      NonBlankRewritten(sid, rest);
      RewriteCons(sid, line, NonBlank(rest));
      assert [] + NonBlank(rest) == NonBlank(rest);
    }
  }

  lemma LinesStayLines(sid: string, text: string)
    requires NoBreak(sid)
    ensures AreLines(RewriteLines(sid, SplitLines(text)))
  {
    var lines := SplitLines(text);
    forall i | 0 <= i < |lines| ensures NoBreak(RewriteLine(sid, lines[i])) {
      LineStaysLine(sid, lines[i]);
    }
  }

  /** The non-blank lines of the result are those of the input, rewritten one by one, in order. */
  lemma {:induction false} RewriteKeepsLines(sid: string, text: string)
    requires NoBreak(sid)
    ensures NonBlank(SplitLines(Rewrite(sid, text))) == RewriteLines(sid, NonBlank(SplitLines(text)))
  {
    var out := RewriteLines(sid, SplitLines(text));
    LinesStayLines(sid, text);
    WrittenLines(out);
    RereadKeepsInk(out);
    NonBlankRewritten(sid, SplitLines(text));
  }

  lemma LinesTwice(sid: string, lines: seq<string>)
    requires GoodSid(sid)
    ensures RewriteLines(sid, RewriteLines(sid, lines)) == RewriteLines(sid, lines)
  {
    forall i | 0 <= i < |lines|
      ensures RewriteLine(sid, RewriteLine(sid, lines[i])) == RewriteLine(sid, lines[i])
    {
      LineTwice(sid, lines[i]);
    }
  }

  /** A second rewrite changes no non-blank line. */
  lemma {:induction false} RewriteTwiceLines(sid: string, text: string)
    requires GoodSid(sid)
    ensures NonBlank(SplitLines(Rewrite(sid, Rewrite(sid, text)))) == NonBlank(SplitLines(Rewrite(sid, text)))
  {
    RewriteKeepsLines(sid, text);
    RewriteKeepsLines(sid, Rewrite(sid, text));
    LinesTwice(sid, NonBlank(SplitLines(text)));
  }

  predicate TwoEmptyAtEnd(lines: seq<string>) {
    |lines| >= 3 && lines[|lines| - 1] == "" && lines[|lines| - 2] == ""
  }

  /** Rereading loses the text only if another line feed gets lost. */
  lemma WrittenAgain(lines: seq<string>)
    requires AreLines(lines)
    ensures WriteOut(Reread(lines)) == WriteOut(lines) <==> !TwoEmptyAtEnd(lines)
  {
    JoinEnds(lines);
    if lines == [] {
      assert WriteOut([""]) == "\n" == WriteOut([]);
    } else if DropsLast(lines) {
      var front := lines[..|lines| - 1];
      JoinSnoc("\n", front, "");
      assert lines == front + [""];
      JoinEnds(front);
      assert WriteOut(lines) == Join("\n", front) + "\n";
    }
  }

  lemma RereadTwice(sid: string, out: seq<string>)
    requires RewriteLines(sid, out) == out
    ensures RewriteLines(sid, Reread(out)) == Reread(out)
  {
    if out == [] {
      BlankKept(sid, "");
    } else {
      forall i | 0 <= i < |Reread(out)| ensures RewriteLine(sid, Reread(out)[i]) == Reread(out)[i] {
        assert RewriteLines(sid, out)[i] == out[i];
      }
    }
  }

  lemma MapKeepsEmptyEnd(f: string -> string, lines: seq<string>)
    requires forall line {:trigger f(line)} :: f(line) == "" <==> line == ""
    ensures TwoEmptyAtEnd(MapLines(f, lines)) <==> TwoEmptyAtEnd(lines)
  {
  }

  lemma SameEmptyEnd(sid: string, lines: seq<string>)
    ensures TwoEmptyAtEnd(RewriteLines(sid, lines)) <==> TwoEmptyAtEnd(lines)
  {
    forall line ensures Rewriter(sid)(line) == "" <==> line == "" {
      EmptyKept(sid, line);
    }
    MapKeepsEmptyEnd(Rewriter(sid), lines);
  }

  /** The second rewrite returns the very same text, unless the playlist ended in two empty lines. */
  lemma {:induction false} RewriteTwiceIff(sid: string, text: string)
    requires GoodSid(sid)
    ensures Rewrite(sid, Rewrite(sid, text)) == Rewrite(sid, text) <==> !TwoEmptyAtEnd(SplitLines(text))
  {
    var lines := SplitLines(text);
    var out := RewriteLines(sid, lines);
    LinesStayLines(sid, text);
    WrittenLines(out);
    LinesTwice(sid, lines);
    RereadTwice(sid, out);
    WrittenAgain(out);
    SameEmptyEnd(sid, lines);
  }

  lemma EmptyKept(sid: string, line: string)
    ensures RewriteLine(sid, line) == "" <==> line == ""
  {
    BlankKept(sid, line);
    assert Blank("");
  }

  // ---------------------------------------------------------------------------------------------
  // Part indices
  // ---------------------------------------------------------------------------------------------

  predicate AllDigits(s: string) {
    s != "" && forall i :: 0 <= i < |s| ==> IsDigit(s[i])
  }

  /** The part that a line of a rewritten playlist asks the local service for. */
  function RouteIndex(sid: string, line: string): Option<nat> {
    var prefix := Base(sid) + "/parts/";
    var s := Strip(line);
    if prefix <= s && AllDigits(s[|prefix|..]) then Some(Number(s[|prefix|..])) else None
  }

  lemma RouteIndexIff(sid: string, line: string, n: nat)
    ensures RouteIndex(sid, line) == Some(n) <==>
            exists digits ::
              AllDigits(digits) && Number(digits) == n && Strip(line) == "/api/sessions/" + sid + "/parts/" + digits
  {
    var prefix, s := Base(sid) + "/parts/", Strip(line);
    assert prefix == "/api/sessions/" + sid + "/parts/";
    if RouteIndex(sid, line) == Some(n) {
      assert s == prefix + s[|prefix|..];
    }
    if digits :| AllDigits(digits) && Number(digits) == n && s == prefix + digits {
      assert s[|prefix|..] == digits;
    }
  }

  /** The part a line of the original playlist stands for. */
  function SourceIndex(sid: string, line: string): Option<nat> {
    if IsPartLine(line) then PartIndex(Strip(line)) else RouteIndex(sid, line)
  }

  lemma RouteIndexOf(sid: string, n: nat)
    ensures RouteIndex(sid, PartRoute(sid, n)) == Some(n)
  {
    RouteTrimmed(sid, n);
    DecimalNumber(n);
    var prefix := Base(sid) + "/parts/";
    assert PartRoute(sid, n)[|prefix|..] == Decimal(n);
  }

  lemma RoutedShape(sid: string, line: string)
    requires RouteIndex(sid, line).Some?
    ensures var s := Strip(line); |s| >= 2 && s[0] == '/' && (IsDigit(s[|s| - 2]) || s[|s| - 2] == '/')
  {
    var prefix := Base(sid) + "/parts/";
    var s := Strip(line);
    var digits := s[|prefix|..];
    assert prefix[0] == '/' && prefix[|prefix| - 1] == '/';
    assert s == prefix + digits;
    if |digits| >= 2 {
      assert s[|s| - 2] == digits[|digits| - 2];
    }
  }

  lemma InitShape(line: string)
    requires IsInitLine(line)
    ensures var s := Strip(line); |s| >= 2 && SameLetter(s[|s| - 2], 'p')
  {
    var s := Strip(line);
    if EndsWith(s, "/init.mp4") {
      assert s[|s| - 9..][7] == s[|s| - 2];
    }
  }

  /** Neither an init URI nor a map tag asks for a part. */
  lemma NoRoute(sid: string, line: string)
    requires IsMapLine(line) || IsInitLine(line)
    ensures RouteIndex(sid, line).None?
  {
    if RouteIndex(sid, line).Some? {
      RoutedShape(sid, line);
      if IsInitLine(line) {
        InitShape(line);
      }
    }
  }

  lemma SameIndex(sid: string, line: string)
    ensures RouteIndex(sid, RewriteLine(sid, line)) == SourceIndex(sid, line)
  {
    if IsMapLine(line) {
      MapLineStays(sid, line);
      NoRoute(sid, line);
      NoRoute(sid, ReplaceAll(line, MAP_URI, NewMapUri(sid)));
    } else if IsInitLine(line) {
      NoRoute(sid, line);
      RouteTrimmed(sid, 0);
      assert InitRoute(sid)[|InitRoute(sid)| - 9..] == "/init.mp4";
      NoRoute(sid, InitRoute(sid));
    } else if IsPartLine(line) {
      RouteIndexOf(sid, PartIndex(Strip(line)).value);
    }
  }

  function RouteIndices(sid: string, lines: seq<string>): seq<nat> {
    if lines == [] then []
    else
      var n := RouteIndex(sid, lines[0]);
      (if n.Some? then [n.value] else []) + RouteIndices(sid, lines[1..])
  }

  function SourceIndices(sid: string, lines: seq<string>): seq<nat> {
    if lines == [] then []
    else
      var n := SourceIndex(sid, lines[0]);
      (if n.Some? then [n.value] else []) + SourceIndices(sid, lines[1..])
  }

  lemma RouteIndicesCons(sid: string, line: string, rest: seq<string>)
    ensures var n := RouteIndex(sid, line);
            RouteIndices(sid, [line] + rest) == (if n.Some? then [n.value] else []) + RouteIndices(sid, rest)
  {
    assert ([line] + rest)[1..] == rest;
  }

  lemma {:induction false} SameIndices(sid: string, lines: seq<string>)
    ensures RouteIndices(sid, RewriteLines(sid, lines)) == SourceIndices(sid, lines)
  {
    if lines != [] {
      var line, rest := lines[0], lines[1..];
      SameIndex(sid, line);
      assert lines == [line] + rest;
      RewriteCons(sid, line, rest);
      RouteIndicesCons(sid, RewriteLine(sid, line), RewriteLines(sid, rest));
      SameIndices(sid, rest);
    }
  }

  /** Line by line, the rewritten playlist asks for exactly the parts the original listed, in order. */
  lemma {:induction false} PartsKept(sid: string, text: string)
    requires NoBreak(sid)
    ensures RouteIndices(sid, NonBlank(SplitLines(Rewrite(sid, text))))
         == SourceIndices(sid, NonBlank(SplitLines(text)))
  {
    RewriteKeepsLines(sid, text);
    SameIndices(sid, NonBlank(SplitLines(text)));
  }

  // ---------------------------------------------------------------------------------------------
  // The set of part indices
  // ---------------------------------------------------------------------------------------------

  predicate Increasing(s: seq<nat>) {
    forall i, j :: 0 <= i < j < |s| ==> s[i] < s[j]
  }

  function InsertSorted(s: seq<nat>, n: nat): seq<nat> {
    if s == [] || n < s[0] then [n] + s else [s[0]] + InsertSorted(s[1..], n)
  }

  predicate AllAbove(s: seq<nat>, low: int) {
    forall i :: 0 <= i < |s| ==> low < s[i]
  }

  lemma {:induction false} InsertKeepsOrder(s: seq<nat>, n: nat, low: int)
    requires Increasing(s) && n !in s && AllAbove(s, low) && low < n
    ensures Increasing(InsertSorted(s, n)) && AllAbove(InsertSorted(s, n), low)
  {
    if s != [] && n >= s[0] {
      assert n != s[0];
      InsertKeepsOrder(s[1..], n, s[0]);
    }
  }

  lemma {:induction false} InsertAdds(s: seq<nat>, n: nat, x: nat)
    ensures x in InsertSorted(s, n) <==> x in s || x == n
  {
    if s != [] && n >= s[0] {
      InsertAdds(s[1..], n, x);
      assert s == [s[0]] + s[1..];
    }
  }

  /** `sorted` of a set. */
  method Sorted(numbers: set<nat>) returns (s: seq<nat>)
    ensures Increasing(s) && forall x :: x in s <==> x in numbers
  {
    s := [];
    var rest := numbers;
    while rest != {}
      invariant rest <= numbers && Increasing(s) && forall x :: x in s <==> x in numbers && x !in rest
      decreases |rest|
    {
      var n :| n in rest;
      InsertKeepsOrder(s, n, -1);
      forall x: nat ensures x in InsertSorted(s, n) <==> x in s || x == n {
        InsertAdds(s, n, x);
      }
      s := InsertSorted(s, n);
      rest := rest - {n};
    }
  }

  ghost predicate Mentioned(lines: seq<string>, n: nat) {
    exists line :: line in lines && PartIndex(Strip(Strip(line))) == Some(n)
  }

  /** Every part that a rewritten line asks for is among them. */
  lemma PartLinesMentioned(lines: seq<string>, line: string, n: nat)
    requires line in lines && IsPartLine(line) && PartIndex(Strip(line)) == Some(n)
    ensures Mentioned(lines, n)
  {
    var a, b := StripSplit(line);
    StripTrimmed(Strip(line));
  }

  /** Strictly increasing, and exactly the indices that some line matches, comment lines included. */
  method PartIndicesFromPlaylist(text: string) returns (indices: seq<nat>)
    ensures Increasing(indices)
    ensures forall n :: n in indices <==> Mentioned(SplitLines(text), n)
  {
    var lines := SplitLines(text);
    var found: set<nat> := {};
    for i := 0 to |lines|
      invariant forall n :: n in found <==> Mentioned(lines[..i], n)
    {
      assert lines[..i + 1] == lines[..i] + [lines[i]];
      var part := PartIndex(Strip(Strip(lines[i])));
      if part.Some? {
        found := found + {part.value};
      }
    }
    assert lines[..|lines|] == lines;
    indices := Sorted(found);
  }
}
