/** Reading and updating variables of a `.env` file (src/media2text/core/env_file.py). */
module EnvFile {
  import opened Text

  const ESCAPED_NEWLINE := "\\n"
  const ESCAPED_QUOTE := "\\\""
  const ESCAPED_BACKSLASH := "\\\\"

  // ---------------------------------------------------------------------------------------------
  // Quoting of one value
  // ---------------------------------------------------------------------------------------------

  predicate IsSpecial(c: char) {
    IsSpace(c) || c == '#' || c == '"' || c == '\''
  }

  predicate NeedsQuotes(value: string) {
    exists i :: 0 <= i < |value| && IsSpecial(value[i])
  }

  function Escape(value: string): string {
    ReplaceAll(ReplaceAll(value, "\\", ESCAPED_BACKSLASH), "\"", ESCAPED_QUOTE)
  }

  function Quote(value: string): string {
    if value == "" then "\"\""
    else if NeedsQuotes(value) then "\"" + Escape(value) + "\""
    else value
  }

  ghost predicate HasSpecial(value: string) {
    exists c :: c in value && (IsSpace(c) || c == '#' || c == '"' || c == '\'')
  }

  lemma NeedsQuotesIff(value: string)
    ensures NeedsQuotes(value) <==> HasSpecial(value)
  {
    if NeedsQuotes(value) {
      var i :| 0 <= i < |value| && IsSpecial(value[i]);
      assert value[i] in value;
    }
    if HasSpecial(value) {
      var c :| c in value && (IsSpace(c) || c == '#' || c == '"' || c == '\'');
      var i :| 0 <= i < |value| && value[i] == c;
      assert IsSpecial(value[i]);
    }
  }

  /** Only values with whitespace, a number sign or a quote are put in quotes, and the empty one. */
  lemma QuoteIs(value: string)
    ensures value == "" ==> Quote(value) == "\"\""
    ensures value != "" && !HasSpecial(value) ==> Quote(value) == value
    ensures HasSpecial(value) ==> Quote(value) == "\"" + Escape(value) + "\""
  {
    NeedsQuotesIff(value);
  }

  function Unescape(text: string): string {
    ReplaceAll(ReplaceAll(ReplaceAll(text, ESCAPED_NEWLINE, "\n"), ESCAPED_QUOTE, "\""), ESCAPED_BACKSLASH, "\\")
  }

  predicate Between(s: string, quote: char) {
    s != "" && s[0] == quote && s[|s| - 1] == quote
  }

  /** What `read_env_var` makes of the text to the right of the equals sign. */
  function ParseValue(text: string): string {
    var value := Strip(text);
    if value == "" then ""
    else if Between(value, '"') || Between(value, '\'') then
      Unescape(if |value| < 2 then "" else value[1..|value| - 1])
    else Unescape(value)
  }

  /** Whitespace around a value does not matter, and a blank one is empty. */
  lemma ParsePadded(a: string, text: string, b: string)
    requires AllSpace(a) && AllSpace(b)
    ensures ParseValue(a + text + b) == ParseValue(text) && ParseValue(a) == ""
  {
    var c, d := StripSplit(text);
    assert a + text + b == (a + c) + Strip(text) + (d + b);
    StripOf(a + c, Strip(text), d + b);
    StripBlank(a);
  }

  lemma OccurrenceHasFirst(pat: string, text: string, k: int)
    requires pat != "" && OccursAt(pat, text, k)
    ensures pat[0] in text
  {
    assert text[k] == text[k..k + |pat|][0];
  }

  lemma NoFirstNoOccurrence(pat: string, text: string)
    requires pat != "" && pat[0] !in text
    ensures !Occurs(pat, text)
  {
    if k :| OccursAt(pat, text, k) {
      OccurrenceHasFirst(pat, text, k);
    }
  }

  lemma UnescapePlain(text: string)
    requires '\\' !in text
    ensures Unescape(text) == text
  {
    NoFirstNoOccurrence(ESCAPED_NEWLINE, text);
    NoFirstNoOccurrence(ESCAPED_QUOTE, text);
    NoFirstNoOccurrence(ESCAPED_BACKSLASH, text);
    ReplaceNothing(text, ESCAPED_NEWLINE, "\n");
    ReplaceNothing(text, ESCAPED_QUOTE, "\"");
    ReplaceNothing(text, ESCAPED_BACKSLASH, "\\");
  }

  /** Quotes of either kind are taken off; without backslashes the rest is the value. */
  lemma ParseQuoted(inner: string, quote: char)
    requires '\\' !in inner && (quote == '"' || quote == '\'')
    ensures ParseValue([quote] + inner + [quote]) == inner
  {
    var text := [quote] + inner + [quote];
    assert Trimmed(text);
    StripTrimmed(text);
    assert text[1..|text| - 1] == inner;
    UnescapePlain(inner);
  }

  /** The values that survive being written and read back. */
  ghost predicate Survives(value: string) {
    !Occurs(ESCAPED_NEWLINE, value) && (NeedsQuotes(value) || !Occurs(ESCAPED_BACKSLASH, value))
  }

  // Escaping character by character

  function EscapeChar(c: char): string {
    if c == '\\' then ESCAPED_BACKSLASH else if c == '"' then ESCAPED_QUOTE else [c]
  }

  function EscapeChars(value: string): string {
    if value == "" then "" else EscapeChar(value[0]) + EscapeChars(value[1..])
  }

  function DoubleBackslashes(value: string): string {
    if value == "" then ""
    else (if value[0] == '\\' then ESCAPED_BACKSLASH else [value[0]]) + DoubleBackslashes(value[1..])
  }

  lemma {:induction false} FirstPass(value: string)
    ensures ReplaceAll(value, "\\", ESCAPED_BACKSLASH) == DoubleBackslashes(value)
  {
    if value != "" {
      var rest := value[1..];
      FirstPass(rest);
      if value[0] == '\\' {
        assert value == "\\" + rest;
        ReplaceHere("\\", rest, ESCAPED_BACKSLASH);
      } else {
        assert value == [value[0]] + rest;
        ReplaceLater(value[0], rest, "\\", ESCAPED_BACKSLASH);
      }
    }
  }

  lemma {:induction false} SecondPass(value: string)
    ensures ReplaceAll(DoubleBackslashes(value), "\"", ESCAPED_QUOTE) == EscapeChars(value)
  {
    if value != "" {
      SecondPass(value[1..]);
      var d := DoubleBackslashes(value[1..]);
      if value[0] == '\\' {
        assert ESCAPED_BACKSLASH + d == ['\\'] + (['\\'] + d);
        ReplaceLater('\\', ['\\'] + d, "\"", ESCAPED_QUOTE);
        ReplaceLater('\\', d, "\"", ESCAPED_QUOTE);
        var e := EscapeChars(value[1..]);
        assert ['\\'] + (['\\'] + e) == ESCAPED_BACKSLASH + e;
      } else if value[0] == '"' {
        ReplaceHere("\"", d, ESCAPED_QUOTE);
      } else {
        ReplaceLater(value[0], d, "\"", ESCAPED_QUOTE);
      }
    }
  }

  lemma EscapeIsCharwise(value: string)
    ensures Escape(value) == EscapeChars(value)
  {
    FirstPass(value);
    SecondPass(value);
  }

  lemma {:induction false} UnescapeQuotes(value: string)
    ensures ReplaceAll(EscapeChars(value), ESCAPED_QUOTE, "\"") == DoubleBackslashes(value)
    ensures value != "" ==> EscapeChars(value) != "" && EscapeChars(value)[0] != '"'
  {
    if value != "" {
      UnescapeQuotes(value[1..]);
      var e := EscapeChars(value[1..]);
      if value[0] == '\\' {
        assert (ESCAPED_BACKSLASH + e)[1..] == ['\\'] + e;
        assert (['\\'] + e)[1..] == e;
        assert !(ESCAPED_QUOTE <= ESCAPED_BACKSLASH + e) by {
          assert (ESCAPED_BACKSLASH + e)[1] == '\\';
        }
        assert !(ESCAPED_QUOTE <= ['\\'] + e) by {
          assert e != "" ==> (['\\'] + e)[1] == e[0];
        }
        var d := DoubleBackslashes(value[1..]);
        assert ['\\'] + (['\\'] + d) == ESCAPED_BACKSLASH + d;
      } else if value[0] == '"' {
        ReplaceHere(ESCAPED_QUOTE, e, "\"");
      } else {
        ReplaceLater(value[0], e, ESCAPED_QUOTE, "\"");
      }
    }
  }

  lemma {:induction false} HalveBackslashes(value: string)
    ensures ReplaceAll(DoubleBackslashes(value), ESCAPED_BACKSLASH, "\\") == value
  {
    if value != "" {
      HalveBackslashes(value[1..]);
      var d := DoubleBackslashes(value[1..]);
      if value[0] == '\\' {
        ReplaceHere(ESCAPED_BACKSLASH, d, "\\");
        assert "\\" + value[1..] == value;
      } else {
        ReplaceLater(value[0], d, ESCAPED_BACKSLASH, "\\");
        assert [value[0]] + value[1..] == value;
      }
    }
  }

  ghost predicate HasPair(s: string, a: char, b: char) {
    exists i :: 0 <= i < |s| - 1 && s[i] == a && s[i + 1] == b
  }

  lemma PairOccurs(s: string, a: char, b: char)
    ensures HasPair(s, a, b) <==> Occurs([a, b], s)
  {
    if i :| 0 <= i < |s| - 1 && s[i] == a && s[i + 1] == b {
      assert OccursAt([a, b], s, i);
    }
    if k :| OccursAt([a, b], s, k) {
      assert s[k] == s[k..k + 2][0] && s[k + 1] == s[k..k + 2][1];
    }
  }

  lemma PairTail(s: string, a: char, b: char)
    requires s != ""
    ensures HasPair(s, a, b) <==> (|s| > 1 && s[0] == a && s[1] == b) || HasPair(s[1..], a, b)
  {
    if HasPair(s, a, b) {
      var i :| 0 <= i < |s| - 1 && s[i] == a && s[i + 1] == b;
      if i > 0 {
        assert s[1..][i - 1] == a && s[1..][i] == b;
      }
    }
    if HasPair(s[1..], a, b) {
      var i :| 0 <= i < |s[1..]| - 1 && s[1..][i] == a && s[1..][i + 1] == b;
      assert s[i + 1] == a && s[i + 2] == b;
    }
  }

  /** Escaping neither makes nor hides a backslash followed by `n`. */
  lemma {:induction false} EscapeKeepsNewlinePair(value: string)
    ensures HasPair(EscapeChars(value), '\\', 'n') <==> HasPair(value, '\\', 'n')
    ensures value != "" ==> (EscapeChars(value) != "" && (EscapeChars(value)[0] == 'n' <==> value[0] == 'n'))
  {
    if value != "" {
      EscapeKeepsNewlinePair(value[1..]);
      var e, whole := EscapeChars(value[1..]), EscapeChars(value);
      PairTail(value, '\\', 'n');
      PairTail(whole, '\\', 'n');
      if |EscapeChar(value[0])| == 2 {
        assert whole[1..] == [EscapeChar(value[0])[1]] + e;
        PairTail(whole[1..], '\\', 'n');
        assert whole[1..][1..] == e;
      } else {
        assert whole[1..] == e;
      }
    }
  }

  lemma {:induction false} ReplaceKeepsChar(s: string, pat: string, rep: string, c: char)
    requires pat != "" && c in s && c !in pat
    ensures c in ReplaceAll(s, pat, rep)
    decreases |s|
  {
    if pat <= s {
      assert s == pat + s[|pat|..];
      ReplaceKeepsChar(s[|pat|..], pat, rep, c);
    } else if s[0] != c {
      ReplaceKeepsChar(s[1..], pat, rep, c);
    }
  }

  lemma {:induction false} ReplaceBringsChar(s: string, pat: string, rep: string, c: char)
    requires pat != "" && Occurs(pat, s) && c in rep
    ensures c in ReplaceAll(s, pat, rep)
    decreases |s|
  {
    if s != "" && !(pat <= s) {
      var k :| OccursAt(pat, s, k);
      assert k != 0;
      OccursTail(pat, s, k);
      ReplaceBringsChar(s[1..], pat, rep, c);
    }
  }

  lemma {:induction false} ReplaceShrinks(s: string, pat: string, rep: string)
    requires |rep| < |pat|
    ensures |ReplaceAll(s, pat, rep)| <= |s|
    ensures Occurs(pat, s) ==> |ReplaceAll(s, pat, rep)| < |s|
    decreases |s|
  {
    if s == "" {
    } else if pat <= s {
      ReplaceShrinks(s[|pat|..], pat, rep);
    } else {
      ReplaceShrinks(s[1..], pat, rep);
      if Occurs(pat, s) {
        var k :| OccursAt(pat, s, k);
        assert k != 0;
        OccursTail(pat, s, k);
      }
    }
  }

  lemma NewlinePairIsFatal(text: string, value: string)
    requires Occurs(ESCAPED_NEWLINE, text) && NoBreak(value)
    ensures Unescape(text) != value
  {
    ReplaceBringsChar(text, ESCAPED_NEWLINE, "\n", '\n');
    var a := ReplaceAll(text, ESCAPED_NEWLINE, "\n");
    ReplaceKeepsChar(a, ESCAPED_QUOTE, "\"", '\n');
    var b := ReplaceAll(a, ESCAPED_QUOTE, "\"");
    ReplaceKeepsChar(b, ESCAPED_BACKSLASH, "\\", '\n');
  }

  lemma QuotedRoundTripIff(value: string)
    requires NoBreak(value)
    ensures Unescape(Escape(value)) == value <==> !Occurs(ESCAPED_NEWLINE, value)
  {
    EscapeIsCharwise(value);
    EscapeKeepsNewlinePair(value);
    PairOccurs(value, '\\', 'n');
    PairOccurs(EscapeChars(value), '\\', 'n');
    if Occurs(ESCAPED_NEWLINE, value) {
      NewlinePairIsFatal(Escape(value), value);
    } else {
      ReplaceNothing(Escape(value), ESCAPED_NEWLINE, "\n");
      UnescapeQuotes(value);
      HalveBackslashes(value);
    }
  }

  lemma PlainRoundTripIff(value: string)
    requires NoBreak(value) && !NeedsQuotes(value)
    ensures Unescape(value) == value <==> Survives(value)
  {
    if Occurs(ESCAPED_NEWLINE, value) {
      NewlinePairIsFatal(value, value);
    } else {
      ReplaceNothing(value, ESCAPED_NEWLINE, "\n");
      forall k ensures !OccursAt(ESCAPED_QUOTE, value, k) {
        if OccursAt(ESCAPED_QUOTE, value, k) {
          assert value[k + 1] == value[k..k + 2][1];
          assert IsSpecial(value[k + 1]);
        }
      }
      ReplaceNothing(value, ESCAPED_QUOTE, "\"");
      if Occurs(ESCAPED_BACKSLASH, value) {
        ReplaceShrinks(value, ESCAPED_BACKSLASH, "\\");
      } else {
        ReplaceNothing(value, ESCAPED_BACKSLASH, "\\");
      }
    }
  }

  lemma QuoteIsTrimmed(value: string)
    ensures Quote(value) != "" && Trimmed(Quote(value))
  {
    if value != "" && !NeedsQuotes(value) {
      assert !IsSpecial(value[0]) && !IsSpecial(value[|value| - 1]);
    }
  }

  /** A value without line breaks is read back exactly if it survives quoting. */
  lemma ValueRoundTripIff(value: string)
    requires NoBreak(value)
    ensures ParseValue(Quote(value)) == value <==> Survives(value)
  {
    QuoteIsTrimmed(value);
    StripTrimmed(Quote(value));
    if value == "" {
    } else if NeedsQuotes(value) {
      assert Quote(value)[1..|Quote(value)| - 1] == Escape(value);
      QuotedRoundTripIff(value);
    } else {
      assert !IsSpecial(value[0]);
      PlainRoundTripIff(value);
    }
  }

  // ---------------------------------------------------------------------------------------------
  // Lines
  // ---------------------------------------------------------------------------------------------

  /** Keys without an equals sign and without whitespace. */
  predicate GoodKey(key: string) {
    forall i :: 0 <= i < |key| ==> key[i] != '=' && !IsSpace(key[i])
  }

  predicate IsComment(s: string) {
    s != "" && s[0] == '#'
  }

  predicate IsSkipped(line: string) {
    Strip(line) == "" || IsComment(Strip(line))
  }

  function BeforeEquals(line: string): string {
    if line == "" || line[0] == '=' then "" else [line[0]] + BeforeEquals(line[1..])
  }

  function NameOf(line: string): string {
    Strip(BeforeEquals(line))
  }

  predicate Assigns(line: string, key: string) {
    !IsSkipped(line) && key + "=" <= Strip(line)
  }

  function ReadLines(key: string, lines: seq<string>): string {
    if lines == [] then ""
    else if Assigns(lines[0], key) then ParseValue(Strip(lines[0])[|key| + 1..])
    else ReadLines(key, lines[1..])
  }

  predicate IsFor(line: string, key: string) {
    !IsSkipped(line) && NameOf(line) == key
  }

  function Replaced(key: string, newLine: string, lines: seq<string>): (out: seq<string>)
    ensures |out| == |lines|
  {
    seq(|lines|, i requires 0 <= i < |lines| => if IsFor(lines[i], key) then newLine else lines[i])
  }

  predicate Found(key: string, lines: seq<string>) {
    exists i :: 0 <= i < |lines| && IsFor(lines[i], key)
  }

  function Spacer(out: seq<string>): seq<string> {
    if out != [] && Strip(out[|out| - 1]) != "" then [""] else []
  }

  function NewLine(key: string, value: string): string {
    key + "=" + Quote(value)
  }

  function UpsertLines(key: string, value: string, lines: seq<string>): seq<string> {
    var out := Replaced(key, NewLine(key, value), lines);
    if Found(key, lines) then out else out + Spacer(out) + [NewLine(key, value)]
  }

  function UpsertText(key: string, value: string, text: string): string {
    Join("\n", UpsertLines(key, value, SplitLines(text))) + "\n"
  }

  lemma UpsertStep(key: string, newLine: string, lines: seq<string>, i: nat)
    requires i < |lines|
    ensures Replaced(key, newLine, lines[..i + 1])
            == Replaced(key, newLine, lines[..i]) + [if IsFor(lines[i], key) then newLine else lines[i]]
    ensures Found(key, lines[..i + 1]) <==> Found(key, lines[..i]) || IsFor(lines[i], key)
  {
    var before, after := lines[..i], lines[..i + 1];
    assert after == before + [lines[i]];
    assert IsFor(lines[i], key) ==> IsFor(after[i], key);
    if Found(key, before) {
      var j :| 0 <= j < |before| && IsFor(before[j], key);
      assert IsFor(after[j], key);
    }
  }

  /** The `i`th line is the first to assign the key: no comment, and the key and an equals sign in front. */
  ghost predicate IsFirstAssignment(lines: seq<string>, key: string, i: nat) {
    && i < |lines| && AssignsKey(lines[i], key)
    && forall j :: 0 <= j < i ==> !AssignsKey(lines[j], key)
  }

  ghost predicate AssignsKey(line: string, key: string) {
    var text := Strip(line);
    text != "" && text[0] != '#' && |text| > |key| && text[..|key|] == key && text[|key|] == '='
  }

  lemma AssignsIff(line: string, key: string)
    ensures Assigns(line, key) <==> AssignsKey(line, key)
  {
    var text := Strip(line);
    if AssignsKey(line, key) {
      assert text[..|key| + 1] == text[..|key|] + [text[|key|]];
    }
    if Assigns(line, key) {
      assert text[..|key| + 1] == key + "=";
      assert text[..|key|] == text[..|key| + 1][..|key|];
    }
  }

  /** The value is that of the first line that assigns the key, or empty without one. */
  ghost predicate IsRead(lines: seq<string>, key: string, value: string) {
    && (forall i: nat :: IsFirstAssignment(lines, key, i) ==> value == ParseValue(Strip(lines[i])[|key| + 1..]))
    && ((forall i :: 0 <= i < |lines| ==> !AssignsKey(lines[i], key)) ==> value == "")
  }

  lemma IsReadCons(first: string, rest: seq<string>, key: string, value: string)
    requires !AssignsKey(first, key) && IsRead(rest, key, value)
    ensures IsRead([first] + rest, key, value)
  {
    var lines := [first] + rest;
    assert forall j :: 0 <= j < |rest| ==> rest[j] == lines[j + 1];
    forall i: nat | IsFirstAssignment(lines, key, i) ensures value == ParseValue(Strip(lines[i])[|key| + 1..]) {
      assert IsFirstAssignment(rest, key, i - 1);
    }
  }

  lemma {:induction false} ReadIs(key: string, lines: seq<string>)
    ensures IsRead(lines, key, ReadLines(key, lines))
  {
    if lines != [] {
      AssignsIff(lines[0], key);
      if !Assigns(lines[0], key) {
        ReadIs(key, lines[1..]);
        IsReadCons(lines[0], lines[1..], key, ReadLines(key, lines[1..]));
        assert [lines[0]] + lines[1..] == lines;
      }
    }
  }

  /** The line is one of the key: neither blank nor a comment, and the key in front of its first equals sign. */
  ghost predicate IsLineOf(line: string, key: string) {
    && Strip(line) != "" && Strip(line)[0] != '#'
    && exists name :: '=' !in name && name <= line && (name == line || line[|name|] == '=') && Strip(name) == key
  }

  lemma {:induction false} BeforeEqualsIs(line: string)
    ensures var name := BeforeEquals(line); '=' !in name && name <= line && (name == line || line[|name|] == '=')
  {
    if line != "" && line[0] != '=' {
      BeforeEqualsIs(line[1..]);
    }
  }

  lemma LongerHasSign(line: string, a: string, b: string)
    requires a <= line && b <= line && |a| < |b| && line[|a|] == '='
    ensures '=' in b
  {
    assert b[|a|] == line[|a|];
  }

  lemma OneFirstPart(line: string, a: string, b: string)
    requires '=' !in a && a <= line && (a == line || line[|a|] == '=')
    requires '=' !in b && b <= line && (b == line || line[|b|] == '=')
    ensures a == b
  {
    if |a| < |b| {
      LongerHasSign(line, a, b);
    }
    if |b| < |a| {
      LongerHasSign(line, b, a);
    }
  }

  lemma IsForIff(line: string, key: string)
    ensures IsFor(line, key) <==> IsLineOf(line, key)
  {
    BeforeEqualsIs(line);
    if IsLineOf(line, key) {
      var name :| '=' !in name && name <= line && (name == line || line[|name|] == '=') && Strip(name) == key;
      OneFirstPart(line, name, BeforeEquals(line));
    }
  }

  /**
   The lines of an updated file: every line of the key is the assignment, all others stay; without one the
   assignment comes last, after a blank line unless the file ends in one or is empty.
   */
  ghost predicate AreUpserted(key: string, quoted: string, lines: seq<string>, out: seq<string>) {
    && |out| >= |lines|
    && (forall i :: 0 <= i < |lines| ==> out[i] == if IsLineOf(lines[i], key) then key + "=" + quoted else lines[i])
    && ((exists i :: 0 <= i < |lines| && IsLineOf(lines[i], key)) ==> |out| == |lines|)
    && ((forall i :: 0 <= i < |lines| ==> !IsLineOf(lines[i], key)) ==>
          if lines == [] || Strip(lines[|lines| - 1]) == "" then out == lines + [key + "=" + quoted]
          else out == lines + ["", key + "=" + quoted])
  }

  lemma UpsertedAre(key: string, value: string, lines: seq<string>)
    ensures AreUpserted(key, Quote(value), lines, UpsertLines(key, value, lines))
  {
    forall i | 0 <= i < |lines| ensures IsFor(lines[i], key) <==> IsLineOf(lines[i], key) {
      IsForIff(lines[i], key);
    }
    var kept := Replaced(key, NewLine(key, value), lines);
    if !Found(key, lines) {
      assert kept == lines;
    }
  }

  /** The new text is such lines, one by one. */
  ghost predicate IsUpserted(key: string, quoted: string, before: string, after: string) {
    exists out :: AreUpserted(key, quoted, SplitLines(before), out) && after == Join("\n", out) + "\n"
  }

  lemma UpsertIs(key: string, value: string, text: string)
    ensures IsUpserted(key, Quote(value), text, UpsertText(key, value, text))
  {
    UpsertedAre(key, value, SplitLines(text));
  }

  class EnvironmentFile {
    /** Whether the file is there; if it is not, its text is empty. */
    var onDisk: bool
    var text: string
    var environ: map<string, string>

    predicate Valid()
      reads this
    {
      !onDisk ==> text == ""
    }

    constructor (present: bool, contents: string)
      ensures Valid() && text == (if present then contents else "") && environ == map[]
    {
      onDisk := present;
      text := if present then contents else "";
      environ := map[];
    }

    method Read(key: string) returns (value: string)
      requires Valid()
      ensures value == ReadLines(key, SplitLines(text))
      ensures IsRead(SplitLines(text), key, value)
    {
      ReadIs(key, SplitLines(text));
      if !onDisk {
        return "";
      }
      value := FirstValue(key, SplitLines(text));
    }

    method Upsert(key: string, value: string)
      requires Valid()
      modifies this
      ensures Valid() && onDisk
      ensures text == UpsertText(key, value, old(text))
      ensures IsUpserted(key, Quote(value), old(text), text)
      ensures environ == old(environ)[key := value]
    {
      var lines := SplitLines(text);
      UpsertIs(key, value, text);
      var out, found := RewriteLines(key, NewLine(key, value), lines);
      if !found {
        if out != [] && Strip(out[|out| - 1]) != "" {
          out := out + [""];
        }
        out := out + [NewLine(key, value)];
      }
      assert out == UpsertLines(key, value, lines);
      text := Join("\n", out) + (if out != [] then "\n" else "");
      onDisk := true;
      environ := environ[key := value];
    }
  }

  method FirstValue(key: string, lines: seq<string>) returns (value: string)
    ensures value == ReadLines(key, lines)
  {
    for i := 0 to |lines|
      invariant ReadLines(key, lines[i..]) == ReadLines(key, lines)
    {
      assert lines[i..][1..] == lines[i + 1..];
      var line := Strip(lines[i]);
      if line == "" || IsComment(line) || !(key + "=" <= line) {
        continue;
      }
      return ParseValue(line[|key| + 1..]);
    }
    return "";
  }

  method RewriteLines(key: string, newLine: string, lines: seq<string>) returns (out: seq<string>, found: bool)
    ensures out == Replaced(key, newLine, lines)
    ensures found == Found(key, lines)
  {
    found := false;
    out := [];
    for i := 0 to |lines|
      invariant out == Replaced(key, newLine, lines[..i])
      invariant found == Found(key, lines[..i])
    {
      var line := lines[i];
      UpsertStep(key, newLine, lines, i);
      if IsSkipped(line) {
        out := out + [line];
      } else if NameOf(line) == key {
        out := out + [newLine];
        found := true;
      } else {
        out := out + [line];
      }
    }
    assert lines[..|lines|] == lines;
  }

  // ---------------------------------------------------------------------------------------------
  // Which line belongs to which key
  // ---------------------------------------------------------------------------------------------

  lemma {:induction false} BeforeEqualsOf(name: string, rest: string)
    requires '=' !in name
    ensures BeforeEquals(name + "=" + rest) == name
  {
    if name != "" {
      assert (name + "=" + rest)[1..] == name[1..] + "=" + rest;
      BeforeEqualsOf(name[1..], rest);
    }
  }

  lemma NameOfAssignment(line: string, key: string)
    requires GoodKey(key) && key + "=" <= Strip(line)
    ensures NameOf(line) == key
  {
    var a, b := StripSplit(line);
    var rest := Strip(line)[|key| + 1..];
    assert Strip(line) == key + "=" + rest;
    assert line == (a + key) + "=" + (rest + b);
    assert forall i :: 0 <= i < |a| ==> IsSpace(a[i]);
    assert '=' !in a + key;
    BeforeEqualsOf(a + key, rest + b);
    StripOf(a, key, "");
    assert a + key + "" == a + key;
  }

  lemma NewLineFacts(key: string, value: string)
    requires GoodKey(key)
    ensures Strip(NewLine(key, value)) == NewLine(key, value)
    ensures NameOf(NewLine(key, value)) == key
    ensures IsSkipped(NewLine(key, value)) <==> IsComment(key)
    ensures NewLine(key, value)[|key| + 1..] == Quote(value)
  {
    var line := NewLine(key, value);
    QuoteIsTrimmed(value);
    assert line[|line| - 1] == Quote(value)[|Quote(value)| - 1];
    assert Trimmed(line);
    StripTrimmed(line);
    NameOfAssignment(line, key);
  }

  lemma NewLineHasNoBreak(key: string, value: string)
    requires GoodKey(key) && NoBreak(value)
    ensures NoBreak(NewLine(key, value))
  {
    EscapeIsCharwise(value);
    EscapeHasNoBreak(value);
  }

  lemma {:induction false} EscapeHasNoBreak(value: string)
    requires NoBreak(value)
    ensures NoBreak(EscapeChars(value))
  {
    if value != "" {
      EscapeHasNoBreak(value[1..]);
    }
  }

  // ---------------------------------------------------------------------------------------------
  // Reading after an update
  // ---------------------------------------------------------------------------------------------

  lemma {:induction false} ReadFirst(key: string, lines: seq<string>, line: string)
    requires Assigns(line, key) && line in lines
    requires forall i :: 0 <= i < |lines| && Assigns(lines[i], key) ==> lines[i] == line
    ensures ReadLines(key, lines) == ParseValue(Strip(line)[|key| + 1..])
  {
    if !Assigns(lines[0], key) {
      assert lines == [lines[0]] + lines[1..];
      ReadFirst(key, lines[1..], line);
    }
  }

  lemma {:induction false} ReadNothing(key: string, lines: seq<string>)
    requires forall i :: 0 <= i < |lines| ==> !Assigns(lines[i], key)
    ensures ReadLines(key, lines) == ""
  {
    if lines != [] {
      ReadNothing(key, lines[1..]);
    }
  }

  /** The lines of the updated file: every assignment to `key` is the new line. */
  lemma UpsertedLines(key: string, value: string, lines: seq<string>)
    requires GoodKey(key)
    ensures var out := UpsertLines(key, value, lines);
            && NewLine(key, value) in out
            && forall i :: 0 <= i < |out| && Assigns(out[i], key) ==> out[i] == NewLine(key, value)
  {
    var newLine, out := NewLine(key, value), UpsertLines(key, value, lines);
    var kept := Replaced(key, newLine, lines);
    forall i | 0 <= i < |out| && Assigns(out[i], key) ensures out[i] == newLine {
      NameOfAssignment(out[i], key);
      if i < |lines| {
        assert out[i] == kept[i];
      }
    }
    if Found(key, lines) {
      var i :| 0 <= i < |lines| && IsFor(lines[i], key);
      assert out[i] == newLine;
    } else {
      assert out[|out| - 1] == newLine;
    }
  }

  lemma TextIsLines(key: string, value: string, text: string)
    requires GoodKey(key) && NoBreak(value)
    ensures SplitLines(UpsertText(key, value, text)) == UpsertLines(key, value, SplitLines(text))
  {
    NewLineHasNoBreak(key, value);
    var out := UpsertLines(key, value, SplitLines(text));
    UpsertedLines(key, value, SplitLines(text));
    SplitJoined(out);
  }

  /**
   Reading a key after updating it gives the value exactly when the value survives quoting and the
   key is not taken for a comment (an empty value is what reading a comment gives anyway).
   */
  lemma {:induction false} ReadAfterUpsertIff(key: string, value: string, text: string)
    requires GoodKey(key) && NoBreak(value)
    ensures ReadLines(key, SplitLines(UpsertText(key, value, text))) == value
            <==> value == "" || (!IsComment(key) && Survives(value))
  {
    var lines := SplitLines(text);
    var out, newLine := UpsertLines(key, value, lines), NewLine(key, value);
    TextIsLines(key, value, text);
    UpsertedLines(key, value, lines);
    NewLineFacts(key, value);
    ValueRoundTripIff(value);
    if IsComment(key) {
      forall i | 0 <= i < |out| ensures !Assigns(out[i], key) {
        if key + "=" <= Strip(out[i]) {
          assert Strip(out[i])[0] == key[0];
        }
      }
      ReadNothing(key, out);
    } else {
      assert key + "=" <= newLine;
      ReadFirst(key, out, newLine);
      if value == "" {
        assert !Occurs(ESCAPED_NEWLINE, "") && !Occurs(ESCAPED_BACKSLASH, "");
      }
    }
  }

  lemma {:induction false} ReadSkipsReplaced(key: string, newLine: string, lines: seq<string>, other: string)
    requires GoodKey(other) && key != other && !Assigns(newLine, other)
    ensures ReadLines(other, Replaced(key, newLine, lines)) == ReadLines(other, lines)
  {
    if lines != [] {
      var out := Replaced(key, newLine, lines);
      assert out[1..] == Replaced(key, newLine, lines[1..]);
      ReadSkipsReplaced(key, newLine, lines[1..], other);
      if Assigns(lines[0], other) {
        NameOfAssignment(lines[0], other);
      }
    }
  }

  lemma {:induction false} ReadSkipsTail(key: string, lines: seq<string>, tail: seq<string>)
    requires forall i :: 0 <= i < |tail| ==> !Assigns(tail[i], key)
    ensures ReadLines(key, lines + tail) == ReadLines(key, lines)
  {
    if lines == [] {
      assert lines + tail == tail;
      ReadNothing(key, tail);
    } else {
      assert (lines + tail)[1..] == lines[1..] + tail;
      ReadSkipsTail(key, lines[1..], tail);
    }
  }

  /** Every other key reads as before. */
  lemma {:induction false} OtherKeysUnchanged(key: string, value: string, text: string, other: string)
    requires GoodKey(key) && GoodKey(other) && key != other && NoBreak(value)
    ensures ReadLines(other, SplitLines(UpsertText(key, value, text))) == ReadLines(other, SplitLines(text))
  {
    TextIsLines(key, value, text);
    OtherLinesUnchanged(key, value, SplitLines(text), other);
  }

  lemma OtherLinesUnchanged(key: string, value: string, lines: seq<string>, other: string)
    requires GoodKey(key) && GoodKey(other) && key != other
    ensures ReadLines(other, UpsertLines(key, value, lines)) == ReadLines(other, lines)
  {
    var newLine := NewLine(key, value);
    NewLineFacts(key, value);
    if Assigns(newLine, other) {
      NameOfAssignment(newLine, other);
    }
    ReadSkipsReplaced(key, newLine, lines, other);
    var out := Replaced(key, newLine, lines);
    if !Found(key, lines) {
      var tail := Spacer(out) + [newLine];
      assert out + Spacer(out) + [newLine] == out + tail;
      forall i | 0 <= i < |tail| ensures !Assigns(tail[i], other) {
        assert tail[i] == "" || tail[i] == newLine;
      }
      ReadSkipsTail(other, out, tail);
    }
  }

  /**
   Two updates of one key leave the text that the last one alone would leave, unless the key is
   taken for a comment, in which case every update adds a line.
   */
  lemma {:induction false} LastWriteWinsIff(key: string, first: string, last: string, text: string)
    requires GoodKey(key) && NoBreak(first) && NoBreak(last)
    ensures UpsertText(key, last, UpsertText(key, first, text)) == UpsertText(key, last, text)
            <==> !IsComment(key)
  {
    var lines := SplitLines(text);
    var once := UpsertLines(key, first, lines);
    TextIsLines(key, first, text);
    TextIsLines(key, last, text);
    TextIsLines(key, last, UpsertText(key, first, text));
    NewLineFacts(key, first);
    if IsComment(key) {
      CommentKeyNotFound(key, lines);
      CommentKeyNotFound(key, once);
      assert |UpsertLines(key, last, once)| > |once| >= |UpsertLines(key, last, lines)|;
    } else {
      SecondUpsert(key, first, last, lines);
    }
  }

  lemma CommentKeyNotFound(key: string, lines: seq<string>)
    requires GoodKey(key) && IsComment(key)
    ensures !Found(key, lines)
  {
    forall i | 0 <= i < |lines| && !IsSkipped(lines[i]) ensures NameOf(lines[i]) != key {
      if NameOf(lines[i]) == key {
        NameStartsLine(lines[i]);
      }
    }
  }

  /** A line that does not begin with a number sign has no name that does. */
  lemma NameStartsLine(line: string)
    requires Strip(line) != "" && NameOf(line) != ""
    ensures NameOf(line)[0] == Strip(line)[0]
  {
    var before := BeforeEquals(line);
    BeforeIsPrefix(line);
    var a, b := StripSplit(before);
    var c, d := StripSplit(line);
    assert forall k :: 0 <= k < |a| ==> line[k] == before[k] == a[k];
    assert forall k :: 0 <= k < |c| ==> line[k] == c[k];
    assert line[|a|] == before[|a|] == Strip(before)[0];
    assert line[|c|] == Strip(line)[0];
  }

  lemma {:induction false} BeforeIsPrefix(line: string)
    ensures BeforeEquals(line) <= line
  {
    if line != "" && line[0] != '=' {
      BeforeIsPrefix(line[1..]);
    }
  }

  lemma SecondUpsert(key: string, first: string, last: string, lines: seq<string>)
    requires GoodKey(key) && !IsComment(key)
    ensures UpsertLines(key, last, UpsertLines(key, first, lines)) == UpsertLines(key, last, lines)
  {
    var a, b := NewLine(key, first), NewLine(key, last);
    NewLineFacts(key, first);
    NewLineFacts(key, last);
    var once := UpsertLines(key, first, lines);
    var out := Replaced(key, a, lines);
    assert IsFor(a, key);
    if Found(key, lines) {
      var i :| 0 <= i < |lines| && IsFor(lines[i], key);
      assert IsFor(once[i], key);
      assert Replaced(key, b, once) == Replaced(key, b, lines);
    } else {
      assert out == lines && Replaced(key, b, lines) == lines;
      assert IsFor(once[|once| - 1], key);
      assert !IsFor("", key);
      assert Replaced(key, b, once) == lines + Spacer(lines) + [b];
    }
  }
}
