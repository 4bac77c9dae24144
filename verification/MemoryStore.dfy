/**
 The curated memory file of an agent (src/media2text/agent/memory_store.py): a text whose entries
 are separated by section signs, and which stands for a list of strings.
 */
module MemoryStore {
  import opened Wrappers
  import opened Text

  const SECTION: char := '§'

  // ---------------------------------------------------------------------------------------------
  // Text to entries and back
  // ---------------------------------------------------------------------------------------------

  /** `text.split("§")` */
  function SplitOn(text: string): (parts: seq<string>)
    ensures parts != []
  {
    if text == "" then [""]
    else
      var parts := SplitOn(text[1..]);
      if text[0] == SECTION then [""] + parts
      else [[text[0]] + parts[0]] + parts[1..]
  }

  /** The stripped parts that are not blank. */
  function Kept(parts: seq<string>): seq<string> {
    if parts == [] then []
    else (if Strip(parts[0]) == "" then [] else [Strip(parts[0])]) + Kept(parts[1..])
  }

  /** The entries a piece of text contributes. */
  function Pieces(text: string): seq<string> {
    Kept(SplitOn(text))
  }

  function SplitEntries(text: string): seq<string> {
    if Strip(text) == "" then []
    else if SECTION !in text then [Strip(text)]
    else Pieces(text)
  }

  function NotBlank(entries: seq<string>): seq<string> {
    if entries == [] then []
    else (if Strip(entries[0]) == "" then [] else [entries[0]]) + NotBlank(entries[1..])
  }

  function Sections(entries: seq<string>): (parts: seq<string>)
    ensures |parts| == |entries|
  {
    seq(|entries|, i requires 0 <= i < |entries| => [SECTION] + "\n" + Strip(entries[i]))
  }

  function JoinEntries(entries: seq<string>): string {
    Join("\n\n", Sections(NotBlank(entries)))
  }

  function NormalizeLegacy(raw: string): string {
    if Strip(raw) == "" || SECTION in raw then raw else JoinEntries([Strip(raw)])
  }

  /** The list of entries a file text stands for. */
  function Entries(raw: string): seq<string> {
    SplitEntries(NormalizeLegacy(raw))
  }

  predicate GoodEntry(e: string) {
    e != "" && Strip(e) == e && SECTION !in e
  }

  predicate GoodEntries(entries: seq<string>) {
    forall i :: 0 <= i < |entries| ==> GoodEntry(entries[i])
  }

  function FlatPieces(entries: seq<string>): seq<string> {
    if entries == [] then [] else Pieces(entries[0]) + FlatPieces(entries[1..])
  }

  // ---------------------------------------------------------------------------------------------
  // Facts about splitting
  // ---------------------------------------------------------------------------------------------

  lemma {:induction false} SplitPlain(text: string)
    requires SECTION !in text
    ensures SplitOn(text) == [text]
  {
    if text != "" {
      SplitPlain(text[1..]);
      assert [text[0]] + text[1..] == text;
    }
  }

  /** Splitting at a section sign that is written out. */
  lemma {:induction false} SplitAt(a: string, b: string)
    ensures SplitOn(a + [SECTION] + b) == SplitOn(a) + SplitOn(b)
  {
    if a == "" {
      assert (a + [SECTION] + b)[1..] == b;
    } else {
      assert (a + [SECTION] + b)[1..] == a[1..] + [SECTION] + b;
      SplitAt(a[1..], b);
    }
  }

  lemma {:induction false} KeptConcat(a: seq<string>, b: seq<string>)
    ensures Kept(a + b) == Kept(a) + Kept(b)
  {
    if a == [] {
      assert a + b == b;
    } else {
      assert (a + b)[1..] == a[1..] + b;
      KeptConcat(a[1..], b);
    }
  }

  /** Whitespace around a piece of text does not matter. */
  lemma {:induction false} PiecesPadRight(text: string, pad: string)
    requires AllSpace(pad) && SECTION !in pad
    ensures Pieces(text + pad) == Pieces(text)
  {
    SplitPadRight(text, pad);
    var parts := SplitOn(text);
    var front, last := parts[..|parts| - 1], parts[|parts| - 1];
    assert parts == front + [last];
    KeptConcat(front, [last]);
    KeptConcat(front, [last + pad]);
    StripPad("", last, pad);
    assert "" + last + pad == last + pad;
  }

  function PadLast(parts: seq<string>, pad: string): (out: seq<string>)
    requires parts != []
    ensures |out| == |parts|
  {
    parts[..|parts| - 1] + [parts[|parts| - 1] + pad]
  }

  lemma PadAndPrepend(parts: seq<string>, pad: string, c: char)
    requires parts != []
    ensures [[c] + PadLast(parts, pad)[0]] + PadLast(parts, pad)[1..] == PadLast([[c] + parts[0]] + parts[1..], pad)
  {
    if |parts| == 1 {
      assert [c] + (parts[0] + pad) == ([c] + parts[0]) + pad;
    }
  }

  lemma {:induction false} SplitPadRight(text: string, pad: string)
    requires SECTION !in pad
    ensures SplitOn(text + pad) == PadLast(SplitOn(text), pad)
  {
    if text == "" {
      assert text + pad == pad;
      SplitPlain(pad);
    } else {
      assert (text + pad)[1..] == text[1..] + pad;
      SplitPadRight(text[1..], pad);
      PadAndPrepend(SplitOn(text[1..]), pad, text[0]);
    }
  }

  lemma {:induction false} SplitPadLeft(pad: string, text: string)
    requires SECTION !in pad
    ensures SplitOn(pad + text) == [pad + SplitOn(text)[0]] + SplitOn(text)[1..]
  {
    if pad == "" {
      var parts := SplitOn(text);
      assert pad + text == text && pad + parts[0] == parts[0];
      assert parts == [parts[0]] + parts[1..];
    } else {
      assert (pad + text)[1..] == pad[1..] + text;
      SplitPadLeft(pad[1..], text);
      assert pad[0] != SECTION && pad == [pad[0]] + pad[1..];
      assert [pad[0]] + (pad[1..] + SplitOn(text)[0]) == pad + SplitOn(text)[0];
    }
  }

  lemma StripPad(a: string, text: string, b: string)
    requires AllSpace(a) && AllSpace(b)
    ensures Strip(a + text + b) == Strip(text)
  {
    var c, d := StripSplit(text);
    assert a + text + b == (a + c) + Strip(text) + (d + b);
    StripOf(a + c, Strip(text), d + b);
  }

  lemma PiecesPadLeft(pad: string, text: string)
    requires AllSpace(pad) && SECTION !in pad
    ensures Pieces(pad + text) == Pieces(text)
  {
    SplitPadLeft(pad, text);
    var parts := SplitOn(text);
    StripPad(pad, parts[0], "");
    assert pad + parts[0] + "" == pad + parts[0];
  }

  lemma SpaceIsNotSection(pad: string)
    requires AllSpace(pad)
    ensures SECTION !in pad
  {
    assert !IsSpace(SECTION);
    assert forall i :: 0 <= i < |pad| ==> IsSpace(pad[i]);
  }

  lemma PiecesOfStripped(text: string)
    ensures Pieces(Strip(text)) == Pieces(text)
  {
    var a, b := StripSplit(text);
    SpaceIsNotSection(a);
    SpaceIsNotSection(b);
    PiecesPadLeft(a, Strip(text));
    PiecesPadRight(a + Strip(text), b);
  }

  lemma {:induction false} PiecesAreGood(parts: seq<string>)
    requires forall i :: 0 <= i < |parts| ==> SECTION !in parts[i]
    ensures GoodEntries(Kept(parts))
  {
    if parts != [] {
      PiecesAreGood(parts[1..]);
      var a, b := StripSplit(parts[0]);
      StripTrimmed(Strip(parts[0]));
    }
  }

  lemma {:induction false} SplitHasNoSection(text: string)
    ensures forall i :: 0 <= i < |SplitOn(text)| ==> SECTION !in SplitOn(text)[i]
  {
    if text != "" {
      SplitHasNoSection(text[1..]);
    }
  }

  lemma PieceOfGood(e: string)
    requires GoodEntry(e)
    ensures Pieces(e) == [e]
  {
    SplitPlain(e);
    assert Kept([e]) == [e] + Kept([e][1..]);
  }

  // ---------------------------------------------------------------------------------------------
  // Joining and splitting again
  // ---------------------------------------------------------------------------------------------

  lemma BlankHasNoPieces(e: string)
    requires Strip(e) == ""
    ensures Pieces(e) == []
  {
    PiecesOfStripped(e);
    assert SplitOn("") == [""];
    StripTrimmed("");
    assert Kept([""]) == Kept([""][1..]);
  }

  lemma {:induction false} SkipBlanks(entries: seq<string>)
    ensures FlatPieces(NotBlank(entries)) == FlatPieces(entries)
  {
    if entries != [] {
      SkipBlanks(entries[1..]);
      if Strip(entries[0]) == "" {
        BlankHasNoPieces(entries[0]);
        assert NotBlank(entries) == NotBlank(entries[1..]);
        assert FlatPieces(entries) == FlatPieces(entries[1..]);
      } else {
        var kept := NotBlank(entries);
        assert kept[0] == entries[0] && kept[1..] == NotBlank(entries[1..]);
      }
    }
  }

  lemma SectionPieces(e: string)
    ensures Pieces([SECTION] + "\n" + Strip(e)) == Pieces(e)
  {
    var body := "\n" + Strip(e);
    assert [SECTION] + "\n" + Strip(e) == "" + [SECTION] + body;
    SplitAt("", body);
    KeptConcat(SplitOn(""), SplitOn(body));
    BlankHasNoPieces("");
    assert AllSpace("\n");
    PiecesPadLeft("\n", Strip(e));
    PiecesOfStripped(e);
  }

  lemma {:induction false} JoinedPieces(entries: seq<string>)
    ensures Pieces(Join("\n\n", Sections(entries))) == FlatPieces(entries)
  {
    if entries == [] {
      BlankHasNoPieces("");
    } else if |entries| == 1 {
      SectionPieces(entries[0]);
      assert FlatPieces(entries[1..]) == [];
    } else {
      var rest := Sections(entries[1..]);
      assert Sections(entries)[1..] == rest;
      JoinedPieces(entries[1..]);
      var head := Sections(entries)[0] + "\n\n";
      var tail := Join("\n\n", rest);
      assert Join("\n\n", Sections(entries)) == head + tail;
      JoinStartsWithSection(entries[1..]);
      PiecesBeforeSection(head, tail);
      assert AllSpace("\n\n");
      PiecesPadRight(Sections(entries)[0], "\n\n");
      SectionPieces(entries[0]);
    }
  }

  lemma SectionAddsNothing(rest: string)
    ensures Pieces([SECTION] + rest) == Pieces(rest)
  {
    SplitAt("", rest);
    assert "" + [SECTION] + rest == [SECTION] + rest;
    KeptConcat(SplitOn(""), SplitOn(rest));
    BlankHasNoPieces("");
  }

  lemma PiecesBeforeSection(head: string, tail: string)
    requires tail != "" && tail[0] == SECTION
    ensures Pieces(head + tail) == Pieces(head) + Pieces(tail)
  {
    var rest := tail[1..];
    assert tail == [SECTION] + rest;
    assert head + tail == head + [SECTION] + rest;
    SplitAt(head, rest);
    KeptConcat(SplitOn(head), SplitOn(rest));
    SectionAddsNothing(rest);
  }

  lemma JoinStartsWithSection(entries: seq<string>)
    requires entries != []
    ensures Join("\n\n", Sections(entries)) != "" && Join("\n\n", Sections(entries))[0] == SECTION
  {
    assert Sections(entries)[0][0] == SECTION;
  }

  lemma SectionIsNotBlank(text: string)
    requires SECTION in text
    ensures Strip(text) != ""
  {
    StripBlank(text);
    if Strip(text) == "" {
      SpaceIsNotSection(text);
    }
  }

  /**
   What a written file stands for, without any assumption on the entries: the pieces of the entries,
   in order.  Blank entries vanish and entries with section signs fall apart.
   */
  lemma WrittenEntries(entries: seq<string>)
    ensures Entries(JoinEntries(entries)) == FlatPieces(entries)
  {
    SkipBlanks(entries);
    var kept := NotBlank(entries);
    JoinedPieces(kept);
    if kept == [] {
      assert JoinEntries(entries) == "";
      StripTrimmed("");
    } else {
      JoinStartsWithSection(kept);
      SectionIsNotBlank(JoinEntries(entries));
    }
  }

  lemma {:induction false} FlatGood(entries: seq<string>)
    requires GoodEntries(entries)
    ensures FlatPieces(entries) == entries
  {
    if entries != [] {
      PieceOfGood(entries[0]);
      FlatGood(entries[1..]);
    }
  }

  lemma {:induction false} FlatConcat(a: seq<string>, b: seq<string>)
    ensures FlatPieces(a + b) == FlatPieces(a) + FlatPieces(b)
  {
    if a == [] {
      assert a + b == b;
    } else {
      assert (a + b)[1..] == a[1..] + b;
      FlatConcat(a[1..], b);
    }
  }

  /** Joining and splitting is the identity on stripped, non-empty entries without section signs. */
  lemma JoinRoundTrip(entries: seq<string>)
    requires GoodEntries(entries)
    ensures Entries(JoinEntries(entries)) == entries
  {
    WrittenEntries(entries);
    FlatGood(entries);
  }

  /** Whatever is in the file, legacy format included, the entries read from it are good. */
  lemma EntriesAreGood(raw: string)
    ensures GoodEntries(Entries(raw))
    ensures Strip(raw) != "" && SECTION !in raw ==> Entries(raw) == [Strip(raw)]
  {
    SplitHasNoSection(raw);
    PiecesAreGood(SplitOn(raw));
    if Strip(raw) != "" && SECTION !in raw {
      var a, b := StripSplit(raw);
      StripTrimmed(Strip(raw));
      assert GoodEntry(Strip(raw));
      JoinedLegacy(Strip(raw));
    }
  }

  /** A legacy text becomes a file with one section, which reads as one entry. */
  lemma JoinedLegacy(e: string)
    requires GoodEntry(e)
    ensures Entries(JoinEntries([e])) == [e]
    ensures SplitEntries(JoinEntries([e])) == [e]
  {
    JoinRoundTrip([e]);
    assert NotBlank([e]) == [e] + NotBlank([e][1..]);
    JoinStartsWithSection([e]);
    SectionIsNotBlank(JoinEntries([e]));
  }

  // ---------------------------------------------------------------------------------------------
  // The store
  // ---------------------------------------------------------------------------------------------

  datatype Error = NotExactlyOne(matches: nat) | Blocked | TooLong

  predicate Contains(entry: string, oldText: string) {
    Find(oldText, entry) != -1
  }

  /** The positions of the entries that contain `oldText`. */
  function Matches(entries: seq<string>, oldText: string): seq<nat> {
    if entries == [] then []
    else
      var last := |entries| - 1;
      Matches(entries[..last], oldText) + if Contains(entries[last], oldText) then [last] else []
  }

  /** `hits` lists, in order, exactly the positions of the entries in which the text occurs. */
  ghost predicate ArePositions(entries: seq<string>, oldText: string, hits: seq<nat>) {
    && (forall j: nat :: j in hits <==> j < |entries| && Contains(entries[j], oldText))
    && (forall i, j :: 0 <= i < j < |hits| ==> hits[i] < hits[j])
  }

  ghost predicate OnlyMatch(entries: seq<string>, oldText: string, i: int) {
    && 0 <= i < |entries|
    && forall j :: 0 <= j < |entries| ==> (Occurs(oldText, entries[j]) <==> j == i)
  }

  lemma ContainsIff(entry: string, oldText: string)
    ensures Contains(entry, oldText) <==> Occurs(oldText, entry)
  {
  }

  lemma OnePositionMore(entries: seq<string>, oldText: string, hits: seq<nat>, e: string)
    requires ArePositions(entries, oldText, hits)
    ensures ArePositions(entries + [e], oldText, hits + if Contains(e, oldText) then [|entries|] else [])
  {
    assert forall i :: 0 <= i < |hits| ==> hits[i] in hits;
  }

  lemma {:induction false} MatchesExact(entries: seq<string>, oldText: string)
    ensures ArePositions(entries, oldText, Matches(entries, oldText))
  {
    if entries != [] {
      var front, e := entries[..|entries| - 1], entries[|entries| - 1];
      MatchesExact(front, oldText);
      OnePositionMore(front, oldText, Matches(front, oldText), e);
      assert front + [e] == entries;
    }
  }

  /** The same, by what the search finds. */
  predicate OnlyFound(entries: seq<string>, oldText: string, i: int) {
    0 <= i < |entries| && forall j :: 0 <= j < |entries| ==> (Contains(entries[j], oldText) <==> j == i)
  }

  lemma OnlyMatchIff(entries: seq<string>, oldText: string, i: int)
    ensures OnlyMatch(entries, oldText, i) <==> OnlyFound(entries, oldText, i)
  {
    forall j | 0 <= j < |entries| ensures Contains(entries[j], oldText) <==> Occurs(oldText, entries[j]) {
      ContainsIff(entries[j], oldText);
    }
  }

  lemma OnlyFoundIs(entries: seq<string>, oldText: string, i: int)
    requires OnlyFound(entries, oldText, i)
    ensures Matches(entries, oldText) == [i]
  {
    MatchesExact(entries, oldText);
    OnlyPosition(Matches(entries, oldText), i);
  }

  lemma HitIsOnlyFound(entries: seq<string>, oldText: string)
    requires |Matches(entries, oldText)| == 1
    ensures OnlyFound(entries, oldText, Matches(entries, oldText)[0])
  {
    var m := Matches(entries, oldText);
    MatchesExact(entries, oldText);
    assert m == [m[0]] && m[0] in m;
  }

  /** There is one match exactly if one entry alone contains the text. */
  lemma SingleMatch(entries: seq<string>, oldText: string)
    requires |Matches(entries, oldText)| == 1
    ensures OnlyMatch(entries, oldText, Matches(entries, oldText)[0])
  {
    HitIsOnlyFound(entries, oldText);
    OnlyMatchIff(entries, oldText, Matches(entries, oldText)[0]);
  }

  lemma OnlyMatchIs(entries: seq<string>, oldText: string, i: int)
    requires OnlyMatch(entries, oldText, i)
    ensures Matches(entries, oldText) == [i]
  {
    OnlyMatchIff(entries, oldText, i);
    OnlyFoundIs(entries, oldText, i);
  }

  lemma OnlyPosition(m: seq<nat>, i: nat)
    requires forall j: nat :: j in m <==> j == i
    requires forall k, l :: 0 <= k < l < |m| ==> m[k] < m[l]
    ensures m == [i]
  {
    assert i in m && (|m| > 1 ==> m[0] < m[1]);
    forall k | 0 <= k < |m| ensures m[k] == i {
      assert m[k] in m;
    }
  }

  function ReplaceOnce(s: string, oldText: string, newText: string): string {
    var k := Find(oldText, s);
    if k == -1 then s else s[..k] + newText + s[k + |oldText|..]
  }

  /** The entries after a replacement, if exactly one of them matches. */
  function AfterReplace(entries: seq<string>, oldText: string, content: string): Option<seq<string>> {
    var hits := Matches(entries, oldText);
    if |hits| == 1 && hits[0] < |entries|
    then Some(entries[hits[0] := ReplaceOnce(entries[hits[0]], oldText, content)])
    else None
  }

  /** The `i`th entry alone contains the text; it stands between `a` and `b`, and nowhere before. */
  ghost predicate FirstAt(entries: seq<string>, oldText: string, i: int, a: string, b: string) {
    && OnlyMatch(entries, oldText, i)
    && entries[i] == a + oldText + b
    && forall k :: 0 <= k < |a| ==> !OccursAt(oldText, entries[i], k)
  }

  lemma OccursBetween(a: string, oldText: string, b: string)
    ensures OccursAt(oldText, a + oldText + b, |a|)
  {
  }

  lemma FirstIsFound(entries: seq<string>, oldText: string, i: int, a: string, b: string)
    requires FirstAt(entries, oldText, i, a, b)
    ensures Find(oldText, entries[i]) == |a|
    ensures entries[i][..|a|] == a && entries[i][|a| + |oldText|..] == b
  {
    OccursBetween(a, oldText, b);
  }

  /** Where one entry matches, this is what replacing its first occurrence comes to. */
  lemma ReplacedAt(entries: seq<string>, oldText: string, content: string, i: int, a: string, b: string)
    requires FirstAt(entries, oldText, i, a, b)
    ensures Matches(entries, oldText) == [i]
    ensures AfterReplace(entries, oldText, content) == Some(entries[i := a + content + b])
  {
    OnlyMatchIs(entries, oldText, i);
    FirstIsFound(entries, oldText, i, a, b);
  }

  lemma NoFirst(entries: seq<string>, oldText: string)
    requires |Matches(entries, oldText)| != 1
    ensures forall i :: !OnlyMatch(entries, oldText, i)
  {
    forall i ensures !OnlyMatch(entries, oldText, i) {
      if OnlyMatch(entries, oldText, i) {
        OnlyMatchIs(entries, oldText, i);
      }
    }
  }

  lemma FirstExists(entries: seq<string>, oldText: string) returns (i: nat, a: string, b: string)
    requires |Matches(entries, oldText)| == 1
    ensures FirstAt(entries, oldText, i, a, b)
  {
    SingleMatch(entries, oldText);
    i := Matches(entries, oldText)[0];
    var e := entries[i];
    ContainsIff(e, oldText);
    var k := Find(oldText, e);
    a, b := e[..k], e[k + |oldText|..];
    assert e == a + oldText + b;
  }

  /**
   What a replacement comes to: the first occurrence in the one entry that contains the text gives way to
   the content; that fails, and changes nothing, exactly if the result may not be stored.
   */
  ghost predicate IsReplaced(before: string, oldText: string, content: string, stored: bool, after: string,
                             storable: string -> bool) {
    forall i, a, b :: FirstAt(Entries(before), oldText, i, a, b) ==>
      var text := JoinEntries(Entries(before)[i := a + content + b]);
      && (stored <==> storable(text))
      && (stored ==>
            && after == text
            && Entries(after) == Entries(before)[..i] + Pieces(a + content + b) + Entries(before)[i + 1..])
  }

  lemma ReplacementIs(raw: string, oldText: string, content: string, stored: bool, after: string,
                      storable: string -> bool)
    requires AfterReplace(Entries(raw), oldText, content).Some?
    requires var text := JoinEntries(AfterReplace(Entries(raw), oldText, content).value);
             (stored <==> storable(text)) && (stored ==> after == text)
    ensures IsReplaced(raw, oldText, content, stored, after, storable)
  {
    forall i, a, b | FirstAt(Entries(raw), oldText, i, a, b)
      ensures var text := JoinEntries(Entries(raw)[i := a + content + b]);
              && (stored <==> storable(text))
              && (stored ==>
                    && after == text
                    && Entries(after) == Entries(raw)[..i] + Pieces(a + content + b) + Entries(raw)[i + 1..])
    {
      ReplacedAt(Entries(raw), oldText, content, i, a, b);
      ReplacedEntries(raw, i, a + content + b);
    }
  }

  /** What a removal comes to: the one entry that contains the text goes, unless the rest may not be stored. */
  ghost predicate IsRemoved(before: string, oldText: string, stored: bool, after: string, storable: string -> bool) {
    forall i :: OnlyMatch(Entries(before), oldText, i) ==>
      var others := Entries(before)[..i] + Entries(before)[i + 1..];
      && (stored <==> storable(JoinEntries(others)))
      && (stored ==> after == JoinEntries(others) && Entries(after) == others)
  }

  lemma OthersRead(raw: string, i: int)
    requires 0 <= i < |Entries(raw)|
    ensures var others := Entries(raw)[..i] + Entries(raw)[i + 1..]; Entries(JoinEntries(others)) == others
  {
    EntriesAreGood(raw);
    JoinRoundTrip(Entries(raw)[..i] + Entries(raw)[i + 1..]);
  }

  lemma RemovalIs(raw: string, oldText: string, hit: int, stored: bool, after: string, storable: string -> bool)
    requires Matches(Entries(raw), oldText) == [hit] && OnlyMatch(Entries(raw), oldText, hit)
    requires var text := JoinEntries(Entries(raw)[..hit] + Entries(raw)[hit + 1..]);
             (stored <==> storable(text)) && (stored ==> after == text)
    ensures IsRemoved(raw, oldText, stored, after, storable)
  {
    OthersRead(raw, hit);
    forall i | OnlyMatch(Entries(raw), oldText, i) ensures i == hit {
      OnlyMatchIs(Entries(raw), oldText, i);
    }
  }

  /** A file of good entries: each under a section sign of its own, with blank lines in between. */
  lemma JoinedFormat(entries: seq<string>, e: string)
    requires GoodEntries(entries) && GoodEntry(e)
    ensures JoinEntries([]) == ""
    ensures JoinEntries(entries + [e]) == (if entries == [] then "§\n" + e else JoinEntries(entries) + "\n\n§\n" + e)
  {
    NothingBlank(entries + [e]);
    NothingBlank(entries);
    assert [SECTION] + "\n" + Strip(e) == "§\n" + e;
    assert Sections(entries + [e]) == Sections(entries) + ["§\n" + e];
    if entries != [] {
      JoinSnoc("\n\n", Sections(entries), "§\n" + e);
      assert "\n\n" + ("§\n" + e) == "\n\n§\n" + e;
    }
  }

  lemma {:induction false} NothingBlank(entries: seq<string>)
    requires GoodEntries(entries)
    ensures NotBlank(entries) == entries
  {
    if entries != [] {
      NothingBlank(entries[1..]);
    }
  }

  /** The text with the content on a line of its own after it. */
  function Appended(text: string, content: string): string {
    if text != "" && text[|text| - 1] != '\n' then text + "\n" + content else text + content
  }

  /** The text stays, the content comes last, and a line break is put in between only where one is missing. */
  ghost predicate IsAppended(text: string, content: string, result: string) {
    if text == "" then result == content
    else if text[|text| - 1] == '\n' then result == text + content
    else result == text + ("\n" + content)
  }

  class MemoryFile {
    /** The text of the file; a missing file reads as the empty text. */
    var raw: string
    const limit: int
    /** The safety scan of the content, true when it is blocked. */
    const scan: string -> bool

    constructor (contents: string, limit: int, scan: string -> bool)
      ensures raw == contents && this.limit == limit && this.scan == scan
    {
      raw := contents;
      this.limit := limit;
      this.scan := scan;
    }

    method ListEntries() returns (entries: seq<string>)
      ensures entries == Entries(raw)
    {
      entries := SplitEntries(NormalizeLegacy(raw));
    }

    method Write(content: string) returns (r: Result<nat, Error>)
      modifies this
      ensures r.Success? <==> !scan(content) && |content| <= limit
      ensures r.Success? ==> raw == content && r.value == |content|
      ensures r.Failure? ==> raw == old(raw)
      ensures r.Failure? ==> r.error == if scan(content) then Blocked else TooLong
    {
      if scan(content) {
        return Failure(Blocked);
      }
      if |content| > limit {
        return Failure(TooLong);
      }
      raw := content;
      return Success(|content|);
    }

    /** The other write mode: only the new text is scanned, but the whole file must fit. */
    method Append(content: string) returns (r: Result<nat, Error>)
      modifies this
      ensures r.Success? <==> !scan(content) && |content| <= limit && |Appended(old(raw), content)| <= limit
      ensures IsAppended(old(raw), content, Appended(old(raw), content))
      ensures r.Success? ==> raw == Appended(old(raw), content) && r.value == |raw|
      ensures r.Failure? ==> raw == old(raw) && r.error == if scan(content) then Blocked else TooLong
    {
      if scan(content) {
        return Failure(Blocked);
      }
      if |content| > limit {
        return Failure(TooLong);
      }
      var existing := raw;
      if existing != "" && existing[|existing| - 1] != '\n' {
        existing := existing + "\n";
      }
      if |existing + content| > limit {
        return Failure(TooLong);
      }
      raw := existing + content;
      return Success(|raw|);
    }

    /** A successful addition appends the pieces of the content, whatever the file held before. */
    method Add(content: string) returns (r: Result<nat, Error>)
      modifies this
      ensures r.Success? ==> Entries(raw) == Entries(old(raw)) + Pieces(content) && |raw| <= limit
      ensures r.Failure? ==> raw == old(raw)
      ensures r.Success? <==>
                var joined := JoinEntries(Entries(old(raw)) + [Strip(content)]);
                !scan(joined) && |joined| <= limit
      ensures r.Success? ==> r.value == |raw| && raw == JoinEntries(Entries(old(raw)) + [Strip(content)])
    {
      var entries := ListEntries();
      entries := entries + [Strip(content)];
      r := Write(JoinEntries(entries));
      AddedEntries(old(raw), content);
    }

    /** A successful replacement changes only the first occurrence in the one entry that contains `oldText`. */
    method Replace(oldText: string, content: string) returns (r: Result<nat, Error>)
      modifies this
      ensures r.Failure? ==> raw == old(raw)
      ensures r.Failure? && r.error.NotExactlyOne? <==> forall i :: !OnlyMatch(Entries(old(raw)), oldText, i)
      ensures r.Failure? && r.error.NotExactlyOne? ==>
                exists hits :: ArePositions(Entries(old(raw)), oldText, hits) && r.error.matches == |hits|
      ensures r.Success? || !r.error.NotExactlyOne? ==> exists i, a, b :: FirstAt(Entries(old(raw)), oldText, i, a, b)
      ensures IsReplaced(old(raw), oldText, content, r.Success?, raw, text => !scan(text) && |text| <= limit)
      ensures r.Success? ==> |raw| <= limit && r.value == |raw|
    {
      var entries := ListEntries();
      var hits := Matches(entries, oldText);
      MatchesExact(entries, oldText);
      if |hits| != 1 {
        NoFirst(entries, oldText);
        return Failure(NotExactlyOne(|hits|));
      }
      SingleMatch(entries, oldText);
      ghost var i, a, b := FirstExists(entries, oldText);
      var changed := ReplaceOnce(entries[hits[0]], oldText, content);
      r := Write(JoinEntries(entries[hits[0] := changed]));
      ReplacementIs(old(raw), oldText, content, r.Success?, raw, text => !scan(text) && |text| <= limit);
    }

    /** A successful removal deletes only the one entry that contains `oldText`. */
    method Remove(oldText: string) returns (r: Result<nat, Error>)
      modifies this
      ensures r.Failure? ==> raw == old(raw)
      ensures r.Failure? && r.error.NotExactlyOne? <==> forall i :: !OnlyMatch(Entries(old(raw)), oldText, i)
      ensures r.Failure? && r.error.NotExactlyOne? ==>
                exists hits :: ArePositions(Entries(old(raw)), oldText, hits) && r.error.matches == |hits|
      ensures r.Success? || !r.error.NotExactlyOne? ==> exists i :: OnlyMatch(Entries(old(raw)), oldText, i)
      ensures IsRemoved(old(raw), oldText, r.Success?, raw, text => !scan(text) && |text| <= limit)
      ensures r.Success? ==> |raw| <= limit && r.value == |raw|
    {
      var entries := ListEntries();
      var hits := Matches(entries, oldText);
      MatchesExact(entries, oldText);
      if |hits| != 1 {
        NoFirst(entries, oldText);
        return Failure(NotExactlyOne(|hits|));
      }
      SingleMatch(entries, oldText);
      var i := hits[0];
      r := Write(JoinEntries(entries[..i] + entries[i + 1..]));
      RemovalIs(old(raw), oldText, i, r.Success?, raw, text => !scan(text) && |text| <= limit);
    }
  }

  lemma AddedEntries(raw: string, content: string)
    ensures Entries(JoinEntries(Entries(raw) + [Strip(content)])) == Entries(raw) + Pieces(content)
  {
    var entries := Entries(raw);
    EntriesAreGood(raw);
    WrittenEntries(entries + [Strip(content)]);
    FlatConcat(entries, [Strip(content)]);
    FlatGood(entries);
    PiecesOfStripped(content);
    FlatOne(Strip(content));
  }

  /** One addition appends exactly the stripped content if and only if that is a proper entry. */
  lemma AddAppendsOneIff(raw: string, content: string)
    ensures Entries(JoinEntries(Entries(raw) + [Strip(content)])) == Entries(raw) + [Strip(content)]
            <==> Strip(content) != "" && SECTION !in content
  {
    AddedEntries(raw, content);
    SplitHasNoSection(content);
    PiecesAreGood(SplitOn(content));
    var a, b := StripSplit(content);
    SpaceIsNotSection(a);
    SpaceIsNotSection(b);
    StripTrimmed(Strip(content));
    if Strip(content) != "" && SECTION !in content {
      PieceOfGood(Strip(content));
      PiecesOfStripped(content);
    }
    if Entries(raw) + Pieces(content) == Entries(raw) + [Strip(content)] {
      assert Pieces(content) == (Entries(raw) + Pieces(content))[|Entries(raw)|..];
      assert [Strip(content)] == (Entries(raw) + [Strip(content)])[|Entries(raw)|..];
      assert GoodEntry(Pieces(content)[0]);
    }
  }

  lemma ReplacedEntries(raw: string, i: int, changed: string)
    requires 0 <= i < |Entries(raw)|
    ensures Entries(JoinEntries(Entries(raw)[i := changed]))
            == Entries(raw)[..i] + Pieces(changed) + Entries(raw)[i + 1..]
  {
    var entries := Entries(raw);
    var a, b := entries[..i], entries[i + 1..];
    EntriesAreGood(raw);
    assert entries[i := changed] == a + [changed] + b;
    WrittenEntries(a + [changed] + b);
    FlatConcat(a + [changed], b);
    FlatConcat(a, [changed]);
    FlatGood(a);
    FlatGood(b);
    FlatOne(changed);
  }

  lemma FlatOne(e: string)
    ensures FlatPieces([e]) == Pieces(e)
  {
    assert [e][1..] == [];
  }
}
