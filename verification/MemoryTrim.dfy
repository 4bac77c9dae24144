/**
 Keeping a memory file of a distilled creator within its limit
 (src/media2text/agent/creator_distill/evolve_patch.py): the oldest bullets are merged, one pair at
 a time, until the text fits.
 */
module MemoryTrim {
  import opened Text

  predicate IsBulletLine(line: string) {
    "- " <= Strip(line)
  }

  /** The first bullet line; what precedes it is the header. */
  function HeaderSize(lines: seq<string>): (n: nat)
    ensures n <= |lines|
    ensures forall i :: 0 <= i < n ==> !IsBulletLine(lines[i])
    ensures n < |lines| ==> IsBulletLine(lines[n])
  {
    if lines == [] || IsBulletLine(lines[0]) then 0 else 1 + HeaderSize(lines[1..])
  }

  /** `s.lstrip('- ')` */
  function LStripDashes(s: string): string {
    if s != "" && (s[0] == '-' || s[0] == ' ') then LStripDashes(s[1..]) else s
  }

  function BulletText(line: string): string {
    Strip(LStripDashes(line))
  }

  function Merge(a: string, b: string, max: int): string {
    Take("- " + BulletText(a) + " / " + BulletText(b), max / 4)
  }

  /** The text of a bullet: the line without its leading dashes and blanks, stripped. */
  lemma {:induction false} BulletTextIs(line: string) returns (lead: string, rest: string)
    ensures line == lead + rest && BulletText(line) == Strip(rest)
    ensures forall i :: 0 <= i < |lead| ==> lead[i] == '-' || lead[i] == ' '
    ensures rest == "" || (rest[0] != '-' && rest[0] != ' ')
  {
    lead, rest := LeadOf(line);
  }

  lemma {:induction false} LeadOf(line: string) returns (lead: string, rest: string)
    ensures line == lead + rest && LStripDashes(line) == rest
    ensures forall i :: 0 <= i < |lead| ==> lead[i] == '-' || lead[i] == ' '
    ensures rest == "" || (rest[0] != '-' && rest[0] != ' ')
  {
    if line != "" && (line[0] == '-' || line[0] == ' ') {
      lead, rest := LeadOf(line[1..]);
      lead := [line[0]] + lead;
    } else {
      lead, rest := "", line;
    }
  }

  /** A merged bullet is the start of both texts in one, cut to a quarter of the limit. */
  lemma MergeIs(a: string, b: string, max: nat)
    ensures var whole := "- " + BulletText(a) + " / " + BulletText(b);
            Merge(a, b, max) <= whole && |Merge(a, b, max)| == if |whole| <= max / 4 then |whole| else max / 4
  {
  }

  /** The one bullet that stands for the oldest `k + 1` bullets. */
  function MergedHead(bullets: seq<string>, k: nat, max: int): string
    requires k < |bullets|
  {
    if k == 0 then bullets[0] else Merge(MergedHead(bullets, k - 1, max), bullets[k], max)
  }

  /** The bullets after `k` merges: one merged bullet and a verbatim suffix. */
  function AfterMerges(bullets: seq<string>, k: nat, max: int): (out: seq<string>)
    requires k < |bullets| || k == 0
    ensures |out| == |bullets| - k
  {
    if k == 0 then bullets else [MergedHead(bullets, k, max)] + bullets[k + 1..]
  }

  predicate FitsAfter(header: seq<string>, bullets: seq<string>, max: int, k: nat)
    requires k < |bullets| || k == 0
  {
    |Join("\n", header + AfterMerges(bullets, k, max))| <= max
  }

  /** Whether the text fits after no merge, after one, and so on, until one bullet is left. */
  function FitTable(header: seq<string>, bullets: seq<string>, max: int): (fits: seq<bool>)
    ensures |fits| == (if bullets == [] then 1 else |bullets|)
  {
    seq(if bullets == [] then 1 else |bullets|,
        k requires 0 <= k && (k < |bullets| || k == 0) => FitsAfter(header, bullets, max, k))
  }

  /** The first that fits, from `from` on, or the last one. */
  function FirstFit(fits: seq<bool>, from: nat): (k: nat)
    requires from < |fits|
    ensures from <= k < |fits| && (fits[k] || k == |fits| - 1)
    ensures forall j :: from <= j < k ==> !fits[j]
    decreases |fits| - from
  {
    if fits[from] || from == |fits| - 1 then from else FirstFit(fits, from + 1)
  }

  /** The number of merges it takes. */
  function MergeCount(header: seq<string>, bullets: seq<string>, max: int): (k: nat)
    ensures k < |bullets| || k == 0
  {
    FirstFit(FitTable(header, bullets, max), 0)
  }

  const TRUNCATED_MARK := "\n…(truncated)\n"

  function Body(lines: seq<string>): string {
    Strip(Join("\n", lines)) + "\n"
  }

  function HardTruncate(text: string, max: int): string {
    RStrip(Take(text, max - 20)) + TRUNCATED_MARK
  }

  function TrimResult(md: string, max: int): string {
    if |md| <= max then md
    else if HardTruncated(md, max) then HardTruncate(MergedText(md, max), max)
    else MergedText(md, max)
  }

  /** The bullets after as many merges as it takes. */
  function Merged(header: seq<string>, bullets: seq<string>, max: int): seq<string> {
    AfterMerges(bullets, MergeCount(header, bullets, max), max)
  }

  function MergedText(md: string, max: int): string {
    var lines := SplitLines(md);
    var h := HeaderSize(lines);
    Body(lines[..h] + Merged(lines[..h], lines[h..], max))
  }

  /** The text still exceeds the limit after all merges. */
  predicate HardTruncated(md: string, max: int) {
    |md| > max && |MergedText(md, max)| > max
  }

  method SplitHeader(lines: seq<string>) returns (header: seq<string>, bullets: seq<string>)
    ensures header == lines[..HeaderSize(lines)] && bullets == lines[HeaderSize(lines)..]
  {
    header, bullets := [], [];
    ghost var h := HeaderSize(lines);
    for i := 0 to |lines|
      invariant i <= h ==> header == lines[..i] && bullets == []
      invariant i > h ==> header == lines[..h] && bullets == lines[h..i]
    {
      ghost var line := [lines[i]];
      assert i < h ==> lines[..i + 1] == lines[..i] + line;
      assert i >= h ==> lines[h..i + 1] == lines[h..i] + line;
      if IsBulletLine(lines[i]) {
        bullets := bullets + [lines[i]];
      } else if bullets == [] {
        header := header + [lines[i]];
      } else {
        bullets := bullets + [lines[i]];
      }
    }
    assert h == |lines| ==> lines[h..] == [] && lines[..h] == lines[..|lines|];
    assert lines[h..|lines|] == lines[h..];
  }

  lemma FitAt(header: seq<string>, all: seq<string>, max: int, k: nat)
    requires k < |FitTable(header, all, max)|
    ensures FitTable(header, all, max)[k] <==> |Join("\n", header + AfterMerges(all, k, max))| <= max
  {
  }

  lemma FirstFitStep(fits: seq<bool>, k: nat)
    requires k < |fits|
    ensures if fits[k] || k == |fits| - 1 then FirstFit(fits, k) == k
            else FirstFit(fits, k) == FirstFit(fits, k + 1)
  {
  }

  method MergeBullets(header: seq<string>, all: seq<string>, max: int) returns (bullets: seq<string>)
    ensures bullets == Merged(header, all, max)
  {
    bullets := all;
    ghost var fits, k := FitTable(header, all, max), 0;
    while |Join("\n", header + bullets)| > max && |bullets| >= 2
      invariant k < |fits| && bullets == AfterMerges(all, k, max)
      invariant FirstFit(fits, 0) == FirstFit(fits, k)
      decreases |bullets|
    {
      FitAt(header, all, max, k);
      FirstFitStep(fits, k);
      bullets := MergeOldest(bullets, max);
      MergeStep(all, k, max);
      k := k + 1;
    }
    FitAt(header, all, max, k);
    FirstFitStep(fits, k);
  }

  method MergeOldest(bullets: seq<string>, max: int) returns (rest: seq<string>)
    requires |bullets| >= 2
    ensures rest == [Merge(bullets[0], bullets[1], max)] + bullets[2..]
  {
    var a, b := bullets[0], bullets[1];
    var merged := "- " + BulletText(a) + " / " + BulletText(b);
    rest := [Take(merged, max / 4)] + bullets[2..];
  }

  method TrimMemory(md: string, max: int) returns (result: string)
    ensures result == TrimResult(md, max)
  {
    if |md| <= max {
      return md;
    }
    var header, bullets := SplitHeader(SplitLines(md));
    bullets := MergeBullets(header, bullets, max);
    result := Strip(Join("\n", header + bullets)) + "\n";
    if |result| > max {
      result := RStrip(Take(result, max - 20)) + TRUNCATED_MARK;
    }
  }

  lemma MergeStep(all: seq<string>, k: nat, max: int)
    requires k + 1 < |all|
    ensures var bullets := AfterMerges(all, k, max);
            AfterMerges(all, k + 1, max) == [Merge(bullets[0], bullets[1], max)] + bullets[2..]
  {
    var bullets := AfterMerges(all, k, max);
    assert bullets[0] == MergedHead(all, k, max) && bullets[1] == all[k + 1];
    assert bullets[2..] == all[k + 2..];
  }

  lemma {:induction false} RStripShorter(s: string)
    ensures |RStrip(s)| <= |s|
  {
    var b := RStripSplit(s);
  }

  lemma {:induction false} RStripAtMostIff(s: string, k: nat)
    requires k <= |s|
    ensures |RStrip(s)| <= k <==> AllSpace(s[k..])
  {
    if s != "" && IsSpace(s[|s| - 1]) {
      if k < |s| {
        var front := s[..|s| - 1];
        RStripAtMostIff(front, k);
        assert s[k..] == front[k..] + [s[|s| - 1]];
      } else {
        RStripShorter(s);
      }
    } else if k < |s| {
      assert s[k..][|s| - 1 - k] == s[|s| - 1];
    }
  }

  /** A text that is cut off keeps its start, up to whitespace, and ends with the mark. */
  lemma {:induction false} HardTruncateIs(text: string, max: int) returns (kept: string)
    requires 20 <= max < |text|
    ensures HardTruncate(text, max) == kept + "\n…(truncated)\n" && kept <= text && |kept| <= max - 20
    ensures AllSpace(text[|kept|..max - 20]) && (kept == "" || !IsSpace(kept[|kept| - 1]))
  {
    kept := RStrip(text[..max - 20]);
    var gone := RStripSplit(text[..max - 20]);
    RStripAtMostIff(text[..max - 20], |kept|);
    assert text[..max - 20][|kept|..] == text[|kept|..max - 20];
  }

  /** Of a text that is cut off, nothing but whitespace stands between what fits and what is dropped. */
  predicate BlankInBetween(text: string, max: int)
    requires 14 <= max < 20 && |text| > max
  {
    AllSpace(text[max - 14..|text| - (20 - max)])
  }

  /**
   The result fits exactly if the limit is at least 20, or the merged text fits, or the limit is at
   least 14 and only whitespace would have to go to make room for the mark.
   */
  lemma TrimFits(md: string, max: int)
    ensures |TrimResult(md, max)| <= max <==>
            || max >= 20 || !HardTruncated(md, max)
            || (max >= 14 && BlankInBetween(MergedText(md, max), max))
  {
    assert |TRUNCATED_MARK| == 14;
    if HardTruncated(md, max) {
      CutFits(MergedText(md, max), max);
    }
  }

  lemma CutFits(text: string, max: int)
    requires |text| > max
    ensures |HardTruncate(text, max)| <= max <==> max >= 20 || (max >= 14 && BlankInBetween(text, max))
  {
    assert |TRUNCATED_MARK| == 14;
    var cut := Take(text, max - 20);
    RStripShorter(cut);
    if 14 <= max < 20 {
      RStripAtMostIff(cut, max - 14);
      assert cut[max - 14..] == text[max - 14..|text| - (20 - max)];
    }
  }

  /** `header` and `bullets` divide the lines at the first bullet line. */
  ghost predicate IsDivision(lines: seq<string>, header: seq<string>, bullets: seq<string>) {
    && header + bullets == lines
    && (forall i :: 0 <= i < |header| ==> !("- " <= Strip(header[i])))
    && (bullets != [] ==> "- " <= Strip(bullets[0]))
  }

  /** The header with the bullets after `k` merges is within the limit. */
  ghost predicate FitsWith(header: seq<string>, bullets: seq<string>, max: int, k: nat)
    requires k < |bullets| || k == 0
  {
    |Join("\n", header + AfterMerges(bullets, k, max))| <= max
  }

  /**
   `text` is the header, the merge of the oldest `k + 1` bullets, and the others verbatim; no fewer merges
   would do, and unless one bullet is left these do.
   */
  ghost predicate IsMerge(header: seq<string>, bullets: seq<string>, k: nat, max: int, text: string) {
    && (k < |bullets| || k == 0)
    && AfterMerges(bullets, k, max) == (if k == 0 then bullets else [MergedHead(bullets, k, max)] + bullets[k + 1..])
    && text == Strip(Join("\n", header + AfterMerges(bullets, k, max))) + "\n"
    && (forall j :: 0 <= j < k ==> !FitsWith(header, bullets, max, j))
    && (k < |bullets| - 1 ==> FitsWith(header, bullets, max, k))
  }

  lemma NoFewerMerges(header: seq<string>, bullets: seq<string>, max: int, j: nat)
    requires j < MergeCount(header, bullets, max)
    ensures !FitsWith(header, bullets, max, j)
  {
    assert !FitTable(header, bullets, max)[j];
  }

  lemma EnoughMerges(header: seq<string>, bullets: seq<string>, max: int)
    ensures var k := MergeCount(header, bullets, max); k < |bullets| - 1 ==> FitsWith(header, bullets, max, k)
  {
    var k := MergeCount(header, bullets, max);
    if k < |bullets| - 1 {
      assert FitTable(header, bullets, max)[k];
    }
  }

  /** The loop stops at the first number of merges that fits, or when one bullet is left. */
  lemma MergedIsMerge(header: seq<string>, bullets: seq<string>, max: int)
    ensures IsMerge(header, bullets, MergeCount(header, bullets, max), max, Body(header + Merged(header, bullets, max)))
  {
    forall j: nat | j < MergeCount(header, bullets, max) ensures !FitsWith(header, bullets, max, j) {
      NoFewerMerges(header, bullets, max, j);
    }
    EnoughMerges(header, bullets, max);
  }

  lemma DividedAt(lines: seq<string>)
    ensures IsDivision(lines, lines[..HeaderSize(lines)], lines[HeaderSize(lines)..])
  {
  }

  /**
   Unless the text fitted already or was cut off, the result is the untouched header, one bullet
   that merges the oldest ones, and the newest bullets verbatim; and no fewer merges would do.
   */
  lemma {:induction false} TrimShape(md: string, max: int) returns (header: seq<string>, bullets: seq<string>, k: nat)
    requires |md| > max && !HardTruncated(md, max)
    ensures IsDivision(SplitLines(md), header, bullets)
    ensures IsMerge(header, bullets, k, max, TrimResult(md, max))
  {
    var lines := SplitLines(md);
    DividedAt(lines);
    NotCut(md, max);
    header, bullets := lines[..HeaderSize(lines)], lines[HeaderSize(lines)..];
    MergedIsMerge(header, bullets, max);
    k := MergeCount(header, bullets, max);
  }

  lemma NotCut(md: string, max: int)
    requires |md| > max && !HardTruncated(md, max)
    ensures var lines := SplitLines(md);
            var header, bullets := lines[..HeaderSize(lines)], lines[HeaderSize(lines)..];
            TrimResult(md, max) == Body(header + Merged(header, bullets, max))
  {
  }

  // ---------------------------------------------------------------------------------------------
  // Patches
  // ---------------------------------------------------------------------------------------------

  function FactLine(fact: string, sourceId: string): string {
    "- " + Strip(fact) + " _(source: " + sourceId + ")_"
  }

  function FactLines(facts: seq<string>, sourceId: string): seq<string> {
    if facts == [] then []
    else
      var last := |facts| - 1;
      FactLines(facts[..last], sourceId)
      + if Strip(facts[last]) == "" then [] else [FactLine(facts[last], sourceId)]
  }

  function BaseLines(md: string): seq<string> {
    var body := Strip(md);
    if body != "" && body[0] != '#' then SplitLines(body)
    else ["# MEMORY", ""] + if body == "" then [] else Drop(SplitLines(body), 1)
  }

  /** The lines a patch starts from: all of them, but a heading in the first line gives way to the standard one. */
  ghost predicate IsBase(md: string, base: seq<string>) {
    var body := Strip(md);
    if body == "" then base == ["# MEMORY", ""]
    else if body[0] == '#' then
      |base| >= 2 && base[0] == "# MEMORY" && base[1] == "" && SplitLines(body)[1..] == base[2..]
    else base == SplitLines(body)
  }

  lemma BaseIs(md: string)
    ensures Strip(md) != "" ==> SplitLines(Strip(md)) != []
    ensures IsBase(md, BaseLines(md))
  {
    var lines := SplitLines(Strip(md));
    if Strip(md) != "" {
      assert Drop(lines, 1) == lines[1..];
    }
  }

  /** Every fact that is not blank gets a line of its own with its source. */
  lemma FactsGrow(facts: seq<string>, fact: string, sourceId: string)
    ensures FactLines([], sourceId) == []
    ensures FactLines(facts + [fact], sourceId) ==
            FactLines(facts, sourceId)
            + if Strip(fact) == "" then [] else ["- " + Strip(fact) + " _(source: " + sourceId + ")_"]
  {
    assert (facts + [fact])[..|facts|] == facts;
  }

  function Patched(md: string, facts: seq<string>, sourceId: string, max: int): string {
    TrimResult(Body(BaseLines(md) + FactLines(facts, sourceId)), max)
  }

  method AppendFacts(start: seq<string>, facts: seq<string>, sourceId: string) returns (lines: seq<string>)
    ensures lines == start + FactLines(facts, sourceId)
  {
    lines := start;
    for i := 0 to |facts|
      invariant lines == start + FactLines(facts[..i], sourceId)
    {
      assert facts[..i + 1][..i] == facts[..i];
      var text := Strip(facts[i]);
      if text != "" {
        lines := lines + ["- " + text + " _(source: " + sourceId + ")_"];
      }
    }
    assert facts[..|facts|] == facts;
  }

  method ApplyMemoryPatch(md: string, facts: seq<string>, sourceId: string, max: int) returns (result: string)
    ensures result == Patched(md, facts, sourceId, max)
    ensures max >= 20 ==> |result| <= max
    ensures IsBase(md, BaseLines(md))
    ensures var text := Strip(Join("\n", BaseLines(md) + FactLines(facts, sourceId))) + "\n";
            |text| <= max ==> result == text
  {
    BaseIs(md);
    var body := Strip(md);
    var lines;
    if body != "" && body[0] != '#' {
      lines := SplitLines(body);
    } else {
      lines := ["# MEMORY", ""];
      if body != "" {
        lines := lines + Drop(SplitLines(body), 1);
      }
    }
    assert lines == BaseLines(md);
    lines := AppendFacts(lines, facts, sourceId);
    result := TrimMemory(Body(lines), max);
    if max >= 20 {
      TrimFits(Body(lines), max);
    }
  }

  /** A patch that fits keeps every line and ends with the line of its last fact. */
  lemma PatchKeepsFacts(md: string, facts: seq<string>, sourceId: string, max: int)
    requires facts != [] && Strip(facts[|facts| - 1]) != ""
    requires |Body(BaseLines(md) + FactLines(facts, sourceId))| <= max
    ensures var result, line := Patched(md, facts, sourceId, max), FactLine(facts[|facts| - 1], sourceId);
            |result| > |line| && result[|result| - |line| - 1..] == line + "\n"
  {
    var before, line := FactLines(facts[..|facts| - 1], sourceId), FactLine(facts[|facts| - 1], sourceId);
    LastFactLine(facts, sourceId);
    assert BaseLines(md) + FactLines(facts, sourceId) == (BaseLines(md) + before) + [line];
    BodyEndsWith(BaseLines(md) + before, line);
  }

  lemma LastFactLine(facts: seq<string>, sourceId: string)
    requires facts != [] && Strip(facts[|facts| - 1]) != ""
    ensures var line := FactLine(facts[|facts| - 1], sourceId);
            && FactLines(facts, sourceId) == FactLines(facts[..|facts| - 1], sourceId) + [line]
            && line != "" && !IsSpace(line[0]) && !IsSpace(line[|line| - 1])
  {
  }

  lemma BodyEndsWith(front: seq<string>, line: string)
    requires line != "" && !IsSpace(line[0]) && !IsSpace(line[|line| - 1])
    ensures var body := Body(front + [line]);
            |body| > |line| && body[|body| - |line| - 1..] == line + "\n"
  {
    var text := Join("\n", front + [line]);
    var before := if front == [] then "" else Join("\n", front) + "\n";
    if front == [] {
      assert front + [line] == [line];
      assert text == before + line;
    } else {
      JoinSnoc("\n", front, line);
      assert text == before + line;
    }
    LStripKeepsTail(before, line);
    var rest := LStrip(text);
    assert !IsSpace(rest[|rest| - 1]);
    assert RStrip(rest) == rest;
  }

  lemma {:induction false} LStripKeepsTail(before: string, line: string)
    requires line != "" && !IsSpace(line[0])
    ensures var r := LStrip(before + line); |r| >= |line| && r[|r| - |line|..] == line
  {
    if before == "" {
      assert before + line == line;
    } else if IsSpace(before[0]) {
      assert (before + line)[1..] == before[1..] + line;
      LStripKeepsTail(before[1..], line);
    }
  }
}
