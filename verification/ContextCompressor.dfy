/**
 Context compression (src/media2text/agent/context_compressor.py): a light trim of tool outputs
 before a turn, and after a turn a fork of the session into a summary and a protected tail.
 */
module ContextCompressor {
  import opened Wrappers
  import opened Text
  import opened HermesState
  import opened AgentConfig
  import opened ToolPairing

  // ---------------------------------------------------------------------------------------------
  // Token estimate and preflight
  // ---------------------------------------------------------------------------------------------

  function MessageChars(m: Message, jsonLen: seq<ToolCall> -> nat): nat {
    |m.content.GetOr("")| +
    if m.toolCalls.Some? && m.toolCalls.value != [] then jsonLen(m.toolCalls.value) else 0
  }

  function TotalChars(ms: seq<Message>, jsonLen: seq<ToolCall> -> nat): nat {
    if ms == [] then 0 else TotalChars(ms[..|ms| - 1], jsonLen) + MessageChars(ms[|ms| - 1], jsonLen)
  }

  /** The texts of the messages, and their batches of calls, in order. */
  function Contents(ms: seq<Message>): seq<string> {
    if ms == [] then [] else Contents(ms[..|ms| - 1]) + [ms[|ms| - 1].content.GetOr("")]
  }

  function Batches(ms: seq<Message>): seq<seq<ToolCall>> {
    if ms == [] then []
    else
      Batches(ms[..|ms| - 1])
      + if ms[|ms| - 1].toolCalls.GetOr([]) == [] then [] else [ms[|ms| - 1].toolCalls.value]
  }

  function EncodedLength(batches: seq<seq<ToolCall>>, jsonLen: seq<ToolCall> -> nat): nat {
    if batches == [] then 0
    else EncodedLength(batches[..|batches| - 1], jsonLen) + jsonLen(batches[|batches| - 1])
  }

  /** The number of tokens of a conversation with so many characters. */
  ghost predicate IsQuarter(tokens: nat, chars: nat) {
    tokens >= 1 && (tokens > 1 ==> 4 * tokens <= chars) && chars < 4 * (tokens + 1)
  }

  /** All texts written one after the other, and the encoded batches; nothing else counts. */
  function Length(ms: seq<Message>, jsonLen: seq<ToolCall> -> nat): nat {
    |Join("", Contents(ms))| + EncodedLength(Batches(ms), jsonLen)
  }

  lemma JoinNext(parts: seq<string>, last: string)
    ensures |Join("", parts + [last])| == |Join("", parts)| + |last|
  {
    if parts == [] {
      assert parts + [last] == [last];
    } else {
      JoinSnoc("", parts, last);
    }
  }

  lemma {:induction false} CharsAreLength(ms: seq<Message>, jsonLen: seq<ToolCall> -> nat)
    ensures TotalChars(ms, jsonLen) == Length(ms, jsonLen)
  {
    if ms != [] {
      var front, m := ms[..|ms| - 1], ms[|ms| - 1];
      CharsAreLength(front, jsonLen);
      JoinNext(Contents(front), m.content.GetOr(""));
      if m.toolCalls.GetOr([]) != [] {
        assert (Batches(front) + [m.toolCalls.value])[..|Batches(front)|] == Batches(front);
      } else {
        assert Batches(front) + [] == Batches(front);
      }
    }
  }

  /** The estimate is a quarter of the length of the conversation, at least one. */
  lemma EstimateIsQuarter(ms: seq<Message>, jsonLen: seq<ToolCall> -> nat)
    ensures IsQuarter(Estimate(ms, jsonLen), Length(ms, jsonLen))
  {
    CharsAreLength(ms, jsonLen);
  }

  lemma {:induction false} NoBatches(ms: seq<Message>)
    requires forall i :: 0 <= i < |ms| ==> ms[i].toolCalls.None?
    ensures Batches(ms) == []
  {
    if ms != [] {
      NoBatches(ms[..|ms| - 1]);
    }
  }

  /** For messages without calls the length of the texts alone decides. */
  lemma PlainEstimate(ms: seq<Message>, jsonLen: seq<ToolCall> -> nat)
    requires forall i :: 0 <= i < |ms| ==> ms[i].toolCalls.None?
    ensures IsQuarter(Estimate(ms, jsonLen), |Join("", Contents(ms))|)
  {
    NoBatches(ms);
    EstimateIsQuarter(ms, jsonLen);
  }

  function Estimate(ms: seq<Message>, jsonLen: seq<ToolCall> -> nat): nat {
    var t := TotalChars(ms, jsonLen) / 4;
    if t < 1 then 1 else t
  }

  method EstimateTokens(ms: seq<Message>, jsonLen: seq<ToolCall> -> nat) returns (tokens: nat)
    ensures tokens == Estimate(ms, jsonLen) && IsQuarter(tokens, Length(ms, jsonLen))
  {
    EstimateIsQuarter(ms, jsonLen);
    var total := 0;
    for i := 0 to |ms|
      invariant total == TotalChars(ms[..i], jsonLen)
    {
      assert ms[..i + 1][..i] == ms[..i];
      total := total + MessageChars(ms[i], jsonLen);
    }
    assert ms[..|ms|] == ms;
    tokens := if total / 4 < 1 then 1 else total / 4;
  }

  function ContextWindow(cfg: Config): int {
    if cfg.maxContextChars / 4 < 1000 then 1000 else cfg.maxContextChars / 4
  }

  const PREFLIGHT_MARK := "\n…[preflight-trimmed]"

  function TrimMessage(m: Message, maxToolChars: int): Message {
    if m.role.Tool? && |m.content.GetOr("")| > maxToolChars then
      m.(content := Some(Take(m.content.GetOr(""), maxToolChars - 24) + PREFLIGHT_MARK))
    else m
  }

  function TrimAll(ms: seq<Message>, maxToolChars: int): (out: seq<Message>)
    ensures |out| == |ms|
  {
    seq(|ms|, i requires 0 <= i < |ms| => TrimMessage(ms[i], maxToolChars))
  }

  method PreflightTrimMessages(ms: seq<Message>, maxToolChars: int) returns (out: seq<Message>)
    ensures out == TrimAll(ms, maxToolChars)
  {
    out := [];
    for i := 0 to |ms|
      invariant out == TrimAll(ms[..i], maxToolChars)
    {
      if !ms[i].role.Tool? {
        out := out + [ms[i]];
        continue;
      }
      var content := ms[i].content.GetOr("");
      if |content| > maxToolChars {
        out := out + [ms[i].(content := Some(Take(content, maxToolChars - 24) + PREFLIGHT_MARK))];
      } else {
        out := out + [ms[i]];
      }
    }
    assert ms[..|ms|] == ms;
  }

  function TrimLimit(cfg: Config): int {
    if cfg.maxToolOutputChars / 2 < 2000 then 2000 else cfg.maxToolOutputChars / 2
  }

  function Preflight(ms: seq<Message>, cfg: Config): (out: seq<Message>)
    ensures |out| == |ms|
  {
    if !cfg.compressionEnabled then ms
    else if Estimate(ms, cfg.jsonLen) <= PreflightLimit(cfg) then ms
    else TrimAll(ms, TrimLimit(cfg))
  }

  /** The estimate of the conversation is over the limit. */
  ghost predicate LongerThan(ms: seq<Message>, jsonLen: seq<ToolCall> -> nat, limit: real) {
    forall tokens: nat :: IsQuarter(tokens, Length(ms, jsonLen)) ==> tokens as real > limit
  }

  /** Over the ratio of the context window, a quarter of the configured characters, that starts the trim. */
  ghost predicate OverPreflight(ms: seq<Message>, cfg: Config) {
    var window := if cfg.maxContextChars < 4000 then 1000 else cfg.maxContextChars / 4;
    LongerThan(ms, cfg.jsonLen, cfg.preflightRatio * window as real)
  }

  /** Over the ratio from which on sessions are compressed. */
  ghost predicate OverAuto(ms: seq<Message>, cfg: Config) {
    var window := if cfg.maxContextChars < 4000 then 1000 else cfg.maxContextChars / 4;
    LongerThan(ms, cfg.jsonLen, cfg.autoRatio * window as real)
  }

  lemma QuarterIsUnique(a: nat, b: nat, chars: nat)
    requires IsQuarter(a, chars) && IsQuarter(b, chars)
    ensures a == b
  {
  }

  lemma LongerIff(ms: seq<Message>, jsonLen: seq<ToolCall> -> nat, limit: real)
    ensures LongerThan(ms, jsonLen, limit) <==> Estimate(ms, jsonLen) > limit.Floor
  {
    var tokens := Estimate(ms, jsonLen);
    EstimateIsQuarter(ms, jsonLen);
    forall t: nat | IsQuarter(t, Length(ms, jsonLen)) ensures t == tokens {
      QuarterIsUnique(t, tokens, Length(ms, jsonLen));
    }
  }

  lemma PreflightLimitAt(ms: seq<Message>, cfg: Config) returns (limit: real)
    ensures OverPreflight(ms, cfg) <==> LongerThan(ms, cfg.jsonLen, limit)
    ensures PreflightLimit(cfg) == limit.Floor
  {
    limit := cfg.preflightRatio * ContextWindow(cfg) as real;
  }

  lemma PreflightLimitIs(ms: seq<Message>, cfg: Config)
    ensures OverPreflight(ms, cfg) <==> Estimate(ms, cfg.jsonLen) > PreflightLimit(cfg)
  {
    var limit := PreflightLimitAt(ms, cfg);
    LongerIff(ms, cfg.jsonLen, limit);
  }

  lemma AutoLimitAt(ms: seq<Message>, cfg: Config) returns (limit: real)
    ensures OverAuto(ms, cfg) <==> LongerThan(ms, cfg.jsonLen, limit)
    ensures AutoLimit(cfg) == limit.Floor
  {
    limit := cfg.autoRatio * ContextWindow(cfg) as real;
  }

  lemma AutoLimitIs(ms: seq<Message>, cfg: Config)
    ensures OverAuto(ms, cfg) <==> Estimate(ms, cfg.jsonLen) > AutoLimit(cfg)
  {
    var limit := AutoLimitAt(ms, cfg);
    LongerIff(ms, cfg.jsonLen, limit);
  }

  /** A tool text over the limit is cut and marked, everything else stays. */
  ghost predicate IsTrimmed(a: Message, b: Message, limit: int)
    requires limit >= 24
  {
    var text := a.content.GetOr("");
    && b.role == a.role && b.toolCalls == a.toolCalls && b.toolCallId == a.toolCallId
    && (a.role.Tool? && |text| > limit ==>
          b.content.Some? && |b.content.value| == limit - 3
          && b.content.value[..limit - 24] == text[..limit - 24]
          && b.content.value[limit - 24..] == "\n…[preflight-trimmed]")
    && (!a.role.Tool? || |text| <= limit ==> b.content == a.content)
  }

  lemma TrimIs(m: Message, limit: int)
    requires limit >= 2000
    ensures IsTrimmed(m, TrimMessage(m, limit), limit)
  {
    assert |PREFLIGHT_MARK| == 21;
  }

  /** Exactly in a long conversation the long tool texts are cut, to half the output limit or more. */
  ghost predicate IsPreflighted(ms: seq<Message>, cfg: Config, out: seq<Message>) {
    var limit := if cfg.maxToolOutputChars < 4000 then 2000 else cfg.maxToolOutputChars / 2;
    && |out| == |ms|
    && (cfg.compressionEnabled && OverPreflight(ms, cfg) ==>
          forall i :: 0 <= i < |ms| ==> IsTrimmed(ms[i], out[i], limit))
    && (!cfg.compressionEnabled || !OverPreflight(ms, cfg) ==> out == ms)
  }

  lemma PreflightIs(ms: seq<Message>, cfg: Config)
    ensures IsPreflighted(ms, cfg, Preflight(ms, cfg))
  {
    PreflightLimitIs(ms, cfg);
    forall i | 0 <= i < |ms| ensures IsTrimmed(ms[i], TrimAll(ms, TrimLimit(cfg))[i], TrimLimit(cfg)) {
      TrimIs(ms[i], TrimLimit(cfg));
    }
  }

  method MaybePreflight(ms: seq<Message>, cfg: Config) returns (out: seq<Message>)
    ensures out == Preflight(ms, cfg) && IsPreflighted(ms, cfg, out)
  {
    PreflightIs(ms, cfg);
    if !cfg.compressionEnabled {
      return ms;
    }
    var tokens := EstimateTokens(ms, cfg.jsonLen);
    if tokens <= PreflightLimit(cfg) {
      return ms;
    }
    out := PreflightTrimMessages(ms, TrimLimit(cfg));
  }

  /** Preflight changes nothing but the text of tool results, and never lengthens one. */
  lemma PreflightOnlyShortensToolText(ms: seq<Message>, cfg: Config, i: nat)
    requires i < |ms|
    ensures var a, b := ms[i], Preflight(ms, cfg)[i];
            && b == a.(content := b.content)
            && (b != a ==> a.role.Tool? && |a.content.GetOr("")| > TrimLimit(cfg) > |b.content.GetOr("")|)
  {
    assert |PREFLIGHT_MARK| == 21;
  }

  // ---------------------------------------------------------------------------------------------
  // The compression plan
  // ---------------------------------------------------------------------------------------------

  function NormalRows(rows: seq<MessageRow>): seq<MessageRow> {
    if rows == [] then []
    else (if rows[0].kind.Normal? then [rows[0]] else []) + NormalRows(rows[1..])
  }

  /** A summary can only be the first row of a session. */
  predicate HeadSummary(rows: seq<MessageRow>) {
    forall i :: 0 <= i < |rows| && rows[i].kind.CompressionSummary? ==>
      i == 0 && rows[i].role.Assistant? && rows[i].toolCalls.None?
  }

  lemma {:induction false} AllNormal(rows: seq<MessageRow>)
    requires forall i :: 0 <= i < |rows| ==> rows[i].kind.Normal?
    ensures NormalRows(rows) == rows
  {
    if rows != [] {
      AllNormal(rows[1..]);
    }
  }

  lemma NormalOfHeadSummary(rows: seq<MessageRow>)
    requires HeadSummary(rows)
    ensures NormalRows(rows) == if rows != [] && rows[0].kind.CompressionSummary? then rows[1..] else rows
  {
    if rows != [] && rows[0].kind.CompressionSummary? {
      AllNormal(rows[1..]);
    } else {
      AllNormal(rows);
    }
  }

  function RoleName(r: Role): string {
    match r
    case User => "user"
    case Assistant => "assistant"
    case Tool => "tool"
    case System => "system"
  }

  function PlanLine(m: MessageRow): string {
    var content := Take(m.content.GetOr(""), 500);
    if m.toolName.Some? && m.toolName.value != "" then
      "[" + RoleName(m.role) + "/" + m.toolName.value + "] " + content
    else "[" + RoleName(m.role) + "] " + content
  }

  /** The summarizer sees who wrote the row, and the first 500 characters of its text. */
  ghost predicate IsPlanLine(m: MessageRow, line: string) {
    var text := m.content.GetOr("");
    var shown := if |text| <= 500 then text else text[..500];
    var who := match m.role
      case User => "user"
      case Assistant => "assistant"
      case Tool => "tool"
      case System => "system";
    if m.toolName.GetOr("") == "" then line == "[" + who + "] " + shown
    else line == "[" + who + "/" + m.toolName.value + "] " + shown
  }

  lemma PlanLineIs(m: MessageRow)
    ensures IsPlanLine(m, PlanLine(m))
  {
  }

  function PlanLines(rows: seq<MessageRow>): (lines: seq<string>)
    ensures |lines| == |rows|
  {
    seq(|rows|, i requires 0 <= i < |rows| => PlanLine(rows[i]))
  }

  datatype CompressionPlan = CompressionPlan(summaryText: string, protectedRows: seq<MessageRow>, compressedCount: nat)

  function PlanFor(cfg: Config, rows: seq<MessageRow>): Option<CompressionPlan> {
    var normal := NormalRows(rows);
    var protect := cfg.protectLastN;
    var middle := Take(normal, -protect);
    if !cfg.compressionEnabled || |normal| <= protect + 1 || middle == [] then None
    else Some(CompressionPlan(cfg.summarize(Join("\n", PlanLines(middle))), Drop(normal, -protect), |middle|))
  }

  method SummarizerInput(middle: seq<MessageRow>) returns (text: string, ghost lines: seq<string>)
    ensures text == Join("\n", PlanLines(middle))
    ensures text == Join("\n", lines) && |lines| == |middle|
    ensures forall i :: 0 <= i < |middle| ==> IsPlanLine(middle[i], lines[i])
  {
    var shown := [];
    for i := 0 to |middle|
      invariant shown == PlanLines(middle[..i])
      invariant forall k :: 0 <= k < i ==> IsPlanLine(middle[k], shown[k])
    {
      PlanLineIs(middle[i]);
      shown := shown + [PlanLine(middle[i])];
    }
    assert middle[..|middle|] == middle;
    text, lines := Join("\n", shown), shown;
  }

  method BuildCompressionPlan(db: SessionDB, sid: Id, cfg: Config) returns (plan: Option<CompressionPlan>)
    requires db.Valid() && sid in db.sessions
    ensures plan == PlanFor(cfg, Rows(db.logs[sid]))
    ensures plan.Some? ==> IsPlan(cfg, Rows(db.logs[sid]), plan.value)
  {
    if PlanFor(cfg, Rows(db.logs[sid])).Some? {
      PlanPartitions(cfg, Rows(db.logs[sid]));
    }
    if !cfg.compressionEnabled {
      return None;
    }
    var records := db.SelectMessages(sid);
    var rows := NormalRows(Rows(records));
    var protect := cfg.protectLastN;
    if |rows| <= protect + 1 {
      return None;
    }
    var middle := Take(rows, -protect);
    if middle == [] {
      return None;
    }
    var text, _ := SummarizerInput(middle);
    return Some(CompressionPlan(cfg.summarize(text), Drop(rows, -protect), |middle|));
  }

  /** When there is something to compress. */
  lemma PlanExistsIff(cfg: Config, rows: seq<MessageRow>)
    ensures PlanFor(cfg, rows).Some? <==>
            && cfg.compressionEnabled
            && cfg.protectLastN != 0
            && |NormalRows(rows)| > cfg.protectLastN + 1
            && NormalRows(rows) != []
  {
  }

  lemma {:induction false} CopiesAreNormal(row: MessageRow, n: nat)
    requires row.kind.Normal?
    ensures var rows := seq(n, i => row); |rows| == n && NormalRows(rows) == rows
  {
    AllNormal(seq(n, i => row));
  }

  /** The configurations that allow compression are those in which some session has a plan. */
  lemma CanForkIff(cfg: Config)
    ensures CanFork(cfg) <==> exists rows :: PlanFor(cfg, rows).Some?
  {
    if CanFork(cfg) {
      var n: nat := if cfg.protectLastN < 0 then 1 else cfg.protectLastN + 2;
      var row := MessageRow(User, None, None, None, None, None, Normal);
      CopiesAreNormal(row, n);
      PlanExistsIff(cfg, seq(n, i => row));
      assert PlanFor(cfg, seq(n, i => row)).Some?;
    }
    forall rows ensures PlanFor(cfg, rows).Some? ==> CanFork(cfg) {
      PlanExistsIff(cfg, rows);
    }
  }

  /** The plan summarizes the first normal rows and protects the others, as many as configured. */
  ghost predicate IsPlan(cfg: Config, rows: seq<MessageRow>, plan: CompressionPlan) {
    var normal := NormalRows(rows);
    && 0 < plan.compressedCount <= |normal|
    && plan.protectedRows == normal[plan.compressedCount..]
    && plan.summaryText == cfg.summarize(Join("\n", PlanLines(normal[..plan.compressedCount])))
    && (forall i :: 0 <= i < plan.compressedCount ==>
          IsPlanLine(normal[i], PlanLines(normal[..plan.compressedCount])[i]))
    && (cfg.protectLastN >= 1 ==> |plan.protectedRows| == cfg.protectLastN)
  }

  /** The summarized and the protected rows are the normal rows of the parent, cut in two. */
  lemma PlanPartitions(cfg: Config, rows: seq<MessageRow>)
    requires PlanFor(cfg, rows).Some?
    ensures IsPlan(cfg, rows, PlanFor(cfg, rows).value)
  {
    var normal := NormalRows(rows);
    var middle := Take(normal, -cfg.protectLastN);
    assert middle == normal[..|middle|];
    forall i | 0 <= i < |middle| ensures IsPlanLine(normal[i], PlanLines(middle)[i]) {
      PlanLineIs(normal[i]);
    }
  }

  // ---------------------------------------------------------------------------------------------
  // The fork
  // ---------------------------------------------------------------------------------------------

  function SummaryRow(text: string): MessageRow {
    MessageRow(Assistant, Some(text), None, None, None, None, CompressionSummary)
  }

  function ForkRows(plan: CompressionPlan): seq<MessageRow> {
    [SummaryRow(plan.summaryText)] + plan.protectedRows
  }

  /** The first row is a summary of the assistant with just this text, the others are the protected rows. */
  ghost predicate IsFork(plan: CompressionPlan, rows: seq<MessageRow>) {
    && rows != [] && rows[1..] == plan.protectedRows
    && rows[0].role.Assistant? && rows[0].kind.CompressionSummary? && rows[0].content == Some(plan.summaryText)
    && rows[0].toolCalls.None? && rows[0].toolCallId.None? && rows[0].toolName.None? && rows[0].thinking.None?
  }

  lemma ForkIs(plan: CompressionPlan)
    ensures IsFork(plan, ForkRows(plan))
  {
  }

  lemma ForkNormalRows(cfg: Config, rows: seq<MessageRow>)
    requires HeadSummary(rows) && PlanFor(cfg, rows).Some?
    ensures var plan := PlanFor(cfg, rows).value;
            HeadSummary(ForkRows(plan)) && NormalRows(ForkRows(plan)) == plan.protectedRows
  {
    var plan := PlanFor(cfg, rows).value;
    PlanPartitions(cfg, rows);
    NormalOfHeadSummary(rows);
    var normal := NormalRows(rows);
    assert forall i :: 0 <= i < |normal| ==> normal[i].kind.Normal?;
    assert ForkRows(plan)[1..] == plan.protectedRows;
    NormalOfHeadSummary(ForkRows(plan));
  }

  /**
   Compression makes progress: the child has strictly fewer normal rows than its parent, and for a
   positive `protect_last_n` it cannot be compressed again before at least two more rows are added.
   */
  lemma ForkMakesProgress(cfg: Config, rows: seq<MessageRow>, added: seq<MessageRow>)
    requires HeadSummary(rows) && PlanFor(cfg, rows).Some?
    requires forall i :: 0 <= i < |added| ==> added[i].kind.Normal?
    ensures var child := ForkRows(PlanFor(cfg, rows).value);
            && |NormalRows(child)| < |NormalRows(rows)|
            && (cfg.protectLastN >= 1 ==> (PlanFor(cfg, child + added).Some? <==> |added| >= 2))
  {
    var plan := PlanFor(cfg, rows).value;
    PlanPartitions(cfg, rows);
    ForkNormalRows(cfg, rows);
    PlanExistsIff(cfg, rows);
    PlanExistsIff(cfg, ForkRows(plan) + added);
    NormalConcat(ForkRows(plan), added);
    AllNormal(added);
  }

  lemma {:induction false} NormalConcat(a: seq<MessageRow>, b: seq<MessageRow>)
    ensures NormalRows(a + b) == NormalRows(a) + NormalRows(b)
  {
    if a == [] {
      assert a + b == b;
    } else {
      var first := if a[0].kind.Normal? then [a[0]] else [];
      var rest, tail := NormalRows(a[1..]), NormalRows(b);
      assert (a + b)[1..] == a[1..] + b;
      NormalConcat(a[1..], b);
      assert NormalRows(a + b) == first + (rest + tail);
      assert (first + rest) + tail == first + (rest + tail);
    }
  }

  /**
   The child keeps every batch with its results, and it has no stray result exactly when the cut
   does not fall in front of a tool row.
   */
  lemma ForkPairedIff(cfg: Config, rows: seq<MessageRow>)
    requires HeadSummary(rows) && Paired(rows) && PlanFor(cfg, rows).Some?
    ensures var plan := PlanFor(cfg, rows).value;
            && BatchesAnswered(ForkRows(plan))
            && (Paired(ForkRows(plan)) <==> plan.protectedRows == [] || !plan.protectedRows[0].role.Tool?)
  {
    var plan := PlanFor(cfg, rows).value;
    var normal := NormalRows(rows);
    PlanPartitions(cfg, rows);
    NormalIsPaired(rows);
    if plan.compressedCount < |normal| {
      SuffixPairedIff(normal, plan.compressedCount);
    }
    SuffixAnswered(normal, plan.compressedCount);
    PrependPlain(SummaryRow(plan.summaryText), plan.protectedRows);
  }

  lemma NormalIsPaired(rows: seq<MessageRow>)
    requires HeadSummary(rows)
    ensures BatchesAnswered(rows) ==> BatchesAnswered(NormalRows(rows))
    ensures Paired(rows) ==> Paired(NormalRows(rows))
  {
    NormalOfHeadSummary(rows);
    if rows != [] && rows[0].kind.CompressionSummary? {
      assert rows == [rows[0]] + rows[1..];
      PrependPlain(rows[0], rows[1..]);
    }
  }

  /** The rows of `added`, one `append_message` each. */
  method AppendAll(db: SessionDB, sid: Id, added: seq<MessageRow>)
    requires db.Valid() && sid in db.sessions
    modifies db`messages, db`nextId, db`logs
    ensures db.Valid()
    ensures Rows(db.logs[sid]) == Rows(old(db.logs)[sid]) + added
    ensures forall s :: s in db.logs && s != sid ==> db.logs[s] == old(db.logs)[s]
  {
    for i := 0 to |added|
      invariant db.Valid()
      invariant Rows(db.logs[sid]) == Rows(old(db.logs)[sid]) + added[..i]
      invariant forall s :: s in db.logs && s != sid ==> db.logs[s] == old(db.logs)[s]
    {
      AppendOne(db, sid, added[i]);
      assert added[..i + 1] == added[..i] + [added[i]];
    }
    assert added[..|added|] == added;
  }

  method AppendOne(db: SessionDB, sid: Id, row: MessageRow)
    requires db.Valid() && sid in db.sessions
    modifies db`messages, db`nextId, db`logs
    ensures db.Valid()
    ensures Rows(db.logs[sid]) == Rows(old(db.logs)[sid]) + [row]
    ensures forall s :: s in db.logs && s != sid ==> db.logs[s] == old(db.logs)[s]
  {
    ghost var log := db.logs[sid];
    var id := db.AppendMessage(sid,
      MessageRow(row.role, row.content, row.toolCallId, row.toolName, row.toolCalls, row.thinking, row.kind));
    RowsConcat(log, [Record(id, sid, |log| + 1, row)]);
  }

  /** The summary first, then the protected rows. */
  method FillFork(db: SessionDB, child: Id, plan: CompressionPlan)
    requires db.Valid() && child in db.sessions && Rows(db.logs[child]) == []
    modifies db`messages, db`nextId, db`logs
    ensures db.Valid() && Rows(db.logs[child]) == ForkRows(plan)
    ensures forall s :: s in db.logs && s != child ==> db.logs[s] == old(db.logs)[s]
  {
    AppendAll(db, child, [SummaryRow(plan.summaryText)]);
    AppendAll(db, child, plan.protectedRows);
  }

  method Measure(db: SessionDB, sid: Id, cfg: Config)
    requires db.Valid() && sid in db.sessions
    modifies db`sessions
    ensures db.Valid()
    ensures db.sessions == old(db.sessions)[sid :=
              old(db.sessions)[sid].(tokenEstimate := Estimate(ReplayAll(Rows(db.logs[sid])), cfg.jsonLen))]
  {
    var conversation := db.GetMessagesAsConversation(sid);
    var tokens := EstimateTokens(conversation, cfg.jsonLen);
    db.UpdateTokenEstimate(sid, tokens);
  }

  method ApplyForkCompression(db: SessionDB, parent: Id, plan: CompressionPlan, cfg: Config) returns (child: Id)
    requires db.Valid() && parent in db.sessions
    modifies db
    ensures db.Valid()
    ensures child !in old(db.sessions)
    ensures db.sessions == old(db.sessions)[child :=
              SessionRow(old(db.sessions)[parent].thread, Some(parent), db.clock,
                         Estimate(ReplayAll(ForkRows(plan)), cfg.jsonLen), old(db.sessions)[parent].agentState)]
    ensures forall s :: s in old(db.sessions) ==> db.logs[s] == old(db.logs)[s]
    ensures Rows(db.logs[child]) == ForkRows(plan) && IsFork(plan, Rows(db.logs[child]))
    ensures forall s :: s in old(db.sessions) ==> old(db.sessions)[s].createdAt < db.clock
  {
    ForkIs(plan);
    var forked := db.ForkSession(parent);
    child := forked.value;
    ghost var forkedRow := db.sessions[child];
    FillFork(db, child, plan);
    Measure(db, child, cfg);
    ghost var measured := db.sessions[child];
    UpdateTwice(old(db.sessions), child, forkedRow, measured);
    db.CopyAgentState(parent, child);
    UpdateTwice(old(db.sessions), child, measured, db.sessions[child]);
  }

  lemma UpdateTwice<K, V>(m: map<K, V>, k: K, a: V, b: V)
    ensures m[k := a][k := b] == m[k := b]
  {
  }

  function AutoLimit(cfg: Config): int {
    (cfg.autoRatio * ContextWindow(cfg) as real).Floor
  }

  function PreflightLimit(cfg: Config): int {
    (cfg.preflightRatio * ContextWindow(cfg) as real).Floor
  }

  /** The plan a finished turn carries out, if any. */
  function PostTurnPlan(cfg: Config, rows: seq<MessageRow>, messages: seq<Message>): Option<CompressionPlan> {
    if !cfg.compressionEnabled || Estimate(messages, cfg.jsonLen) <= AutoLimit(cfg) then None else PlanFor(cfg, rows)
  }

  function Measured(sessions: map<Id, SessionRow>, sid: Id, cfg: Config, messages: seq<Message>): map<Id, SessionRow>
    requires sid in sessions
  {
    sessions[sid := sessions[sid].(tokenEstimate := Estimate(messages, cfg.jsonLen))]
  }

  /** A session is compressed exactly if the conversation is long and there are rows to summarize. */
  lemma PostTurnPlanIs(cfg: Config, rows: seq<MessageRow>, messages: seq<Message>)
    ensures PostTurnPlan(cfg, rows, messages).Some? <==>
            && cfg.compressionEnabled && OverAuto(messages, cfg)
            && cfg.protectLastN != 0 && |NormalRows(rows)| > cfg.protectLastN + 1 && NormalRows(rows) != []
    ensures PostTurnPlan(cfg, rows, messages).Some? ==> IsPlan(cfg, rows, PostTurnPlan(cfg, rows, messages).value)
  {
    AutoLimitIs(messages, cfg);
    PlanExistsIff(cfg, rows);
    if PlanFor(cfg, rows).Some? {
      PlanPartitions(cfg, rows);
    }
  }

  /** `plan` is what the turn called for; with no plan only the token estimate is written. */
  method MaybePostTurnCompress(db: SessionDB, sid: Id, messages: seq<Message>, cfg: Config)
    returns (active: Id, plan: Option<CompressionPlan>)
    requires db.Valid() && sid in db.sessions
    modifies db
    ensures db.Valid()
    ensures plan == PostTurnPlan(cfg, Rows(old(db.logs)[sid]), messages)
    ensures var normal := NormalRows(Rows(old(db.logs)[sid]));
            plan.Some? <==>
              && cfg.compressionEnabled && OverAuto(messages, cfg)
              && cfg.protectLastN != 0 && |normal| > cfg.protectLastN + 1 && normal != []
    ensures plan.Some? ==> IsPlan(cfg, Rows(old(db.logs)[sid]), plan.value)
    ensures sid in db.sessions && IsQuarter(db.sessions[sid].tokenEstimate, Length(messages, cfg.jsonLen))
    ensures forall s :: s in old(db.sessions) ==> s in db.sessions && db.logs[s] == old(db.logs)[s]
    ensures plan.None? ==> active == sid && db.sessions == Measured(old(db.sessions), sid, cfg, messages)
    ensures plan.Some? ==>
              && active in db.sessions && active !in old(db.sessions)
              && db.sessions == Measured(old(db.sessions), sid, cfg, messages)[active := db.sessions[active]]
              && db.sessions[active].thread == old(db.sessions)[sid].thread
              && db.sessions[active].parent == Some(sid)
              && db.sessions[active].agentState == old(db.sessions)[sid].agentState
              && (forall s :: s in old(db.sessions) ==> old(db.sessions)[s].createdAt < db.sessions[active].createdAt)
              && Rows(db.logs[active]) == ForkRows(plan.value) && IsFork(plan.value, Rows(db.logs[active]))
  {
    PostTurnPlanIs(cfg, Rows(db.logs[sid]), messages);
    var tokens := EstimateTokens(messages, cfg.jsonLen);
    db.UpdateTokenEstimate(sid, tokens);
    plan := DecidePlan(db, sid, messages, tokens, cfg);
    if plan.None? {
      return sid, plan;
    }
    active := ApplyForkCompression(db, sid, plan.value, cfg);
  }

  method DecidePlan(db: SessionDB, sid: Id, ghost messages: seq<Message>, tokens: nat, cfg: Config)
    returns (plan: Option<CompressionPlan>)
    requires db.Valid() && sid in db.sessions && tokens == Estimate(messages, cfg.jsonLen)
    ensures plan == PostTurnPlan(cfg, Rows(db.logs[sid]), messages)
  {
    if !cfg.compressionEnabled || tokens <= AutoLimit(cfg) {
      return None;
    }
    plan := BuildCompressionPlan(db, sid, cfg);
  }
}
