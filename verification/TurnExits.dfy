/**
 How a turn ends and what it writes, said by the replies of the model alone
 (src/media2text/agent/ai_agent.py, the loop of `run_conversation`).
 */
module TurnExits {
  import opened Wrappers
  import opened Text
  import opened HermesState
  import opened AgentConfig
  import opened ContextCompressor
  import opened TurnEngine

  /** From reply `from` on, the replies before number `k` are batches, and number `k`, if asked for, is none. */
  ghost predicate StopsAt(oracle: nat -> Reply, from: nat, max: nat, k: nat) {
    && from <= k <= max
    && (forall i :: from <= i < k ==> oracle(i).Batch?)
    && (k < max ==> !oracle(k).Batch?)
  }

  /** There is exactly one such number. */
  lemma {:induction false} StopExists(oracle: nat -> Reply, from: nat, max: nat) returns (k: nat)
    requires from <= max
    ensures StopsAt(oracle, from, max, k) && forall j :: StopsAt(oracle, from, max, j) ==> j == k
    decreases max - from
  {
    if from == max || !oracle(from).Batch? {
      k := from;
    } else {
      k := StopExists(oracle, from + 1, max);
      forall j | StopsAt(oracle, from, max, j) ensures j == k {
        assert StopsAt(oracle, from + 1, max, j);
      }
    }
  }

  // ---------------------------------------------------------------------------------------------
  // What the rounds write
  // ---------------------------------------------------------------------------------------------

  /** A short text is kept, a long one cut and marked. */
  ghost predicate IsTruncated(text: string, out: string, limit: int) {
    && (|text| <= limit ==> out == text)
    && (|text| > limit >= 20 ==>
          |out| == limit - 7 && out[..limit - 20] == text[..limit - 20] && out[limit - 20..] == "\n…[truncated]")
  }

  ghost predicate IsBatch(r: Reply, row: MessageRow, m: Message)
    requires r.Batch?
  {
    && row.role.Assistant? && row.kind.Normal? && row.content == r.content && row.toolCalls == Some(r.calls)
    && row.thinking == r.thinking && row.toolCallId.None? && row.toolName.None?
    && m.role.Assistant? && m.content == r.content && m.toolCalls == Some(r.calls) && m.toolCallId.None?
  }

  ghost predicate IsResult(d: Done, limit: int, row: MessageRow, m: Message) {
    && row.role.Tool? && row.kind.Normal? && row.toolCallId == Some(d.call.id) && row.toolName == Some(d.call.name)
    && row.content.Some? && IsTruncated(d.output, row.content.value, limit)
    && row.toolCalls.None? && row.thinking.None?
    && m.role.Tool? && m.toolCallId == Some(d.call.id) && m.content == row.content && m.toolCalls.None?
  }

  /** A batch and then its results in the order in which they completed. */
  ghost predicate IsRound(r: Reply, limit: int, rows: seq<MessageRow>, ms: seq<Message>)
    requires r.Batch?
  {
    && |rows| == |ms| == 1 + |r.done| && IsBatch(r, rows[0], ms[0])
    && forall j :: 0 <= j < |r.done| ==> IsResult(r.done[j], limit, rows[j + 1], ms[j + 1])
  }

  /** How many rows the replies from `from` up to `k` leave. */
  function RoundsSize(oracle: nat -> Reply, from: nat, k: nat): nat
    decreases k - from
  {
    if from >= k then 0
    else (if oracle(from).Batch? then 1 + |oracle(from).done| else 0) + RoundsSize(oracle, from + 1, k)
  }

  /** The rows and messages are the rounds of these replies, one after the other. */
  ghost predicate AreRounds(oracle: nat -> Reply, from: nat, k: nat, limit: int,
                            rows: seq<MessageRow>, ms: seq<Message>)
    decreases k - from
  {
    if from >= k then rows == [] && ms == []
    else
      && oracle(from).Batch?
      && var n := 1 + |oracle(from).done|;
      && n <= |rows| && n <= |ms|
      && IsRound(oracle(from), limit, rows[..n], ms[..n])
      && AreRounds(oracle, from + 1, k, limit, rows[n..], ms[n..])
  }

  lemma TruncateIs(text: string, limit: int)
    ensures IsTruncated(text, Truncate(text, limit), limit)
  {
    assert |TRUNCATED_MARK| == 13;
  }

  function RoundRows(r: Reply, limit: int): seq<MessageRow>
    requires r.Batch?
  {
    [BatchRow(r)] + ResultRows(r.done, limit)
  }

  function RoundMessages(r: Reply, limit: int): seq<Message>
    requires r.Batch?
  {
    [BatchMessage(r)] + ResultMessages(r.done, limit)
  }

  lemma RoundIs(r: Reply, limit: int)
    requires r.Batch?
    ensures IsRound(r, limit, RoundRows(r, limit), RoundMessages(r, limit))
  {
    var rows, ms := RoundRows(r, limit), RoundMessages(r, limit);
    forall j | 0 <= j < |r.done| ensures IsResult(r.done[j], limit, rows[j + 1], ms[j + 1]) {
      TruncateIs(r.done[j].output, limit);
      assert rows[j + 1] == ResultRow(r.done[j], limit) && ms[j + 1] == ResultMessage(r.done[j], limit);
    }
  }

  // ---------------------------------------------------------------------------------------------
  // How the loop ends
  // ---------------------------------------------------------------------------------------------

  /** The exit is decided by the reply at which the loop stops. */
  ghost predicate ExitIs(exit: Exit, oracle: nat -> Reply, max: nat, k: nat) {
    && (exit.Answered? <==> k < max && oracle(k).Answer?)
    && (exit.Failed? <==> k < max && oracle(k).Raised?)
    && (exit.Cancelled? <==> k < max && (oracle(k).CancelFlagSet? || oracle(k).CancelledInCall?))
    && (exit.Exhausted? <==> k == max)
  }

  /** So is the text that is returned: the stripped content of the answer, or a notice. */
  ghost predicate TextIs(text: string, oracle: nat -> Reply, max: nat, k: nat) {
    && (k < max && oracle(k).Answer? ==> text == Strip(oracle(k).content.GetOr("")))
    && (k < max && oracle(k).Raised? ==> text == oracle(k).message)
    && (k == max ==> text == "抱歉，本轮对话迭代次数已达上限。")
  }

  ghost predicate IsFinalRow(row: MessageRow, text: string, thinking: Option<string>) {
    && row.role.Assistant? && row.kind.Normal? && row.content == Some(text) && row.thinking == thinking
    && row.toolCalls.None? && row.toolCallId.None? && row.toolName.None?
  }

  /** What follows the rounds: an answer in rows and messages, a notice in the rows only, or nothing. */
  ghost predicate IsTail(oracle: nat -> Reply, max: nat, k: nat, text: string,
                         rows: seq<MessageRow>, ms: seq<Message>) {
    if k < max && oracle(k).Answer? then
      && |rows| == 1 && IsFinalRow(rows[0], text, oracle(k).thinking)
      && |ms| == 1 && ms[0].role.Assistant? && ms[0].content == Some(text)
      && ms[0].toolCalls.None? && ms[0].toolCallId.None?
    else if k == max || oracle(k).Raised? then |rows| == 1 && IsFinalRow(rows[0], text, None) && ms == []
    else rows == [] && ms == []
  }

  ghost predicate UsesSkillTool(r: Reply) {
    r.Batch? && exists c :: c in r.calls && c.name == "skill_manage"
  }

  /** The batches since the last one that used the skill tool, or since the start. */
  ghost predicate CountsSince(oracle: nat -> Reply, from: nat, k: nat, before: nat, iters: nat) {
    if forall i :: from <= i < k ==> !UsesSkillTool(oracle(i)) then iters == before + (k - from)
    else
      && iters < k - from && UsesSkillTool(oracle(k - 1 - iters))
      && forall i :: k - iters <= i < k ==> !UsesSkillTool(oracle(i))
  }

  /** The calls of the model: one for every reply but a cancellation seen before the call. */
  ghost predicate CallsAre(end: LoopState, st: LoopState, oracle: nat -> Reply, max: nat, k: nat) {
    && |end.asked| == |st.asked| + (k - st.used) + (if k < max && !oracle(k).CancelFlagSet? then 1 else 0)
    && st.asked <= end.asked
    && forall j :: st.used <= j < st.used + |end.asked| - |st.asked| ==>
         var n := |st.rows| + RoundsSize(oracle, st.used, j);
         n <= |end.rows| && end.asked[|st.asked| + j - st.used].rows == end.rows[..n]
  }

  /** `whole` is `start`, then `middle`, then `end`. */
  ghost predicate InParts<T>(whole: seq<T>, start: seq<T>, middle: seq<T>, end: seq<T>) {
    whole == start + (middle + end)
  }

  /** Rows and messages grow by the rounds and then by the tail. */
  ghost predicate WritesAs(end: LoopEnd, st: LoopState, oracle: nat -> Reply, max: nat, limit: int, k: nat) {
    exists rows, ms, tail, tailMs ::
      && InParts(end.st.rows, st.rows, rows, tail) && InParts(end.st.messages, st.messages, ms, tailMs)
      && AreRounds(oracle, st.used, k, limit, rows, ms)
      && IsTail(oracle, max, k, end.finalText, tail, tailMs)
  }

  /** Everything about the end of a loop that was in state `st`, by the replies that follow. */
  ghost predicate EndsAs(end: LoopEnd, st: LoopState, oracle: nat -> Reply, max: nat, limit: int, k: nat) {
    && ExitIs(end.exit, oracle, max, k) && TextIs(end.finalText, oracle, max, k)
    && WritesAs(end, st, oracle, max, limit, k)
    && CountsSince(oracle, st.used, k, st.iters, end.st.iters)
    && CallsAre(end.st, st, oracle, max, k)
  }

  /** The same at whatever reply the loop stops. */
  ghost predicate EndsByReplies(end: LoopEnd, st: LoopState, oracle: nat -> Reply, max: nat, limit: int) {
    forall k :: StopsAt(oracle, st.used, max, k) ==> EndsAs(end, st, oracle, max, limit, k)
  }

  // ---------------------------------------------------------------------------------------------
  // The loop ends so
  // ---------------------------------------------------------------------------------------------

  lemma {:induction false} LoopExit(st: LoopState, max: nat, limit: int, oracle: nat -> Reply, k: nat)
    requires StopsAt(oracle, st.used, max, k)
    ensures var end := Loop(st, max, limit, oracle);
            ExitIs(end.exit, oracle, max, k) && TextIs(end.finalText, oracle, max, k)
    decreases k - st.used
  {
    if st.used < k {
      LoopExit(AfterBatch(Ask(st), oracle(st.used), limit), max, limit, oracle, k);
    }
  }

  lemma {:induction false} RoundsCons(oracle: nat -> Reply, from: nat, k: nat, limit: int,
                                      rows: seq<MessageRow>, ms: seq<Message>)
    requires from < k && oracle(from).Batch? && AreRounds(oracle, from + 1, k, limit, rows, ms)
    ensures AreRounds(oracle, from, k, limit, RoundRows(oracle(from), limit) + rows,
                      RoundMessages(oracle(from), limit) + ms)
  {
    var first, firstMs := RoundRows(oracle(from), limit), RoundMessages(oracle(from), limit);
    RoundIs(oracle(from), limit);
    assert (first + rows)[..|first|] == first && (first + rows)[|first|..] == rows;
    assert (firstMs + ms)[..|first|] == firstMs && (firstMs + ms)[|first|..] == ms;
  }

  lemma PartsStep<T>(whole: seq<T>, start: seq<T>, first: seq<T>, middle: seq<T>, end: seq<T>)
    requires InParts(whole, start + first, middle, end)
    ensures InParts(whole, start, first + middle, end)
  {
    Regroup(start, first, middle + end);
    Regroup(first, middle, end);
  }

  lemma {:induction false} LastReply(st: LoopState, max: nat, limit: int, oracle: nat -> Reply)
    returns (tail: seq<MessageRow>, tailMs: seq<Message>)
    requires StopsAt(oracle, st.used, max, st.used)
    ensures var end := Loop(st, max, limit, oracle);
            && InParts(end.st.rows, st.rows, [], tail) && InParts(end.st.messages, st.messages, [], tailMs)
            && IsTail(oracle, max, st.used, end.finalText, tail, tailMs)
  {
    var end := Loop(st, max, limit, oracle).st;
    tail, tailMs := end.rows[|st.rows|..], end.messages[|st.messages|..];
  }

  lemma BatchParts(st: LoopState, r: Reply, limit: int)
    requires r.Batch?
    ensures var next := AfterBatch(Ask(st), r, limit);
            && next.rows == st.rows + RoundRows(r, limit) && next.messages == st.messages + RoundMessages(r, limit)
            && next.used == st.used + 1
  {
    Regroup(st.rows, [BatchRow(r)], ResultRows(r.done, limit));
    Regroup(st.messages, [BatchMessage(r)], ResultMessages(r.done, limit));
  }

  /** Rows and messages grow by the rounds and then by what the last reply leaves. */
  lemma {:induction false} LoopRows(st: LoopState, max: nat, limit: int, oracle: nat -> Reply, k: nat)
    returns (rows: seq<MessageRow>, ms: seq<Message>, tail: seq<MessageRow>, tailMs: seq<Message>)
    requires StopsAt(oracle, st.used, max, k)
    ensures var end := Loop(st, max, limit, oracle);
            && InParts(end.st.rows, st.rows, rows, tail) && InParts(end.st.messages, st.messages, ms, tailMs)
            && IsTail(oracle, max, k, end.finalText, tail, tailMs)
    ensures AreRounds(oracle, st.used, k, limit, rows, ms)
    decreases k - st.used
  {
    if st.used == k {
      rows, ms := [], [];
      tail, tailMs := LastReply(st, max, limit, oracle);
    } else {
      var r := oracle(st.used);
      var next := AfterBatch(Ask(st), r, limit);
      BatchParts(st, r, limit);
      var restRows, restMs;
      restRows, restMs, tail, tailMs := LoopRows(next, max, limit, oracle, k);
      var end := Loop(next, max, limit, oracle);
      assert Loop(st, max, limit, oracle) == end;
      RoundsCons(oracle, st.used, k, limit, restRows, restMs);
      PartsStep(end.st.rows, st.rows, RoundRows(r, limit), restRows, tail);
      PartsStep(end.st.messages, st.messages, RoundMessages(r, limit), restMs, tailMs);
      rows, ms := RoundRows(r, limit) + restRows, RoundMessages(r, limit) + restMs;
    }
  }

  lemma CountsStep(oracle: nat -> Reply, from: nat, k: nat, before: nat, iters: nat)
    requires from < k && oracle(from).Batch?
    requires CountsSince(oracle, from + 1, k, SkillIters(before, oracle(from).calls), iters)
    ensures CountsSince(oracle, from, k, before, iters)
  {
    var r := oracle(from);
    assert UsesSkillTool(r) <==> exists i :: 0 <= i < |r.calls| && r.calls[i].name == "skill_manage";
  }

  lemma {:induction false} LoopCounts(st: LoopState, max: nat, limit: int, oracle: nat -> Reply, k: nat)
    requires StopsAt(oracle, st.used, max, k)
    ensures CountsSince(oracle, st.used, k, st.iters, Loop(st, max, limit, oracle).st.iters)
    decreases k - st.used
  {
    if st.used < k {
      var next := AfterBatch(Ask(st), oracle(st.used), limit);
      LoopCounts(next, max, limit, oracle, k);
      CountsStep(oracle, st.used, k, st.iters, Loop(next, max, limit, oracle).st.iters);
    }
  }

  lemma {:induction false} LoopGrows(st: LoopState, max: nat, limit: int, oracle: nat -> Reply)
    ensures var end := Loop(st, max, limit, oracle).st; st.rows <= end.rows && st.asked <= end.asked
    decreases max - st.used
  {
    if st.used < max && oracle(st.used).Batch? {
      LoopGrows(AfterBatch(Ask(st), oracle(st.used), limit), max, limit, oracle);
    }
  }

  lemma CallsStep(end: LoopState, st: LoopState, next: LoopState, oracle: nat -> Reply, max: nat, k: nat)
    requires st.used < k && oracle(st.used).Batch? && CallsAre(end, next, oracle, max, k)
    requires next.used == st.used + 1 && next.asked == st.asked + [LlmCall(st.messages, st.rows)]
    requires |next.rows| == |st.rows| + 1 + |oracle(st.used).done| && st.rows <= end.rows
    ensures CallsAre(end, st, oracle, max, k)
  {
    assert end.asked[|st.asked|] == next.asked[|st.asked|];
  }

  lemma {:induction false} LoopCalls(st: LoopState, max: nat, limit: int, oracle: nat -> Reply, k: nat)
    requires StopsAt(oracle, st.used, max, k)
    ensures CallsAre(Loop(st, max, limit, oracle).st, st, oracle, max, k)
    decreases k - st.used
  {
    LoopGrows(st, max, limit, oracle);
    if st.used < k {
      var next := AfterBatch(Ask(st), oracle(st.used), limit);
      LoopCalls(next, max, limit, oracle, k);
      CallsStep(Loop(next, max, limit, oracle).st, st, next, oracle, max, k);
    }
  }

  lemma LoopWrites(st: LoopState, max: nat, limit: int, oracle: nat -> Reply, k: nat)
    requires StopsAt(oracle, st.used, max, k)
    ensures WritesAs(Loop(st, max, limit, oracle), st, oracle, max, limit, k)
  {
    var rows, ms, tail, tailMs := LoopRows(st, max, limit, oracle, k);
  }

  /** However a loop goes, it ends as the replies that follow say. */
  lemma {:induction false} LoopEndsAs(st: LoopState, max: nat, limit: int, oracle: nat -> Reply, k: nat)
    requires StopsAt(oracle, st.used, max, k)
    ensures EndsAs(Loop(st, max, limit, oracle), st, oracle, max, limit, k)
  {
    LoopExit(st, max, limit, oracle, k);
    LoopWrites(st, max, limit, oracle, k);
    LoopCounts(st, max, limit, oracle, k);
    LoopCalls(st, max, limit, oracle, k);
  }

  lemma LoopEndsByReplies(st: LoopState, max: nat, limit: int, oracle: nat -> Reply)
    ensures EndsByReplies(Loop(st, max, limit, oracle), st, oracle, max, limit)
  {
    forall k | StopsAt(oracle, st.used, max, k)
      ensures EndsAs(Loop(st, max, limit, oracle), st, oracle, max, limit, k)
    {
      LoopEndsAs(st, max, limit, oracle, k);
    }
  }

  // ---------------------------------------------------------------------------------------------
  // The turn starts so
  // ---------------------------------------------------------------------------------------------

  /** A turn adds the user's message, a retry cuts behind the message that is asked again. */
  ghost predicate IsStart(before: seq<MessageRow>, input: TurnInput, base: seq<MessageRow>) {
    && (input.retry.None? ==>
          && |base| == |before| + 1 && before <= base
          && var row := base[|before|];
          && row.role.User? && row.kind.Normal? && row.content == Some(input.userText)
          && row.toolCalls.None? && row.toolCallId.None? && row.toolName.None? && row.thinking.None?)
    && (input.retry.Some? ==> |base| == input.retry.value + 1 && base <= before)
  }

  lemma StartIs(s: SessionState, input: TurnInput)
    requires ValidInput(s, input)
    ensures IsStart(s.rows, input, StartRows(s, input))
  {
  }

  /**
   A turn, said by what it is given: it starts from the stored rows and their replay, trimmed if that is
   long, and ends as the replies of the model say.
   */
  ghost predicate IsTurn(cfg: Config, s: SessionState, input: TurnInput, end: LoopEnd)
    requires ValidInput(s, input)
  {
    var base := StartRows(s, input);
    var replay := ReplayAll(base);
    var start := Preflight(input.system + replay, cfg);
    && IsStart(s.rows, input, base)
    && (forall i :: 0 <= i < |base| ==> IsReplayOf(base[i], replay[i]))
    && IsPreflighted(input.system + replay, cfg, start)
    && EndsByReplies(end, LoopState(base, start, 0, 0, []), input.oracle, Budget(cfg), cfg.maxToolOutputChars)
  }

  lemma {:induction false} TurnIs(cfg: Config, s: SessionState, input: TurnInput)
    requires ValidInput(s, input)
    ensures IsTurn(cfg, s, input, Turn(cfg, s, input).loop)
  {
    var base := StartRows(s, input);
    StartIs(s, input);
    forall i | 0 <= i < |base| ensures IsReplayOf(base[i], ReplayAll(base)[i]) {
      ReplayIs(base[i]);
    }
    PreflightIs(input.system + ReplayAll(base), cfg);
    LoopEndsByReplies(StartLoop(cfg, s, input), Budget(cfg), cfg.maxToolOutputChars, input.oracle);
  }
}
