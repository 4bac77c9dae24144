/**
 What one conversation turn means (src/media2text/agent/ai_agent.py, `run_conversation`).

 A turn starts from the rows of the active session, asks the model at most `max_turns` times, and
 ends by an answer, by exhausting its budget, by an error or by a cancellation.  The model and the
 tools are an arbitrary oracle; the results of a batch may arrive in any order.
 */
module TurnEngine {
  import opened Wrappers
  import opened Text
  import opened HermesState
  import opened AgentConfig
  import opened AgentTurnHooks
  import opened ToolPairing
  import opened ContextCompressor

  /** A finished tool call with its formatted, not yet truncated output. */
  datatype Done = Done(call: ToolCall, output: string)

  /** What happens in one iteration of the loop. */
  datatype Reply =
    | CancelFlagSet
    | CancelledInCall
    | Raised(message: string)
    | Answer(content: Option<string>, thinking: Option<string>)
    | Batch(content: Option<string>, thinking: Option<string>, calls: seq<ToolCall>, done: seq<Done>)

  function CallsOf(done: seq<Done>): seq<ToolCall> {
    seq(|done|, i requires 0 <= i < |done| => done[i].call)
  }

  /** `done` lists the calls of the batch in the order in which they completed. */
  predicate WellFormed(r: Reply) {
    r.Batch? ==> r.calls != [] && multiset(CallsOf(r.done)) == multiset(r.calls)
  }

  const EXHAUSTED_TEXT := "抱歉，本轮对话迭代次数已达上限。"
  const TRUNCATED_MARK := "\n…[truncated]"

  function Truncate(text: string, limit: int): string {
    if |text| <= limit then text else Take(text, limit - 20) + TRUNCATED_MARK
  }

  /** A truncated text fits its limit exactly if it was short enough or the limit is at least 20. */
  lemma TruncateFits(text: string, limit: int)
    ensures |Truncate(text, limit)| <= limit <==> |text| <= limit || limit >= 20
  {
    assert |TRUNCATED_MARK| == 13;
  }

  function PlainRow(role: Role, text: string, thinking: Option<string>): MessageRow {
    MessageRow(role, Some(text), None, None, None, thinking, Normal)
  }

  function BatchRow(r: Reply): MessageRow
    requires r.Batch?
  {
    MessageRow(Assistant, r.content, None, None, Some(r.calls), r.thinking, Normal)
  }

  function ResultRow(d: Done, limit: int): MessageRow {
    MessageRow(Tool, Some(Truncate(d.output, limit)), Some(d.call.id), Some(d.call.name), None, None, Normal)
  }

  function ResultRows(done: seq<Done>, limit: int): (rows: seq<MessageRow>)
    ensures |rows| == |done|
  {
    seq(|done|, i requires 0 <= i < |done| => ResultRow(done[i], limit))
  }

  function PlainMessage(role: Role, text: string): Message {
    Message(role, Some(text), None, None)
  }

  function BatchMessage(r: Reply): Message
    requires r.Batch?
  {
    Message(Assistant, r.content, Some(r.calls), None)
  }

  function ResultMessage(d: Done, limit: int): Message {
    Message(Tool, Some(Truncate(d.output, limit)), None, Some(d.call.id))
  }

  function ResultMessages(done: seq<Done>, limit: int): seq<Message> {
    seq(|done|, i requires 0 <= i < |done| => ResultMessage(done[i], limit))
  }

  function SkillIters(iters: nat, calls: seq<ToolCall>): nat {
    if exists i :: 0 <= i < |calls| && calls[i].name == "skill_manage" then 0 else iters + 1
  }

  // ---------------------------------------------------------------------------------------------
  // The loop
  // ---------------------------------------------------------------------------------------------

  /** The two pictures of the conversation at the moment the model is asked. */
  datatype LlmCall = LlmCall(messages: seq<Message>, rows: seq<MessageRow>)

  datatype LoopState = LoopState(
    rows: seq<MessageRow>,
    messages: seq<Message>,
    iters: nat,
    used: nat,
    asked: seq<LlmCall>)

  datatype Exit = Answered | Exhausted | Cancelled | Failed

  datatype LoopEnd = LoopEnd(st: LoopState, exit: Exit, finalText: string)

  function Ask(st: LoopState): LoopState {
    st.(used := st.used + 1, asked := st.asked + [LlmCall(st.messages, st.rows)])
  }

  function AfterBatch(st: LoopState, r: Reply, limit: int): LoopState
    requires r.Batch?
  {
    st.(rows := st.rows + [BatchRow(r)] + ResultRows(r.done, limit),
        messages := st.messages + [BatchMessage(r)] + ResultMessages(r.done, limit),
        iters := SkillIters(st.iters, r.calls))
  }

  function AfterAnswer(st: LoopState, text: string, thinking: Option<string>): LoopState {
    st.(rows := st.rows + [PlainRow(Assistant, text, thinking)],
        messages := st.messages + [PlainMessage(Assistant, text)])
  }

  function AddRow(st: LoopState, text: string): LoopState {
    st.(rows := st.rows + [PlainRow(Assistant, text, None)])
  }

  function Loop(st: LoopState, max: nat, limit: int, oracle: nat -> Reply): LoopEnd
    decreases max - st.used
  {
    if st.used >= max then LoopEnd(AddRow(st, EXHAUSTED_TEXT), Exhausted, EXHAUSTED_TEXT)
    else
      match oracle(st.used)
      case CancelFlagSet => LoopEnd(st, Cancelled, "")
      case CancelledInCall => LoopEnd(Ask(st), Cancelled, "")
      case Raised(message) => LoopEnd(AddRow(Ask(st), message), Failed, message)
      case Answer(content, thinking) =>
        var text := Strip(content.GetOr(""));
        LoopEnd(AfterAnswer(Ask(st), text, thinking), Answered, text)
      case Batch(_, _, _, _) =>
        Loop(AfterBatch(Ask(st), oracle(st.used), limit), max, limit, oracle)
  }

  // ---------------------------------------------------------------------------------------------
  // The turn
  // ---------------------------------------------------------------------------------------------

  datatype SessionState = SessionState(rows: seq<MessageRow>, agentState: Option<AgentState>)

  /** `retry` is the position of the user message that is asked again. */
  datatype TurnInput = TurnInput(userText: string, retry: Option<nat>, system: seq<Message>, oracle: nat -> Reply)

  predicate ValidInput(s: SessionState, input: TurnInput) {
    input.retry.Some? ==> input.retry.value < |s.rows| && s.rows[input.retry.value].role.User?
  }

  datatype TurnEnd = TurnEnd(
    /** The session the turn ran in, at its end. */
    session: SessionState,
    /** The session it was forked into, if it was compressed. */
    child: Option<SessionState>,
    loop: LoopEnd,
    flags: ReviewFlags,
    spawned: bool)

  function StartRows(s: SessionState, input: TurnInput): seq<MessageRow>
    requires ValidInput(s, input)
  {
    if input.retry.Some? then s.rows[..input.retry.value + 1]
    else s.rows + [PlainRow(User, input.userText, None)]
  }

  function StartState(cfg: Config, s: SessionState, input: TurnInput): AgentState {
    var state := Hydrate(s.agentState, UserCount(s.rows), cfg.nudgeInterval);
    var counted := if input.retry.Some? then state else state.(turnsSinceMemory := state.turnsSinceMemory + 1);
    counted.(itersSinceSkill := 0)
  }

  function StartLoop(cfg: Config, s: SessionState, input: TurnInput): LoopState
    requires ValidInput(s, input)
  {
    var rows := StartRows(s, input);
    LoopState(rows, Preflight(input.system + ReplayAll(rows), cfg), 0, 0, [])
  }

  predicate SpawnsReview(cfg: Config, input: TurnInput, end: LoopEnd, flags: ReviewFlags, state: AgentState) {
    && (end.exit.Answered? || end.exit.Exhausted?)
    && input.retry.None?
    && cfg.reviewEnabled
    && Strip(end.finalText) != ""
    && (flags.reviewMemory || flags.reviewSkills)
    && !state.reviewInFlight
  }

  function FinishTurn(cfg: Config, input: TurnInput, state: AgentState, end: LoopEnd): TurnEnd {
    var counted := state.(itersSinceSkill := end.st.iters);
    var flags := ComputeReviewFlags(cfg, counted);
    FinishSaved(cfg, input, ApplyReviewResets(counted, flags), flags, end)
  }

  function FinishSaved(cfg: Config, input: TurnInput, saved: AgentState, flags: ReviewFlags, end: LoopEnd): TurnEnd {
    var spawned := SpawnsReview(cfg, input, end, flags, saved);
    var last := if spawned then saved.(reviewInFlight := true) else saved;
    var plan := PostTurnPlan(cfg, end.st.rows, end.st.messages);
    if plan.None? then
      TurnEnd(SessionState(end.st.rows, Some(last)), None, end, flags, spawned)
    else
      TurnEnd(SessionState(end.st.rows, Some(saved)), Some(SessionState(ForkRows(plan.value), Some(last))),
              end, flags, spawned)
  }

  function Turn(cfg: Config, s: SessionState, input: TurnInput): TurnEnd
    requires ValidInput(s, input)
  {
    FinishTurn(cfg, input, StartState(cfg, s, input),
               Loop(StartLoop(cfg, s, input), Budget(cfg), cfg.maxToolOutputChars, input.oracle))
  }

  /** The session the next turn runs in. */
  function Active(t: TurnEnd): SessionState {
    t.child.GetOr(t.session)
  }

  // ---------------------------------------------------------------------------------------------
  // In memory and persisted
  // ---------------------------------------------------------------------------------------------

  /** `messages` is the start list followed by the replay of the rows persisted after row `n0`. */
  ghost predicate InSync(start: seq<Message>, n0: nat, messages: seq<Message>, rows: seq<MessageRow>) {
    n0 <= |rows| && messages == start + ReplayAll(rows[n0..])
  }

  lemma Regroup<T>(a: seq<T>, b: seq<T>, c: seq<T>)
    ensures (a + b) + c == a + (b + c)
  {
  }

  lemma SinceAppend<T>(rows: seq<T>, added: seq<T>, n0: nat)
    requires n0 <= |rows|
    ensures (rows + added)[n0..] == rows[n0..] + added
  {
  }

  lemma SyncAppend(start: seq<Message>, n0: nat, ms: seq<Message>, rows: seq<MessageRow>,
                   newMs: seq<Message>, newRows: seq<MessageRow>)
    requires InSync(start, n0, ms, rows) && newMs == ReplayAll(newRows)
    ensures InSync(start, n0, ms + newMs, rows + newRows)
  {
    SinceAppend(rows, newRows, n0);
    ReplayConcat(rows[n0..], newRows);
    Regroup(start, ReplayAll(rows[n0..]), newMs);
  }

  lemma BatchReplay(r: Reply, limit: int)
    requires r.Batch?
    ensures [BatchMessage(r)] + ResultMessages(r.done, limit) == ReplayAll([BatchRow(r)] + ResultRows(r.done, limit))
  {
  }

  /** The state of a loop that began with `base` persisted rows and the list `start`. */
  ghost predicate LoopInv(start: seq<Message>, base: seq<MessageRow>, st: LoopState) {
    && base <= st.rows
    && InSync(start, |base|, st.messages, st.rows)
    && |st.asked| == st.used
    && forall k :: 0 <= k < |st.asked| ==>
         base <= st.asked[k].rows && InSync(start, |base|, st.asked[k].messages, st.asked[k].rows)
  }

  lemma BatchKeepsInv(start: seq<Message>, base: seq<MessageRow>, st: LoopState, r: Reply, limit: int)
    requires LoopInv(start, base, st) && r.Batch?
    ensures LoopInv(start, base, AfterBatch(st, r, limit))
  {
    BatchReplay(r, limit);
    var newRows := [BatchRow(r)] + ResultRows(r.done, limit);
    var newMs := [BatchMessage(r)] + ResultMessages(r.done, limit);
    SyncAppend(start, |base|, st.messages, st.rows, newMs, newRows);
    var next := AfterBatch(st, r, limit);
    assert next.rows == st.rows + newRows && next.messages == st.messages + newMs;
  }

  /** Only the notice of exhaustion or of an error is persisted without being kept in memory. */
  ghost predicate EndInSync(start: seq<Message>, base: seq<MessageRow>, end: LoopEnd) {
    var rows := end.st.rows;
    if end.exit.Answered? || end.exit.Cancelled? then LoopInv(start, base, end.st)
    else
      && rows != []
      && rows[|rows| - 1] == PlainRow(Assistant, end.finalText, None)
      && LoopInv(start, base, end.st.(rows := rows[..|rows| - 1]))
  }

  lemma AnswerKeepsInv(start: seq<Message>, base: seq<MessageRow>, st: LoopState,
                       text: string, thinking: Option<string>)
    requires LoopInv(start, base, st)
    ensures LoopInv(start, base, AfterAnswer(st, text, thinking))
  {
    assert [PlainMessage(Assistant, text)] == ReplayAll([PlainRow(Assistant, text, thinking)]);
    SyncAppend(start, |base|, st.messages, st.rows, [PlainMessage(Assistant, text)],
               [PlainRow(Assistant, text, thinking)]);
  }

  lemma AskKeepsInv(start: seq<Message>, base: seq<MessageRow>, st: LoopState)
    requires LoopInv(start, base, st)
    ensures LoopInv(start, base, Ask(st))
  {
  }

  lemma NoticeEndsInSync(start: seq<Message>, base: seq<MessageRow>, st: LoopState, text: string, exit: Exit)
    requires LoopInv(start, base, st) && (exit.Exhausted? || exit.Failed?)
    ensures EndInSync(start, base, LoopEnd(AddRow(st, text), exit, text))
  {
    assert AddRow(st, text).rows[..|st.rows|] == st.rows;
  }

  /**
   However the loop goes on, at every call of the model the two pictures agree, and they agree at
   the end; the model is asked at most as often as the budget allows.
   */
  lemma {:induction false} LoopStaysInSync(start: seq<Message>, base: seq<MessageRow>, st: LoopState,
                                           max: nat, limit: int, oracle: nat -> Reply)
    requires LoopInv(start, base, st) && st.used <= max
    ensures EndInSync(start, base, Loop(st, max, limit, oracle))
    ensures Loop(st, max, limit, oracle).st.used <= max
    decreases max - st.used
  {
    if st.used >= max {
      NoticeEndsInSync(start, base, st, EXHAUSTED_TEXT, Exhausted);
    } else {
      AskKeepsInv(start, base, st);
      match oracle(st.used)
      case CancelFlagSet =>
      case CancelledInCall =>
      case Raised(message) => NoticeEndsInSync(start, base, Ask(st), message, Failed);
      case Answer(content, thinking) => AnswerKeepsInv(start, base, Ask(st), Strip(content.GetOr("")), thinking);
      case Batch(_, _, _, _) =>
        BatchKeepsInv(start, base, Ask(st), oracle(st.used), limit);
        LoopStaysInSync(start, base, AfterBatch(Ask(st), oracle(st.used), limit), max, limit, oracle);
    }
  }

  /**
   At every call of the model, in every turn, the in-memory messages are the preflighted start list
   (system messages and replay) followed by exactly the replay of the rows persisted since.
   */
  lemma EveryCallInSync(cfg: Config, s: SessionState, input: TurnInput, k: nat)
    requires ValidInput(s, input)
    requires k < |Turn(cfg, s, input).loop.st.asked|
    ensures var call, base := Turn(cfg, s, input).loop.st.asked[k], StartRows(s, input);
            && base <= call.rows
            && call.messages == Preflight(input.system + ReplayAll(base), cfg) + ReplayAll(call.rows[|base|..])
    ensures |Turn(cfg, s, input).loop.st.asked| <= Budget(cfg)
  {
    var st := StartLoop(cfg, s, input);
    LoopStaysInSync(st.messages, st.rows, st, Budget(cfg), cfg.maxToolOutputChars, input.oracle);
  }

  // ---------------------------------------------------------------------------------------------
  // Pairing of calls and results
  // ---------------------------------------------------------------------------------------------

  lemma {:induction false} ResultsAnswer(r: Reply, limit: int)
    requires WellFormed(r) && r.Batch?
    ensures Answers(r.calls, ResultRows(r.done, limit))
  {
    var rows := ResultRows(r.done, limit);
    assert |CallsOf(r.done)| == |r.calls| by {
      assert |multiset(CallsOf(r.done))| == |multiset(r.calls)|;
    }
    assert ResultIds(rows) == CallIds(CallsOf(r.done));
    SameCallsSameIds(CallsOf(r.done), r.calls);
  }

  /** Reordering calls reorders their ids. */
  lemma {:induction false} SameCallsSameIds(a: seq<ToolCall>, b: seq<ToolCall>)
    requires multiset(a) == multiset(b)
    ensures multiset(CallIds(a)) == multiset(CallIds(b))
    decreases |a|
  {
    if a == [] {
      assert |multiset(b)| == 0;
    } else {
      assert a[0] in multiset(a);
      var a' := TakeOut(a, a[0]);
      var b' := TakeOut(b, a[0]);
      SameCallsSameIds(a', b');
    }
  }

  lemma TakeOut(s: seq<ToolCall>, c: ToolCall) returns (rest: seq<ToolCall>)
    requires c in multiset(s)
    ensures |rest| == |s| - 1
    ensures multiset(rest) == multiset(s) - multiset{c}
    ensures multiset(CallIds(s)) == multiset(CallIds(rest)) + multiset{c.id}
  {
    var k :| 0 <= k < |s| && s[k] == c;
    rest := s[..k] + s[k + 1..];
    assert s == s[..k] + [c] + s[k + 1..];
    assert CallIds(s) == CallIds(s[..k]) + [c.id] + CallIds(s[k + 1..]);
    assert CallIds(rest) == CallIds(s[..k]) + CallIds(s[k + 1..]);
  }

  /** Every way the loop can go keeps batches answered and results owned. */
  lemma {:induction false} LoopKeepsPairing(st: LoopState, max: nat, limit: int, oracle: nat -> Reply)
    requires forall n :: WellFormed(oracle(n))
    requires BatchesAnswered(st.rows) && HeadSummary(st.rows)
    ensures var rows := Loop(st, max, limit, oracle).st.rows;
            BatchesAnswered(rows) && HeadSummary(rows) && (NoOrphans(st.rows) ==> NoOrphans(rows))
    decreases max - st.used
  {
    if st.used >= max {
      AppendPlain(st.rows, PlainRow(Assistant, EXHAUSTED_TEXT, None));
    } else {
      match oracle(st.used)
      case CancelFlagSet =>
      case CancelledInCall =>
      case Raised(message) => AppendPlain(st.rows, PlainRow(Assistant, message, None));
      case Answer(content, thinking) =>
        AppendPlain(st.rows, PlainRow(Assistant, Strip(content.GetOr("")), thinking));
      case Batch(_, _, _, _) =>
        var r := oracle(st.used);
        var results := ResultRows(r.done, limit);
        ResultsAnswer(r, limit);
        AppendBatch(st.rows, BatchRow(r), results);
        if NoOrphans(st.rows) {
          AppendBatchOwned(st.rows, BatchRow(r), results);
        }
        LoopKeepsPairing(AfterBatch(Ask(st), r, limit), max, limit, oracle);
    }
  }

  /** What every session of a thread keeps, whatever happened to it. */
  ghost predicate SessionOk(rows: seq<MessageRow>) {
    HeadSummary(rows) && BatchesAnswered(rows)
  }

  /** The compression, if any, does not cut in front of a tool result. */
  predicate CleanCut(t: TurnEnd) {
    t.child.Some? ==> |t.child.value.rows| < 2 || !t.child.value.rows[1].role.Tool?
  }

  lemma StartKeepsPairing(s: SessionState, input: TurnInput)
    requires ValidInput(s, input) && SessionOk(s.rows)
    ensures SessionOk(StartRows(s, input))
    ensures NoOrphans(s.rows) ==> NoOrphans(StartRows(s, input))
  {
    if input.retry.Some? {
      TruncateAfter(s.rows, input.retry.value);
    } else {
      AppendPlain(s.rows, PlainRow(User, input.userText, None));
    }
  }

  lemma ForkKeepsPairing(cfg: Config, rows: seq<MessageRow>)
    requires SessionOk(rows) && PlanFor(cfg, rows).Some?
    ensures var fork := ForkRows(PlanFor(cfg, rows).value);
            && SessionOk(fork)
            && (NoOrphans(rows) ==> (NoOrphans(fork) <==> |fork| < 2 || !fork[1].role.Tool?))
  {
    var plan := PlanFor(cfg, rows).value;
    NormalIsPaired(rows);
    PlanPartitions(cfg, rows);
    SuffixAnswered(NormalRows(rows), plan.compressedCount);
    PrependPlain(SummaryRow(plan.summaryText), plan.protectedRows);
    ForkNormalRows(cfg, rows);
    if NoOrphans(rows) {
      ForkPairedIff(cfg, rows);
    }
  }

  /**
   One turn (normal, retried, cancelled, failed or exhausted, with or without a fork) keeps every
   batch answered in the session and in its fork; the session keeps its results owned, and the fork
   has no stray result exactly when the cut was clean.
   */
  lemma TurnKeepsPairing(cfg: Config, s: SessionState, input: TurnInput)
    requires ValidInput(s, input) && forall n :: WellFormed(input.oracle(n))
    requires SessionOk(s.rows)
    ensures var t := Turn(cfg, s, input);
            && SessionOk(t.session.rows) && SessionOk(Active(t).rows)
            && (NoOrphans(s.rows) ==> NoOrphans(t.session.rows))
            && (NoOrphans(s.rows) ==> (NoOrphans(Active(t).rows) <==> CleanCut(t)))
  {
    var st := StartLoop(cfg, s, input);
    StartKeepsPairing(s, input);
    LoopKeepsPairing(st, Budget(cfg), cfg.maxToolOutputChars, input.oracle);
    var end := Loop(st, Budget(cfg), cfg.maxToolOutputChars, input.oracle).st;
    if PostTurnPlan(cfg, end.rows, end.messages).Some? {
      ForkKeepsPairing(cfg, end.rows);
    }
  }

  /** A retry forgets everything after the retried user message and nothing else. */
  lemma RetryRestoresPrefix(cfg: Config, s: SessionState, input: TurnInput)
    requires ValidInput(s, input) && input.retry.Some?
    ensures var base := s.rows[..input.retry.value + 1];
            && StartRows(s, input) == base
            && base[|base| - 1].role.User?
            && base <= Turn(cfg, s, input).session.rows
  {
    var st := StartLoop(cfg, s, input);
    LoopStaysInSync(st.messages, st.rows, st, Budget(cfg), cfg.maxToolOutputChars, input.oracle);
  }
}
