/**
 The agent itself (src/media2text/agent/ai_agent.py): `run_conversation` carried out step by step on
 the session store, proved to do what `TurnEngine.Turn` says.
 */
module AiAgent {
  import opened Wrappers
  import opened Text
  import opened HermesState
  import opened AgentConfig
  import opened AgentTurnHooks
  import opened ContextCompressor
  import opened TurnEngine
  import opened TurnExits

  /** src/media2text/agent/iteration_budget.py */
  class IterationBudget {
    const max: nat
    var used: nat

    constructor (maxTurns: int)
      ensures max == (if maxTurns < 1 then 1 else maxTurns) && used == 0
    {
      max := if maxTurns < 1 then 1 else maxTurns;
      used := 0;
    }

    predicate Exhausted()
      reads this
    {
      used >= max
    }

    function Remaining(): (n: nat)
      reads this
      ensures n == 0 <==> Exhausted()
    {
      if max < used then 0 else max - used
    }

    /** Each consumption uses up one iteration; this is what bounds the turn. */
    method Consume()
      modifies this
      ensures used == old(used) + 1
      ensures !old(Exhausted()) ==> Remaining() == old(Remaining()) - 1
    {
      used := used + 1;
    }
  }

  datatype Outcome =
    | Returned(text: string)
    | TurnCancelled
    | KeyError
    | ValueError

  /**
   What the caller gets, by the reply at which the turn stops: the answer without the whitespace around
   it, the message of an error, the notice of exhaustion, or a cancellation.
   */
  ghost predicate OutcomeIs(outcome: Outcome, oracle: nat -> Reply, max: nat, k: nat) {
    if k >= max then outcome == Returned("抱歉，本轮对话迭代次数已达上限。")
    else
      match oracle(k)
      case Answer(content, _) => outcome == Returned(Strip(content.GetOr("")))
      case Raised(message) => outcome == Returned(message)
      case CancelFlagSet => outcome == TurnCancelled
      case CancelledInCall => outcome == TurnCancelled
      case Batch(_, _, _, _) => false
  }

  lemma OutcomeFollows(cfg: Config, s: SessionState, input: TurnInput, end: LoopEnd)
    requires ValidInput(s, input) && IsTurn(cfg, s, input, end)
    ensures var outcome := if end.exit.Cancelled? then TurnCancelled else Returned(end.finalText);
            forall k :: StopsAt(input.oracle, 0, Budget(cfg), k) ==> OutcomeIs(outcome, input.oracle, Budget(cfg), k)
  {
  }

  type Sessions = map<Id, SessionRow>
  type Logs = map<Id, seq<Record>>

  /** Everything the store holds about a session that a turn may change. */
  ghost function StateIn(sessions: Sessions, logs: Logs, sid: Id): SessionState
    requires sid in logs && sid in sessions
  {
    SessionState(Rows(logs[sid]), sessions[sid].agentState)
  }

  ghost function StateOf(db: SessionDB, sid: Id): SessionState
    reads db
    requires sid in db.logs && sid in db.sessions
  {
    StateIn(db.sessions, db.logs, sid)
  }

  /** `sid` is the only log in which the two states of the store may differ. */
  twostate predicate OnlyLogOf(db: SessionDB, sid: Id)
    reads db
  {
    && db.logs.Keys == old(db.logs).Keys
    && forall s :: s in db.logs && s != sid ==> db.logs[s] == old(db.logs)[s]
  }

  method AppendResults(db: SessionDB, sid: Id, done: seq<Done>, limit: int, start: seq<Message>)
    returns (messages: seq<Message>)
    requires db.Valid() && sid in db.sessions
    modifies db`messages, db`nextId, db`logs
    ensures db.Valid() && OnlyLogOf(db, sid)
    ensures messages == start + ResultMessages(done, limit)
    ensures Rows(db.logs[sid]) == Rows(old(db.logs)[sid]) + ResultRows(done, limit)
  {
    messages := start;
    for i := 0 to |done|
      invariant db.Valid() && OnlyLogOf(db, sid)
      invariant messages == start + ResultMessages(done[..i], limit)
      invariant Rows(db.logs[sid]) == Rows(old(db.logs)[sid]) + ResultRows(done[..i], limit)
    {
      var text := Truncate(done[i].output, limit);
      messages := messages + [Message(Tool, Some(text), None, Some(done[i].call.id))];
      AppendOne(db, sid, MessageRow(Tool, Some(text), Some(done[i].call.id), Some(done[i].call.name),
                                    None, None, Normal));
      assert ResultRows(done[..i + 1], limit) == ResultRows(done[..i], limit) + [ResultRow(done[i], limit)];
      assert ResultMessages(done[..i + 1], limit) == ResultMessages(done[..i], limit) + [ResultMessage(done[i], limit)];
    }
    assert done[..|done|] == done;
  }

  /** The batch row first, then its results in the order in which they completed. */
  method RunBatch(db: SessionDB, sid: Id, reply: Reply, limit: int, start: seq<Message>)
    returns (messages: seq<Message>)
    requires db.Valid() && sid in db.sessions && reply.Batch?
    modifies db`messages, db`nextId, db`logs
    ensures db.Valid() && OnlyLogOf(db, sid)
    ensures messages == start + [BatchMessage(reply)] + ResultMessages(reply.done, limit)
    ensures Rows(db.logs[sid]) == Rows(old(db.logs)[sid]) + [BatchRow(reply)] + ResultRows(reply.done, limit)
  {
    messages := start + [BatchMessage(reply)];
    AppendOne(db, sid, BatchRow(reply));
    messages := AppendResults(db, sid, reply.done, limit, messages);
  }

  /** The `while not budget.exhausted` loop of a turn, from its first iteration to its exit. */
  method Iterate(db: SessionDB, sid: Id, cfg: Config, start: seq<Message>, oracle: nat -> Reply)
    returns (end: LoopEnd)
    requires db.Valid() && sid in db.sessions
    modifies db`messages, db`nextId, db`logs
    ensures db.Valid() && OnlyLogOf(db, sid)
    ensures end == Loop(LoopState(Rows(old(db.logs)[sid]), start, 0, 0, []), Budget(cfg),
                        cfg.maxToolOutputChars, oracle)
    ensures Rows(db.logs[sid]) == end.st.rows
  {
    var budget := new IterationBudget(cfg.maxTurns);
    var limit := cfg.maxToolOutputChars;
    var messages := start;
    var iters := 0;
    var finalText := "";
    var first := db.SelectMessages(sid);
    var rows := Rows(first);
    var asked := [];
    while !budget.Exhausted()
      invariant db.Valid() && OnlyLogOf(db, sid)
      invariant Rows(db.logs[sid]) == rows
      invariant budget.max == Budget(cfg)
      invariant Loop(LoopState(rows, messages, iters, budget.used, asked), budget.max, limit, oracle)
             == Loop(LoopState(Rows(old(db.logs)[sid]), start, 0, 0, []), budget.max, limit, oracle)
      decreases budget.Remaining()
    {
      var reply := oracle(budget.used);
      if reply.CancelFlagSet? {
        return LoopEnd(LoopState(rows, messages, iters, budget.used, asked), Cancelled, "");
      }
      budget.Consume();
      asked := asked + [LlmCall(messages, rows)];
      match reply
      case CancelFlagSet =>
      case CancelledInCall =>
        return LoopEnd(LoopState(rows, messages, iters, budget.used, asked), Cancelled, "");
      case Raised(message) =>
        AppendOne(db, sid, PlainRow(Assistant, message, None));
        rows := rows + [PlainRow(Assistant, message, None)];
        return LoopEnd(LoopState(rows, messages, iters, budget.used, asked), Failed, message);
      case Answer(content, thinking) =>
        finalText := Strip(content.GetOr(""));
        messages := messages + [PlainMessage(Assistant, finalText)];
        AppendOne(db, sid, PlainRow(Assistant, finalText, thinking));
        rows := rows + [PlainRow(Assistant, finalText, thinking)];
        return LoopEnd(LoopState(rows, messages, iters, budget.used, asked), Answered, finalText);
      case Batch(content, thinking, calls, done) =>
        iters := SkillIters(iters, calls);
        messages := RunBatch(db, sid, reply, limit, messages);
        rows := rows + [BatchRow(reply)] + ResultRows(done, limit);
    }
    AppendOne(db, sid, PlainRow(Assistant, EXHAUSTED_TEXT, None));
    rows := rows + [PlainRow(Assistant, EXHAUSTED_TEXT, None)];
    return LoopEnd(LoopState(rows, messages, iters, budget.used, asked), Exhausted, EXHAUSTED_TEXT);
  }

  /** The loop ends as the replies of the model say. */
  method RunLoop(db: SessionDB, sid: Id, cfg: Config, start: seq<Message>, oracle: nat -> Reply)
    returns (end: LoopEnd)
    requires db.Valid() && sid in db.sessions
    modifies db`messages, db`nextId, db`logs
    ensures db.Valid() && OnlyLogOf(db, sid)
    ensures end == Loop(LoopState(Rows(old(db.logs)[sid]), start, 0, 0, []), Budget(cfg),
                        cfg.maxToolOutputChars, oracle)
    ensures Rows(db.logs[sid]) == end.st.rows
    ensures EndsByReplies(end, LoopState(Rows(old(db.logs)[sid]), start, 0, 0, []), oracle, Budget(cfg),
                          cfg.maxToolOutputChars)
  {
    end := Iterate(db, sid, cfg, start, oracle);
    LoopEndsByReplies(LoopState(Rows(old(db.logs)[sid]), start, 0, 0, []), Budget(cfg), cfg.maxToolOutputChars, oracle);
  }

  /** All sessions but `sid` are as before, and no session disappeared. */
  ghost predicate OthersUnchanged(sessions0: Sessions, logs0: Logs, sessions: Sessions, logs: Logs, sid: Id) {
    forall s :: s in sessions0 ==>
      && s in sessions
      && sessions[s].thread == sessions0[s].thread
      && sessions[s].createdAt == sessions0[s].createdAt
      && (s != sid ==> sessions[s] == sessions0[s] && s in logs && s in logs0 && logs[s] == logs0[s])
  }

  /** The retry target, or `None` if there is no such user message in session `sid`. */
  method FindRetry(db: SessionDB, sid: Id, target: Id) returns (found: Option<nat>)
    requires db.Valid() && sid in db.sessions
    ensures found.Some? ==>
              && found.value < |db.logs[sid]|
              && db.logs[sid][found.value].id == target
              && db.logs[sid][found.value].msg.role.User?
    ensures found.None? ==>
              forall k :: 0 <= k < |db.logs[sid]| && db.logs[sid][k].msg.role.User? ==> db.logs[sid][k].id != target
  {
    var row := db.GetMessageById(target);
    var log := db.SelectMessages(sid);
    assert IsLog(db.messages, sid, log);
    if row.None? || !row.value.msg.role.User? || row.value.session != sid {
      forall k | 0 <= k < |log| && log[k].msg.role.User? ensures log[k].id != target {
        assert log[k] in log;
      }
      return None;
    }
    assert row.value in log;
    return Some(row.value.seqNo - 1);
  }

  /** Hydrates the counters and makes the user message the last row. */
  method OpenTurn(db: SessionDB, cfg: Config, sid: Id, input: TurnInput)
    returns (state: AgentState)
    requires db.Valid() && sid in db.sessions && ValidInput(StateOf(db, sid), input)
    modifies db`messages, db`nextId, db`logs
    ensures db.Valid() && OnlyLogOf(db, sid)
    ensures Rows(db.logs[sid]) == StartRows(old(StateOf(db, sid)), input)
    ensures state == StartState(cfg, old(StateOf(db, sid)), input)
  {
    var retry := input.retry;
    var prior := db.CountUserMessages(sid);
    state := Hydrate(db.sessions[sid].agentState, prior, cfg.nudgeInterval);
    if retry.Some? {
      db.DeleteMessagesAfter(sid, retry.value + 1);
    } else {
      AppendOne(db, sid, PlainRow(User, input.userText, None));
      state := state.(turnsSinceMemory := state.turnsSinceMemory + 1);
    }
    state := state.(itersSinceSkill := 0);
  }

  /** The store changed as the turn `t` says: `sid` is the session it ran in, `active` the one it leaves active. */
  ghost predicate Performed(sessions0: Sessions, logs0: Logs, sessions: Sessions, logs: Logs,
                            sid: Id, active: Id, t: TurnEnd) {
    && sid in sessions && sid in logs && active in sessions && active in logs
    && StateIn(sessions, logs, sid) == t.session
    && StateIn(sessions, logs, active) == Active(t)
    && (t.child.None? <==> active == sid)
    && sessions.Keys == sessions0.Keys + {active}
    && (active != sid ==> NewestFork(sessions0, sessions, sid, active))
    && OthersUnchanged(sessions0, logs0, sessions, logs, sid)
  }

  ghost predicate NewestFork(before: map<Id, SessionRow>, after: map<Id, SessionRow>, sid: Id, active: Id)
    requires active in after
  {
    && sid in before && active !in before
    && after[active].thread == before[sid].thread
    && after[active].parent == Some(sid)
    && forall s :: s in before ==> before[s].createdAt < after[active].createdAt
  }

  /** What the `finally` block has done before it considers a background review. */
  ghost predicate Saved(sessions0: Sessions, logs0: Logs, sessions: Sessions, logs: Logs,
                        sid: Id, active: Id, cfg: Config, end: LoopEnd, saved: AgentState) {
    var plan := PostTurnPlan(cfg, end.st.rows, end.st.messages);
    && sid in sessions0 && sid in sessions && sid in logs && active in sessions && active in logs
    && StateIn(sessions, logs, sid) == SessionState(end.st.rows, Some(saved))
    && (plan.None? <==> active == sid)
    && (plan.Some? ==> StateIn(sessions, logs, active) == SessionState(ForkRows(plan.value), Some(saved)))
    && sessions.Keys == sessions0.Keys + {active}
    && (active != sid ==> NewestFork(sessions0, sessions, sid, active))
    && OthersUnchanged(sessions0, logs0, sessions, logs, sid)
  }

  lemma MarkKeepsOthers(sessions0: Sessions, logs0: Logs, sessions: Sessions, logs: Logs,
                        sid: Id, active: Id, row: SessionRow)
    requires OthersUnchanged(sessions0, logs0, sessions, logs, sid)
    requires active in sessions && (active == sid || active !in sessions0)
    requires row.thread == sessions[active].thread && row.createdAt == sessions[active].createdAt
    ensures OthersUnchanged(sessions0, logs0, sessions[active := row], logs, sid)
  {
  }

  lemma MarkKeepsFork(sessions0: Sessions, sessions: Sessions, sid: Id, active: Id, row: SessionRow)
    requires active in sessions && NewestFork(sessions0, sessions, sid, active)
    requires row == sessions[active].(agentState := row.agentState)
    ensures NewestFork(sessions0, sessions[active := row], sid, active)
  {
  }

  lemma ReviewMarked(sessions0: Sessions, logs0: Logs, sessions: Sessions, logs: Logs, sid: Id, active: Id,
                     cfg: Config, input: TurnInput, saved: AgentState, flags: ReviewFlags, end: LoopEnd)
    requires Saved(sessions0, logs0, sessions, logs, sid, active, cfg, end, saved)
    ensures var t := FinishSaved(cfg, input, saved, flags, end);
            var marked := sessions[active := sessions[active].(agentState := Active(t).agentState)];
            var after := if t.spawned then marked else sessions;
            Performed(sessions0, logs0, after, logs, sid, active, t)
  {
    var t := FinishSaved(cfg, input, saved, flags, end);
    if t.spawned {
      var row := sessions[active].(agentState := Active(t).agentState);
      MarkKeepsOthers(sessions0, logs0, sessions, logs, sid, active, row);
      if active != sid {
        MarkKeepsFork(sessions0, sessions, sid, active, row);
      }
      assert sessions[active := row].Keys == sessions.Keys;
    }
  }

  /** The `finally` block: flags, counters, compression and the background review. */
  method CloseTurn(db: SessionDB, cfg: Config, sid: Id, input: TurnInput, begun: AgentState, end: LoopEnd)
    returns (active: Id, spawned: bool)
    requires db.Valid() && sid in db.sessions && Rows(db.logs[sid]) == end.st.rows
    modifies db
    ensures db.Valid()
    ensures Performed(old(db.sessions), old(db.logs), db.sessions, db.logs, sid, active,
                      FinishTurn(cfg, input, begun, end))
    ensures spawned == FinishTurn(cfg, input, begun, end).spawned
  {
    var counted := begun.(itersSinceSkill := end.st.iters);
    var flags := ComputeReviewFlags(cfg, counted);
    var saved := ApplyReviewResets(counted, flags);
    active := SaveAndCompress(db, cfg, sid, saved, end);
    ReviewMarked(old(db.sessions), old(db.logs), db.sessions, db.logs, sid, active, cfg, input, saved, flags, end);
    spawned := SpawnsReview(cfg, input, end, flags, saved);
    if spawned {
      db.UpdateAgentState(active, saved.(reviewInFlight := true));
    }
  }

  /** What writing the counters and then compressing comes to. */
  lemma CompressionSaved(sessions0: Sessions, logs0: Logs, sessions: Sessions, logs: Logs, sid: Id, active: Id,
                         cfg: Config, end: LoopEnd, saved: AgentState, plan: Option<CompressionPlan>)
    requires sid in sessions0 && sid in logs0 && Rows(logs0[sid]) == end.st.rows
    requires sessions0.Keys == logs0.Keys && sessions.Keys == logs.Keys
    requires plan == PostTurnPlan(cfg, end.st.rows, end.st.messages)
    requires forall s :: s in sessions0 ==> s in logs && logs[s] == logs0[s]
    requires var kept := Measured(sessions0[sid := sessions0[sid].(agentState := Some(saved))],
                                  sid, cfg, end.st.messages);
             if plan.None? then active == sid && sessions == kept
             else
               && active in sessions && active !in sessions0 && sessions == kept[active := sessions[active]]
               && sessions[active].thread == sessions0[sid].thread && sessions[active].parent == Some(sid)
               && sessions[active].agentState == Some(saved)
               && (forall s :: s in sessions0 ==> sessions0[s].createdAt < sessions[active].createdAt)
               && Rows(logs[active]) == ForkRows(plan.value)
    ensures Saved(sessions0, logs0, sessions, logs, sid, active, cfg, end, saved)
  {
    assert StateIn(sessions, logs, sid) == SessionState(end.st.rows, Some(saved));
    assert OthersUnchanged(sessions0, logs0, sessions, logs, sid);
  }

  method SaveAndCompress(db: SessionDB, cfg: Config, sid: Id, saved: AgentState, end: LoopEnd)
    returns (active: Id)
    requires db.Valid() && sid in db.sessions && Rows(db.logs[sid]) == end.st.rows
    modifies db
    ensures db.Valid()
    ensures Saved(old(db.sessions), old(db.logs), db.sessions, db.logs, sid, active, cfg, end, saved)
  {
    db.UpdateAgentState(sid, saved);
    ghost var written := db.sessions;
    var plan;
    active, plan := MaybePostTurnCompress(db, sid, end.st.messages, cfg);
    assert forall s :: s in old(db.sessions) ==> written[s].createdAt == old(db.sessions)[s].createdAt;
    CompressionSaved(old(db.sessions), old(db.logs), db.sessions, db.logs, sid, active, cfg, end, saved, plan);
  }

  /** A turn in a given session, with a retry target that has been found. */
  method RunTurn(db: SessionDB, cfg: Config, sid: Id, input: TurnInput)
    returns (end: LoopEnd, active: Id, spawned: bool)
    requires db.Valid() && sid in db.sessions && ValidInput(StateOf(db, sid), input)
    modifies db
    ensures db.Valid()
    ensures Performed(old(db.sessions), old(db.logs), db.sessions, db.logs, sid, active,
                      Turn(cfg, old(StateOf(db, sid)), input))
    ensures spawned == Turn(cfg, old(StateOf(db, sid)), input).spawned
    ensures end == Turn(cfg, old(StateOf(db, sid)), input).loop
    ensures IsTurn(cfg, old(StateOf(db, sid)), input, end)
  {
    TurnIs(cfg, StateOf(db, sid), input);
    var begun := OpenTurn(db, cfg, sid, input);
    ghost var s0 := old(StateOf(db, sid));
    var replay := db.GetMessagesAsConversation(sid);
    var start := MaybePreflight(input.system + replay, cfg);
    end := RunLoop(db, sid, cfg, start, input.oracle);
    assert end == Loop(StartLoop(cfg, s0, input), Budget(cfg), cfg.maxToolOutputChars, input.oracle);
    active, spawned := CloseTurn(db, cfg, sid, input, begun, end);
  }

  lemma ActiveAfter(before: map<Id, SessionRow>, after: map<Id, SessionRow>, thread: string, sid: Id, active: Id)
    requires IsActive(before, thread, sid) && active in after
    requires after.Keys == before.Keys + {active}
    requires forall s :: s in before ==>
               after[s].thread == before[s].thread && after[s].createdAt == before[s].createdAt
    requires active == sid || NewestFork(before, after, sid, active)
    ensures IsActive(after, thread, active)
  {
  }

  /**
   One turn of a thread.  Unless the thread or the retried message does not exist, the session the
   turn ran in, its fork, the list of model calls, the result and the decision to review are those
   of `TurnEngine.Turn`; nothing else in the store changes, and the fork is the active session.
   */
  method RunConversation(db: SessionDB, cfg: Config, thread: string, userText: string, retryAfter: Option<Id>,
                         system: seq<Message>, oracle: nat -> Reply)
    returns (outcome: Outcome, spawned: bool, asked: seq<LlmCall>,
             ghost sid: Id, ghost active: Id, ghost input: TurnInput)
    requires db.Valid()
    modifies db
    ensures db.Valid()
    ensures outcome.KeyError? <==> forall s :: s in old(db.sessions) ==> old(db.sessions)[s].thread != thread
    ensures !outcome.KeyError? ==> IsActive(old(db.sessions), thread, sid)
    ensures outcome.KeyError? || outcome.ValueError? ==> db.sessions == old(db.sessions) && db.logs == old(db.logs)
    ensures outcome.ValueError? ==>
              && retryAfter.Some?
              && forall k :: 0 <= k < |old(db.logs)[sid]| && old(db.logs)[sid][k].msg.role.User? ==>
                   old(db.logs)[sid][k].id != retryAfter.value
    ensures outcome.Returned? || outcome.TurnCancelled? ==>
              && input == TurnInput(userText, input.retry, system, oracle)
              && ValidInput(old(StateOf(db, sid)), input)
              && (input.retry.Some? <==> retryAfter.Some?)
              && (input.retry.Some? ==> old(db.logs)[sid][input.retry.value].id == retryAfter.value)
    ensures outcome.Returned? || outcome.TurnCancelled? ==>
              var t := Turn(cfg, old(StateOf(db, sid)), input);
              && Performed(old(db.sessions), old(db.logs), db.sessions, db.logs, sid, active, t)
              && IsActive(db.sessions, thread, active)
              && spawned == t.spawned
              && asked == t.loop.st.asked
              && outcome == (if t.loop.exit.Cancelled? then TurnCancelled else Returned(t.loop.finalText))
              && IsTurn(cfg, old(StateOf(db, sid)), input, t.loop)
    ensures outcome.Returned? || outcome.TurnCancelled? ==>
              var max := if cfg.maxTurns < 1 then 1 else cfg.maxTurns;
              forall k :: StopsAt(oracle, 0, max, k) ==> OutcomeIs(outcome, oracle, max, k)
  {
    asked := [];
    var current := db.GetActiveSessionForThread(thread);
    if current.Failure? {
      return KeyError, false, asked, 0, 0, TurnInput(userText, None, system, oracle);
    }
    var session := current.value;
    var retry := None;
    if retryAfter.Some? {
      retry := FindRetry(db, session, retryAfter.value);
      if retry.None? {
        return ValueError, false, asked, session, session, TurnInput(userText, None, system, oracle);
      }
    }
    var turnInput := TurnInput(userText, retry, system, oracle);
    var end, next;
    end, next, spawned := RunTurn(db, cfg, session, turnInput);
    ActiveAfter(old(db.sessions), db.sessions, thread, session, next);
    OutcomeFollows(cfg, old(StateOf(db, session)), turnInput, end);
    asked := end.st.asked;
    sid, active, input := session, next, turnInput;
    outcome := if end.exit.Cancelled? then TurnCancelled else Returned(end.finalText);
  }
}
