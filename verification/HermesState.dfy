/**
 The message store of an agent thread (src/media2text/agent/hermes_state.py).

 The `messages` table is a set of records; SQL reads it with `MAX(seq)`, `DELETE ... seq > ?` and
 `ORDER BY seq`.  The module shows that, whatever mix of inserts and truncations is applied, the
 table is a faithful picture of one list per session, and that the class `SessionDB` keeps it so.
 */
module HermesState {
  import opened Wrappers

  /** Stands for the UUIDs of the program; `SessionDB` hands out ids that were never used before. */
  type Id = nat

  datatype Role = User | Assistant | Tool | System
  datatype Kind = Normal | CompressionSummary

  datatype ToolCall = ToolCall(id: string, name: string, arguments: string)

  datatype MessageRow = MessageRow(
    role: Role,
    content: Option<string>,
    toolCallId: Option<string>,
    toolName: Option<string>,
    toolCalls: Option<seq<ToolCall>>,
    thinking: Option<string>,
    kind: Kind)

  /** One line of the `messages` table. */
  datatype Record = Record(id: Id, session: Id, seqNo: nat, msg: MessageRow)

  /** One message of the list that is sent to the model. */
  datatype Message = Message(
    role: Role,
    content: Option<string>,
    toolCalls: Option<seq<ToolCall>>,
    toolCallId: Option<string>)

  /** The persisted counters and the review flag (src/media2text/agent/agent_state.py). */
  datatype AgentState = AgentState(turnsSinceMemory: int, itersSinceSkill: int, reviewInFlight: bool)

  datatype SessionRow = SessionRow(
    thread: string,
    parent: Option<Id>,
    createdAt: nat,
    tokenEstimate: nat,
    agentState: Option<AgentState>)

  const SUMMARY_PREFIX := "[compression_summary]\n"

  function Replay(m: MessageRow): Message {
    if m.role.Assistant? && m.toolCalls.Some? then
      Message(Assistant, m.content, m.toolCalls, None)
    else if m.role.Tool? then
      Message(Tool, Some(m.content.GetOr("")), None, m.toolCallId)
    else if m.kind.CompressionSummary? then
      Message(Assistant, Some(SUMMARY_PREFIX + m.content.GetOr("")), None, None)
    else
      Message(m.role, Some(m.content.GetOr("")), None, None)
  }

  function ReplayAll(rows: seq<MessageRow>): (ms: seq<Message>)
    ensures |ms| == |rows|
  {
    seq(|rows|, i requires 0 <= i < |rows| => Replay(rows[i]))
  }

  /** The row carries tool calls for the model to see again. */
  predicate IsBatchRow(row: MessageRow) {
    row.role.Assistant? && row.toolCalls.Some?
  }

  /**
   What the model sees of a row: its role and its text, as they were stored.  A summary appears as a
   marked text of the assistant; only a tool row has a call id, only a batch has calls, and only its
   text may be missing.
   */
  ghost predicate IsReplayOf(row: MessageRow, m: Message) {
    var summary := row.kind.CompressionSummary? && !row.role.Tool? && !IsBatchRow(row);
    && m.role == (if summary then Assistant else row.role)
    && (IsBatchRow(row) ==> m.content == row.content && m.toolCalls == row.toolCalls)
    && (!IsBatchRow(row) ==> m.content.Some? && m.toolCalls.None?)
    && (!IsBatchRow(row) && !summary ==> m.content.value == row.content.GetOr(""))
    && (summary ==> m.content.value == "[compression_summary]\n" + row.content.GetOr(""))
    && m.toolCallId == (if row.role.Tool? then row.toolCallId else None)
  }

  lemma ReplayIs(row: MessageRow)
    ensures IsReplayOf(row, Replay(row))
  {
  }

  lemma ReplayConcat(a: seq<MessageRow>, b: seq<MessageRow>)
    ensures ReplayAll(a + b) == ReplayAll(a) + ReplayAll(b)
  {
  }

  function Rows(log: seq<Record>): (rows: seq<MessageRow>)
    ensures |rows| == |log|
  {
    seq(|log|, i requires 0 <= i < |log| => log[i].msg)
  }

  lemma RowsConcat(a: seq<Record>, b: seq<Record>)
    ensures Rows(a + b) == Rows(a) + Rows(b)
  {
  }

  // ---------------------------------------------------------------------------------------------
  // The table as a set of records
  // ---------------------------------------------------------------------------------------------

  function RowsOf(table: set<Record>, sid: Id): set<Record> {
    set r | r in table && r.session == sid
  }

  predicate IsMax(s: set<nat>, m: nat) {
    m in s && forall k :: k in s ==> k <= m
  }

  /** `COALESCE(MAX(seq), 0)` over a set of records. */
  function MaxSeq(rows: set<Record>): (m: nat)
    ensures forall r :: r in rows ==> r.seqNo <= m
    ensures rows != {} ==> exists r :: r in rows && r.seqNo == m
    ensures rows == {} ==> m == 0
  {
    var nos := set r | r in rows :: r.seqNo;
    assert forall r :: r in rows ==> r.seqNo in nos;
    if nos == {} then 0
    else
      SetHasMax(nos);
      var m: nat :| m in nos && IsMax(nos, m);
      m
  }

  lemma SetHasMax(s: set<nat>)
    requires s != {}
    ensures exists m :: IsMax(s, m)
  {
    var x :| x in s;
    if s == {x} {
      assert IsMax(s, x);
    } else {
      SetHasMax(s - {x});
      var m :| IsMax(s - {x}, m);
      var top := if x <= m then m else x;
      forall k | k in s ensures k <= top {
        assert k == x || k in s - {x};
      }
      assert IsMax(s, top);
    }
  }

  predicate UniqueSeq(rows: set<Record>) {
    forall a, b :: a in rows && b in rows && a.seqNo == b.seqNo ==> a == b
  }

  predicate IsFirst(rows: set<Record>, r: Record) {
    r in rows && forall q :: q in rows ==> r.seqNo <= q.seqNo
  }

  lemma HasFirst(rows: set<Record>)
    requires rows != {}
    ensures exists r :: IsFirst(rows, r)
  {
    var x :| x in rows;
    if rows == {x} {
      assert IsFirst(rows, x);
    } else {
      HasFirst(rows - {x});
      var r :| IsFirst(rows - {x}, r);
      assert IsFirst(rows, if x.seqNo < r.seqNo then x else r);
    }
  }

  /** `ORDER BY seq`; the unique index on (session_id, seq) makes the order unambiguous. */
  function OrderBySeq(rows: set<Record>): (log: seq<Record>)
    requires UniqueSeq(rows)
  {
    if rows == {} then []
    else
      HasFirst(rows);
      var r :| IsFirst(rows, r);
      [r] + OrderBySeq(rows - {r})
  }

  function Insert(table: set<Record>, sid: Id, id: Id, msg: MessageRow): set<Record> {
    table + {Record(id, sid, MaxSeq(RowsOf(table, sid)) + 1, msg)}
  }

  function DeleteAfter(table: set<Record>, sid: Id, after: int): set<Record> {
    set r | r in table && !(r.session == sid && r.seqNo > after)
  }

  // ---------------------------------------------------------------------------------------------
  // Refinement to one list per session
  // ---------------------------------------------------------------------------------------------

  /** `log` lists the records of `sid`, and the sequence numbers are exactly 1..|log|. */
  ghost predicate IsLog(table: set<Record>, sid: Id, log: seq<Record>) {
    && (forall i :: 0 <= i < |log| ==> log[i].seqNo == i + 1)
    && (forall r :: r in log <==> r in table && r.session == sid)
  }

  /** The sorted read of a session is its list, so replay order is append order. */
  lemma {:induction false} ReadIsLog(table: set<Record>, sid: Id, log: seq<Record>)
    requires IsLog(table, sid, log)
    ensures UniqueSeq(RowsOf(table, sid))
    ensures OrderBySeq(RowsOf(table, sid)) == log
    ensures MaxSeq(RowsOf(table, sid)) == |log|
  {
    var rows := RowsOf(table, sid);
    assert forall r :: r in rows <==> r in log;
    assert log[0..] == log;
    ReadIsSuffix(rows, log, 0);
    if log != [] {
      assert log[|log| - 1] in rows;
    }
  }

  lemma {:induction false} ReadIsSuffix(rows: set<Record>, log: seq<Record>, k: nat)
    requires k <= |log|
    requires forall i :: 0 <= i < |log| ==> log[i].seqNo == i + 1
    requires forall r :: r in rows <==> r in log[k..]
    ensures UniqueSeq(rows)
    ensures OrderBySeq(rows) == log[k..]
    decreases |log| - k
  {
    if k == |log| {
      assert rows == {};
    } else {
      var head := log[k];
      assert log[k..] == [head] + log[k + 1..];
      assert head !in log[k + 1..];
      ReadIsSuffix(rows - {head}, log, k + 1);
      assert UniqueSeq(rows);
      assert IsFirst(rows, head);
      assert forall r :: IsFirst(rows, r) ==> r == head;
    }
  }

  /** The whole table as a list for every session. */
  ghost predicate Refines(table: set<Record>, logs: map<Id, seq<Record>>) {
    forall s {:trigger IsLog(table, s, logs[s])} :: s in logs ==> IsLog(table, s, logs[s])
  }

  /** A run of table statements. */
  datatype TableOp =
    | InsertOp(sid: Id, id: Id, msg: MessageRow)
    | DeleteAfterOp(sid: Id, after: int)

  function RunTable(table: set<Record>, ops: seq<TableOp>): set<Record>
    decreases |ops|
  {
    if ops == [] then table
    else
      var before := RunTable(table, ops[..|ops| - 1]);
      match ops[|ops| - 1]
      case InsertOp(sid, id, msg) => Insert(before, sid, id, msg)
      case DeleteAfterOp(sid, after) => DeleteAfter(before, sid, after)
  }

  /** What the same statements mean for the list of session `sid`. */
  function RunList(log: seq<Record>, sid: Id, ops: seq<TableOp>): seq<Record>
    decreases |ops|
  {
    if ops == [] then log
    else
      var before := RunList(log, sid, ops[..|ops| - 1]);
      match ops[|ops| - 1]
      case InsertOp(s, id, msg) =>
        if s == sid then before + [Record(id, sid, |before| + 1, msg)] else before
      case DeleteAfterOp(s, after) =>
        if s == sid then before[..Clamp(after, |before|)] else before
  }

  function Clamp(k: int, n: nat): (c: nat)
    ensures c <= n
  {
    if k < 0 then 0 else if k > n then n else k
  }

  lemma InsertOther(table: set<Record>, sid: Id, log: seq<Record>, r: Record)
    requires IsLog(table, sid, log) && r.session != sid
    ensures IsLog(table + {r}, sid, log)
  {
  }

  lemma InsertSame(table: set<Record>, sid: Id, log: seq<Record>, r: Record)
    requires IsLog(table, sid, log) && r.session == sid && r.seqNo == |log| + 1
    ensures IsLog(table + {r}, sid, log + [r])
  {
    forall q ensures q in log + [r] <==> q in table + {r} && q.session == sid {
      assert q in log + [r] <==> q in log || q == r;
    }
  }

  lemma InsertRefines(table: set<Record>, sid: Id, log: seq<Record>, s: Id, id: Id, msg: MessageRow)
    requires IsLog(table, sid, log)
    ensures IsLog(Insert(table, s, id, msg), sid,
                  if s == sid then log + [Record(id, sid, |log| + 1, msg)] else log)
  {
    var added := Record(id, s, MaxSeq(RowsOf(table, s)) + 1, msg);
    if s == sid {
      ReadIsLog(table, sid, log);
      InsertSame(table, sid, log, added);
    } else {
      InsertOther(table, sid, log, added);
    }
  }

  lemma DeleteRefines(table: set<Record>, sid: Id, log: seq<Record>, s: Id, after: int)
    requires IsLog(table, sid, log)
    ensures IsLog(DeleteAfter(table, s, after), sid,
                  if s == sid then log[..Clamp(after, |log|)] else log)
  {
  }

  lemma InsertRefinesAll(table: set<Record>, logs: map<Id, seq<Record>>, r: Record)
    requires Refines(table, logs) && r.session in logs && r.seqNo == |logs[r.session]| + 1
    ensures Refines(table + {r}, logs[r.session := logs[r.session] + [r]])
  {
    var logs' := logs[r.session := logs[r.session] + [r]];
    forall s | s in logs' ensures IsLog(table + {r}, s, logs'[s]) {
      assert IsLog(table, s, logs[s]);
      if s == r.session {
        InsertSame(table, s, logs[s], r);
      } else {
        InsertOther(table, s, logs[s], r);
      }
    }
  }

  lemma DeleteRefinesAll(table: set<Record>, logs: map<Id, seq<Record>>, sid: Id, after: int)
    requires Refines(table, logs) && sid in logs
    ensures Refines(DeleteAfter(table, sid, after), logs[sid := logs[sid][..Clamp(after, |logs[sid]|)]])
  {
    var logs' := logs[sid := logs[sid][..Clamp(after, |logs[sid]|)]];
    forall s | s in logs' ensures IsLog(DeleteAfter(table, sid, after), s, logs'[s]) {
      assert IsLog(table, s, logs[s]);
      DeleteRefines(table, s, logs[s], sid, after);
    }
  }

  /**
   Any mix of appends and truncations, on any sessions, leaves every session dense (1..n), and the
   sorted read of a session is the list obtained by appending and truncating that session alone.
   */
  lemma {:induction false} RunRefinesList(table: set<Record>, sid: Id, log: seq<Record>, ops: seq<TableOp>)
    requires IsLog(table, sid, log)
    ensures IsLog(RunTable(table, ops), sid, RunList(log, sid, ops))
    ensures UniqueSeq(RowsOf(RunTable(table, ops), sid))
    ensures OrderBySeq(RowsOf(RunTable(table, ops), sid)) == RunList(log, sid, ops)
    decreases |ops|
  {
    if ops != [] {
      var front := ops[..|ops| - 1];
      RunRefinesList(table, sid, log, front);
      var t, l := RunTable(table, front), RunList(log, sid, front);
      match ops[|ops| - 1]
      case InsertOp(s, id, msg) => InsertRefines(t, sid, l, s, id, msg);
      case DeleteAfterOp(s, after) => DeleteRefines(t, sid, l, s, after);
    }
    ReadIsLog(RunTable(table, ops), sid, RunList(log, sid, ops));
  }

  /** Appending any messages and then truncating at an earlier row restores the list as it was then. */
  lemma {:induction false} TruncateUndoesAppends(log: seq<Record>, sid: Id, added: seq<TableOp>)
    requires forall op :: op in added ==> op.InsertOp?
    ensures RunList(log, sid, added + [DeleteAfterOp(sid, |log|)]) == log
  {
    var ops := added + [DeleteAfterOp(sid, |log|)];
    assert ops[..|ops| - 1] == added;
    InsertsExtend(log, sid, added);
  }

  lemma {:induction false} InsertsExtend(log: seq<Record>, sid: Id, ops: seq<TableOp>)
    requires forall op :: op in ops ==> op.InsertOp?
    ensures log <= RunList(log, sid, ops)
    decreases |ops|
  {
    if ops != [] {
      assert ops[|ops| - 1] in ops;
      InsertsExtend(log, sid, ops[..|ops| - 1]);
    }
  }

  // ---------------------------------------------------------------------------------------------
  // SessionDB
  // ---------------------------------------------------------------------------------------------

  predicate IsActive(sessions: map<Id, SessionRow>, thread: string, sid: Id) {
    && sid in sessions
    && sessions[sid].thread == thread
    && forall s :: s in sessions && sessions[s].thread == thread ==> sessions[s].createdAt <= sessions[sid].createdAt
  }

  /** `messages.id` is a primary key, and no id at or above `nextId` is in use. */
  ghost predicate IdsUnique(table: set<Record>, nextId: Id) {
    && (forall r :: r in table ==> r.id < nextId && r.session < nextId)
    && (forall r, q :: r in table && q in table && r.id == q.id ==> r == q)
  }

  lemma InsertKeepsIds(table: set<Record>, r: Record)
    requires IdsUnique(table, r.id) && r.session < r.id
    ensures IdsUnique(table + {r}, r.id + 1)
  {
  }

  /** A session younger than all others is the active one of its thread. */
  lemma YoungestIsActive(sessions: map<Id, SessionRow>, sid: Id)
    requires sid in sessions
    requires forall s :: s in sessions && s != sid ==> sessions[s].createdAt < sessions[sid].createdAt
    ensures IsActive(sessions, sessions[sid].thread, sid)
    ensures forall s :: IsActive(sessions, sessions[sid].thread, s) ==> s == sid
  {
  }

  class SessionDB {
    var sessions: map<Id, SessionRow>
    var messages: set<Record>
    var clock: nat
    var nextId: nat
    /** The list each session stands for. */
    ghost var logs: map<Id, seq<Record>>

    ghost predicate Valid()
      reads this
    {
      && logs.Keys == sessions.Keys
      && (forall s :: s in sessions ==> s < nextId && sessions[s].createdAt <= clock)
      && IdsUnique(messages, nextId)
      && Refines(messages, logs)
    }

    constructor ()
      ensures Valid() && sessions == map[] && messages == {} && logs == map[]
    {
      sessions, messages, clock, nextId, logs := map[], {}, 0, 0, map[];
    }

    /** Creation times are strictly increasing, so the new session becomes the thread's active one. */
    method CreateSession(thread: string, parent: Option<Id>) returns (sid: Id)
      requires Valid()
      modifies this
      ensures Valid()
      ensures sid !in old(sessions)
      ensures sessions == old(sessions)[sid := SessionRow(thread, parent, clock, 0, None)]
      ensures logs == old(logs)[sid := []]
      ensures messages == old(messages)
      ensures forall s :: s in old(sessions) ==> old(sessions)[s].createdAt < clock
    {
      sid := nextId;
      clock := clock + 1;
      nextId := nextId + 1;
      sessions := sessions[sid := SessionRow(thread, parent, clock, 0, None)];
      logs := logs[sid := []];
    }

    method ForkSession(parent: Id) returns (child: Result<Id, string>)
      requires Valid()
      modifies this
      ensures Valid()
      ensures child.Failure? <==> parent !in old(sessions)
      ensures child.Failure? ==> sessions == old(sessions) && logs == old(logs) && messages == old(messages)
      ensures child.Success? ==>
                && child.value !in old(sessions)
                && sessions == old(sessions)[child.value :=
                     SessionRow(old(sessions)[parent].thread, Some(parent), clock, 0, None)]
                && logs == old(logs)[child.value := []]
      ensures forall s :: s in old(sessions) && child.Success? ==> old(sessions)[s].createdAt < clock
    {
      if parent !in sessions {
        return Failure("parent session not found");
      }
      var sid := CreateSession(sessions[parent].thread, Some(parent));
      return Success(sid);
    }

    method GetActiveSessionForThread(thread: string) returns (active: Result<Id, string>)
      requires Valid()
      ensures active.Success? ==> IsActive(sessions, thread, active.value)
      ensures active.Failure? <==> forall s :: s in sessions ==> sessions[s].thread != thread
    {
      var todo := sessions.Keys;
      active := Failure("thread not found");
      while todo != {}
        invariant todo <= sessions.Keys
        invariant active.Success? ==>
            && active.value in sessions && sessions[active.value].thread == thread
            && forall s :: s in sessions.Keys - todo && sessions[s].thread == thread ==>
                 sessions[s].createdAt <= sessions[active.value].createdAt
        invariant active.Failure? ==> forall s :: s in sessions.Keys - todo ==> sessions[s].thread != thread
        decreases |todo|
      {
        var s :| s in todo;
        todo := todo - {s};
        if sessions[s].thread == thread &&
           (active.Failure? || sessions[active.value].createdAt < sessions[s].createdAt) {
          active := Success(s);
        }
      }
    }

    /** `SELECT COALESCE(MAX(seq), 0) + 1 FROM messages WHERE session_id = ?` */
    method NextSeq(sid: Id) returns (no: nat)
      requires Valid() && sid in sessions
      ensures no == |logs[sid]| + 1
    {
      assert IsLog(messages, sid, logs[sid]);
      ReadIsLog(messages, sid, logs[sid]);
      no := MaxSeq(RowsOf(messages, sid)) + 1;
    }

    /** `SELECT * FROM messages WHERE session_id = ? ORDER BY seq` */
    method SelectMessages(sid: Id) returns (rows: seq<Record>)
      requires Valid() && sid in sessions
      ensures rows == logs[sid]
    {
      assert IsLog(messages, sid, logs[sid]);
      ReadIsLog(messages, sid, logs[sid]);
      rows := OrderBySeq(RowsOf(messages, sid));
    }

    method AppendMessage(sid: Id, msg: MessageRow) returns (id: Id)
      requires Valid() && sid in sessions
      modifies this`messages, this`nextId, this`logs
      ensures Valid()
      ensures id == old(nextId)
      ensures logs == old(logs)[sid := old(logs)[sid] + [Record(id, sid, |old(logs)[sid]| + 1, msg)]]
    {
      var no := NextSeq(sid);
      var r := Record(nextId, sid, no, msg);
      InsertRefinesAll(messages, logs, r);
      InsertKeepsIds(messages, r);
      id := nextId;
      nextId := nextId + 1;
      messages := messages + {r};
      logs := logs[sid := logs[sid] + [r]];
    }

    method DeleteMessagesAfter(sid: Id, after: int)
      requires Valid() && sid in sessions
      modifies this`messages, this`logs
      ensures Valid()
      ensures logs == old(logs)[sid := old(logs)[sid][..Clamp(after, |old(logs)[sid]|)]]
    {
      DeleteRefinesAll(messages, logs, sid, after);
      messages := DeleteAfter(messages, sid, after);
      logs := logs[sid := logs[sid][..Clamp(after, |logs[sid]|)]];
    }

    method GetMessageById(id: Id) returns (found: Option<Record>)
      requires Valid()
      ensures found.Some? ==> found.value in messages && found.value.id == id
      ensures found.None? ==> forall r :: r in messages ==> r.id != id
    {
      var hits := set r | r in messages && r.id == id;
      if hits == {} {
        assert forall r :: r in messages && r.id == id ==> r in hits;
        return None;
      }
      var r :| r in hits;
      return Some(r);
    }

    method GetMessagesAsConversation(sid: Id) returns (out: seq<Message>)
      requires Valid() && sid in sessions
      ensures |out| == |logs[sid]| && forall i :: 0 <= i < |out| ==> IsReplayOf(logs[sid][i].msg, out[i])
      ensures out == ReplayAll(Rows(logs[sid]))
    {
      var rows := SelectMessages(sid);
      out := [];
      for i := 0 to |rows|
        invariant out == ReplayAll(Rows(rows[..i]))
        invariant forall k :: 0 <= k < i ==> IsReplayOf(rows[k].msg, out[k])
      {
        ReplayIs(rows[i].msg);
        out := out + [Replay(rows[i].msg)];
      }
      assert rows[..|rows|] == rows;
    }

    method CountUserMessages(sid: Id) returns (n: nat)
      requires Valid() && sid in sessions
      ensures n == UserCount(Rows(logs[sid]))
    {
      var rows := SelectMessages(sid);
      var msgs := Rows(rows);
      n := 0;
      for i := 0 to |msgs|
        invariant n == UserCount(msgs[..i])
      {
        assert msgs[..i + 1] == msgs[..i] + [msgs[i]];
        UserCountSnoc(msgs[..i], msgs[i]);
        if IsUserTurn(msgs[i]) {
          n := n + 1;
        }
      }
      assert msgs[..|msgs|] == msgs;
    }

    method UpdateAgentState(sid: Id, st: AgentState)
      requires Valid() && sid in sessions
      modifies this`sessions
      ensures Valid()
      ensures sessions == old(sessions)[sid := old(sessions)[sid].(agentState := Some(st))]
    {
      sessions := sessions[sid := sessions[sid].(agentState := Some(st))];
    }

    method CopyAgentState(parent: Id, child: Id)
      requires Valid() && child in sessions
      modifies this`sessions
      ensures Valid()
      ensures sessions ==
              if parent in old(sessions) && old(sessions)[parent].agentState.Some?
              then old(sessions)[child := old(sessions)[child].(agentState := old(sessions)[parent].agentState)]
              else old(sessions)
    {
      if parent in sessions && sessions[parent].agentState.Some? {
        sessions := sessions[child := sessions[child].(agentState := sessions[parent].agentState)];
      }
    }

    method UpdateTokenEstimate(sid: Id, tokens: nat)
      requires Valid() && sid in sessions
      modifies this`sessions
      ensures Valid()
      ensures sessions == old(sessions)[sid := old(sessions)[sid].(tokenEstimate := tokens)]
    {
      sessions := sessions[sid := sessions[sid].(tokenEstimate := tokens)];
    }
  }

  predicate IsUserTurn(m: MessageRow) {
    m.role.User? && m.kind.Normal?
  }

  function UserCount(rows: seq<MessageRow>): nat {
    if rows == [] then 0
    else UserCount(rows[..|rows| - 1]) + if IsUserTurn(rows[|rows| - 1]) then 1 else 0
  }

  lemma UserCountSnoc(rows: seq<MessageRow>, m: MessageRow)
    ensures UserCount([]) == 0
    ensures UserCount(rows + [m]) == UserCount(rows) + if m.role.User? && m.kind.Normal? then 1 else 0
  {
    assert (rows + [m])[..|rows|] == rows;
  }
}
