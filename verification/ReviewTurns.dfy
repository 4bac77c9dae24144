/**
 The turns of `ReviewLifecycle` are those of `TurnEngine`: a turn of the engine that nothing disturbs is a
 run of the machine's steps, and conversely every number of iterations within the budget is that of an
 answered turn.
 */
module ReviewTurns {
  import opened Wrappers
  import opened Text
  import opened HermesState
  import opened AgentConfig
  import opened AgentTurnHooks
  import opened ContextCompressor
  import opened TurnEngine
  import opened ReviewLifecycle
  import opened ReviewStarts

  // ---------------------------------------------------------------------------------------------
  // From the engine to the machine
  // ---------------------------------------------------------------------------------------------

  function OpeningStep(s: SessionState, input: TurnInput): Step
    requires ValidInput(s, input)
  {
    if input.retry.Some? then Retry(UserCount(StartRows(s, input))) else Begin
  }

  /** The loop ended by itself and left a text. */
  predicate HasAnswer(end: LoopEnd) {
    (end.exit.Answered? || end.exit.Exhausted?) && Strip(end.finalText) != ""
  }

  function ClosingSteps(spawned: bool): seq<Step> {
    if spawned then [Finish] + ([Spawn] + []) else [Finish] + []
  }

  /** What follows the write-back. */
  function TailSteps(t: TurnEnd): seq<Step> {
    if t.child.None? then [KeepSession] + ClosingSteps(t.spawned)
    else [Fork(0)] + ([CopyRead] + ([CopyWrite] + ClosingSteps(t.spawned)))
  }

  /** The steps of a turn that nothing interrupts. */
  function TurnSteps(s: SessionState, input: TurnInput, t: TurnEnd): seq<Step>
    requires ValidInput(s, input)
  {
    [OpeningStep(s, input)] + ([WriteBack(t.loop.st.iters, HasAnswer(t.loop))] + TailSteps(t))
  }

  /** The thread of one session in which the turn runs. */
  function ThreadOf(s: SessionState): World {
    World([Session(s.agentState, UserCount(s.rows))], Idle, [])
  }

  lemma {:induction false} FewerUsers(rows: seq<MessageRow>, k: nat)
    requires k <= |rows|
    ensures UserCount(rows[..k]) <= UserCount(rows)
    decreases |rows|
  {
    if k < |rows| {
      assert rows[..|rows| - 1][..k] == rows[..k];
      FewerUsers(rows[..|rows| - 1], k);
    } else {
      assert rows[..k] == rows;
    }
  }

  lemma {:induction false} Opens(cfg: Config, s: SessionState, input: TurnInput)
    requires ValidInput(s, input)
    ensures var v := Next(cfg, ThreadOf(s), OpeningStep(s, input));
            && v.phase == Running(StartState(cfg, s, input), input.retry.None?)
            && |v.sessions| == 1 && v.sessions[0].state == s.agentState && v.reviews == []
  {
    if input.retry.Some? {
      FewerUsers(s.rows, input.retry.value + 1);
    }
  }

  /** No turn makes more iterations than its budget. */
  lemma {:induction false} LoopIters(st: LoopState, max: nat, limit: int, oracle: nat -> Reply)
    requires st.iters <= st.used <= max
    ensures Loop(st, max, limit, oracle).st.iters <= max
    decreases max - st.used
  {
    if st.used < max && oracle(st.used).Batch? {
      LoopIters(AfterBatch(Ask(st), oracle(st.used), limit), max, limit, oracle);
    }
  }

  /** What a turn saves before it may fork, and whether it calls for a review. */
  function SavedBy(cfg: Config, s: SessionState, input: TurnInput): AgentState
    requires ValidInput(s, input)
  {
    Saved(cfg, StartState(cfg, s, input), Turn(cfg, s, input).loop.st.iters)
  }

  predicate WantedBy(cfg: Config, s: SessionState, input: TurnInput)
    requires ValidInput(s, input)
  {
    var end := Turn(cfg, s, input).loop;
    input.retry.None? && HasAnswer(end) && CallsForReview(cfg, StartState(cfg, s, input), end.st.iters)
  }

  function Flagged(saved: AgentState, spawned: bool): Option<AgentState> {
    Some(if spawned then saved.(reviewInFlight := true) else saved)
  }

  /** What a turn leaves in the state columns. */
  lemma {:induction false} TurnLeaves(cfg: Config, s: SessionState, input: TurnInput)
    requires ValidInput(s, input)
    ensures var t, saved := Turn(cfg, s, input), SavedBy(cfg, s, input);
            && (t.spawned <==> WantedBy(cfg, s, input) && !saved.reviewInFlight)
            && TurnEngine.Active(t).agentState == Flagged(saved, t.spawned)
            && (t.child.Some? ==> CanFork(cfg) && t.session.agentState == Some(saved))
            && t.loop.st.iters <= Budget(cfg)
  {
    var t := Turn(cfg, s, input);
    LoopIters(StartLoop(cfg, s, input), Budget(cfg), cfg.maxToolOutputChars, input.oracle);
    PlanExistsIff(cfg, t.loop.st.rows);
  }

  lemma {:induction false} Closes(cfg: Config, w: World, saved: AgentState, wants: bool)
    requires w.sessions != [] && w.phase == Compressed(saved, wants) && w.reviews == []
    requires ReviewLifecycle.Active(w).state == Some(saved)
    ensures var spawned := wants && !saved.reviewInFlight;
            var v := Run(cfg, w, ClosingSteps(spawned));
            && v.phase.Idle? && v.reviews == (if spawned then [Working(|w.sessions| - 1)] else [])
            && v.sessions
               == w.sessions[|w.sessions| - 1 := ReviewLifecycle.Active(w).(state := Flagged(saved, spawned))]
  {
    if wants && !saved.reviewInFlight {
      RunCons(cfg, w, Finish, [Spawn] + []);
      RunCons(cfg, Next(cfg, w, Finish), Spawn, []);
    } else {
      RunCons(cfg, w, Finish, []);
    }
  }

  lemma {:induction false} KeepsAndCloses(cfg: Config, w: World, saved: AgentState, wants: bool)
    requires |w.sessions| == 1 && w.phase == WrittenBack(saved, wants) && w.reviews == []
    requires w.sessions[0].state == Some(saved)
    ensures var spawned := wants && !saved.reviewInFlight;
            var v := Run(cfg, w, [KeepSession] + ClosingSteps(spawned));
            && v.phase.Idle? && |v.sessions| == 1 && v.sessions[0].state == Flagged(saved, spawned)
            && v.reviews == (if spawned then [Working(0)] else [])
  {
    RunCons(cfg, w, KeepSession, ClosingSteps(wants && !saved.reviewInFlight));
    Closes(cfg, Next(cfg, w, KeepSession), saved, wants);
  }

  lemma {:induction false} ForkCopies(cfg: Config, w: World, saved: AgentState, wants: bool)
    requires |w.sessions| == 1 && w.phase == WrittenBack(saved, wants) && w.sessions[0].state == Some(saved)
    requires CanFork(cfg)
    ensures var v := Next(cfg, Next(cfg, Next(cfg, w, Fork(0)), CopyRead), CopyWrite);
            && v.phase == Compressed(saved, wants) && v.reviews == w.reviews && |v.sessions| == 2
            && v.sessions[0].state == Some(saved) && v.sessions[1].state == Some(saved)
  {
  }

  lemma {:induction false} ForksAndCloses(cfg: Config, w: World, saved: AgentState, wants: bool)
    requires |w.sessions| == 1 && w.phase == WrittenBack(saved, wants) && w.reviews == []
    requires w.sessions[0].state == Some(saved) && CanFork(cfg)
    ensures var spawned := wants && !saved.reviewInFlight;
            var v := Run(cfg, w, [Fork(0)] + ([CopyRead] + ([CopyWrite] + ClosingSteps(spawned))));
            && v.phase.Idle? && |v.sessions| == 2
            && v.sessions[0].state == Some(saved) && v.sessions[1].state == Flagged(saved, spawned)
            && v.reviews == (if spawned then [Working(1)] else [])
  {
    var closing := ClosingSteps(wants && !saved.reviewInFlight);
    var w1 := Next(cfg, w, Fork(0));
    var w2 := Next(cfg, w1, CopyRead);
    RunCons(cfg, w, Fork(0), [CopyRead] + ([CopyWrite] + closing));
    RunCons(cfg, w1, CopyRead, [CopyWrite] + closing);
    RunCons(cfg, w2, CopyWrite, closing);
    ForkCopies(cfg, w, saved, wants);
    Closes(cfg, Next(cfg, w2, CopyWrite), saved, wants);
  }

  /** The first two steps of the turn. */
  lemma {:induction false} WritesBackAs(cfg: Config, s: SessionState, input: TurnInput, tail: seq<Step>)
                           returns (w: World)
    requires ValidInput(s, input)
    ensures |w.sessions| == 1 && w.reviews == [] && w.sessions[0].state == Some(SavedBy(cfg, s, input))
    ensures w.phase == WrittenBack(SavedBy(cfg, s, input), WantedBy(cfg, s, input))
    ensures var end := Turn(cfg, s, input).loop;
            Run(cfg, ThreadOf(s), [OpeningStep(s, input)] + ([WriteBack(end.st.iters, HasAnswer(end))] + tail))
            == Run(cfg, w, tail)
  {
    var end, v := Turn(cfg, s, input).loop, Next(cfg, ThreadOf(s), OpeningStep(s, input));
    var step := WriteBack(end.st.iters, HasAnswer(end));
    TurnLeaves(cfg, s, input);
    Opens(cfg, s, input);
    RunCons(cfg, ThreadOf(s), OpeningStep(s, input), [step] + tail);
    RunCons(cfg, v, step, tail);
    w := Next(cfg, v, step);
  }

  /** The world holds what the turn leaves in the state columns, and its review. */
  ghost predicate Shows(v: World, t: TurnEnd) {
    && v.phase.Idle? && |v.sessions| == (if t.child.None? then 1 else 2)
    && v.sessions[0].state == t.session.agentState
    && ReviewLifecycle.Active(v).state == TurnEngine.Active(t).agentState
    && v.reviews == (if t.spawned then [Working(|v.sessions| - 1)] else [])
  }

  lemma {:induction false} TailShows(cfg: Config, w: World, t: TurnEnd, saved: AgentState, wants: bool)
    requires |w.sessions| == 1 && w.phase == WrittenBack(saved, wants) && w.reviews == []
    requires w.sessions[0].state == Some(saved)
    requires t.spawned <==> wants && !saved.reviewInFlight
    requires TurnEngine.Active(t).agentState == Flagged(saved, t.spawned)
    requires t.child.Some? ==> CanFork(cfg) && t.session.agentState == Some(saved)
    ensures Shows(Run(cfg, w, TailSteps(t)), t)
  {
    if t.child.None? {
      KeepsAndCloses(cfg, w, saved, wants);
    } else {
      ForksAndCloses(cfg, w, saved, wants);
    }
  }

  /** A turn of the engine is such a run: the same states in the session and its fork, the same review. */
  lemma {:induction false} TurnIsSteps(cfg: Config, s: SessionState, input: TurnInput)
    requires ValidInput(s, input)
    ensures var t := Turn(cfg, s, input); Shows(Run(cfg, ThreadOf(s), TurnSteps(s, input, t)), t)
  {
    var t := Turn(cfg, s, input);
    TurnLeaves(cfg, s, input);
    var w := WritesBackAs(cfg, s, input, TailSteps(t));
    TailShows(cfg, w, t, SavedBy(cfg, s, input), WantedBy(cfg, s, input));
  }

  // ---------------------------------------------------------------------------------------------
  // From the machine to the engine
  // ---------------------------------------------------------------------------------------------

  /** A model that calls a tool `iters` times and then answers. */
  function Busy(iters: nat): nat -> Reply {
    n => if n < iters
         then Batch(None, None, [ToolCall("call", "read", "")], [Done(ToolCall("call", "read", ""), "")])
         else Answer(Some("ok"), None)
  }

  lemma {:induction false} BusyLoop(st: LoopState, max: nat, limit: int, iters: nat)
    requires st.iters == st.used <= iters <= max
    ensures var end := Loop(st, max, limit, Busy(iters)); end.st.iters == iters && HasAnswer(end)
    decreases iters - st.used
  {
    if st.used < iters {
      BusyLoop(AfterBatch(Ask(st), Busy(iters)(st.used), limit), max, limit, iters);
    }
  }

  /** The steps of an answered turn that is no retry and keeps its session. */
  lemma {:induction false} KeptTurnSteps(s: SessionState, input: TurnInput, t: TurnEnd)
    requires ValidInput(s, input) && input.retry.None? && HasAnswer(t.loop) && t.child.None?
    ensures TurnSteps(s, input, t) == AnsweredTurn(t.loop.st.iters) + if t.spawned then [Spawn] else []
  {
  }

  lemma {:induction false} BusyTurn(cfg: Config, s: SessionState, iters: nat) returns (input: TurnInput)
    requires iters <= Budget(cfg)
    ensures ValidInput(s, input) && input.retry.None? && input.oracle == Busy(iters)
    ensures var end := Turn(cfg, s, input).loop; end.st.iters == iters && HasAnswer(end)
  {
    input := TurnInput("", None, [], Busy(iters));
    BusyLoop(StartLoop(cfg, s, input), Budget(cfg), cfg.maxToolOutputChars, iters);
  }

  lemma {:induction false} BusyIsWellFormed(iters: nat, n: nat)
    ensures WellFormed(Busy(iters)(n))
  {
  }

  /**
   Every number of iterations within the budget is that of some answered turn of any session; if that
   turn does not compress the session, its steps are those of `ReviewStarts.AnsweredTurn`.
   */
  lemma {:induction false} AnsweredTurnExists(cfg: Config, s: SessionState, iters: nat) returns (input: TurnInput)
    requires iters <= Budget(cfg)
    ensures ValidInput(s, input) && input.retry.None? && forall n :: WellFormed(input.oracle(n))
    ensures var t := Turn(cfg, s, input);
            && t.loop.st.iters == iters && HasAnswer(t.loop)
            && (t.child.None? ==>
                  TurnSteps(s, input, t) == AnsweredTurn(iters) + if t.spawned then [Spawn] else [])
  {
    input := BusyTurn(cfg, s, iters);
    forall n ensures WellFormed(input.oracle(n)) {
      BusyIsWellFormed(iters, n);
    }
    var t := Turn(cfg, s, input);
    if t.child.None? {
      KeptTurnSteps(s, input, t);
    }
  }
}
