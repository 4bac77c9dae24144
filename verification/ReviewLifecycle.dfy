/**
 Turns of one thread and their background reviews, interleaved arbitrarily
 (src/media2text/agent/agent_turn_hooks.py, src/media2text/agent/background_review.py,
 src/media2text/agent/context_compressor.py).

 Turns run one after another.  A turn loads the agent state when it begins, writes it back at its
 end, may fork the session, and may then mark the review flag and start a review.  Every write is a
 commit of its own; in particular the child of a fork is the active session, without a state, until
 the parent's state has been read and copied.  A review runs beside later turns; when it ends it loads
 the state of its own session, clears the flag and saves.
 */
module ReviewLifecycle {
  import opened Wrappers
  import opened HermesState
  import opened AgentConfig
  import opened AgentTurnHooks

  /** The state column of a session and the number of its user rows. */
  datatype Session = Session(state: Option<AgentState>, users: nat)

  /** `counts`: not a retry.  `wants`: the turn has been answered and calls for a review. */
  datatype Phase =
    | Idle
    | Running(local: AgentState, counts: bool)
    | WrittenBack(local: AgentState, wants: bool)
    | Forked(local: AgentState, wants: bool)                             // the child has no state yet
    | Copying(local: AgentState, wants: bool, copy: Option<AgentState>)  // the parent's state has been read
    | Compressed(local: AgentState, wants: bool)
    | Marked                                                             // the flag is saved, the thread not started

  /** A review thread that has not yet ended; `Loaded` has read the state it will write back. */
  datatype Review = Working(sid: nat) | Loaded(sid: nat, copy: AgentState)

  /** `sessions` holds the sessions of the thread, oldest first; the last one is active. */
  datatype World = World(sessions: seq<Session>, phase: Phase, reviews: seq<Review>)

  /**
   `WriteBack` ends a turn that made `iters` iterations since the last use of the skill tool, `answered`
   if it was neither cancelled nor failed and has a final text.  `Raise` ends a turn by an exception,
   wherever it is.
   */
  datatype Step =
    | Begin
    | Retry(kept: nat)
    | WriteBack(iters: nat, answered: bool)
    | KeepSession
    | Fork(users: nat)
    | CopyRead
    | CopyWrite
    | Finish
    | Spawn
    | Raise
    | ReviewLoad(i: nat)
    | ReviewClear(i: nat)
    | ReviewCrash(i: nat)
  {
    predicate OfReview() {
      ReviewLoad? || ReviewClear? || ReviewCrash?
    }
  }

  function Active(w: World): Session
    requires w.sessions != []
  {
    w.sessions[|w.sessions| - 1]
  }

  function Stored(w: World, sid: nat): AgentState
    requires sid < |w.sessions|
  {
    w.sessions[sid].state.GetOr(FRESH_STATE)
  }

  /** The flag of the active session. */
  predicate Flag(w: World)
    requires w.sessions != []
  {
    Stored(w, |w.sessions| - 1).reviewInFlight
  }

  function Store(w: World, sid: nat, st: Option<AgentState>): World
    requires sid < |w.sessions|
  {
    w.(sessions := w.sessions[sid := w.sessions[sid].(state := st)])
  }

  function WithUsers(w: World, users: nat): World
    requires w.sessions != []
  {
    w.(sessions := w.sessions[|w.sessions| - 1 := Active(w).(users := users)])
  }

  function Without<T>(s: seq<T>, i: nat): (r: seq<T>)
    requires i < |s|
    ensures |r| == |s| - 1 && forall k :: 0 <= k < |r| ==> r[k] == s[if k < i then k else k + 1]
  {
    s[..i] + s[i + 1..]
  }

  predicate InFork(p: Phase) {
    p.Forked? || p.Copying?
  }

  /** The turn has written back, and will mark the flag unless it saw it set. */
  predicate WillMark(p: Phase) {
    (p.WrittenBack? || p.Forked? || p.Copying? || p.Compressed?) && p.wants && !p.local.reviewInFlight
  }

  // ---------------------------------------------------------------------------------------------
  // Steps
  // ---------------------------------------------------------------------------------------------

  function Hydrated(cfg: Config, s: Session): AgentState {
    Hydrate(s.state, s.users, cfg.nudgeInterval)
  }

  function Opened(cfg: Config, w: World): AgentState
    requires w.sessions != []
  {
    Hydrated(cfg, Active(w)).(itersSinceSkill := 0)
  }

  function FlagsOf(cfg: Config, local: AgentState, iters: nat): ReviewFlags {
    ComputeReviewFlags(cfg, local.(itersSinceSkill := iters))
  }

  /** What a turn saves at its end. */
  function Saved(cfg: Config, local: AgentState, iters: nat): AgentState {
    ApplyReviewResets(local.(itersSinceSkill := iters), FlagsOf(cfg, local, iters))
  }

  predicate CallsForReview(cfg: Config, local: AgentState, iters: nat) {
    var flags := FlagsOf(cfg, local, iters);
    cfg.reviewEnabled && (flags.reviewMemory || flags.reviewSkills)
  }

  /** The configurations that allow reviews are those in which some turn calls for one. */
  lemma CanReviewIff(cfg: Config)
    ensures CanReview(cfg) <==> exists local, iters: nat :: iters <= Budget(cfg) && CallsForReview(cfg, local, iters)
  {
    if CanReview(cfg) {
      var iters: nat := if SkillReviewOn(cfg) then cfg.skillInterval else 0;
      assert CallsForReview(cfg, AgentState(cfg.nudgeInterval, 0, false), iters);
    }
  }

  /** The step writes a turn back; no turn makes more iterations than its budget. */
  predicate WritesBack(cfg: Config, w: World, step: Step) {
    step.WriteBack? && w.phase.Running? && step.iters <= Budget(cfg)
  }

  predicate Loads(w: World, i: nat) {
    i < |w.reviews| && w.reviews[i].Working? && w.reviews[i].sid < |w.sessions|
  }

  predicate Ends(w: World, i: nat) {
    i < |w.reviews| && w.reviews[i].Loaded? && w.reviews[i].sid < |w.sessions|
  }

  function ReviewStep(w: World, step: Step): World
    requires step.OfReview()
  {
    match step
    case ReviewLoad(i) =>
      if Loads(w, i) then
        w.(reviews := w.reviews[i := Loaded(w.reviews[i].sid, Stored(w, w.reviews[i].sid))])
      else w
    case ReviewClear(i) =>
      if Ends(w, i) then
        Store(w, w.reviews[i].sid, Some(w.reviews[i].copy.(reviewInFlight := false))).(reviews := Without(w.reviews, i))
      else w
    case ReviewCrash(i) =>
      if i < |w.reviews| then w.(reviews := Without(w.reviews, i)) else w
  }

  /** A step that is not enabled leaves the world as it is. */
  function Next(cfg: Config, w: World, step: Step): (w': World)
    requires w.sessions != []
    ensures w'.sessions != []
  {
    var active := |w.sessions| - 1;
    match step
    case Begin =>
      if !w.phase.Idle? then w
      else
        var st := Opened(cfg, w);
        WithUsers(w, Active(w).users + 1).(phase := Running(st.(turnsSinceMemory := st.turnsSinceMemory + 1), true))
    case Retry(kept) =>
      if w.phase.Idle? && kept <= Active(w).users
      then WithUsers(w, kept).(phase := Running(Opened(cfg, w), false)) else w
    case WriteBack(iters, answered) =>
      if !WritesBack(cfg, w, step) then w
      else
        var st := Saved(cfg, w.phase.local, iters);
        var wants := w.phase.counts && answered && CallsForReview(cfg, w.phase.local, iters);
        Store(w, active, Some(st)).(phase := WrittenBack(st, wants))
    case KeepSession =>
      if w.phase.WrittenBack? then w.(phase := Compressed(w.phase.local, w.phase.wants)) else w
    case Fork(users) =>
      if w.phase.WrittenBack? && CanFork(cfg) && users <= Active(w).users
      then w.(sessions := w.sessions + [Session(None, users)], phase := Forked(w.phase.local, w.phase.wants))
      else w
    case CopyRead =>
      if w.phase.Forked? && active > 0
      then w.(phase := Copying(w.phase.local, w.phase.wants, w.sessions[active - 1].state)) else w
    case CopyWrite =>
      if !w.phase.Copying? then w
      else
        var v := if w.phase.copy.Some? then Store(w, active, w.phase.copy) else w;
        v.(phase := Compressed(w.phase.local, w.phase.wants))
    case Finish =>
      if !w.phase.Compressed? then w
      else if WillMark(w.phase)
      then Store(w, active, Some(w.phase.local.(reviewInFlight := true))).(phase := Marked)
      else w.(phase := Idle)
    case Spawn =>
      if w.phase.Marked? then w.(phase := Idle, reviews := w.reviews + [Working(active)]) else w
    case Raise => w.(phase := Idle)
    case _ => ReviewStep(w, step)
  }

  function Run(cfg: Config, w: World, steps: seq<Step>): (w': World)
    requires w.sessions != []
    ensures w'.sessions != []
    decreases |steps|
  {
    if steps == [] then w else Run(cfg, Next(cfg, w, steps[0]), steps[1..])
  }

  /** A thread with one session and no turn or review under way. */
  predicate Initial(w: World) {
    |w.sessions| == 1 && w.phase.Idle? && w.reviews == [] && !Flag(w)
  }

  /** A turn dies between the fork and the copy of the state. */
  predicate FailsFork(w: World, step: Step) {
    step.Raise? && InFork(w.phase)
  }

  predicate NoFailedFork(cfg: Config, w: World, steps: seq<Step>)
    requires w.sessions != []
    decreases |steps|
  {
    steps != [] ==> !FailsFork(w, steps[0]) && NoFailedFork(cfg, Next(cfg, w, steps[0]), steps[1..])
  }

  /** No fork fails while a review is running. */
  predicate Careful(cfg: Config, w: World, steps: seq<Step>)
    requires w.sessions != []
    decreases |steps|
  {
    steps != [] ==>
      && !(FailsFork(w, steps[0]) && w.reviews != [])
      && Careful(cfg, Next(cfg, w, steps[0]), steps[1..])
  }

  lemma {:induction false} NoFailedForkIsCareful(cfg: Config, w: World, steps: seq<Step>)
    requires w.sessions != [] && NoFailedFork(cfg, w, steps)
    ensures Careful(cfg, w, steps)
    decreases |steps|
  {
    if steps != [] {
      NoFailedForkIsCareful(cfg, Next(cfg, w, steps[0]), steps[1..]);
    }
  }

  // ---------------------------------------------------------------------------------------------
  // At most one review
  // ---------------------------------------------------------------------------------------------

  /**
   The flag that the next turn will see if the one under way goes on: during a fork it is still that
   of the parent, or of the copy that has been read.
   */
  predicate FlagAhead(w: World)
    requires w.sessions != []
  {
    if w.phase.Forked? && |w.sessions| >= 2 then Stored(w, |w.sessions| - 2).reviewInFlight
    else if w.phase.Copying? then w.phase.copy.GetOr(FRESH_STATE).reviewInFlight
    else Flag(w)
  }

  /** The turn under way, or a later one, will not be kept from starting a review. */
  predicate Open(w: World)
    requires w.sessions != []
  {
    w.phase.Marked? || !FlagAhead(w) || (w.phase.Running? && !w.phase.local.reviewInFlight) || WillMark(w.phase)
  }

  /**
   What is true of every world: reviews belong to sessions with a state, a fresh child has none, and a
   turn calls for a review only if the configuration allows reviews.
   */
  predicate Shape(cfg: Config, w: World) {
    && w.sessions != []
    && (InFork(w.phase) ==> |w.sessions| >= 2 && Active(w).state.None?)
    && (w.phase.Marked? ==> Active(w).state.Some?)
    && (w.phase.Marked? || WillMark(w.phase) ==> CanReview(cfg))
    && (forall i :: 0 <= i < |w.reviews| ==>
          && w.reviews[i].sid < |w.sessions| && w.sessions[w.reviews[i].sid].state.Some?)
  }

  predicate Inv(cfg: Config, w: World) {
    && Shape(cfg, w)
    && |w.reviews| <= 1
    && (w.reviews != [] ==> !Open(w))
    && (w.phase.Marked? ==> Flag(w))
  }

  lemma {:induction false} ReviewStepKeepsShape(cfg: Config, w: World, step: Step)
    requires Shape(cfg, w) && step.OfReview()
    ensures Shape(cfg, ReviewStep(w, step))
  {
  }

  lemma {:induction false} NextKeepsShape(cfg: Config, w: World, step: Step)
    requires Shape(cfg, w)
    ensures Shape(cfg, Next(cfg, w, step))
  {
    if step.OfReview() {
      ReviewStepKeepsShape(cfg, w, step);
    }
  }

  lemma {:induction false} NextKeepsInv(cfg: Config, w: World, step: Step)
    requires Inv(cfg, w) && !(FailsFork(w, step) && w.reviews != [])
    ensures Inv(cfg, Next(cfg, w, step))
  {
    NextKeepsShape(cfg, w, step);
  }

  lemma {:induction false} RunKeepsShape(cfg: Config, w: World, steps: seq<Step>)
    requires Shape(cfg, w)
    ensures Shape(cfg, Run(cfg, w, steps))
    decreases |steps|
  {
    if steps != [] {
      NextKeepsShape(cfg, w, steps[0]);
      RunKeepsShape(cfg, Next(cfg, w, steps[0]), steps[1..]);
    }
  }

  lemma {:induction false} RunKeepsInv(cfg: Config, w: World, steps: seq<Step>)
    requires Inv(cfg, w) && Careful(cfg, w, steps)
    ensures Inv(cfg, Run(cfg, w, steps))
    decreases |steps|
  {
    if steps != [] {
      NextKeepsInv(cfg, w, steps[0]);
      RunKeepsInv(cfg, Next(cfg, w, steps[0]), steps[1..]);
    }
  }

  /**
   In every interleaving in which no fork fails during a review, at most one review of the thread is
   running.  While one is, the active session's flag is set, or a turn is between fork and copy and
   the flag of the parent, or of the copy, is set.
   */
  lemma {:induction false} AtMostOneReview(cfg: Config, w: World, steps: seq<Step>)
    requires Initial(w) && Careful(cfg, w, steps)
    ensures var w' := Run(cfg, w, steps);
            |w'.reviews| <= 1 && (w'.reviews != [] ==> FlagAhead(w'))
            && (w'.reviews != [] && !InFork(w'.phase) ==> Flag(w'))
  {
    RunKeepsInv(cfg, w, steps);
  }

  // ---------------------------------------------------------------------------------------------
  // A flag that is never cleared
  // ---------------------------------------------------------------------------------------------

  /** The flag is set although no review runs, and the turn under way believes it too. */
  predicate Stuck(cfg: Config, w: World) {
    Shape(cfg, w) && w.reviews == [] && !Open(w)
  }

  /** Every step leaves it so, but for one: a fork that fails leaves a session without a flag. */
  lemma {:induction false} StuckStepIff(cfg: Config, w: World, step: Step)
    requires Stuck(cfg, w)
    ensures Stuck(cfg, Next(cfg, w, step)) <==> !FailsFork(w, step)
  {
    NextKeepsShape(cfg, w, step);
  }

  lemma {:induction false} StuckForever(cfg: Config, w: World, steps: seq<Step>)
    requires Stuck(cfg, w) && NoFailedFork(cfg, w, steps)
    ensures Stuck(cfg, Run(cfg, w, steps))
    decreases |steps|
  {
    if steps != [] {
      StuckStepIff(cfg, w, steps[0]);
      StuckForever(cfg, Next(cfg, w, steps[0]), steps[1..]);
    }
  }

  /** The session the turn under way runs in. */
  function Current(w: World): int {
    if InFork(w.phase) then |w.sessions| - 2 else |w.sessions| - 1
  }

  /** What the turn under way will have done to the flag once it has written back. */
  function Settled(cfg: Config, w: World, iters: nat, answered: bool): World
    requires w.sessions != []
  {
    if w.phase.Running? then Next(cfg, w, WriteBack(iters, answered)) else w
  }

  lemma {:induction false} ClearWhileRunning(cfg: Config, w: World, iters: nat, answered: bool)
    requires Inv(cfg, w) && w.reviews != [] && w.reviews[0].Loaded? && w.phase.Running? && iters <= Budget(cfg)
    ensures Stuck(cfg, Next(cfg, Next(cfg, w, ReviewClear(0)), WriteBack(iters, answered)))
  {
    var v := Next(cfg, w, ReviewClear(0));
    NextKeepsShape(cfg, w, ReviewClear(0));
    NextKeepsShape(cfg, v, WriteBack(iters, answered));
  }

  lemma {:induction false} ClearElsewhere(cfg: Config, w: World)
    requires Inv(cfg, w) && w.reviews != [] && w.reviews[0].Loaded? && !w.phase.Running?
    ensures Stuck(cfg, Next(cfg, w, ReviewClear(0))) <==> w.reviews[0].sid != Current(w) || w.phase.Copying?
  {
    NextKeepsShape(cfg, w, ReviewClear(0));
  }

  /**
   Exactly when the end of a review frees the thread for the next one: its session must still be the
   one in use, and no turn may be between a load of its state and the write of what was loaded.
   */
  lemma {:induction false} ClearFreesIff(cfg: Config, w: World, iters: nat, answered: bool)
    requires Inv(cfg, w) && w.reviews != [] && w.reviews[0].Loaded? && iters <= Budget(cfg)
    ensures Stuck(cfg, Settled(cfg, Next(cfg, w, ReviewClear(0)), iters, answered))
            <==> w.reviews[0].sid != Current(w) || w.phase.Running? || w.phase.Copying?
  {
    if w.phase.Running? {
      ClearWhileRunning(cfg, w, iters, answered);
    } else {
      ClearElsewhere(cfg, w);
    }
  }

  /** A review that ends without its clearing step loses all later reviews. */
  lemma {:induction false} CrashSticks(cfg: Config, w: World)
    requires Inv(cfg, w) && w.reviews != []
    ensures Stuck(cfg, Next(cfg, w, ReviewCrash(0)))
  {
    NextKeepsShape(cfg, w, ReviewCrash(0));
  }

  /** So does a turn that saves the flag and then fails to start the review. */
  lemma {:induction false} FailedSpawnSticks(cfg: Config, w: World)
    requires Inv(cfg, w) && w.phase.Marked?
    ensures Stuck(cfg, Next(cfg, w, Raise))
  {
  }
}
