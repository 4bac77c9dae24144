/**
 From which worlds a background review can still be started, by turns that call for one as the code
 requires: reviews enabled, an answered turn that is not a retry, enough turns since the last memory
 review or enough iterations since the last use of the skill tool.  So the invariant behind the exclusion
 of a second review, and the stuck flag, are characterised exactly, for every configuration.
 */
module ReviewStarts {
  import opened Wrappers
  import opened HermesState
  import opened AgentConfig
  import opened AgentTurnHooks
  import opened ReviewLifecycle

  // ---------------------------------------------------------------------------------------------
  // Runs
  // ---------------------------------------------------------------------------------------------

  lemma {:induction false} RunCons(cfg: Config, w: World, a: Step, rest: seq<Step>)
    requires w.sessions != []
    ensures Run(cfg, w, [a] + rest) == Run(cfg, Next(cfg, w, a), rest)
    ensures NoFailedFork(cfg, w, [a] + rest) <==> !FailsFork(w, a) && NoFailedFork(cfg, Next(cfg, w, a), rest)
  {
    assert ([a] + rest)[1..] == rest;
  }

  lemma {:induction false} RunCat(cfg: Config, w: World, a: seq<Step>, b: seq<Step>)
    requires w.sessions != []
    ensures Run(cfg, w, a + b) == Run(cfg, Run(cfg, w, a), b)
    ensures NoFailedFork(cfg, w, a + b) <==> NoFailedFork(cfg, w, a) && NoFailedFork(cfg, Run(cfg, w, a), b)
    decreases |a|
  {
    if a == [] {
      assert a + b == b;
    } else {
      assert (a + b)[1..] == a[1..] + b;
      RunCat(cfg, Next(cfg, w, a[0]), a[1..], b);
    }
  }

  lemma {:induction false} RunFour(cfg: Config, w: World, a: Step, b: Step, c: Step, d: Step)
    requires w.sessions != []
    ensures Run(cfg, w, [a, b, c, d]) == Next(cfg, Next(cfg, Next(cfg, Next(cfg, w, a), b), c), d)
    ensures !a.Raise? && !b.Raise? && !c.Raise? && !d.Raise? ==> NoFailedFork(cfg, w, [a, b, c, d])
  {
    var w1 := Next(cfg, w, a);
    var w2 := Next(cfg, w1, b);
    var w3 := Next(cfg, w2, c);
    assert [a, b, c, d] == [a] + ([b] + ([c] + ([d] + [])));
    RunCons(cfg, w, a, [b] + ([c] + ([d] + [])));
    RunCons(cfg, w1, b, [c] + ([d] + []));
    RunCons(cfg, w2, c, [d] + []);
    RunCons(cfg, w3, d, []);
    assert Run(cfg, Next(cfg, w3, d), []) == Next(cfg, w3, d);
  }

  /** Turns only, none of which dies. */
  predicate Calm(steps: seq<Step>) {
    forall s :: s in steps ==> !s.Raise? && !s.OfReview()
  }

  // ---------------------------------------------------------------------------------------------
  // A run that starts a review
  // ---------------------------------------------------------------------------------------------

  /** The run starts one more review, fails no fork and ends between turns. */
  ghost predicate Starts(cfg: Config, w: World, steps: seq<Step>)
    requires w.sessions != []
  {
    var w' := Run(cfg, w, steps);
    && NoFailedFork(cfg, w, steps)
    && w'.phase.Idle? && |w'.sessions| == |w.sessions|
    && w'.reviews == w.reviews + [Working(|w.sessions| - 1)]
  }

  lemma {:induction false} StartsCons(cfg: Config, w: World, a: Step, rest: seq<Step>)
    requires w.sessions != [] && !FailsFork(w, a)
    requires var v := Next(cfg, w, a); v.reviews == w.reviews && |v.sessions| == |w.sessions|
    requires Starts(cfg, Next(cfg, w, a), rest)
    ensures Starts(cfg, w, [a] + rest)
  {
    RunCons(cfg, w, a, rest);
  }

  /** A whole answered turn, up to the decision about a review. */
  function AnsweredTurn(iters: nat): seq<Step> {
    [Begin, WriteBack(iters, true), KeepSession, Finish]
  }

  /** What a turn of a session whose flag is not set counts before it ends. */
  function OpenedNext(cfg: Config, w: World): AgentState
    requires w.sessions != []
  {
    var st := Opened(cfg, w);
    st.(turnsSinceMemory := st.turnsSinceMemory + 1)
  }

  lemma {:induction false} AnsweredTurnIs(cfg: Config, w: World, iters: nat)
    requires w.sessions != [] && w.phase.Idle? && !Flag(w) && iters <= Budget(cfg)
    ensures NoFailedFork(cfg, w, AnsweredTurn(iters))
    ensures var local, v := OpenedNext(cfg, w), Run(cfg, w, AnsweredTurn(iters));
            && |v.sessions| == |w.sessions| && v.reviews == w.reviews
            && (if CallsForReview(cfg, local, iters) then v.phase.Marked?
                else v.phase.Idle? && !Flag(v) && Active(v).state == Some(Saved(cfg, local, iters)))
  {
    RunFour(cfg, w, Begin, WriteBack(iters, true), KeepSession, Finish);
  }

  lemma {:induction false} FromMarked(cfg: Config, w: World) returns (steps: seq<Step>)
    requires w.sessions != [] && w.phase.Marked?
    ensures Starts(cfg, w, steps) && Run(cfg, w, steps).sessions == w.sessions && Calm(steps)
  {
    steps := [Spawn] + [];
    RunCons(cfg, w, Spawn, []);
  }

  /** How many turns are missing until one calls for a memory review. */
  function Missing(cfg: Config, w: World): nat
    requires w.sessions != []
  {
    var c := Hydrated(cfg, Active(w)).turnsSinceMemory;
    if c >= cfg.nudgeInterval then 0 else cfg.nudgeInterval - c
  }

  /** Whole turns until a review starts: one turn with enough iterations, or as many as the counter needs. */
  lemma {:induction false} FromIdle(cfg: Config, w: World) returns (steps: seq<Step>)
    requires w.sessions != [] && w.phase.Idle? && !Flag(w) && CanReview(cfg)
    ensures Starts(cfg, w, steps) && Calm(steps)
    decreases Missing(cfg, w)
  {
    var iters := if SkillReviewOn(cfg) then cfg.skillInterval else 0;
    var turn := AnsweredTurn(iters);
    AnsweredTurnIs(cfg, w, iters);
    var v := Run(cfg, w, turn);
    var rest;
    if v.phase.Marked? {
      rest := FromMarked(cfg, v);
    } else {
      rest := FromIdle(cfg, v);
    }
    RunCat(cfg, w, turn, rest);
    steps := turn + rest;
  }

  /** The turn marks the flag itself, or the turns after it see none. */
  lemma {:induction false} FromCompressed(cfg: Config, w: World) returns (steps: seq<Step>)
    requires Shape(cfg, w) && w.phase.Compressed? && (WillMark(w.phase) || !Flag(w)) && CanReview(cfg)
    ensures Starts(cfg, w, steps)
  {
    var v := Next(cfg, w, Finish);
    var rest;
    if WillMark(w.phase) {
      rest := FromMarked(cfg, v);
    } else {
      rest := FromIdle(cfg, v);
    }
    StartsCons(cfg, w, Finish, rest);
    steps := [Finish] + rest;
  }

  lemma {:induction false} FromWrittenBack(cfg: Config, w: World) returns (steps: seq<Step>)
    requires Shape(cfg, w) && w.phase.WrittenBack? && (WillMark(w.phase) || !Flag(w)) && CanReview(cfg)
    ensures Starts(cfg, w, steps)
  {
    var rest := FromCompressed(cfg, Next(cfg, w, KeepSession));
    StartsCons(cfg, w, KeepSession, rest);
    steps := [KeepSession] + rest;
  }

  /** A turn that has seen the flag set dies before it writes it back; any other turn may go on. */
  lemma {:induction false} FromRunning(cfg: Config, w: World) returns (steps: seq<Step>)
    requires Shape(cfg, w) && w.phase.Running? && Open(w) && CanReview(cfg)
    ensures Starts(cfg, w, steps)
  {
    if w.phase.local.reviewInFlight {
      var rest := FromIdle(cfg, Next(cfg, w, Raise));
      StartsCons(cfg, w, Raise, rest);
      steps := [Raise] + rest;
    } else {
      NextKeepsShape(cfg, w, WriteBack(0, true));
      var rest := FromWrittenBack(cfg, Next(cfg, w, WriteBack(0, true)));
      StartsCons(cfg, w, WriteBack(0, true), rest);
      steps := [WriteBack(0, true)] + rest;
    }
  }

  lemma {:induction false} FromCopying(cfg: Config, w: World) returns (steps: seq<Step>)
    requires Shape(cfg, w) && w.phase.Copying? && Open(w) && CanReview(cfg)
    ensures Starts(cfg, w, steps)
  {
    NextKeepsShape(cfg, w, CopyWrite);
    var rest := FromCompressed(cfg, Next(cfg, w, CopyWrite));
    StartsCons(cfg, w, CopyWrite, rest);
    steps := [CopyWrite] + rest;
  }

  lemma {:induction false} FromForked(cfg: Config, w: World) returns (steps: seq<Step>)
    requires Shape(cfg, w) && w.phase.Forked? && Open(w) && CanReview(cfg)
    ensures Starts(cfg, w, steps)
  {
    NextKeepsShape(cfg, w, CopyRead);
    var rest := FromCopying(cfg, Next(cfg, w, CopyRead));
    StartsCons(cfg, w, CopyRead, rest);
    steps := [CopyRead] + rest;
  }

  /** A run that starts a review, from every world in which nothing keeps one from starting. */
  lemma {:induction false} OpenRun(cfg: Config, w: World) returns (steps: seq<Step>)
    requires Shape(cfg, w) && Open(w) && CanReview(cfg)
    ensures Starts(cfg, w, steps)
  {
    match w.phase
    case Idle => steps := FromIdle(cfg, w);
    case Running(_, _) => steps := FromRunning(cfg, w);
    case WrittenBack(_, _) => steps := FromWrittenBack(cfg, w);
    case Forked(_, _) => steps := FromForked(cfg, w);
    case Copying(_, _, _) => steps := FromCopying(cfg, w);
    case Compressed(_, _) => steps := FromCompressed(cfg, w);
    case Marked => steps := FromMarked(cfg, w);
  }

  /** If the configuration rules reviews out, no run starts one. */
  lemma {:induction false} NeverMore(cfg: Config, w: World, steps: seq<Step>)
    requires Shape(cfg, w) && !CanReview(cfg)
    ensures |Run(cfg, w, steps).reviews| <= |w.reviews|
    decreases |steps|
  {
    if steps != [] {
      NextKeepsShape(cfg, w, steps[0]);
      NeverMore(cfg, Next(cfg, w, steps[0]), steps[1..]);
    }
  }

  // ---------------------------------------------------------------------------------------------
  // Exactly when the exclusion holds
  // ---------------------------------------------------------------------------------------------

  ghost predicate Excludes(cfg: Config, w: World)
    requires w.sessions != []
  {
    forall steps :: Careful(cfg, w, steps) ==> |Run(cfg, w, steps).reviews| <= 1
  }

  /** Outside the invariant two reviews can come to run at once. */
  lemma {:induction false} DoubleRun(cfg: Config, w: World) returns (steps: seq<Step>)
    requires Shape(cfg, w) && CanReview(cfg) && !Inv(cfg, w)
    ensures NoFailedFork(cfg, w, steps) && |Run(cfg, w, steps).reviews| >= 2
  {
    if |w.reviews| >= 2 {
      steps := [];
    } else if w.reviews != [] && Open(w) {
      steps := OpenRun(cfg, w);
    } else {
      var first := FromMarked(cfg, w);
      var second := FromIdle(cfg, Run(cfg, w, first));
      RunCat(cfg, w, first, second);
      steps := first + second;
    }
  }

  /**
   The invariant is exactly what the exclusion of a second review needs, in any world, if the
   configuration allows reviews; if it does not, the reviews under way are all there will be.
   */
  lemma {:induction false} ExclusionIff(cfg: Config, w: World)
    requires Shape(cfg, w)
    ensures Excludes(cfg, w) <==> if CanReview(cfg) then Inv(cfg, w) else |w.reviews| <= 1
  {
    if !CanReview(cfg) {
      forall steps | Careful(cfg, w, steps) ensures |Run(cfg, w, steps).reviews| <= |w.reviews| {
        NeverMore(cfg, w, steps);
      }
      assert Careful(cfg, w, []) && Run(cfg, w, []) == w;
    } else if Inv(cfg, w) {
      forall steps | Careful(cfg, w, steps) ensures |Run(cfg, w, steps).reviews| <= 1 {
        RunKeepsInv(cfg, w, steps);
      }
    } else {
      var steps := DoubleRun(cfg, w);
      NoFailedForkIsCareful(cfg, w, steps);
    }
  }

  /**
   After a failed fork the exclusion is still sure exactly if no review was running when it failed, or
   the configuration rules further reviews out.
   */
  lemma {:induction false} FailedForkIff(cfg: Config, w: World)
    requires Inv(cfg, w) && InFork(w.phase)
    ensures Excludes(cfg, Next(cfg, w, Raise)) <==> w.reviews == [] || !CanReview(cfg)
  {
    NextKeepsShape(cfg, w, Raise);
    ExclusionIff(cfg, Next(cfg, w, Raise));
  }

  // ---------------------------------------------------------------------------------------------
  // Exactly when no review can start any more
  // ---------------------------------------------------------------------------------------------

  /** No run without a failed fork ever starts a review. */
  ghost predicate NeverReviews(cfg: Config, w: World)
    requires w.sessions != []
  {
    forall steps :: NoFailedFork(cfg, w, steps) ==> Run(cfg, w, steps).reviews == []
  }

  lemma {:induction false} StuckNeverReviews(cfg: Config, w: World)
    requires Stuck(cfg, w)
    ensures NeverReviews(cfg, w)
  {
    forall steps | NoFailedFork(cfg, w, steps) ensures Run(cfg, w, steps).reviews == [] {
      StuckForever(cfg, w, steps);
      assert Stuck(cfg, Run(cfg, w, steps));
    }
  }

  lemma {:induction false} OpenReviews(cfg: Config, w: World)
    requires Shape(cfg, w) && Open(w) && CanReview(cfg)
    ensures !NeverReviews(cfg, w)
  {
    var steps := OpenRun(cfg, w);
    assert NoFailedFork(cfg, w, steps) && Run(cfg, w, steps).reviews != [];
  }

  /**
   With no review running, no run without a failed fork ever starts one exactly if the thread is stuck
   or the configuration rules reviews out.
   */
  lemma {:induction false} StuckIff(cfg: Config, w: World)
    requires Shape(cfg, w) && w.reviews == []
    ensures NeverReviews(cfg, w) <==> Stuck(cfg, w) || !CanReview(cfg)
  {
    if Stuck(cfg, w) {
      StuckNeverReviews(cfg, w);
    } else if CanReview(cfg) {
      OpenReviews(cfg, w);
    } else {
      forall steps | NoFailedFork(cfg, w, steps) ensures Run(cfg, w, steps).reviews == [] {
        NeverMore(cfg, w, steps);
      }
    }
  }
}
