/**
 Runs of a new thread in which the review flag goes wrong: stuck by a stale write-back or by a fork,
 hidden or lost by a fork that is not complete; and exactly which configurations have such runs.
 */
module ReviewRuns {
  import opened Wrappers
  import opened HermesState
  import opened AgentConfig
  import opened AgentTurnHooks
  import opened ReviewLifecycle
  import opened ReviewStarts

  /** One session with its flag set, and a review of it that has just started. */
  ghost predicate Reviewing(w: World) {
    |w.sessions| == 1 && w.phase.Idle? && w.reviews == [Working(0)] && Flag(w)
  }

  /** Whole turns of a new thread, the last of which starts the first review. */
  lemma {:induction false} FirstReview(cfg: Config, w: World) returns (steps: seq<Step>)
    requires Initial(w) && CanReview(cfg)
    ensures Calm(steps) && NoFailedFork(cfg, w, steps) && Reviewing(Run(cfg, w, steps))
  {
    steps := FromIdle(cfg, w);
    NoFailedForkIsCareful(cfg, w, steps);
    AtMostOneReview(cfg, w, steps);
  }

  // ---------------------------------------------------------------------------------------------
  // Stuck
  // ---------------------------------------------------------------------------------------------

  const STALE_TURN := [Begin, ReviewLoad(0), ReviewClear(0), WriteBack(0, true)]

  lemma {:induction false} StaleTurn(cfg: Config, w: World)
    requires Reviewing(w)
    ensures Stuck(cfg, Run(cfg, w, STALE_TURN)) && NoFailedFork(cfg, w, STALE_TURN)
  {
    RunFour(cfg, w, Begin, ReviewLoad(0), ReviewClear(0), WriteBack(0, true));
  }

  /** A turn that begins while the review runs, and writes back after it ended, sticks the flag. */
  lemma {:induction false} StaleWriteBackSticks(cfg: Config, w: World) returns (first: seq<Step>)
    requires Initial(w) && CanReview(cfg)
    ensures Calm(first) && Reviewing(Run(cfg, w, first))
    ensures Stuck(cfg, Run(cfg, w, first + STALE_TURN)) && NoFailedFork(cfg, w, first + STALE_TURN)
  {
    first := FirstReview(cfg, w);
    RunCat(cfg, w, first, STALE_TURN);
    StaleTurn(cfg, Run(cfg, w, first));
  }

  const FORKING_TURN := [Begin, WriteBack(0, true), Fork(0), CopyRead]
  const END_REVIEW := [CopyWrite, ReviewLoad(0), ReviewClear(0), Finish]

  lemma {:induction false} ForkingTurn(cfg: Config, w: World)
    requires Reviewing(w) && CanFork(cfg)
    ensures var v := Run(cfg, w, FORKING_TURN);
            && |v.sessions| == 2 && v.phase.Copying? && v.reviews == [Working(0)]
            && v.phase.local.reviewInFlight && v.phase.copy.Some? && v.phase.copy.value.reviewInFlight
  {
    RunFour(cfg, w, Begin, WriteBack(0, true), Fork(0), CopyRead);
  }

  /** The copied flag is set, and the review of the parent does not see it. */
  lemma {:induction false} ClearsParent(cfg: Config, w: World)
    requires |w.sessions| == 2 && w.phase.Compressed? && w.reviews == [Working(0)]
    requires w.phase.local.reviewInFlight && Flag(w)
    ensures Stuck(cfg, Next(cfg, Next(cfg, w, ReviewLoad(0)), ReviewClear(0)))
  {
    var v := Next(cfg, w, ReviewLoad(0));
    assert v == w.(reviews := [Loaded(0, Stored(w, 0))]);
  }

  lemma {:induction false} EndAfterCopy(cfg: Config, w: World)
    requires |w.sessions| == 2 && w.phase.Copying? && w.reviews == [Working(0)]
    requires w.phase.local.reviewInFlight && w.phase.copy.Some? && w.phase.copy.value.reviewInFlight
    ensures Stuck(cfg, Run(cfg, w, END_REVIEW))
  {
    RunFour(cfg, w, CopyWrite, ReviewLoad(0), ReviewClear(0), Finish);
    var v := Next(cfg, w, CopyWrite);
    ClearsParent(cfg, v);
    StuckStepIff(cfg, Next(cfg, Next(cfg, v, ReviewLoad(0)), ReviewClear(0)), Finish);
  }

  /** So does a fork between the start and the end of a review. */
  lemma {:induction false} ForkSticks(cfg: Config, w: World) returns (first: seq<Step>)
    requires Initial(w) && CanReview(cfg) && CanFork(cfg)
    ensures Calm(first) && Reviewing(Run(cfg, w, first))
    ensures Stuck(cfg, Run(cfg, w, first + (FORKING_TURN + END_REVIEW)))
  {
    first := FirstReview(cfg, w);
    var v := Run(cfg, w, first);
    RunCat(cfg, w, first, FORKING_TURN + END_REVIEW);
    RunCat(cfg, v, FORKING_TURN, END_REVIEW);
    ForkingTurn(cfg, v);
    EndAfterCopy(cfg, Run(cfg, v, FORKING_TURN));
  }

  /** No flag is set and nothing is under way that could set one. */
  ghost predicate Unflagged(w: World) {
    && w.sessions != [] && w.reviews == []
    && (forall i :: 0 <= i < |w.sessions| ==> !w.sessions[i].state.GetOr(FRESH_STATE).reviewInFlight)
    && (match w.phase
        case Idle => true
        case Running(local, _) => !local.reviewInFlight
        case WrittenBack(local, wants) => !local.reviewInFlight && !wants
        case Forked(local, wants) => !local.reviewInFlight && !wants
        case Copying(local, wants, copy) =>
          !local.reviewInFlight && !wants && !copy.GetOr(FRESH_STATE).reviewInFlight
        case Compressed(local, wants) => !local.reviewInFlight && !wants
        case Marked => false)
  }

  lemma {:induction false} RunsUnflagged(cfg: Config, w: World, steps: seq<Step>)
    requires Unflagged(w) && !CanReview(cfg)
    ensures Unflagged(Run(cfg, w, steps))
    decreases |steps|
  {
    if steps != [] {
      RunsUnflagged(cfg, Next(cfg, w, steps[0]), steps[1..]);
    }
  }

  ghost predicate CanStick(cfg: Config, w: World)
    requires w.sessions != []
  {
    exists steps :: Stuck(cfg, Run(cfg, w, steps))
  }

  /** A new thread has a run that leaves it stuck exactly if the configuration allows reviews. */
  lemma {:induction false} CanStickIff(cfg: Config, w: World)
    requires Initial(w)
    ensures CanStick(cfg, w) <==> CanReview(cfg)
  {
    if CanReview(cfg) {
      var first := StaleWriteBackSticks(cfg, w);
    } else {
      forall steps ensures !Stuck(cfg, Run(cfg, w, steps)) {
        RunsUnflagged(cfg, w, steps);
      }
    }
  }

  // ---------------------------------------------------------------------------------------------
  // Two reviews
  // ---------------------------------------------------------------------------------------------

  const FAILING_TURN := [Begin, WriteBack(0, true), Fork(0), Raise]

  /** A fork that fails during a review: the turns after it start a second one. */
  lemma {:induction false} FailedForkDoubles(cfg: Config, w: World) returns (first: seq<Step>, second: seq<Step>)
    requires Initial(w) && CanReview(cfg) && CanFork(cfg)
    ensures Calm(first) && Calm(second)
    ensures |Run(cfg, w, first + (FAILING_TURN + second)).reviews| == 2
  {
    first := FirstReview(cfg, w);
    var v := Run(cfg, w, first);
    RunFour(cfg, v, Begin, WriteBack(0, true), Fork(0), Raise);
    second := FromIdle(cfg, Run(cfg, v, FAILING_TURN));
    RunCat(cfg, w, first, FAILING_TURN + second);
    RunCat(cfg, v, FAILING_TURN, second);
  }

  lemma {:induction false} NoForkIsCareful(cfg: Config, w: World, steps: seq<Step>)
    requires w.sessions != [] && !InFork(w.phase) && !CanFork(cfg)
    ensures Careful(cfg, w, steps)
    decreases |steps|
  {
    if steps != [] {
      NoForkIsCareful(cfg, Next(cfg, w, steps[0]), steps[1..]);
    }
  }

  ghost predicate CanDouble(cfg: Config, w: World)
    requires w.sessions != []
  {
    exists steps :: |Run(cfg, w, steps).reviews| >= 2
  }

  /**
   A new thread has a run with two reviews at once exactly if the configuration allows reviews and
   compression.
   */
  lemma {:induction false} CanDoubleIff(cfg: Config, w: World)
    requires Initial(w)
    ensures CanDouble(cfg, w) <==> CanReview(cfg) && CanFork(cfg)
  {
    if CanReview(cfg) && CanFork(cfg) {
      var first, second := FailedForkDoubles(cfg, w);
    } else {
      forall steps ensures |Run(cfg, w, steps).reviews| <= 1 {
        if CanReview(cfg) {
          NoForkIsCareful(cfg, w, steps);
          AtMostOneReview(cfg, w, steps);
        } else {
          NeverMore(cfg, w, steps);
        }
      }
    }
  }

  const HALF_FORK := [Begin] + ([WriteBack(0, true)] + ([Fork(0)] + []))

  /** Between fork and copy the active session has no flag although a review of its parent runs. */
  lemma {:induction false} ForkHidesFlag(cfg: Config, w: World) returns (first: seq<Step>)
    requires Initial(w) && CanReview(cfg) && CanFork(cfg)
    ensures Calm(first)
    ensures var v := Run(cfg, w, first + HALF_FORK);
            v.reviews != [] && !Flag(v) && FlagAhead(v)
  {
    first := FirstReview(cfg, w);
    var v := Run(cfg, w, first);
    RunCat(cfg, w, first, HALF_FORK);
    var v1 := Next(cfg, v, Begin);
    var v2 := Next(cfg, v1, WriteBack(0, true));
    RunCons(cfg, v, Begin, [WriteBack(0, true)] + ([Fork(0)] + []));
    RunCons(cfg, v1, WriteBack(0, true), [Fork(0)] + []);
    RunCons(cfg, v2, Fork(0), []);
  }
}
