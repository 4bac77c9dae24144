/**
 The count towards memory reviews while background reviews run beside the turns.

 A review ends by loading the whole state of its session and saving it again, so what a turn writes in
 between is lost.  The module says exactly which steps lose count, and what the counter is after every
 run without such a step.
 */
module ReviewCounters {
  import opened Wrappers
  import opened HermesState
  import opened AgentConfig
  import opened AgentTurnHooks
  import opened ReviewLifecycle
  import opened ReviewStarts
  import opened ReviewRuns
  import ThreadRuns

  /** The counter that a turn in the session would begin with. */
  function CounterOf(cfg: Config, s: Session): int {
    Hydrated(cfg, s).turnsSinceMemory
  }

  /** The counter on the books: what the thread's next turn should begin with. */
  function Booked(cfg: Config, w: World): int
    requires w.sessions != []
  {
    match w.phase
    case Idle => CounterOf(cfg, Active(w))
    case Running(local, counts) => local.turnsSinceMemory - if counts then 1 else 0
    case WrittenBack(local, _) => local.turnsSinceMemory
    case Forked(local, _) => local.turnsSinceMemory
    case Copying(local, _, _) => local.turnsSinceMemory
    case Compressed(local, _) => local.turnsSinceMemory
    case Marked => Stored(w, |w.sessions| - 1).turnsSinceMemory
  }

  predicate Holds(state: Option<AgentState>, counter: int) {
    state.Some? && state.value.turnsSinceMemory == counter
  }

  /** The books, and every state that will be read or written back, show the counter of `m` turns. */
  predicate Lawful(cfg: Config, w: World, m: nat)
    requires cfg.nudgeInterval > 0
  {
    var c := m % cfg.nudgeInterval;
    && Shape(cfg, w) && Booked(cfg, w) == c
    && (w.phase.Running? && Active(w).state.Some? ==> Holds(Active(w).state, c))
    && (w.phase.WrittenBack? || w.phase.Compressed? ==> Holds(Active(w).state, c))
    && (w.phase.Forked? ==> Holds(w.sessions[|w.sessions| - 2].state, c))
    && (w.phase.Copying? ==> Holds(w.phase.copy, c))
  }

  /** The step writes back a turn that is not a retry. */
  predicate CountsNow(cfg: Config, w: World, step: Step) {
    WritesBack(cfg, w, step) && w.phase.counts
  }

  predicate FlagsNow(cfg: Config, w: World, step: Step) {
    WritesBack(cfg, w, step) && FlagsOf(cfg, w.phase.local, step.iters).reviewMemory
  }

  /**
   The steps that lose count: a review saves a counter it loaded before a turn wrote another one into
   the session in use, or a turn dies and leaves an active session without a state whose user rows,
   modulo the interval, are not the counter on the books.
   */
  predicate Loses(cfg: Config, w: World, step: Step)
    requires w.sessions != [] && cfg.nudgeInterval > 0
  {
    match step
    case ReviewClear(i) =>
      && Ends(w, i) && w.reviews[i].sid == Current(w) && !w.phase.Copying?
      && w.reviews[i].copy.turnsSinceMemory != Booked(cfg, w)
    case Raise =>
      && (w.phase.Running? || InFork(w.phase)) && Active(w).state.None?
      && Active(w).users % cfg.nudgeInterval != Booked(cfg, w)
    case _ => false
  }

  function Bump(cfg: Config, w: World, step: Step): nat {
    if CountsNow(cfg, w, step) then 1 else 0
  }

  /** A turn's write-back moves the counter on, and flags a memory review at every full interval. */
  lemma WriteBackStep(cfg: Config, w: World, step: Step, m: nat)
    requires MemoryReviewOn(cfg) && Lawful(cfg, w, m) && WritesBack(cfg, w, step)
    ensures var m' := m + Bump(cfg, w, step);
            && Lawful(cfg, Next(cfg, w, step), m')
            && (if FlagsNow(cfg, w, step) then 1 else 0) == m' / cfg.nudgeInterval - m / cfg.nudgeInterval
  {
    ThreadRuns.DivStep(m, cfg.nudgeInterval);
    NextKeepsShape(cfg, w, step);
  }

  lemma ClearIff(cfg: Config, w: World, i: nat, m: nat)
    requires MemoryReviewOn(cfg) && Lawful(cfg, w, m)
    ensures Lawful(cfg, Next(cfg, w, ReviewClear(i)), m) <==> !Loses(cfg, w, ReviewClear(i))
  {
    NextKeepsShape(cfg, w, ReviewClear(i));
  }

  lemma RaiseIff(cfg: Config, w: World, m: nat)
    requires MemoryReviewOn(cfg) && Lawful(cfg, w, m)
    ensures Lawful(cfg, Next(cfg, w, Raise), m) <==> !Loses(cfg, w, Raise)
  {
    NextKeepsShape(cfg, w, Raise);
  }

  lemma QuietStep(cfg: Config, w: World, step: Step, m: nat)
    requires MemoryReviewOn(cfg) && Lawful(cfg, w, m)
    requires !WritesBack(cfg, w, step) && !step.ReviewClear? && !step.Raise?
    ensures Lawful(cfg, Next(cfg, w, step), m)
  {
    NextKeepsShape(cfg, w, step);
  }

  /** Any other step leaves the books as they should be exactly if it is not one of the losing steps. */
  lemma OtherStepIff(cfg: Config, w: World, step: Step, m: nat)
    requires MemoryReviewOn(cfg) && Lawful(cfg, w, m) && !WritesBack(cfg, w, step)
    ensures Lawful(cfg, Next(cfg, w, step), m) <==> !Loses(cfg, w, step)
  {
    match step
    case ReviewClear(i) => ClearIff(cfg, w, i, m);
    case Raise => RaiseIff(cfg, w, m);
    case _ => QuietStep(cfg, w, step, m);
  }

  // ---------------------------------------------------------------------------------------------
  // Runs
  // ---------------------------------------------------------------------------------------------

  /** How many turns of the run count. */
  function Counted(cfg: Config, w: World, steps: seq<Step>): nat
    requires w.sessions != []
    decreases |steps|
  {
    if steps == [] then 0 else Bump(cfg, w, steps[0]) + Counted(cfg, Next(cfg, w, steps[0]), steps[1..])
  }

  /** How many turns of the run flag a memory review. */
  function Flagged(cfg: Config, w: World, steps: seq<Step>): nat
    requires w.sessions != []
    decreases |steps|
  {
    if steps == [] then 0
    else (if FlagsNow(cfg, w, steps[0]) then 1 else 0) + Flagged(cfg, Next(cfg, w, steps[0]), steps[1..])
  }

  predicate Lossless(cfg: Config, w: World, steps: seq<Step>)
    requires w.sessions != [] && cfg.nudgeInterval > 0
    decreases |steps|
  {
    steps != [] ==> !Loses(cfg, w, steps[0]) && Lossless(cfg, Next(cfg, w, steps[0]), steps[1..])
  }

  /** The law holds before the run and after each of its steps. */
  predicate AlwaysLawful(cfg: Config, w: World, steps: seq<Step>, m: nat)
    requires w.sessions != [] && cfg.nudgeInterval > 0
    decreases |steps|
  {
    && Lawful(cfg, w, m)
    && (steps != [] ==> AlwaysLawful(cfg, Next(cfg, w, steps[0]), steps[1..], m + Bump(cfg, w, steps[0])))
  }

  /** One step keeps the law exactly if it is not a losing one. */
  lemma StepLawIff(cfg: Config, w: World, step: Step, m: nat)
    requires MemoryReviewOn(cfg) && Lawful(cfg, w, m)
    ensures Lawful(cfg, Next(cfg, w, step), m + Bump(cfg, w, step)) <==> !Loses(cfg, w, step)
  {
    if WritesBack(cfg, w, step) {
      WriteBackStep(cfg, w, step, m);
    } else {
      OtherStepIff(cfg, w, step, m);
    }
  }

  lemma StepFlags(cfg: Config, w: World, step: Step, m: nat)
    requires MemoryReviewOn(cfg) && Lawful(cfg, w, m)
    ensures var n, m' := cfg.nudgeInterval, m + Bump(cfg, w, step);
            (if FlagsNow(cfg, w, step) then 1 else 0) == m' / n - m / n
  {
    if WritesBack(cfg, w, step) {
      WriteBackStep(cfg, w, step, m);
    }
  }

  lemma {:induction false} RunStaysLawful(cfg: Config, w: World, steps: seq<Step>, m: nat)
    requires MemoryReviewOn(cfg) && Lawful(cfg, w, m) && Lossless(cfg, w, steps)
    ensures Lawful(cfg, Run(cfg, w, steps), m + Counted(cfg, w, steps))
    decreases |steps|
  {
    if steps != [] {
      StepLawIff(cfg, w, steps[0], m);
      RunStaysLawful(cfg, Next(cfg, w, steps[0]), steps[1..], m + Bump(cfg, w, steps[0]));
    }
  }

  lemma {:induction false} RunFlags(cfg: Config, w: World, steps: seq<Step>, m: nat)
    requires MemoryReviewOn(cfg) && Lawful(cfg, w, m) && Lossless(cfg, w, steps)
    ensures Flagged(cfg, w, steps) == (m + Counted(cfg, w, steps)) / cfg.nudgeInterval - m / cfg.nudgeInterval
    decreases |steps|
  {
    if steps != [] {
      StepFlags(cfg, w, steps[0], m);
      StepLawIff(cfg, w, steps[0], m);
      RunFlags(cfg, Next(cfg, w, steps[0]), steps[1..], m + Bump(cfg, w, steps[0]));
    }
  }

  /**
   After any interleaving of turns, forks and reviews without a losing step the books show (m + k) mod n,
   where k turns counted, and one memory review was flagged for every full interval.
   */
  lemma {:induction false} RunLaw(cfg: Config, w: World, steps: seq<Step>, m: nat)
    requires MemoryReviewOn(cfg) && Lawful(cfg, w, m) && Lossless(cfg, w, steps)
    ensures var n, m' := cfg.nudgeInterval, m + Counted(cfg, w, steps);
            Lawful(cfg, Run(cfg, w, steps), m') && Flagged(cfg, w, steps) == m' / n - m / n
  {
    RunStaysLawful(cfg, w, steps, m);
    RunFlags(cfg, w, steps, m);
  }

  /** The law holds throughout a run exactly if the run has no losing step. */
  lemma {:induction false} LosslessIff(cfg: Config, w: World, steps: seq<Step>, m: nat)
    requires MemoryReviewOn(cfg) && Lawful(cfg, w, m)
    ensures AlwaysLawful(cfg, w, steps, m) <==> Lossless(cfg, w, steps)
    decreases |steps|
  {
    if steps != [] {
      StepLawIff(cfg, w, steps[0], m);
      if !Loses(cfg, w, steps[0]) {
        LosslessIff(cfg, Next(cfg, w, steps[0]), steps[1..], m + Bump(cfg, w, steps[0]));
      }
    }
  }

  /** A thread between turns, fresh or with `p` earlier user messages and no stored state. */
  lemma {:induction false} InterleavedCounter(cfg: Config, w: World, steps: seq<Step>)
    requires MemoryReviewOn(cfg) && Initial(w) && Active(w).state.None?
    requires Lossless(cfg, w, steps)
    ensures var n, p, k := cfg.nudgeInterval, Active(w).users, Counted(cfg, w, steps);
            Booked(cfg, Run(cfg, w, steps)) == (p + k) % n && Flagged(cfg, w, steps) == (p + k) / n - p / n
  {
    var p := Active(w).users;
    if p == 0 {
      ThreadRuns.DivUnique(0, cfg.nudgeInterval, 0, 0);
    }
    RunLaw(cfg, w, steps, p);
  }

  // ---------------------------------------------------------------------------------------------
  // The end of a review
  // ---------------------------------------------------------------------------------------------

  /** What a review of the session in use loads is the counter on the books. */
  lemma {:induction false} LoadReadsBooks(cfg: Config, w: World, i: nat, m: nat)
    requires cfg.nudgeInterval > 0 && Lawful(cfg, w, m) && Loads(w, i)
    requires w.reviews[i].sid == Current(w) && !w.phase.Copying?
    ensures var r := Next(cfg, w, ReviewLoad(i)).reviews[i];
            r.Loaded? && r.sid == w.reviews[i].sid && r.copy.turnsSinceMemory == m % cfg.nudgeInterval
  {
  }

  lemma MultipleKeepsRemainder(m: nat, k: nat, n: nat)
    requires n > 0 && k % n == 0
    ensures (m + k) % n == m % n
  {
    var q, p := m / n, k / n;
    Sum(n, q, p);
    assert m == n * q + m % n && k == n * p;
    ThreadRuns.DivUnique(m + k, n, q + p, m % n);
  }

  lemma GapIsMultiple(m: nat, k: nat, n: nat, q: nat, p: nat, r: nat)
    requires n > 0 && m == n * q + r && m + k == n * p + r
    ensures p >= q && k == n * (p - q)
  {
    ThreadRuns.Difference(n, p, q);
    ThreadRuns.Multiple(n, p - q);
  }

  lemma SameRemainderIsMultiple(m: nat, k: nat, n: nat)
    requires n > 0 && (m + k) % n == m % n
    ensures k % n == 0
  {
    var q, p, r := m / n, (m + k) / n, m % n;
    GapIsMultiple(m, k, n, q, p, r);
    ThreadRuns.DivUnique(k, n, p - q, 0);
  }

  lemma SameRemainderIff(m: nat, k: nat, n: nat)
    requires n > 0
    ensures (m + k) % n == m % n <==> k % n == 0
  {
    if k % n == 0 {
      MultipleKeepsRemainder(m, k, n);
    }
    if (m + k) % n == m % n {
      SameRemainderIsMultiple(m, k, n);
    }
  }

  lemma Sum(n: int, a: int, b: int)
    ensures n * (a + b) == n * a + n * b
  {
  }

  lemma EndLosesIff(cfg: Config, w: World, m: nat)
    requires cfg.nudgeInterval > 0 && Lawful(cfg, w, m)
    requires |w.reviews| == 1 && w.reviews[0].Loaded? && w.reviews[0].sid == Current(w) && !w.phase.Copying?
    ensures Loses(cfg, w, ReviewClear(0)) <==> w.reviews[0].copy.turnsSinceMemory != m % cfg.nudgeInterval
  {
  }

  /**
   A review that loaded the counter of `m` turns and ends after a run in which k more turns counted loses
   count exactly if k is no multiple of the interval; so it never does if no turn wrote in between.
   */
  lemma {:induction false} ReviewEndIff(cfg: Config, w: World, steps: seq<Step>, m: nat)
    requires MemoryReviewOn(cfg) && Lawful(cfg, w, m) && Lossless(cfg, w, steps)
    requires |w.reviews| == 1 && w.reviews[0].Loaded?
    requires w.reviews[0].copy.turnsSinceMemory == m % cfg.nudgeInterval
    requires var v := Run(cfg, w, steps);
             v.reviews == w.reviews && w.reviews[0].sid == Current(v) && !v.phase.Copying?
    ensures Loses(cfg, Run(cfg, w, steps), ReviewClear(0)) <==> Counted(cfg, w, steps) % cfg.nudgeInterval != 0
  {
    var k := Counted(cfg, w, steps);
    RunLaw(cfg, w, steps, m);
    EndLosesIff(cfg, Run(cfg, w, steps), m + k);
    SameRemainderIff(m, k, cfg.nudgeInterval);
  }

  lemma {:induction false} CountedCons(cfg: Config, w: World, a: Step, rest: seq<Step>)
    requires w.sessions != [] && cfg.nudgeInterval > 0
    ensures Run(cfg, w, [a] + rest) == Run(cfg, Next(cfg, w, a), rest)
    ensures Counted(cfg, w, [a] + rest) == Bump(cfg, w, a) + Counted(cfg, Next(cfg, w, a), rest)
    ensures Lossless(cfg, w, [a] + rest) <==> !Loses(cfg, w, a) && Lossless(cfg, Next(cfg, w, a), rest)
  {
    assert ([a] + rest)[1..] == rest;
  }

  lemma {:induction false} CountedCat(cfg: Config, w: World, a: seq<Step>, b: seq<Step>)
    requires w.sessions != [] && cfg.nudgeInterval > 0
    ensures Counted(cfg, w, a + b) == Counted(cfg, w, a) + Counted(cfg, Run(cfg, w, a), b)
    ensures Lossless(cfg, w, a + b) <==> Lossless(cfg, w, a) && Lossless(cfg, Run(cfg, w, a), b)
    decreases |a|
  {
    if a == [] {
      assert a + b == b;
    } else {
      assert (a + b)[1..] == a[1..] + b;
      CountedCat(cfg, Next(cfg, w, a[0]), a[1..], b);
    }
  }

  // ---------------------------------------------------------------------------------------------
  // A turn that dies
  // ---------------------------------------------------------------------------------------------

  /**
   A turn that dies in a session without a state loses count exactly if the user rows that are left are
   not, modulo the interval, as many as the turns counted; so does a fork that fails, by the user rows
   its child has so far.
   */
  lemma {:induction false} DeathLosesIff(cfg: Config, w: World, m: nat)
    requires cfg.nudgeInterval > 0 && Lawful(cfg, w, m)
    requires w.phase.Running? || InFork(w.phase)
    ensures Loses(cfg, w, Raise) <==>
            && Active(w).state.None?
            && Active(w).users % cfg.nudgeInterval != m % cfg.nudgeInterval
  {
  }

  /** A first turn, with the message it has already stored, loses count if it dies, unless every turn is reviewed. */
  lemma {:induction false} FirstTurnDiesIff(cfg: Config, w: World, m: nat)
    requires MemoryReviewOn(cfg) && Lawful(cfg, w, m) && w.phase.Idle?
    requires Active(w).state.None?
    ensures Loses(cfg, Next(cfg, w, Begin), Raise) <==> cfg.nudgeInterval >= 2
  {
    var u, n := Active(w).users, cfg.nudgeInterval;
    QuietStep(cfg, w, Begin, m);
    DeathLosesIff(cfg, Next(cfg, w, Begin), m);
    ThreadRuns.DivStep(u, n);
    if u == 0 {
      ThreadRuns.DivUnique(0, n, 0, 0);
    }
  }

  /** The same for the state that a fork has not yet copied. */
  lemma {:induction false} FailedForkLosesIff(cfg: Config, w: World, users: nat, m: nat)
    requires MemoryReviewOn(cfg) && Lawful(cfg, w, m) && w.phase.WrittenBack?
    requires CanFork(cfg) && users <= Active(w).users
    ensures Loses(cfg, Next(cfg, w, Fork(users)), Raise) <==> users % cfg.nudgeInterval != m % cfg.nudgeInterval
  {
    QuietStep(cfg, w, Fork(users), m);
    DeathLosesIff(cfg, Next(cfg, w, Fork(users)), m);
  }

  // ---------------------------------------------------------------------------------------------
  // A review that ends too late
  // ---------------------------------------------------------------------------------------------

  /** Turns that nothing interrupts lose nothing. */
  lemma {:induction false} CalmIsLossless(cfg: Config, w: World, steps: seq<Step>)
    requires w.sessions != [] && cfg.nudgeInterval > 0 && Calm(steps)
    ensures Lossless(cfg, w, steps)
    decreases |steps|
  {
    if steps != [] {
      assert steps[0] in steps && forall s :: s in steps[1..] ==> s in steps;
      CalmIsLossless(cfg, Next(cfg, w, steps[0]), steps[1..]);
    }
  }

  const LOSING_TURN := [Begin] + ([ReviewLoad(0)] + ([WriteBack(0, true)] + ([ReviewClear(0)] + [])))

  lemma LosingTurn(cfg: Config, w: World, m: nat)
    requires MemoryReviewOn(cfg) && cfg.nudgeInterval >= 2
    requires Reviewing(w) && Lawful(cfg, w, m)
    ensures Counted(cfg, w, LOSING_TURN) == 1 && !Lossless(cfg, w, LOSING_TURN)
    ensures Holds(Active(Run(cfg, w, LOSING_TURN)).state, m % cfg.nudgeInterval)
  {
    var w1 := Next(cfg, w, Begin);
    var w2 := Next(cfg, w1, ReviewLoad(0));
    var w3 := Next(cfg, w2, WriteBack(0, true));
    CountedCons(cfg, w, Begin, [ReviewLoad(0)] + ([WriteBack(0, true)] + ([ReviewClear(0)] + [])));
    CountedCons(cfg, w1, ReviewLoad(0), [WriteBack(0, true)] + ([ReviewClear(0)] + []));
    CountedCons(cfg, w2, WriteBack(0, true), [ReviewClear(0)] + []);
    CountedCons(cfg, w3, ReviewClear(0), []);
    QuietStep(cfg, w, Begin, m);
    QuietStep(cfg, w1, ReviewLoad(0), m);
    WriteBackStep(cfg, w2, WriteBack(0, true), m);
    EndLosesIff(cfg, w3, m + 1);
    ThreadRuns.DivStep(m, cfg.nudgeInterval);
    assert w2.reviews[0].copy.turnsSinceMemory == m % cfg.nudgeInterval;
    assert Loses(cfg, w3, ReviewClear(0));
  }

  /**
   A run of a new thread, for every configuration with memory reviews at an interval above one, that loses
   a count: after whole turns the last of which starts a review, one more turn writes back between the
   review's load and its save.  Then k + 1 turns have counted and the stored counter is that of k.
   */
  lemma {:induction false} LostCount(cfg: Config, w: World) returns (first: seq<Step>)
    requires MemoryReviewOn(cfg) && cfg.reviewEnabled && cfg.nudgeInterval >= 2
    requires Initial(w) && Active(w) == Session(None, 0)
    ensures Calm(first) && Lossless(cfg, w, first) && Reviewing(Run(cfg, w, first))
    ensures var steps, k := first + LOSING_TURN, Counted(cfg, w, first);
            && Counted(cfg, w, steps) == k + 1 && !Lossless(cfg, w, steps)
            && Holds(Active(Run(cfg, w, steps)).state, k % cfg.nudgeInterval)
            && k % cfg.nudgeInterval != (k + 1) % cfg.nudgeInterval
  {
    first := FirstReview(cfg, w);
    var k, v := Counted(cfg, w, first), Run(cfg, w, first);
    CalmIsLossless(cfg, w, first);
    ThreadRuns.DivUnique(0, cfg.nudgeInterval, 0, 0);
    RunLaw(cfg, w, first, 0);
    LosingTurn(cfg, v, k);
    CountedCat(cfg, w, first, LOSING_TURN);
    RunCat(cfg, w, first, LOSING_TURN);
    ThreadRuns.DivStep(k, cfg.nudgeInterval);
  }
}
