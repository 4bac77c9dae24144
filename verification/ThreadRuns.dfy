/**
 Whole runs of a thread: turns one after another, each normal or a retry, ending in any way, with a
 fork whenever the session is compressed.  No review writes the state in between; `ReviewCounters`
 carries the count over to runs with reviews.
 */
module ThreadRuns {
  import opened Wrappers
  import opened HermesState
  import opened AgentConfig
  import opened AgentTurnHooks
  import opened ToolPairing
  import opened ContextCompressor
  import opened TurnEngine

  /** The active session after one request; a retry of a message that is not there changes nothing. */
  function Next(cfg: Config, s: SessionState, input: TurnInput): SessionState {
    if ValidInput(s, input) then Active(Turn(cfg, s, input)) else s
  }

  function After(cfg: Config, s: SessionState, inputs: seq<TurnInput>): SessionState
    decreases |inputs|
  {
    if inputs == [] then s
    else Next(cfg, After(cfg, s, inputs[..|inputs| - 1]), inputs[|inputs| - 1])
  }

  ghost predicate Honest(inputs: seq<TurnInput>) {
    forall k, n :: 0 <= k < |inputs| ==> WellFormed(inputs[k].oracle(n))
  }

  /** No compression of the run cuts in front of a tool result. */
  predicate CleanRun(cfg: Config, s: SessionState, inputs: seq<TurnInput>)
    decreases |inputs|
  {
    inputs == [] ||
    var front, last := inputs[..|inputs| - 1], inputs[|inputs| - 1];
    var before := After(cfg, s, front);
    && CleanRun(cfg, s, front)
    && (ValidInput(before, last) ==> CleanCut(Turn(cfg, before, last)))
  }

  /**
   Over any run, every batch of the active session is followed at once by exactly its results, and
   if no cut was unclean no result stands alone.  The same holds for the session each turn leaves
   behind, since `TurnKeepsPairing` covers it from the state reached here.
   */
  lemma {:induction false} RunKeepsPairing(cfg: Config, s: SessionState, inputs: seq<TurnInput>)
    requires Honest(inputs) && SessionOk(s.rows)
    ensures SessionOk(After(cfg, s, inputs).rows)
    ensures NoOrphans(s.rows) && CleanRun(cfg, s, inputs) ==> Paired(After(cfg, s, inputs).rows)
    decreases |inputs|
  {
    if inputs != [] {
      var front, last := inputs[..|inputs| - 1], inputs[|inputs| - 1];
      RunKeepsPairing(cfg, s, front);
      var before := After(cfg, s, front);
      if ValidInput(before, last) {
        assert forall n :: WellFormed(last.oracle(n));
        TurnKeepsPairing(cfg, before, last);
      }
    }
  }

  // ---------------------------------------------------------------------------------------------
  // The memory review counter
  // ---------------------------------------------------------------------------------------------

  /** The counter a turn on `s` would begin with. */
  function Counter(cfg: Config, s: SessionState): int {
    Hydrate(s.agentState, UserCount(s.rows), cfg.nudgeInterval).turnsSinceMemory
  }

  predicate Counts(s: SessionState, input: TurnInput) {
    ValidInput(s, input) && input.retry.None?
  }

  /** How many turns of the run count, that is, are carried out and are not retries. */
  function Counted(cfg: Config, s: SessionState, inputs: seq<TurnInput>): nat
    decreases |inputs|
  {
    if inputs == [] then 0
    else
      var front := inputs[..|inputs| - 1];
      Counted(cfg, s, front) + if Counts(After(cfg, s, front), inputs[|inputs| - 1]) then 1 else 0
  }

  /** How many turns of the run flag a memory review. */
  function MemoryFlags(cfg: Config, s: SessionState, inputs: seq<TurnInput>): nat
    decreases |inputs|
  {
    if inputs == [] then 0
    else
      var front, last := inputs[..|inputs| - 1], inputs[|inputs| - 1];
      var before := After(cfg, s, front);
      MemoryFlags(cfg, s, front)
      + if FlagsMemory(cfg, before, last) then 1 else 0
  }

  predicate FlagsMemory(cfg: Config, s: SessionState, input: TurnInput) {
    ValidInput(s, input) && Turn(cfg, s, input).flags.reviewMemory
  }

  lemma TurnCounter(cfg: Config, s: SessionState, input: TurnInput)
    requires MemoryReviewOn(cfg) && 0 <= Counter(cfg, s) < cfg.nudgeInterval && ValidInput(s, input)
    ensures var t := Turn(cfg, s, input);
            var c := Counter(cfg, s) + if input.retry.None? then 1 else 0;
            && Active(t).agentState.Some?
            && (t.flags.reviewMemory <==> c == cfg.nudgeInterval)
            && Counter(cfg, Active(t)) == if c == cfg.nudgeInterval then 0 else c
  {
  }

  lemma DivStep(m: nat, n: nat)
    requires n > 0
    ensures m % n + 1 == n ==> (m + 1) % n == 0 && (m + 1) / n == m / n + 1
    ensures m % n + 1 < n ==> (m + 1) % n == m % n + 1 && (m + 1) / n == m / n
  {
    var q, r := m / n, m % n;
    Distribute(n, q);
    if r + 1 == n {
      DivUnique(m + 1, n, q + 1, 0);
    } else {
      DivUnique(m + 1, n, q, r + 1);
    }
  }

  lemma Distribute(n: int, q: int)
    ensures n * (q + 1) == n * q + n
  {
  }

  lemma DivUnique(m: nat, n: nat, q: nat, r: nat)
    requires r < n && m == n * q + r
    ensures m / n == q && m % n == r
  {
    var q' := m / n;
    Difference(n, q, q');
    Multiple(n, q - q');
  }

  lemma Difference(n: int, q: int, p: int)
    ensures n * (q - p) == n * q - n * p
  {
  }

  lemma Multiple(n: int, d: int)
    requires n > 0
    ensures d >= 1 ==> n * d >= n
    ensures d <= -1 ==> n * d <= -n
  {
  }

  /** One request moves the counter of `m` user messages to that of `m` or `m + 1`. */
  lemma NextCounter(cfg: Config, s: SessionState, input: TurnInput, m: nat)
    requires MemoryReviewOn(cfg) && Counter(cfg, s) == m % cfg.nudgeInterval
    ensures var n, m' := cfg.nudgeInterval, m + if Counts(s, input) then 1 else 0;
            && Counter(cfg, Next(cfg, s, input)) == m' % n
            && (if FlagsMemory(cfg, s, input) then 1 else 0) == m' / n - m / n
    ensures s.agentState.Some? || ValidInput(s, input) ==> Next(cfg, s, input).agentState.Some?
  {
    DivStep(m, cfg.nudgeInterval);
    if ValidInput(s, input) {
      TurnCounter(cfg, s, input);
    }
  }

  /**
   If the counter starts out as that of `m0` user messages, then after any run it is that of
   `m0 + k`, where `k` turns counted, and one memory review was flagged for every full interval.
   Forks, cancelled turns and retries make no difference.
   */
  lemma {:induction false} RunCounter(cfg: Config, s: SessionState, inputs: seq<TurnInput>, m0: nat)
    requires MemoryReviewOn(cfg) && Counter(cfg, s) == m0 % cfg.nudgeInterval
    ensures var n, m := cfg.nudgeInterval, m0 + Counted(cfg, s, inputs);
            && Counter(cfg, After(cfg, s, inputs)) == m % n
            && MemoryFlags(cfg, s, inputs) == m / n - m0 / n
    ensures s.agentState.Some? || Counted(cfg, s, inputs) > 0 ==> After(cfg, s, inputs).agentState.Some?
    decreases |inputs|
  {
    if inputs != [] {
      var front, last := inputs[..|inputs| - 1], inputs[|inputs| - 1];
      var before, m := After(cfg, s, front), m0 + Counted(cfg, s, front);
      RunCounter(cfg, s, front, m0);
      NextCounter(cfg, before, last, m);
      assert Counted(cfg, s, inputs) == m - m0 + if Counts(before, last) then 1 else 0;
    }
  }

  /** The state column of a thread, fresh or with `p` earlier user messages, after a run of `k` counted turns. */
  lemma {:induction false} PersistedCounter(cfg: Config, s: SessionState, inputs: seq<TurnInput>)
    requires MemoryReviewOn(cfg) && s.agentState.None? && Counted(cfg, s, inputs) > 0
    ensures var n, p, k := cfg.nudgeInterval, UserCount(s.rows), Counted(cfg, s, inputs);
            var state := After(cfg, s, inputs).agentState;
            && state.Some?
            && state.value.turnsSinceMemory == (p + k) % n
            && MemoryFlags(cfg, s, inputs) == (p + k) / n - p / n
  {
    var p := UserCount(s.rows);
    if p == 0 {
      DivUnique(0, cfg.nudgeInterval, 0, 0);
    }
    RunCounter(cfg, s, inputs, p);
  }
}
