/**
 Counters of an agent thread: hydration (src/media2text/agent/agent_state.py) and the review flags
 computed at the end of a turn (src/media2text/agent/agent_turn_hooks.py).
 */
module AgentTurnHooks {
  import opened Wrappers
  import opened HermesState
  import opened AgentConfig

  datatype ReviewFlags = ReviewFlags(reviewMemory: bool, reviewSkills: bool)

  const FRESH_STATE := AgentState(0, 0, false)

  /** `stored` is the state column of the session, `prior` its number of user messages. */
  function Hydrate(stored: Option<AgentState>, prior: nat, nudgeInterval: int): AgentState {
    var state := stored.GetOr(FRESH_STATE);
    if nudgeInterval <= 0 then state
    else if prior > 0 && state.turnsSinceMemory == 0 && stored.None? then
      state.(turnsSinceMemory := prior % nudgeInterval)
    else state
  }

  function ComputeReviewFlags(cfg: Config, state: AgentState): ReviewFlags {
    ReviewFlags(
      cfg.nudgeInterval > 0 && cfg.memoryEnabled && state.turnsSinceMemory >= cfg.nudgeInterval && cfg.hasMemoryTool,
      cfg.skillInterval > 0 && state.itersSinceSkill >= cfg.skillInterval && cfg.hasSkillTool)
  }

  function ApplyReviewResets(state: AgentState, flags: ReviewFlags): AgentState {
    var s := if flags.reviewMemory then state.(turnsSinceMemory := 0) else state;
    if flags.reviewSkills then s.(itersSinceSkill := 0) else s
  }

  predicate MemoryReviewOn(cfg: Config) {
    cfg.nudgeInterval > 0 && cfg.memoryEnabled && cfg.hasMemoryTool
  }

  /** A turn can make enough iterations to call for a skill review. */
  predicate SkillReviewOn(cfg: Config) {
    0 < cfg.skillInterval <= Budget(cfg) && cfg.hasSkillTool
  }

  predicate CanReview(cfg: Config) {
    cfg.reviewEnabled && (MemoryReviewOn(cfg) || SkillReviewOn(cfg))
  }

  /** A review is due when its counter has reached its interval, is switched on and has its tool. */
  lemma FlagsAre(cfg: Config, state: AgentState)
    ensures ComputeReviewFlags(cfg, state).reviewMemory <==>
            && 0 < cfg.nudgeInterval <= state.turnsSinceMemory && cfg.memoryEnabled && cfg.hasMemoryTool
    ensures ComputeReviewFlags(cfg, state).reviewSkills <==>
            0 < cfg.skillInterval <= state.itersSinceSkill && cfg.hasSkillTool
  {
  }

  /** Exactly the counters of the reviews that are due start again; the flag of a running review stays. */
  lemma ResetsAre(state: AgentState, flags: ReviewFlags)
    ensures var s := ApplyReviewResets(state, flags);
            && (flags.reviewMemory ==> s.turnsSinceMemory == 0) && (flags.reviewSkills ==> s.itersSinceSkill == 0)
            && (!flags.reviewMemory ==> s.turnsSinceMemory == state.turnsSinceMemory)
            && (!flags.reviewSkills ==> s.itersSinceSkill == state.itersSinceSkill)
            && s.reviewInFlight == state.reviewInFlight
  {
  }

  /** A missing state is one with zero counters and no review. */
  lemma MissingState(prior: nat, nudgeInterval: int)
    ensures var s := Hydrate(None, prior, nudgeInterval);
            s.itersSinceSkill == 0 && !s.reviewInFlight && (nudgeInterval <= 0 ==> s.turnsSinceMemory == 0)
            && (nudgeInterval > 0 && prior > 0 ==> s.turnsSinceMemory == prior % nudgeInterval)
            && (prior == 0 ==> s.turnsSinceMemory == 0)
  {
  }
}
