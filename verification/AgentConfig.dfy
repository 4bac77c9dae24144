/** The configuration values a turn reads; all of them are arbitrary. */
module AgentConfig {
  import opened HermesState

  datatype Config = Config(
    maxTurns: int,
    maxToolOutputChars: int,
    maxContextChars: int,
    compressionEnabled: bool,
    preflightRatio: real,
    autoRatio: real,
    protectLastN: int,
    nudgeInterval: int,
    memoryEnabled: bool,
    skillInterval: int,
    reviewEnabled: bool,
    hasMemoryTool: bool,
    hasSkillTool: bool,
    /** Length of a batch of calls once encoded as JSON. */
    jsonLen: seq<ToolCall> -> nat,
    /** The summarizer, a call into another service. */
    summarize: string -> string)

  /** `IterationBudget` allows at least one iteration. */
  function Budget(cfg: Config): nat {
    if cfg.maxTurns < 1 then 1 else cfg.maxTurns
  }

  /** Some session can be compressed; with `protect_last_n` zero there is never anything to compress. */
  predicate CanFork(cfg: Config) {
    cfg.compressionEnabled && cfg.protectLastN != 0
  }
}
