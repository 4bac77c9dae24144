/**
 The monitor's self-heal limiter (src/media2text/api/services/monitor_self_heal.py): a cooldown and a
 sliding window over a pruned list of heal times.  What the supervisor, the lock file and the clock
 answer during one call is a `Probe`.
 */
module SelfHeal {
  import opened Wrappers

  datatype Limits = Limits(autoStart: bool, selfHeal: bool, cooldownSec: real, maxPerHour: int)

  datatype LockRecord = LockRecord(pid: int, mode: string)

  /** Everything one call can observe. */
  datatype Probe = Probe(
    now: real,
    running: bool,
    reason: string,
    lock: Option<LockRecord>,
    lockFilePid: Option<int>,
    watchPids: set<int>,
    embeddedPids: set<int>,
    ownPid: int,
    threadAlive: bool,
    tickAge: Option<real>,
    staleLimit: real,
    repairOk: bool,
    runningAfterRepair: bool,
    pidAfterClear: Option<int>,
    firstTakeoverOk: bool,
    secondTakeoverOk: bool,
    recoveryRaises: bool)
  {
    /** The process id of the lock; none and zero both count as no process. */
    function LockPid(): int {
      if lock.Some? then lock.value.pid else lockFilePid.GetOr(0)
    }

    predicate ExternalHolds() {
      lock.Some? && lock.value.mode == "external" && LockPid() != 0 && LockPid() in watchPids
    }

    predicate EmbeddedHolds() {
      threadAlive || (LockPid() == ownPid && LockPid() in embeddedPids)
    }

    predicate Ticking() {
      tickAge.Some? && tickAge.value < staleLimit
    }
  }

  datatype Outcome =
    | Disabled
    | Running
    | CoolingDown
    | HourlyLimit
    | ExternalStale
    | ProbeInProgress
    | ExternalStarted
    | Restarted
    | Repaired
    | TookOver
    | Failed
    | RecoveryRaised
  {
    predicate Healed() {
      Restarted? || Repaired? || TookOver?
    }
  }

  const WINDOW_SEC := 3600.0

  datatype HealState = HealState(lastHealAt: real, times: seq<real>)

  // ---------------------------------------------------------------------------------------------
  // What one call does
  // ---------------------------------------------------------------------------------------------

  function Prune(times: seq<real>, now: real): seq<real> {
    if times == [] then []
    else (if now - times[0] < WINDOW_SEC then [times[0]] else []) + Prune(times[1..], now)
  }

  /** The call gets past the switch, the running check and the cooldown. */
  predicate Consults(limits: Limits, s: HealState, p: Probe, force: bool) {
    limits.autoStart && limits.selfHeal && !p.running && (force || p.now - s.lastHealAt >= limits.cooldownSec)
  }

  predicate Admitted(limits: Limits, s: HealState, p: Probe, force: bool) {
    Consults(limits, s, p, force) && |Prune(s.times, p.now)| < limits.maxPerHour
  }

  /** What an admitted call does about the monitor. */
  function Action(p: Probe): Outcome {
    if p.reason == "heartbeat_stale" && p.ExternalHolds() then ExternalStale
    else if p.reason == "heartbeat_stale" && p.EmbeddedHolds() then
      if p.Ticking() then ProbeInProgress
      else if p.firstTakeoverOk then Restarted
      else Failed
    else if p.threadAlive && p.reason == "embedded_thread_dead" && p.repairOk && p.runningAfterRepair then Repaired
    else if p.pidAfterClear.GetOr(0) != 0 && p.pidAfterClear.value in p.watchPids then ExternalStarted
    else if p.firstTakeoverOk || (p.reason == "lock_pid_mismatch" && p.secondTakeoverOk) then TookOver
    else Failed
  }

  /** What it ends with: recovering stale work comes after the action and may raise. */
  function Attempt(p: Probe): Outcome {
    if p.recoveryRaises && (Action(p).Healed() || Action(p).ExternalStale?) then RecoveryRaised else Action(p)
  }

  predicate Heals(limits: Limits, s: HealState, p: Probe, force: bool) {
    Admitted(limits, s, p, force) && Attempt(p).Healed()
  }

  function Step(limits: Limits, s: HealState, p: Probe, force: bool): HealState {
    if !Consults(limits, s, p, force) then s
    else if Heals(limits, s, p, force) then HealState(p.now, Prune(s.times, p.now) + [p.now])
    else s.(times := Prune(s.times, p.now))
  }

  /** The process id of the lock, by its record or by its file. */
  ghost predicate LockPidIs(p: Probe, pid: int) {
    match p.lock
    case Some(record) => pid == record.pid
    case None => pid == p.lockFilePid.GetOr(0)
  }

  /** A live external watcher holds the lock of a stale monitor. */
  ghost predicate HeldOutside(p: Probe) {
    && p.reason == "heartbeat_stale" && p.lock.Some? && p.lock.value.mode == "external"
    && p.lock.value.pid != 0 && p.lock.value.pid in p.watchPids
  }

  /** A stale monitor of this process: its thread is alive, or this process has the lock for it. */
  ghost predicate HeldHere(p: Probe) {
    && p.reason == "heartbeat_stale" && !HeldOutside(p)
    && (p.threadAlive || (LockPidIs(p, p.ownPid) && p.ownPid in p.embeddedPids))
  }

  ghost predicate TickedLately(p: Probe) {
    exists age :: p.tickAge == Some(age) && age < p.staleLimit
  }

  /** The lock of a dead thread's monitor could be repaired, and the monitor runs again. */
  ghost predicate RepairWorks(p: Probe) {
    p.reason == "embedded_thread_dead" && p.threadAlive && p.repairOk && p.runningAfterRepair
  }

  ghost predicate StartedOutside(p: Probe) {
    exists pid :: p.pidAfterClear == Some(pid) && pid != 0 && pid in p.watchPids
  }

  /** The second attempt is for a lock with the wrong process only. */
  ghost predicate TakeoverWorks(p: Probe) {
    p.firstTakeoverOk || (p.reason == "lock_pid_mismatch" && p.secondTakeoverOk)
  }

  /** The call ends up taking over a monitor that nobody holds. */
  ghost predicate Unheld(p: Probe) {
    !HeldOutside(p) && !HeldHere(p) && !RepairWorks(p) && !StartedOutside(p)
  }

  /** Exactly when an admitted call ends with each outcome. */
  ghost predicate OutcomeIs(p: Probe, o: Outcome) {
    && (o == ProbeInProgress <==> HeldHere(p) && TickedLately(p))
    && (o == ExternalStarted <==> !HeldOutside(p) && !HeldHere(p) && !RepairWorks(p) && StartedOutside(p))
    && (o == ExternalStale <==> HeldOutside(p) && !p.recoveryRaises)
    && (o == Restarted <==> HeldHere(p) && !TickedLately(p) && p.firstTakeoverOk && !p.recoveryRaises)
    && (o == Repaired <==> RepairWorks(p) && !p.recoveryRaises)
    && (o == TookOver <==> Unheld(p) && TakeoverWorks(p) && !p.recoveryRaises)
    && (o == RecoveryRaised <==>
          && p.recoveryRaises
          && (|| HeldOutside(p) || RepairWorks(p) || (Unheld(p) && TakeoverWorks(p))
              || (HeldHere(p) && !TickedLately(p) && p.firstTakeoverOk)))
    && (o == Failed <==>
          || (HeldHere(p) && !TickedLately(p) && !p.firstTakeoverOk)
          || (Unheld(p) && !TakeoverWorks(p)))
  }

  lemma AttemptIs(p: Probe)
    ensures OutcomeIs(p, Attempt(p))
  {
  }

  /** No monitor of this process is restarted while its last tick is younger than the limit. */
  lemma TickingIsLeftAlone(limits: Limits, s: HealState, p: Probe, force: bool)
    requires p.reason == "heartbeat_stale" && p.tickAge.Some? && p.tickAge.value < p.staleLimit
    requires p.threadAlive || (LockPidIs(p, p.ownPid) && p.ownPid in p.embeddedPids)
    ensures !Heals(limits, s, p, force) && Step(limits, s, p, force).lastHealAt == s.lastHealAt
    ensures !Attempt(p).Failed?
  {
    AttemptIs(p);
    assert p.tickAge == Some(p.tickAge.value);
  }

  /** No monitor whose stale lock a live external watcher holds is taken over. */
  lemma ExternalIsLeftAlone(limits: Limits, s: HealState, p: Probe, force: bool, pid: int)
    requires p.reason == "heartbeat_stale" && p.lock == Some(LockRecord(pid, "external"))
    requires pid != 0 && pid in p.watchPids
    ensures !Heals(limits, s, p, force) && Step(limits, s, p, force).lastHealAt == s.lastHealAt
    ensures !Attempt(p).Failed?
  {
    AttemptIs(p);
  }

  lemma PruneStep(kept: seq<real>, t: real, rest: seq<real>, now: real)
    ensures kept + Prune([t] + rest, now) == (if now - t < WINDOW_SEC then kept + [t] else kept) + Prune(rest, now)
  {
    assert ([t] + rest)[1..] == rest;
  }

  lemma {:induction false} PruneKeepsRecent(times: seq<real>, now: real)
    ensures forall t :: t in Prune(times, now) <==> t in times && now - t < 3600.0
  {
    if times != [] {
      PruneKeepsRecent(times[1..], now);
      assert times == [times[0]] + times[1..];
    }
  }

  method PruneLoop(times: seq<real>, now: real) returns (kept: seq<real>)
    ensures kept == Prune(times, now)
  {
    kept := [];
    for i := 0 to |times|
      invariant kept + Prune(times[i..], now) == Prune(times, now)
    {
      assert times[i..] == [times[i]] + times[i + 1..];
      PruneStep(kept, times[i], times[i + 1..], now);
      if now - times[i] < WINDOW_SEC {
        kept := kept + [times[i]];
      }
    }
  }

  class SelfHealer {
    var lastHealAt: real
    var healTimes: seq<real>

    function State(): HealState
      reads this
    {
      HealState(lastHealAt, healTimes)
    }

    constructor ()
      ensures State() == HealState(0.0, [])
    {
      lastHealAt := 0.0;
      healTimes := [];
    }

    method HourlyLimitReached(limits: Limits, now: real) returns (reached: bool)
      modifies this`healTimes
      ensures healTimes == Prune(old(healTimes), now)
      ensures forall t :: t in healTimes <==> t in old(healTimes) && now - t < 3600.0
      ensures reached <==> |Prune(old(healTimes), now)| >= limits.maxPerHour
    {
      PruneKeepsRecent(healTimes, now);
      healTimes := PruneLoop(healTimes, now);
      reached := |healTimes| >= limits.maxPerHour;
    }

    method RecordHeal(now: real)
      modifies this
      ensures lastHealAt == now && healTimes == old(healTimes) + [now]
    {
      lastHealAt := now;
      healTimes := healTimes + [now];
    }

    method MaybeSelfHeal(limits: Limits, p: Probe, force: bool) returns (outcome: Outcome)
      modifies this
      ensures State() == Step(limits, old(State()), p, force)
      ensures outcome.Healed() <==> Heals(limits, old(State()), p, force)
      ensures outcome == Disabled <==> !limits.autoStart || !limits.selfHeal
      ensures outcome == Running <==> limits.autoStart && limits.selfHeal && p.running
      ensures outcome == CoolingDown <==>
                && limits.autoStart && limits.selfHeal && !p.running
                && !force && p.now - old(lastHealAt) < limits.cooldownSec
      ensures outcome == HourlyLimit <==>
                Consults(limits, old(State()), p, force) && !Admitted(limits, old(State()), p, force)
      ensures Admitted(limits, old(State()), p, force) ==> outcome == Attempt(p) && OutcomeIs(p, outcome)
    {
      AttemptIs(p);
      if !limits.autoStart || !limits.selfHeal {
        return Disabled;
      }
      if p.running {
        return Running;
      }
      if !force && p.now - lastHealAt < limits.cooldownSec {
        return CoolingDown;
      }
      var reached := HourlyLimitReached(limits, p.now);
      if reached {
        return HourlyLimit;
      }
      if p.reason == "heartbeat_stale" {
        if p.ExternalHolds() {
          if p.recoveryRaises {
            return RecoveryRaised;
          }
          return ExternalStale;
        }
        if p.EmbeddedHolds() {
          if p.Ticking() {
            return ProbeInProgress;
          }
          if p.firstTakeoverOk {
            if p.recoveryRaises {
              return RecoveryRaised;
            }
            RecordHeal(p.now);
            return Restarted;
          }
          return Failed;
        }
      }
      if p.threadAlive && p.reason == "embedded_thread_dead" {
        if p.repairOk {
          if p.runningAfterRepair {
            if p.recoveryRaises {
              return RecoveryRaised;
            }
            RecordHeal(p.now);
            return Repaired;
          }
        }
      }
      if p.pidAfterClear.GetOr(0) != 0 && p.pidAfterClear.value in p.watchPids {
        return ExternalStarted;
      }
      var ok := p.firstTakeoverOk;
      if !ok && p.reason == "lock_pid_mismatch" {
        ok := p.secondTakeoverOk;
      }
      if ok {
        if p.recoveryRaises {
          return RecoveryRaised;
        }
        RecordHeal(p.now);
        return TookOver;
      }
      return Failed;
    }
  }

  // ---------------------------------------------------------------------------------------------
  // Runs
  // ---------------------------------------------------------------------------------------------

  datatype Call = Call(limits: Limits, probe: Probe, force: bool)

  datatype Heal = Heal(at: real, forced: bool, cooldownSec: real)

  /** The calls come in the order of the clock. */
  predicate InOrder(calls: seq<Call>) {
    forall i, j :: 0 <= i <= j < |calls| ==> calls[i].probe.now <= calls[j].probe.now
  }

  function StateAfter(calls: seq<Call>): HealState {
    if calls == [] then HealState(0.0, [])
    else
      var c := calls[|calls| - 1];
      Step(c.limits, StateAfter(calls[..|calls| - 1]), c.probe, c.force)
  }

  /** Every heal of the run, pruned or not. */
  function History(calls: seq<Call>): seq<Heal> {
    if calls == [] then []
    else
      var before, c := calls[..|calls| - 1], calls[|calls| - 1];
      History(before)
      + if Heals(c.limits, StateAfter(before), c.probe, c.force)
        then [Heal(c.probe.now, c.force, c.limits.cooldownSec)] else []
  }

  function Times(h: seq<Heal>): (t: seq<real>)
    ensures |t| == |h| && forall i :: 0 <= i < |h| ==> t[i] == h[i].at
  {
    seq(|h|, i requires 0 <= i < |h| => h[i].at)
  }

  predicate Ascending(t: seq<real>) {
    forall i, j :: 0 <= i <= j < |t| ==> t[i] <= t[j]
  }

  /** The times of `t` in the half-open window that starts at `start`. */
  function InWindow(t: seq<real>, start: real): nat {
    if t == [] then 0
    else
      var last := t[|t| - 1];
      InWindow(t[..|t| - 1], start) + if start <= last < start + WINDOW_SEC then 1 else 0
  }

  lemma InWindowSnoc(t: seq<real>, last: real, start: real)
    ensures InWindow(t + [last], start) == InWindow(t, start) + if start <= last < start + WINDOW_SEC then 1 else 0
  {
    assert (t + [last])[..|t|] == t;
  }

  /** The kept times are the end of the history, and everything before them is an hour old. */
  ghost predicate Keeps(times: seq<real>, all: seq<real>, now: real) {
    && Ascending(all) && |times| <= |all| && times == all[|all| - |times|..]
    && (forall i :: 0 <= i < |all| - |times| ==> now - all[i] >= WINDOW_SEC)
    && (forall i :: 0 <= i < |all| ==> all[i] <= now)
  }

  lemma {:induction false} PruneAll(times: seq<real>, now: real)
    requires forall i :: 0 <= i < |times| ==> now - times[i] < WINDOW_SEC
    ensures Prune(times, now) == times
  {
    if times != [] {
      PruneAll(times[1..], now);
    }
  }

  /** Pruning an ascending list cuts off its first part. */
  lemma {:induction false} PruneCut(times: seq<real>, now: real) returns (k: nat)
    requires Ascending(times)
    ensures k <= |times| && Prune(times, now) == times[k..]
    ensures forall i :: 0 <= i < k ==> now - times[i] >= WINDOW_SEC
    ensures forall i :: k <= i < |times| ==> now - times[i] < WINDOW_SEC
  {
    if times == [] {
      k := 0;
    } else if now - times[0] < WINDOW_SEC {
      PruneAll(times, now);
      k := 0;
    } else {
      var k' := PruneCut(times[1..], now);
      k := k' + 1;
      assert times[1..][k'..] == times[k..];
      assert [] + Prune(times[1..], now) == Prune(times[1..], now);
      forall i | k <= i < |times| ensures now - times[i] < WINDOW_SEC {
        assert times[i] == times[1..][i - 1];
      }
    }
  }

  lemma PruneKeeps(times: seq<real>, all: seq<real>, now: real)
    requires Keeps(times, all, now)
    ensures Keeps(Prune(times, now), all, now)
    ensures forall i :: |all| - |Prune(times, now)| <= i < |all| ==> now - all[i] < WINDOW_SEC
  {
    var gone := |all| - |times|;
    assert forall i :: 0 <= i < |times| ==> times[i] == all[gone + i];
    var k := PruneCut(times, now);
    assert times[k..] == all[gone + k..];
    forall i | gone <= i < gone + k ensures now - all[i] >= WINDOW_SEC {
      assert all[i] == times[i - gone];
    }
    forall i | gone + k <= i < |all| ensures now - all[i] < WINDOW_SEC {
      assert all[i] == times[i - gone];
    }
  }

  lemma HealKeeps(times: seq<real>, all: seq<real>, now: real)
    requires Keeps(times, all, now)
    ensures Keeps(times + [now], all + [now], now)
  {
    var more := all + [now];
    assert forall i :: 0 <= i < |all| ==> more[i] == all[i];
    assert times + [now] == more[|all| - |times|..];
  }

  /** One call keeps it, with the heal it may add. */
  lemma StepKeeps(c: Call, s: HealState, all: seq<real>)
    requires Keeps(s.times, all, c.probe.now)
    ensures var more := if Heals(c.limits, s, c.probe, c.force) then all + [c.probe.now] else all;
            Keeps(Step(c.limits, s, c.probe, c.force).times, more, c.probe.now)
  {
    PruneKeeps(s.times, all, c.probe.now);
    HealKeeps(Prune(s.times, c.probe.now), all, c.probe.now);
  }

  lemma HistoryStep(calls: seq<Call>)
    requires calls != []
    ensures var before, c := calls[..|calls| - 1], calls[|calls| - 1];
            var all := Times(History(before));
            var heals := Heals(c.limits, StateAfter(before), c.probe, c.force);
            Times(History(calls)) == if heals then all + [c.probe.now] else all
  {
    var before := calls[..|calls| - 1];
    assert History(before) + [] == History(before);
  }

  lemma KeepsLater(times: seq<real>, all: seq<real>, before: real, now: real)
    requires Keeps(times, all, before) && before <= now
    ensures Keeps(times, all, now)
  {
  }

  lemma HistoryKeptStep(calls: seq<Call>)
    requires calls != []
    requires var before, now := calls[..|calls| - 1], calls[|calls| - 1].probe.now;
             Keeps(StateAfter(before).times, Times(History(before)), now)
    ensures Keeps(StateAfter(calls).times, Times(History(calls)), calls[|calls| - 1].probe.now)
  {
    var before, c := calls[..|calls| - 1], calls[|calls| - 1];
    StepKeeps(c, StateAfter(before), Times(History(before)));
    HistoryStep(calls);
  }

  lemma {:induction false} HistoryKept(calls: seq<Call>, now: real)
    requires InOrder(calls) && (calls != [] ==> calls[|calls| - 1].probe.now <= now)
    ensures Keeps(StateAfter(calls).times, Times(History(calls)), now)
  {
    if calls != [] {
      var c := calls[|calls| - 1];
      HistoryKept(calls[..|calls| - 1], c.probe.now);
      HistoryKeptStep(calls);
      KeepsLater(StateAfter(calls).times, Times(History(calls)), c.probe.now, now);
    }
  }

  lemma {:induction false} LastHealIsLast(calls: seq<Call>)
    ensures StateAfter(calls).lastHealAt == Previous(History(calls))
  {
    if calls != [] {
      LastHealIsLast(calls[..|calls| - 1]);
      assert History(calls[..|calls| - 1]) + [] == History(calls[..|calls| - 1]);
    }
  }

  // ---------------------------------------------------------------------------------------------
  // The limiter is exact
  // ---------------------------------------------------------------------------------------------

  /** How many heals of the whole history are less than a window ago. */
  function Recent(all: seq<real>, now: real): nat {
    if all == [] then 0
    else Recent(all[..|all| - 1], now) + if now - all[|all| - 1] < WINDOW_SEC then 1 else 0
  }

  lemma {:induction false} RecentIs(all: seq<real>, now: real, k: nat)
    requires k <= |all|
    requires forall i :: 0 <= i < k ==> now - all[i] >= WINDOW_SEC
    requires forall i :: k <= i < |all| ==> now - all[i] < WINDOW_SEC
    ensures Recent(all, now) == |all| - k
  {
    if all != [] {
      RecentIs(all[..|all| - 1], now, if k == |all| then k - 1 else k);
    }
  }

  /** Pruning forgets nothing that counts: a call is admitted exactly by the whole history. */
  lemma AdmittedIff(calls: seq<Call>, c: Call)
    requires InOrder(calls + [c])
    ensures var s := StateAfter(calls);
            Admitted(c.limits, s, c.probe, c.force) <==>
            Consults(c.limits, s, c.probe, c.force) && Recent(Times(History(calls)), c.probe.now) < c.limits.maxPerHour
  {
    var s, all, now := StateAfter(calls), Times(History(calls)), c.probe.now;
    assert forall i :: 0 <= i < |calls| ==> (calls + [c])[i] == calls[i];
    assert (calls + [c])[|calls|] == c;
    HistoryKept(calls, now);
    PruneKeeps(s.times, all, now);
    RecentIs(all, now, |all| - |Prune(s.times, now)|);
  }

  // ---------------------------------------------------------------------------------------------
  // No window holds more heals than the limit
  // ---------------------------------------------------------------------------------------------

  /** Any two heals with `limit - 1` heals between them are a whole window apart. */
  ghost predicate Spaced(all: seq<real>, limit: nat) {
    Ascending(all) && forall i :: limit <= i < |all| ==> all[i] - all[i - limit] >= WINDOW_SEC
  }

  predicate AtMost(calls: seq<Call>, limit: nat) {
    forall i :: 0 <= i < |calls| ==> calls[i].limits.maxPerHour <= limit
  }

  lemma SpacedStep(recent: seq<real>, all: seq<real>, limit: nat, now: real)
    requires Spaced(all, limit) && Keeps(recent, all, now) && |recent| < limit
    ensures Spaced(all + [now], limit)
  {
    var more := all + [now];
    assert forall i :: 0 <= i < |all| ==> more[i] == all[i];
  }

  lemma {:induction false} HealsAreSpaced(calls: seq<Call>, limit: nat)
    requires InOrder(calls) && AtMost(calls, limit)
    ensures Spaced(Times(History(calls)), limit)
  {
    if calls != [] {
      var before, c := calls[..|calls| - 1], calls[|calls| - 1];
      HealsAreSpaced(before, limit);
      HistoryStep(calls);
      HistoryKept(before, c.probe.now);
      var s, all := StateAfter(before), Times(History(before));
      PruneKeeps(s.times, all, c.probe.now);
      if Heals(c.limits, s, c.probe, c.force) {
        SpacedStep(Prune(s.times, c.probe.now), all, limit, c.probe.now);
      }
    }
  }

  lemma {:induction false} FewInWindow(t: seq<real>, start: real, k: nat)
    requires k <= |t| && forall i :: 0 <= i < k ==> t[i] < start
    ensures InWindow(t, start) <= |t| - k
  {
    if |t| > k {
      FewInWindow(t[..|t| - 1], start, k);
    } else if t != [] {
      FewInWindow(t[..|t| - 1], start, k - 1);
    }
  }

  lemma {:induction false} SpacedInWindow(t: seq<real>, limit: nat, start: real)
    requires Spaced(t, limit) && (limit == 0 ==> t == [])
    ensures InWindow(t, start) <= limit
  {
    if t != [] {
      var last, front := t[|t| - 1], t[..|t| - 1];
      if start <= last < start + WINDOW_SEC {
        if |t| > limit {
          var k := |t| - limit;
          assert last - t[k - 1] >= WINDOW_SEC;
          FewInWindow(front, start, k);
        } else {
          FewInWindow(front, start, 0);
        }
      } else {
        SpacedInWindow(front, limit, start);
      }
    }
  }

  lemma {:induction false} NoLimitNoHeal(calls: seq<Call>)
    requires AtMost(calls, 0)
    ensures History(calls) == []
  {
    if calls != [] {
      NoLimitNoHeal(calls[..|calls| - 1]);
    }
  }

  /** Whatever is pruned in between, every half-open window of an hour holds at most `limit` heals. */
  lemma HourlyBound(calls: seq<Call>, limit: nat, start: real)
    requires InOrder(calls) && AtMost(calls, limit)
    ensures InWindow(Times(History(calls)), start) <= limit
  {
    HealsAreSpaced(calls, limit);
    if limit == 0 {
      NoLimitNoHeal(calls);
    }
    SpacedInWindow(Times(History(calls)), limit, start);
  }

  // ---------------------------------------------------------------------------------------------
  // The cooldown
  // ---------------------------------------------------------------------------------------------

  function Previous(h: seq<Heal>): real {
    if h == [] then 0.0 else h[|h| - 1].at
  }

  predicate Cooled(h: seq<Heal>) {
    forall i {:trigger h[i]} :: 0 <= i < |h| && !h[i].forced ==> h[i].at - Previous(h[..i]) >= h[i].cooldownSec
  }

  lemma CooledSnoc(h: seq<Heal>, x: Heal)
    requires Cooled(h) && (x.forced || x.at - Previous(h) >= x.cooldownSec)
    ensures Cooled(h + [x])
  {
    var more := h + [x];
    forall i | 0 <= i < |more| && !more[i].forced ensures more[i].at - Previous(more[..i]) >= more[i].cooldownSec {
      assert more[..i] == h[..i];
      if i == |h| {
        assert h[..i] == h;
      }
    }
  }

  /** Every unforced heal comes at least its cooldown after the heal before it, by whichever path. */
  lemma {:induction false} CooldownKept(calls: seq<Call>)
    ensures Cooled(History(calls))
  {
    if calls != [] {
      var before, c := calls[..|calls| - 1], calls[|calls| - 1];
      CooldownKept(before);
      LastHealIsLast(before);
      if Heals(c.limits, StateAfter(before), c.probe, c.force) {
        CooledSnoc(History(before), Heal(c.probe.now, c.force, c.limits.cooldownSec));
      } else {
        assert History(before) + [] == History(before);
      }
    }
  }

  // ---------------------------------------------------------------------------------------------
  // Restarts that are not recorded
  // ---------------------------------------------------------------------------------------------

  /** The monitor is restarted or its lock repaired, be it recorded as a heal or not. */
  predicate RestartsNow(c: Call, s: HealState) {
    Admitted(c.limits, s, c.probe, c.force) && Action(c.probe).Healed()
  }

  function RestartTimes(calls: seq<Call>): seq<real> {
    if calls == [] then []
    else
      var before, c := calls[..|calls| - 1], calls[|calls| - 1];
      RestartTimes(before) + if RestartsNow(c, StateAfter(before)) then [c.probe.now] else []
  }

  /** No recovery of stale work raised after a restart. */
  predicate AllRecorded(calls: seq<Call>) {
    calls == [] ||
    var before, c := calls[..|calls| - 1], calls[|calls| - 1];
    AllRecorded(before) && !(RestartsNow(c, StateAfter(before)) && c.probe.recoveryRaises)
  }

  lemma {:induction false} RestartsCounted(calls: seq<Call>)
    ensures |RestartTimes(calls)| >= |History(calls)|
    ensures |RestartTimes(calls)| == |History(calls)| <==> AllRecorded(calls)
    ensures AllRecorded(calls) ==> RestartTimes(calls) == Times(History(calls))
  {
    if calls != [] {
      RestartsCounted(calls[..|calls| - 1]);
      HistoryStep(calls);
    }
  }

  /** The restarts are the recorded heals exactly if no recovery raised after one. */
  lemma RestartsRecordedIff(calls: seq<Call>)
    ensures RestartTimes(calls) == Times(History(calls)) <==> AllRecorded(calls)
  {
    RestartsCounted(calls);
  }

  /** Then the limit holds for the restarts themselves. */
  lemma RestartBound(calls: seq<Call>, limit: nat, start: real)
    requires InOrder(calls) && AtMost(calls, limit) && AllRecorded(calls)
    ensures InWindow(RestartTimes(calls), start) <= limit
  {
    RestartsRecordedIff(calls);
    HourlyBound(calls, limit, start);
  }

  function Again(c: Call, k: nat): (calls: seq<Call>)
    ensures |calls| == k && forall i :: 0 <= i < k ==> calls[i] == c
  {
    if k == 0 then [] else Again(c, k - 1) + [c]
  }

  /** Otherwise nothing limits them: any number of restarts at one time, none of them recorded. */
  lemma {:induction false} UnrecordedRestarts(c: Call, k: nat)
    requires RestartsNow(c, HealState(0.0, [])) && c.probe.recoveryRaises
    ensures StateAfter(Again(c, k)) == HealState(0.0, []) && History(Again(c, k)) == []
    ensures InWindow(RestartTimes(Again(c, k)), c.probe.now) == k && |RestartTimes(Again(c, k))| == k
  {
    if k > 0 {
      UnrecordedRestarts(c, k - 1);
      OneMoreRestart(Again(c, k - 1), c);
    }
  }

  lemma OneMoreRestart(calls: seq<Call>, c: Call)
    requires RestartsNow(c, HealState(0.0, [])) && c.probe.recoveryRaises
    requires StateAfter(calls) == HealState(0.0, []) && History(calls) == []
    ensures StateAfter(calls + [c]) == HealState(0.0, []) && History(calls + [c]) == []
    ensures |RestartTimes(calls + [c])| == |RestartTimes(calls)| + 1
    ensures InWindow(RestartTimes(calls + [c]), c.probe.now) == InWindow(RestartTimes(calls), c.probe.now) + 1
  {
    UnrecordedCall(c);
    assert (calls + [c])[..|calls|] == calls;
    InWindowSnoc(RestartTimes(calls), c.probe.now, c.probe.now);
  }

  lemma UnrecordedCall(c: Call)
    requires RestartsNow(c, HealState(0.0, [])) && c.probe.recoveryRaises
    ensures Step(c.limits, HealState(0.0, []), c.probe, c.force) == HealState(0.0, [])
    ensures !Heals(c.limits, HealState(0.0, []), c.probe, c.force)
  {
  }
}
