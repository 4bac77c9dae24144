/**
 The stream of runtime-health events (src/media2text/api/services/runtime_health_loop.py) and the
 desktop's merge of them (apps/m2t-desktop/src/features/runtime/runtimeMerge.ts): a subscriber from
 the start keeps a replica of the server's snapshot.
 */
module RuntimeHealth {
  import opened Wrappers

  datatype Json =
    | Null
    | Bool(b: bool)
    | Number(n: real)
    | Str(s: string)
    | Arr(items: seq<Json>)
    | Obj(fields: Dict)

  type Dict = map<string, Json>

  /** Python's truth value. */
  predicate Truthy(j: Json) {
    match j
    case Null => false
    case Bool(b) => b
    case Number(n) => n != 0.0
    case Str(s) => s != ""
    case Arr(items) => items != []
    case Obj(fields) => fields != map[]
  }

  /** The six values that do not count as true. */
  lemma FalsyIff(j: Json)
    ensures !Truthy(j) <==>
            || j == Null || j == Bool(false) || j == Number(0.0) || j == Str("") || j == Arr([]) || j == Obj(map[])
  {
  }

  function Get(d: Dict, key: string): Json {
    if key in d then d[key] else Null
  }

  function OrElse(j: Json, default: Json): Json {
    if Truthy(j) then j else default
  }

  const EMPTY := Obj(map[])

  // ---------------------------------------------------------------------------------------------
  // Payload and diff
  // ---------------------------------------------------------------------------------------------

  datatype Field = Running | Pid | LockPid | LastTickAt | TickAgeSec | LivePollIntervalSec

  /** The fields of `daemon` that a diff looks at. */
  const TRACKED := [Running, Pid, LockPid, LastTickAt]

  lemma TrackedAre(f: Field)
    ensures f in TRACKED <==> f == Running || f == Pid || f == LockPid || f == LastTickAt
  {
  }

  datatype Snapshot = Snapshot(
    health: Json,
    healthReasons: Json,
    managedBy: Json,
    daemon: map<Field, Json>,
    activeCount: Json,
    queues: Json,
    observability: Json)

  /** An event: the keys it carries, the fields of `daemon` it carries. */
  datatype Patch = Patch(
    health: Option<Json>,
    healthReasons: Option<Json>,
    managedBy: Option<Json>,
    daemon: Option<map<Field, Json>>,
    activeCount: Option<Json>,
    queues: Option<Json>,
    observability: Option<Json>)

  const NOTHING := Patch(None, None, None, None, None, None, None)

  function Full(s: Snapshot): Patch {
    Patch(Some(s.health), Some(s.healthReasons), Some(s.managedBy), Some(s.daemon),
          Some(s.activeCount), Some(s.queues), Some(s.observability))
  }

  /** The compact snapshot; none when `daemon` or `recordings` is a non-empty value that is no object. */
  function Payload(full: Dict): Option<Snapshot> {
    var daemon := OrElse(Get(full, "daemon"), EMPTY);
    var recordings := OrElse(Get(full, "recordings"), EMPTY);
    if !daemon.Obj? || !recordings.Obj? then None
    else
      var d := daemon.fields;
      Some(Snapshot(
        Get(full, "health"),
        OrElse(Get(full, "health_reasons"), Arr([])),
        Get(full, "managed_by"),
        map[Running := Get(d, "running"), Pid := Get(d, "pid"), LockPid := Get(d, "lock_pid"),
            LastTickAt := Get(d, "last_tick_at"), TickAgeSec := Get(d, "tick_age_sec"),
            LivePollIntervalSec := Get(d, "live_poll_interval_sec")],
        if "active_count" in recordings.fields then recordings.fields["active_count"] else Number(0.0),
        OrElse(Get(full, "queues"), EMPTY),
        OrElse(Get(full, "observability"), EMPTY)))
  }

  /** The value under the key, null without one. */
  ghost predicate IsAt(d: Dict, key: string, value: Json) {
    value == if key in d then d[key] else Null
  }

  /** The same, but a value without truth counts as the default. */
  ghost predicate IsAtOr(d: Dict, key: string, default: Json, value: Json) {
    if key in d && Truthy(d[key]) then value == d[key] else value == default
  }

  /** Which key of the status each field of the snapshot comes from. */
  ghost predicate IsPayload(full: Dict, s: Snapshot) {
    exists daemon, recordings ::
      && IsAtOr(full, "daemon", EMPTY, daemon) && daemon.Obj?
      && IsAtOr(full, "recordings", EMPTY, recordings) && recordings.Obj?
      && IsAt(full, "health", s.health) && IsAtOr(full, "health_reasons", Arr([]), s.healthReasons)
      && IsAt(full, "managed_by", s.managedBy)
      && IsAtOr(full, "queues", EMPTY, s.queues) && IsAtOr(full, "observability", EMPTY, s.observability)
      && (if "active_count" in recordings.fields then s.activeCount == recordings.fields["active_count"]
          else s.activeCount == Number(0.0))
      && IsDaemon(daemon.fields, s.daemon)
  }

  ghost predicate IsDaemon(d: Dict, fields: map<Field, Json>) {
    && (forall f :: f in fields)
    && IsAt(d, "running", fields[Running]) && IsAt(d, "pid", fields[Pid]) && IsAt(d, "lock_pid", fields[LockPid])
    && IsAt(d, "last_tick_at", fields[LastTickAt]) && IsAt(d, "tick_age_sec", fields[TickAgeSec])
    && IsAt(d, "live_poll_interval_sec", fields[LivePollIntervalSec])
  }

  lemma DaemonIs(full: Dict)
    requires Payload(full).Some?
    ensures IsDaemon(OrElse(Get(full, "daemon"), EMPTY).fields, Payload(full).value.daemon)
  {
    forall f: Field ensures f in Payload(full).value.daemon {
      match f
      case Running =>
      case Pid =>
      case LockPid =>
      case LastTickAt =>
      case TickAgeSec =>
      case LivePollIntervalSec =>
    }
  }

  lemma PayloadIs(full: Dict)
    requires Payload(full).Some?
    ensures IsPayload(full, Payload(full).value)
  {
    var daemon, recordings := OrElse(Get(full, "daemon"), EMPTY), OrElse(Get(full, "recordings"), EMPTY);
    assert IsAtOr(full, "daemon", EMPTY, daemon) && IsAtOr(full, "recordings", EMPTY, recordings);
    DaemonIs(full);
  }

  /** There is no snapshot exactly if one of the two objects is something else that counts as true. */
  lemma PayloadFailsIff(full: Dict)
    ensures Payload(full).None? <==>
            || ("daemon" in full && Truthy(full["daemon"]) && !full["daemon"].Obj?)
            || ("recordings" in full && Truthy(full["recordings"]) && !full["recordings"].Obj?)
  {
  }

  function FieldOf(d: map<Field, Json>, f: Field): Json {
    if f in d then d[f] else Null
  }

  function DaemonDiff(prev: map<Field, Json>, curr: map<Field, Json>): map<Field, Json> {
    map f | f in TRACKED && FieldOf(prev, f) != FieldOf(curr, f) :: FieldOf(curr, f)
  }

  function IfChanged<T(==)>(prev: T, curr: T): Option<T> {
    if prev != curr then Some(curr) else None
  }

  /** What a change of the snapshot is announced with. */
  function Changes(prev: Snapshot, curr: Snapshot): Patch {
    var daemon := DaemonDiff(prev.daemon, curr.daemon);
    Patch(IfChanged(prev.health, curr.health), IfChanged(prev.healthReasons, curr.healthReasons),
          IfChanged(prev.managedBy, curr.managedBy), if daemon == map[] then None else Some(daemon),
          IfChanged(prev.activeCount, curr.activeCount), IfChanged(prev.queues, curr.queues),
          IfChanged(OrElse(prev.observability, EMPTY), OrElse(curr.observability, EMPTY)))
  }

  function Diff(prev: Option<Snapshot>, curr: Snapshot): Option<Patch> {
    if prev.None? then Some(Full(curr))
    else if Changes(prev.value, curr) == NOTHING then None
    else Some(Changes(prev.value, curr))
  }

  method DaemonDiffLoop(prev: map<Field, Json>, curr: map<Field, Json>) returns (diff: map<Field, Json>)
    ensures diff == DaemonDiff(prev, curr)
  {
    diff := map[];
    for i := 0 to |TRACKED|
      invariant diff == map f | f in TRACKED[..i] && FieldOf(prev, f) != FieldOf(curr, f) :: FieldOf(curr, f)
    {
      var f := TRACKED[i];
      assert TRACKED[..i + 1] == TRACKED[..i] + [f];
      if FieldOf(prev, f) != FieldOf(curr, f) {
        diff := diff[f := FieldOf(curr, f)];
      }
    }
    assert TRACKED[..|TRACKED|] == TRACKED;
  }

  method RuntimeWsDiff(prev: Option<Snapshot>, curr: Snapshot) returns (result: Option<Patch>)
    ensures result == Diff(prev, curr)
  {
    if prev.None? {
      return Some(Full(curr));
    }
    var p := prev.value;
    var diff := NOTHING;
    if p.health != curr.health {
      diff := diff.(health := Some(curr.health));
    }
    if p.managedBy != curr.managedBy {
      diff := diff.(managedBy := Some(curr.managedBy));
    }
    if p.healthReasons != curr.healthReasons {
      diff := diff.(healthReasons := Some(curr.healthReasons));
    }
    var daemonDiff := DaemonDiffLoop(p.daemon, curr.daemon);
    if daemonDiff != map[] {
      diff := diff.(daemon := Some(daemonDiff));
    }
    if p.activeCount != curr.activeCount {
      diff := diff.(activeCount := Some(curr.activeCount));
    }
    if p.queues != curr.queues {
      diff := diff.(queues := Some(curr.queues));
    }
    var prevObs, currObs := OrElse(p.observability, EMPTY), OrElse(curr.observability, EMPTY);
    if prevObs != currObs {
      diff := diff.(observability := Some(currObs));
    }
    result := if diff == NOTHING then None else Some(diff);
  }

  /** Two snapshots agree on everything a diff looks at. */
  ghost predicate SameTracked(a: Snapshot, b: Snapshot) {
    && a.health == b.health && a.healthReasons == b.healthReasons && a.managedBy == b.managedBy
    && (forall f :: f in TRACKED ==> FieldOf(a.daemon, f) == FieldOf(b.daemon, f))
    && a.activeCount == b.activeCount && a.queues == b.queues
    && OrElse(a.observability, EMPTY) == OrElse(b.observability, EMPTY)
  }

  lemma DaemonDiffEmptyIff(prev: map<Field, Json>, curr: map<Field, Json>)
    ensures DaemonDiff(prev, curr) == map[] <==>
            forall f :: f in TRACKED ==> FieldOf(prev, f) == FieldOf(curr, f)
  {
    forall f | f in TRACKED && FieldOf(prev, f) != FieldOf(curr, f) ensures f in DaemonDiff(prev, curr) {
    }
  }

  /** There is nothing to announce exactly if no tracked field changed. */
  lemma NoDiffIff(prev: Snapshot, curr: Snapshot)
    ensures Diff(Some(prev), curr).None? <==> SameTracked(prev, curr)
  {
    DaemonDiffEmptyIff(prev.daemon, curr.daemon);
  }

  // ---------------------------------------------------------------------------------------------
  // The loop
  // ---------------------------------------------------------------------------------------------

  /** One iteration: what reading the runtime gave (none: it raised), and the clock. */
  datatype Tick = Tick(read: Option<Dict>, now: real)

  datatype Loop = Loop(prev: Option<Snapshot>, lastPublishAt: real)

  const START := Loop(None, 0.0)

  function QueueEvent(queues: Json): Patch {
    NOTHING.(queues := Some(queues))
  }

  function QueuesChanged(prev: Option<Snapshot>, curr: Snapshot): bool {
    prev.Some? && prev.value.queues != curr.queues
  }

  /** The events of an iteration that read `curr`. */
  function Published(s: Loop, curr: Snapshot, now: real, heartbeatSec: real): seq<Patch> {
    var diff := Diff(s.prev, curr);
    (if diff.Some? then [diff.value] else if now - s.lastPublishAt >= heartbeatSec then [Full(curr)] else [])
    + (if QueuesChanged(s.prev, curr) && Truthy(curr.queues) then [QueueEvent(curr.queues)] else [])
  }

  /** The event after a change of the queues carries them and nothing else. */
  ghost predicate IsQueueEvent(p: Patch, queues: Json) {
    && p.queues == Some(queues) && p.health.None? && p.healthReasons.None? && p.managedBy.None?
    && p.daemon.None? && p.activeCount.None? && p.observability.None?
  }

  /**
   The events of an iteration: first the changes, or without any the whole snapshot if the heartbeat is
   due; then the queues, if they changed and are not empty.
   */
  ghost predicate ArePublished(s: Loop, curr: Snapshot, now: real, heartbeatSec: real, events: seq<Patch>) {
    var diff := Diff(s.prev, curr);
    var first := diff.Some? || now - s.lastPublishAt >= heartbeatSec;
    var second := s.prev.Some? && s.prev.value.queues != curr.queues && Truthy(curr.queues);
    && |events| == (if first then 1 else 0) + (if second then 1 else 0)
    && (first ==> events[0] == if diff.Some? then diff.value else Full(curr))
    && (second ==> IsQueueEvent(events[|events| - 1], curr.queues))
  }

  lemma PublishedAre(s: Loop, curr: Snapshot, now: real, heartbeatSec: real)
    ensures ArePublished(s, curr, now, heartbeatSec, Published(s, curr, now, heartbeatSec))
  {
  }

  /** The clock of the heartbeat starts again exactly with changes or a heartbeat. */
  lemma HeartbeatRestarts(s: Loop, tick: Tick, heartbeatSec: real)
    requires Snapped(tick).Some?
    ensures var curr, next := Snapped(tick).value, Next(s, tick, heartbeatSec);
            && next.prev == Some(curr)
            && (Diff(s.prev, curr).Some? || tick.now - s.lastPublishAt >= heartbeatSec ==>
                  next.lastPublishAt == tick.now)
            && (Diff(s.prev, curr).None? && tick.now - s.lastPublishAt < heartbeatSec ==>
                  next.lastPublishAt == s.lastPublishAt)
  {
  }

  function Snapped(tick: Tick): Option<Snapshot> {
    if tick.read.None? then None else Payload(tick.read.value)
  }

  function Next(s: Loop, tick: Tick, heartbeatSec: real): Loop {
    var curr := Snapped(tick);
    if curr.None? then s
    else if Diff(s.prev, curr.value).Some? || tick.now - s.lastPublishAt >= heartbeatSec
    then Loop(curr, tick.now)
    else Loop(curr, s.lastPublishAt)
  }

  function Events(s: Loop, tick: Tick, heartbeatSec: real): seq<Patch> {
    var curr := Snapped(tick);
    if curr.None? then [] else Published(s, curr.value, tick.now, heartbeatSec)
  }

  method DrainOnce(prev: Option<Snapshot>, lastPublishAt: real, full: Dict, now: real, heartbeatSec: real)
    returns (newPrev: Option<Snapshot>, newPublishAt: real, events: seq<Patch>)
    requires Payload(full).Some?
    ensures var s, tick := Loop(prev, lastPublishAt), Tick(Some(full), now);
            Loop(newPrev, newPublishAt) == Next(s, tick, heartbeatSec) && events == Events(s, tick, heartbeatSec)
    ensures newPrev.Some? && IsPayload(full, newPrev.value)
    ensures ArePublished(Loop(prev, lastPublishAt), newPrev.value, now, heartbeatSec, events)
  {
    PayloadIs(full);
    PublishedAre(Loop(prev, lastPublishAt), Payload(full).value, now, heartbeatSec);
    var curr := Payload(full).value;
    var diff := RuntimeWsDiff(prev, curr);
    var queuesChanged := prev.Some? && prev.value.queues != curr.queues;
    var heartbeatDue := now - lastPublishAt >= heartbeatSec;
    events, newPublishAt := [], lastPublishAt;
    if diff.Some? {
      events, newPublishAt := [diff.value], now;
    } else if heartbeatDue {
      events, newPublishAt := [Full(curr)], now;
    }
    if queuesChanged && Truthy(curr.queues) {
      events := events + [QueueEvent(curr.queues)];
    }
    newPrev := Some(curr);
  }

  function After(ticks: seq<Tick>, heartbeatSec: real): Loop {
    if ticks == [] then START
    else Next(After(ticks[..|ticks| - 1], heartbeatSec), ticks[|ticks| - 1], heartbeatSec)
  }

  function Stream(ticks: seq<Tick>, heartbeatSec: real): seq<Patch> {
    if ticks == [] then []
    else
      var front := ticks[..|ticks| - 1];
      Stream(front, heartbeatSec) + Events(After(front, heartbeatSec), ticks[|ticks| - 1], heartbeatSec)
  }

  /** The loop over a list of iterations; an iteration that raises changes nothing. */
  method RunRuntimeHealthLoop(ticks: seq<Tick>, heartbeatSec: real) returns (s: Loop, events: seq<Patch>)
    ensures s == After(ticks, heartbeatSec) && events == Stream(ticks, heartbeatSec)
  {
    s, events := START, [];
    for i := 0 to |ticks|
      invariant s == After(ticks[..i], heartbeatSec) && events == Stream(ticks[..i], heartbeatSec)
    {
      assert ticks[..i + 1][..i] == ticks[..i];
      var tick := ticks[i];
      if tick.read.Some? && Payload(tick.read.value).Some? {
        var prev, at, es := DrainOnce(s.prev, s.lastPublishAt, tick.read.value, tick.now, heartbeatSec);
        s, events := Loop(prev, at), events + es;
      } else {
        assert events + [] == events;
      }
    }
    assert ticks[..|ticks|] == ticks;
  }

  /** The latest snapshot the server managed to read. */
  function Latest(ticks: seq<Tick>): Option<Snapshot> {
    if ticks == [] then None
    else
      var curr := Snapped(ticks[|ticks| - 1]);
      if curr.Some? then curr else Latest(ticks[..|ticks| - 1])
  }

  lemma {:induction false} PrevIsLatest(ticks: seq<Tick>, heartbeatSec: real)
    ensures After(ticks, heartbeatSec).prev == Latest(ticks)
  {
    if ticks != [] {
      PrevIsLatest(ticks[..|ticks| - 1], heartbeatSec);
    }
  }

  // ---------------------------------------------------------------------------------------------
  // A replica that overlays the events
  // ---------------------------------------------------------------------------------------------

  /** Keys replace keys; `daemon` is merged field by field. */
  function Overlay(replica: Snapshot, patch: Patch): Snapshot {
    Snapshot(
      patch.health.GetOr(replica.health),
      patch.healthReasons.GetOr(replica.healthReasons),
      patch.managedBy.GetOr(replica.managedBy),
      replica.daemon + patch.daemon.GetOr(map[]),
      patch.activeCount.GetOr(replica.activeCount),
      patch.queues.GetOr(replica.queues),
      patch.observability.GetOr(replica.observability))
  }

  function OverlayAll(replica: Snapshot, patches: seq<Patch>): Snapshot {
    if patches == [] then replica
    else Overlay(OverlayAll(replica, patches[..|patches| - 1]), patches[|patches| - 1])
  }

  lemma {:induction false} OverlayCat(replica: Snapshot, a: seq<Patch>, b: seq<Patch>)
    ensures OverlayAll(replica, a + b) == OverlayAll(OverlayAll(replica, a), b)
  {
    if b == [] {
      assert a + b == a;
    } else {
      assert (a + b)[..|a + b| - 1] == a + b[..|b| - 1];
      OverlayCat(replica, a, b[..|b| - 1]);
    }
  }

  lemma OverlayTwo(replica: Snapshot, a: Patch, b: Patch)
    ensures OverlayAll(replica, [a]) == Overlay(replica, a)
    ensures OverlayAll(replica, [a, b]) == Overlay(Overlay(replica, a), b)
  {
    assert [a][..0] == [] && [a, b][..1] == [a];
  }

  lemma FullSyncs(replica: Snapshot, curr: Snapshot)
    requires forall f :: f in TRACKED ==> f in curr.daemon
    ensures SameTracked(Overlay(replica, Full(curr)), curr)
  {
  }

  lemma ChangesSync(replica: Snapshot, prev: Snapshot, curr: Snapshot)
    requires SameTracked(replica, prev)
    ensures SameTracked(Overlay(replica, Changes(prev, curr)), curr)
  {
  }

  lemma SyncIsShared(replica: Snapshot, prev: Snapshot, curr: Snapshot)
    requires SameTracked(replica, prev) && SameTracked(prev, curr)
    ensures SameTracked(replica, curr)
  {
  }

  lemma QueueEventKeeps(replica: Snapshot, curr: Snapshot)
    requires SameTracked(replica, curr)
    ensures SameTracked(Overlay(replica, QueueEvent(curr.queues)), curr)
  {
  }

  /** One iteration brings a replica that was in sync to the new snapshot. */
  lemma TickSyncs(replica: Snapshot, s: Loop, tick: Tick, heartbeatSec: real)
    requires Snapped(tick).Some? && (s.prev.Some? ==> SameTracked(replica, s.prev.value))
    ensures SameTracked(OverlayAll(replica, Events(s, tick, heartbeatSec)), Snapped(tick).value)
  {
    var curr := Snapped(tick).value;
    FullSyncs(replica, curr);
    if s.prev.Some? {
      var prev := s.prev.value;
      NoDiffIff(prev, curr);
      ChangesSync(replica, prev, curr);
      if SameTracked(prev, curr) {
        SyncIsShared(replica, prev, curr);
      }
    }
    var diff := Diff(s.prev, curr);
    var first := if diff.Some? then diff.value else Full(curr);
    OverlayTwo(replica, first, QueueEvent(curr.queues));
    QueueEventKeeps(Overlay(replica, first), curr);
  }

  /** Whoever overlays every event from the start has, after each iteration, what the server last read. */
  lemma {:induction false} ReplicaInSync(ticks: seq<Tick>, heartbeatSec: real, start: Snapshot)
    requires Latest(ticks).Some?
    ensures SameTracked(OverlayAll(start, Stream(ticks, heartbeatSec)), Latest(ticks).value)
  {
    var front, tick := ticks[..|ticks| - 1], ticks[|ticks| - 1];
    if Latest(front).Some? {
      ReplicaInSync(front, heartbeatSec, start);
    }
    PrevIsLatest(front, heartbeatSec);
    var s := After(front, heartbeatSec);
    OverlayCat(start, Stream(front, heartbeatSec), Events(s, tick, heartbeatSec));
    if Snapped(tick).Some? {
      TickSyncs(OverlayAll(start, Stream(front, heartbeatSec)), s, tick, heartbeatSec);
    } else {
      assert Stream(front, heartbeatSec) + [] == Stream(front, heartbeatSec);
    }
  }

  // ---------------------------------------------------------------------------------------------
  // The desktop's merge
  // ---------------------------------------------------------------------------------------------

  function FieldsOf(j: Json): Dict {
    if j.Obj? then j.fields else map[]
  }

  /** An object in a patch is merged key by key into what was there. */
  function MergeObject(prev: Json, patch: Option<Json>): Json {
    if patch.None? then prev
    else if patch.value.Obj? then Obj(FieldsOf(prev) + patch.value.fields)
    else patch.value
  }

  function MergeRuntimePatch(prev: Snapshot, patch: Patch): Snapshot {
    Overlay(prev, patch).(
      queues := MergeObject(prev.queues, patch.queues),
      observability := MergeObject(prev.observability, patch.observability))
  }

  function MergeAll(start: Snapshot, patches: seq<Patch>): Snapshot {
    if patches == [] then start
    else MergeRuntimePatch(MergeAll(start, patches[..|patches| - 1]), patches[|patches| - 1])
  }

  /** Every snapshot the server reads has objects as queues and as observability. */
  predicate ReadsObjects(ticks: seq<Tick>) {
    forall i :: 0 <= i < |ticks| && Snapped(ticks[i]).Some? ==>
      Snapped(ticks[i]).value.queues.Obj? && Snapped(ticks[i]).value.observability.Obj?
  }

  /** All the queue entries the server ever had, each with its latest value. */
  function EverQueues(ticks: seq<Tick>): Dict {
    if ticks == [] then map[]
    else
      var curr := Snapped(ticks[|ticks| - 1]);
      EverQueues(ticks[..|ticks| - 1]) + if curr.Some? then FieldsOf(curr.value.queues) else map[]
  }

  function EverObservability(ticks: seq<Tick>): Dict {
    if ticks == [] then map[]
    else
      var curr := Snapped(ticks[|ticks| - 1]);
      EverObservability(ticks[..|ticks| - 1]) + if curr.Some? then FieldsOf(curr.value.observability) else map[]
  }

  predicate Contains(d: Dict, part: Dict) {
    d + part == d
  }

  lemma ContainsAdded(d: Dict, part: Dict)
    ensures Contains(d + part, part) && Contains(d, map[])
  {
  }

  lemma {:induction false} LatestContained(ticks: seq<Tick>)
    ensures Latest(ticks).Some? ==> Contains(EverQueues(ticks), FieldsOf(Latest(ticks).value.queues))
    ensures Latest(ticks).Some? ==> Contains(EverObservability(ticks), FieldsOf(Latest(ticks).value.observability))
  {
    if ticks != [] {
      var front, curr := ticks[..|ticks| - 1], Snapped(ticks[|ticks| - 1]);
      if curr.Some? {
        ContainsAdded(EverQueues(front), FieldsOf(curr.value.queues));
        ContainsAdded(EverObservability(front), FieldsOf(curr.value.observability));
      } else {
        LatestContained(front);
        ContainsAdded(EverQueues(front), map[]);
        ContainsAdded(EverObservability(front), map[]);
      }
    }
  }

  lemma {:induction false} MergeCat(start: Snapshot, a: seq<Patch>, b: seq<Patch>)
    ensures MergeAll(start, a + b) == MergeAll(MergeAll(start, a), b)
  {
    if b == [] {
      assert a + b == a;
    } else {
      assert (a + b)[..|a + b| - 1] == a + b[..|b| - 1];
      MergeCat(start, a, b[..|b| - 1]);
    }
  }

  lemma MergeTwo(start: Snapshot, a: Patch, b: Patch)
    ensures MergeAll(start, [a]) == MergeRuntimePatch(start, a)
    ensures MergeAll(start, [a, b]) == MergeRuntimePatch(MergeRuntimePatch(start, a), b)
  {
    assert [a][..0] == [] && [a, b][..1] == [a];
  }

  /** What a merge does to an object of which the server had `prev` and has `curr`. */
  ghost predicate Merged(before: Json, after: Json, curr: Json) {
    before.Obj? && curr.Obj? && after == Obj(before.fields + curr.fields)
  }

  ghost predicate Known(j: Json, prev: Json) {
    j.Obj? && prev.Obj? && Contains(j.fields, prev.fields)
  }

  lemma ChangeMerges(before: Json, prev: Json, curr: Json)
    requires Known(before, prev) && curr.Obj?
    ensures Merged(before, MergeObject(before, IfChanged(prev, curr)), curr)
    ensures Merged(before, MergeObject(before, IfChanged(OrElse(prev, EMPTY), OrElse(curr, EMPTY))), curr)
  {
  }

  lemma MergedTwice(before: Json, after: Json, curr: Json)
    requires Merged(before, after, curr)
    ensures Merged(before, MergeObject(after, Some(curr)), curr)
  {
    assert (before.fields + curr.fields) + curr.fields == before.fields + curr.fields;
  }

  /** The first event of an iteration, if there is one, merges the snapshot's objects. */
  lemma FirstMerges(d: Snapshot, prev: Option<Snapshot>, curr: Snapshot, first: Patch)
    requires d.queues.Obj? && d.observability.Obj? && curr.queues.Obj? && curr.observability.Obj?
    requires prev.Some? ==> Known(d.queues, prev.value.queues) && Known(d.observability, prev.value.observability)
    requires first == Full(curr) || (prev.Some? && first == Changes(prev.value, curr))
    ensures Merged(d.queues, MergeRuntimePatch(d, first).queues, curr.queues)
    ensures Merged(d.observability, MergeRuntimePatch(d, first).observability, curr.observability)
  {
    if prev.Some? {
      ChangeMerges(d.queues, prev.value.queues, curr.queues);
      ChangeMerges(d.observability, prev.value.observability, curr.observability);
    }
  }

  lemma UnchangedMerges(d: Snapshot, prev: Snapshot, curr: Snapshot)
    requires Known(d.queues, prev.queues) && Known(d.observability, prev.observability)
    requires curr.queues.Obj? && curr.observability.Obj? && Changes(prev, curr) == NOTHING
    ensures Merged(d.queues, d.queues, curr.queues) && Merged(d.observability, d.observability, curr.observability)
  {
    ChangeMerges(d.queues, prev.queues, curr.queues);
    ChangeMerges(d.observability, prev.observability, curr.observability);
  }

  /** Of the two merged objects, an iteration adds what the snapshot has. */
  lemma TickMerges(d: Snapshot, s: Loop, curr: Snapshot, now: real, heartbeatSec: real)
    requires d.queues.Obj? && d.observability.Obj? && curr.queues.Obj? && curr.observability.Obj?
    requires s.prev.Some? ==> Known(d.queues, s.prev.value.queues) && Known(d.observability, s.prev.value.observability)
    ensures var m := MergeAll(d, Published(s, curr, now, heartbeatSec));
            Merged(d.queues, m.queues, curr.queues) && Merged(d.observability, m.observability, curr.observability)
  {
    var diff := Diff(s.prev, curr);
    var first := if diff.Some? then diff.value else Full(curr);
    var d1 := MergeRuntimePatch(d, first);
    FirstMerges(d, s.prev, curr, first);
    MergedTwice(d.queues, d1.queues, curr.queues);
    MergeTwo(d, first, QueueEvent(curr.queues));
    if diff.None? {
      UnchangedMerges(d, s.prev.value, curr);
    }
  }

  ghost predicate DesktopHas(d: Snapshot, ticks: seq<Tick>) {
    d.queues == Obj(EverQueues(ticks)) && d.observability == Obj(EverObservability(ticks))
  }

  lemma TickKeepsDesktop(d: Snapshot, ticks: seq<Tick>, heartbeatSec: real)
    requires ticks != [] && ReadsObjects(ticks) && DesktopHas(d, ticks[..|ticks| - 1])
    ensures var s := After(ticks[..|ticks| - 1], heartbeatSec);
            DesktopHas(MergeAll(d, Events(s, ticks[|ticks| - 1], heartbeatSec)), ticks)
  {
    var front, tick := ticks[..|ticks| - 1], ticks[|ticks| - 1];
    var s := After(front, heartbeatSec);
    if Snapped(tick).Some? {
      PrevIsLatest(front, heartbeatSec);
      LatestContained(front);
      LatestHasObjects(front);
      TickMerges(d, s, Snapped(tick).value, tick.now, heartbeatSec);
    } else {
      ContainsAdded(EverQueues(front), map[]);
      ContainsAdded(EverObservability(front), map[]);
    }
  }

  lemma {:induction false} DesktopObjects(ticks: seq<Tick>, heartbeatSec: real, start: Snapshot)
    requires ReadsObjects(ticks) && start.queues == EMPTY && start.observability == EMPTY
    ensures DesktopHas(MergeAll(start, Stream(ticks, heartbeatSec)), ticks)
  {
    if ticks != [] {
      var front, tick := ticks[..|ticks| - 1], ticks[|ticks| - 1];
      DesktopObjects(front, heartbeatSec, start);
      MergeCat(start, Stream(front, heartbeatSec), Events(After(front, heartbeatSec), tick, heartbeatSec));
      TickKeepsDesktop(MergeAll(start, Stream(front, heartbeatSec)), ticks, heartbeatSec);
    }
  }

  lemma {:induction false} LatestHasObjects(ticks: seq<Tick>)
    requires ReadsObjects(ticks)
    ensures Latest(ticks).Some? ==> Latest(ticks).value.queues.Obj? && Latest(ticks).value.observability.Obj?
  {
    if ticks != [] {
      LatestHasObjects(ticks[..|ticks| - 1]);
    }
  }

  predicate SameApartFromObjects(a: Snapshot, b: Snapshot) {
    a.(queues := Null, observability := Null) == b.(queues := Null, observability := Null)
  }

  lemma {:induction false} MergeIsOverlay(start: Snapshot, patches: seq<Patch>)
    ensures SameApartFromObjects(MergeAll(start, patches), OverlayAll(start, patches))
  {
    if patches != [] {
      MergeIsOverlay(start, patches[..|patches| - 1]);
    }
  }

  lemma SameKeysSameDict(d: Dict, part: Dict)
    requires Contains(d, part)
    ensures d == part <==> d.Keys <= part.Keys
  {
    if d.Keys <= part.Keys {
      forall k | k in part ensures k in d && d[k] == part[k] {
        assert k in d + part;
      }
      assert d.Keys == part.Keys;
    }
  }

  /**
   The desktop shows what the server last read exactly if no queue and no observability entry the
   server ever had is missing from it: entries that disappear are never removed.
   */
  lemma DesktopInSyncIff(ticks: seq<Tick>, heartbeatSec: real, start: Snapshot)
    requires ReadsObjects(ticks) && start.queues == EMPTY && start.observability == EMPTY
    requires Latest(ticks).Some?
    ensures var latest := Latest(ticks).value;
            SameTracked(MergeAll(start, Stream(ticks, heartbeatSec)), latest) <==>
            && EverQueues(ticks).Keys <= FieldsOf(latest.queues).Keys
            && EverObservability(ticks).Keys <= FieldsOf(latest.observability).Keys
  {
    var latest := Latest(ticks).value;
    DesktopObjects(ticks, heartbeatSec, start);
    LatestContained(ticks);
    LatestHasObjects(ticks);
    SameKeysSameDict(EverQueues(ticks), latest.queues.fields);
    SameKeysSameDict(EverObservability(ticks), latest.observability.fields);
    MergeIsOverlay(start, Stream(ticks, heartbeatSec));
    ReplicaInSync(ticks, heartbeatSec, start);
  }

  // ---------------------------------------------------------------------------------------------
  // Servers that keep their keys
  // ---------------------------------------------------------------------------------------------

  /** Every snapshot that is read has exactly these entries. */
  predicate KeepsKeys(ticks: seq<Tick>, queues: set<string>, observability: set<string>) {
    forall i :: 0 <= i < |ticks| && Snapped(ticks[i]).Some? ==>
      var s := Snapped(ticks[i]).value;
      && s.queues.Obj? && s.queues.fields.Keys == queues
      && s.observability.Obj? && s.observability.fields.Keys == observability
  }

  lemma {:induction false} EverKeys(ticks: seq<Tick>, queues: set<string>, observability: set<string>)
    requires KeepsKeys(ticks, queues, observability)
    ensures EverQueues(ticks).Keys <= queues && EverObservability(ticks).Keys <= observability
    ensures Latest(ticks).Some? ==>
              && FieldsOf(Latest(ticks).value.queues).Keys == queues
              && FieldsOf(Latest(ticks).value.observability).Keys == observability
  {
    if ticks != [] {
      EverKeys(ticks[..|ticks| - 1], queues, observability);
    }
  }

  /** If all snapshots have the same entries, the desktop always shows what the server last read. */
  lemma DesktopInSyncSameKeys(ticks: seq<Tick>, heartbeatSec: real, start: Snapshot,
                              queues: set<string>, observability: set<string>)
    requires KeepsKeys(ticks, queues, observability)
    requires start.queues == EMPTY && start.observability == EMPTY && Latest(ticks).Some?
    ensures SameTracked(MergeAll(start, Stream(ticks, heartbeatSec)), Latest(ticks).value)
  {
    EverKeys(ticks, queues, observability);
    DesktopInSyncIff(ticks, heartbeatSec, start);
  }

  const QUEUE_KEYS := {"post_process", "monitor_tasks"}
  const OBSERVABILITY_KEYS := {"snapshots_stale_count", "monitored_creators"}

  /** What this server's status has: fixed entries in queues and observability. */
  predicate IsStatus(full: Dict) {
    && Get(full, "queues").Obj? && Get(full, "queues").fields.Keys == QUEUE_KEYS
    && Get(full, "observability").Obj? && Get(full, "observability").fields.Keys == OBSERVABILITY_KEYS
  }

  lemma StatusKeepsKeys(tick: Tick)
    requires tick.read.Some? && IsStatus(tick.read.value) && Snapped(tick).Some?
    ensures Snapped(tick).value.queues == Get(tick.read.value, "queues")
    ensures Snapped(tick).value.observability == Get(tick.read.value, "observability")
  {
    assert "post_process" in Get(tick.read.value, "queues").fields;
    assert "monitored_creators" in Get(tick.read.value, "observability").fields;
  }

  /** With this server, whatever it reads and whenever reading fails, the desktop is always in sync. */
  lemma ServerKeepsDesktopInSync(ticks: seq<Tick>, heartbeatSec: real, start: Snapshot)
    requires forall i :: 0 <= i < |ticks| && ticks[i].read.Some? ==> IsStatus(ticks[i].read.value)
    requires start.queues == EMPTY && start.observability == EMPTY && Latest(ticks).Some?
    ensures SameTracked(MergeAll(start, Stream(ticks, heartbeatSec)), Latest(ticks).value)
  {
    forall i | 0 <= i < |ticks| && Snapped(ticks[i]).Some?
      ensures Snapped(ticks[i]).value.queues == Get(ticks[i].read.value, "queues")
      ensures Snapped(ticks[i]).value.observability == Get(ticks[i].read.value, "observability")
    {
      StatusKeepsKeys(ticks[i]);
    }
    DesktopInSyncSameKeys(ticks, heartbeatSec, start, QUEUE_KEYS, OBSERVABILITY_KEYS);
  }

  function WithQueues(fields: Dict): Tick {
    Tick(Some(map["queues" := Obj(fields)]), 0.0)
  }

  /** With a server that drops an entry (this one never does), the merge keeps it. */
  lemma {:induction false} DroppedEntryStays(key: string, value: Json, heartbeatSec: real, start: Snapshot)
    requires start.queues == EMPTY && start.observability == EMPTY
    ensures var ticks := [WithQueues(map[key := value]), WithQueues(map[])];
            && Latest(ticks).Some?
            && !SameTracked(MergeAll(start, Stream(ticks, heartbeatSec)), Latest(ticks).value)
  {
    var first, second := WithQueues(map[key := value]), WithQueues(map[]);
    var ticks := [first, second];
    assert ticks[..1] == [first] && [first][..0] == [];
    assert Snapped(first).value.queues == Obj(map[key := value]) by {
      assert key in map[key := value];
    }
    assert Snapped(second).value.queues == EMPTY;
    assert EverQueues([first]) == map[key := value];
    assert key in EverQueues(ticks);
    DesktopInSyncIff(ticks, heartbeatSec, start);
  }
}
