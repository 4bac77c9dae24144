/**
 The skill curator (src/media2text/agent/curator.py, skill_usage.py): idle skills that an agent
 created become stale, and later their directories move to the archive.
 */
module Curator {
  import opened Wrappers

  /** One entry of the usage file; times are seconds, none when absent or unreadable. */
  datatype Entry = Entry(
    state: string,
    agentCreated: bool,
    pinned: bool,
    lastUsed: Option<real>,
    lastViewed: Option<real>,
    lastPatched: Option<real>)

  const NEW_ENTRY := Entry("active", false, false, None, None, None)

  /**
   The usage entries, the skill directories of the profile, those in its archive, and the names of the
   skills shipped with the program.
   */
  datatype Store = Store(entries: map<string, Entry>, live: set<string>, archive: set<string>, shipped: set<string>)

  const STALE_DAYS := 30.0
  const ARCHIVE_DAYS := 90.0
  const DAY_SEC := 86400.0

  /** The shipped skill is the one in use unless the profile has a directory of that name. */
  predicate Bundled(s: Store, name: string) {
    name in s.shipped && name !in s.live
  }

  predicate Candidate(s: Store, name: string) {
    name in s.entries && s.entries[name].agentCreated && !s.entries[name].pinned && !Bundled(s, name)
  }

  function Later(a: Option<real>, b: Option<real>): Option<real> {
    if a.None? then b
    else if b.None? || a.value >= b.value then a
    else b
  }

  function IdleDays(e: Entry, now: real): Option<real> {
    var latest := Later(e.lastUsed, Later(e.lastViewed, e.lastPatched));
    if latest.None? then None else Some((now - latest.value) / DAY_SEC)
  }

  function StateOf(e: Entry): string {
    if e.state == "" then "active" else e.state
  }

  datatype Fate = Ignored | Skipped | Archived | Stale | Kept

  /** What a run at this time decides about a name. */
  function FateOf(s: Store, name: string, now: real): Fate {
    if !Candidate(s, name) then Ignored
    else
      var e := s.entries[name];
      var idle := IdleDays(e, now);
      if idle.None? then Skipped
      else if idle.value >= ARCHIVE_DAYS && StateOf(e) != "archived" then Archived
      else if idle.value >= STALE_DAYS && StateOf(e) == "active" then Stale
      else Kept
  }

  /** The latest of the times that are there. */
  ghost predicate IsLatest(e: Entry, t: real) {
    var times := {e.lastUsed, e.lastViewed, e.lastPatched};
    Some(t) in times && forall u :: Some(u) in times ==> u <= t
  }

  /** The entry is a skill an agent created, not pinned, and not hidden behind a shipped one. */
  ghost predicate IsConsidered(s: Store, name: string) {
    && name in s.entries && s.entries[name].agentCreated && !s.entries[name].pinned
    && !(name in s.shipped && name !in s.live)
  }

  /**
   What a run decides: by the days since the latest activity, 30 and 90, and the state, where no state
   counts as active; a skill without any activity is skipped.
   */
  ghost predicate IsFate(s: Store, name: string, now: real, fate: Fate) {
    && (fate == Ignored <==> !IsConsidered(s, name))
    && (IsConsidered(s, name) ==>
          var e := s.entries[name];
          && (fate == Skipped <==> forall t :: !IsLatest(e, t))
          && forall t :: IsLatest(e, t) ==>
               && (fate == Archived <==> now - t >= 90.0 * 86400.0 && e.state != "archived")
               && (fate == Stale <==>
                     && 30.0 * 86400.0 <= now - t < 90.0 * 86400.0 && (e.state == "active" || e.state == ""))
               && (fate == Kept <==>
                     || now - t < 30.0 * 86400.0 || e.state == "archived"
                     || (now - t < 90.0 * 86400.0 && e.state != "active" && e.state != "")))
  }

  lemma LaterIs(e: Entry)
    ensures var latest := Later(e.lastUsed, Later(e.lastViewed, e.lastPatched));
            forall t :: IsLatest(e, t) <==> latest == Some(t)
  {
  }

  lemma DaysAre(span: real, days: real)
    ensures span / DAY_SEC >= days <==> span >= days * 86400.0
  {
  }

  lemma FateIs(s: Store, name: string, now: real)
    ensures IsFate(s, name, now, FateOf(s, name, now))
  {
    if Candidate(s, name) {
      var e := s.entries[name];
      LaterIs(e);
      var latest := Later(e.lastUsed, Later(e.lastViewed, e.lastPatched));
      if latest.Some? {
        DaysAre(now - latest.value, 30.0);
        DaysAre(now - latest.value, 90.0);
        assert IsLatest(e, latest.value);
      }
    }
  }

  function WithFate(s: Store, names: seq<string>, fate: Fate, now: real): seq<string> {
    if names == [] then []
    else
      var last := names[|names| - 1];
      WithFate(s, names[..|names| - 1], fate, now) + if FateOf(s, last, now) == fate then [last] else []
  }

  /** The skill's directory moves to the archive. */
  predicate Moves(s: Store, name: string, now: real) {
    FateOf(s, name, now) == Archived && name in s.live
  }

  /** The entry after a run: a moved skill is marked unless a shipped one of that name shows through. */
  function NewEntry(s: Store, name: string, now: real): Entry
    requires name in s.entries
  {
    if Moves(s, name, now) && name !in s.shipped then s.entries[name].(state := "archived")
    else if FateOf(s, name, now) == Stale then s.entries[name].(state := "stale")
    else s.entries[name]
  }

  function After(s: Store, now: real): Store {
    var moved := set n | n in s.live && Moves(s, n, now);
    Store(map n | n in s.entries :: NewEntry(s, n, now), s.live - moved, s.archive + moved, s.shipped)
  }

  /**
   What a run leaves of a skill: an archived directory is in the archive, its entry marked unless a shipped
   skill takes its place; a stale one is marked; nothing else changes.
   */
  lemma AfterIs(s: Store, now: real, name: string)
    ensures var t, moves := After(s, now), FateOf(s, name, now) == Archived && name in s.live;
            && (name in t.live <==> name in s.live && !moves)
            && (name in t.archive <==> name in s.archive || moves)
            && (name in t.entries <==> name in s.entries) && t.shipped == s.shipped
            && (name in s.entries ==>
                  && t.entries[name] == s.entries[name].(state := t.entries[name].state)
                  && t.entries[name].state ==
                       if moves && name !in s.shipped then "archived"
                       else if FateOf(s, name, now) == Stale then "stale"
                       else s.entries[name].state)
  {
  }

  datatype Transitions = Transitions(stale: seq<string>, archived: seq<string>, skipped: seq<string>)

  function Report(s: Store, names: seq<string>, now: real): Transitions {
    Transitions(WithFate(s, names, Stale, now), WithFate(s, names, Archived, now), WithFate(s, names, Skipped, now))
  }

  class SkillCurator {
    var order: seq<string>
    var entries: map<string, Entry>
    var live: set<string>
    var archive: set<string>
    const shipped: set<string>

    /** The usage file lists every entry once. */
    ghost predicate Valid()
      reads this
    {
      && (forall n :: n in order <==> n in entries)
      && (forall i, j :: 0 <= i < j < |order| ==> order[i] != order[j])
    }

    function State(): Store
      reads this
    {
      Store(entries, live, archive, shipped)
    }

    constructor (order: seq<string>, entries: map<string, Entry>,
                 live: set<string>, archive: set<string>, shipped: set<string>)
      requires forall n :: n in order <==> n in entries
      requires forall i, j :: 0 <= i < j < |order| ==> order[i] != order[j]
      ensures Valid() && State() == Store(entries, live, archive, shipped) && this.order == order
    {
      this.order, this.entries, this.live, this.archive, this.shipped := order, entries, live, archive, shipped;
    }

    method SetSkillState(name: string, state: string)
      requires Valid()
      modifies this`entries, this`order
      ensures Valid()
      ensures Bundled(old(State()), name) ==> State() == old(State()) && order == old(order)
      ensures !Bundled(old(State()), name) ==>
                entries == old(entries)[name :=
                  if name in old(entries) then old(entries)[name].(state := state)
                  else Entry(state, false, false, None, None, None)]
      ensures name in old(entries) ==> order == old(order)
    {
      if name in shipped && name !in live {
        return;
      }
      if name !in entries {
        entries := entries[name := NEW_ENTRY];
        order := order + [name];
      }
      entries := entries[name := entries[name].(state := state)];
    }

    /** One candidate of the run; `s` is the store when the run began. */
    method Transition(name: string, now: real, dryRun: bool, ghost s: Store) returns (fate: Fate)
      requires Valid() && name in entries && name in s.entries && s.entries[name] == entries[name]
      requires s.shipped == shipped && (name in s.live <==> name in live) && Candidate(s, name)
      modifies this
      ensures Valid() && order == old(order) && fate == FateOf(s, name, now)
      ensures dryRun ==> State() == old(State())
      ensures !dryRun ==> entries == old(entries)[name := NewEntry(s, name, now)]
      ensures !dryRun ==> live == (if Moves(s, name, now) then old(live) - {name} else old(live))
      ensures !dryRun ==> archive == (if Moves(s, name, now) then old(archive) + {name} else old(archive))
    {
      var entry := entries[name];
      var idle := IdleDays(entry, now);
      if idle.None? {
        return Skipped;
      }
      var state := StateOf(entry);
      if idle.value >= ARCHIVE_DAYS && state != "archived" {
        if !dryRun && name in live {
          if name in archive {
            archive := archive - {name};
          }
          live := live - {name};
          archive := archive + {name};
          SetSkillState(name, "archived");
        }
        return Archived;
      }
      if idle.value >= STALE_DAYS && state == "active" {
        if !dryRun {
          SetSkillState(name, "stale");
        }
        return Stale;
      }
      return Kept;
    }

    method RestoreArchivedSkill(name: string) returns (error: Option<RestoreError>)
      requires Valid()
      modifies this
      ensures Valid()
      ensures var r := Restore(old(State()), name);
              if r.Success? then error.None? && State() == r.value
              else error == Some(r.error) && State() == old(State())
      ensures error == Some(NotFound) <==> name !in old(archive)
      ensures error == Some(AlreadyExists) <==> name in old(archive) && name in old(live)
      ensures error.None? ==>
                && name in live && name !in archive && name in entries && entries[name].state == "active"
                && forall n :: n != name ==>
                     && (n in live <==> n in old(live)) && (n in archive <==> n in old(archive))
                     && (n in entries <==> n in old(entries)) && (n in entries ==> entries[n] == old(entries)[n])
    {
      if name !in archive {
        return Some(NotFound);
      }
      if name in live {
        return Some(AlreadyExists);
      }
      archive := archive - {name};
      live := live + {name};
      SetSkillState(name, "active");
      return None;
    }

    /** A dry run reports what a real run reports and changes nothing. */
    method Phase1AutoTransitions(dryRun: bool, now: real) returns (result: Transitions)
      requires Valid()
      modifies this
      ensures Valid() && order == old(order)
      ensures result == Report(old(State()), order, now)
      ensures State() == if dryRun then old(State()) else After(old(State()), now)
    {
      ghost var s := State();
      var candidates := set n | n in entries && Candidate(State(), n);
      result := Transitions([], [], []);
      for i := 0 to |order|
        invariant Valid() && order == old(order)
        invariant dryRun ==> State() == s
        invariant !dryRun ==> Progress(s, State(), order[..i], now)
        invariant result == Report(s, order[..i], now)
      {
        var name := order[i];
        assert order[..i + 1] == order[..i] + [name];
        ReportStep(s, order[..i], name, now);
        ghost var t := State();
        if name in candidates {
          var fate := Transition(name, now, dryRun, s);
          result := Noted(result, name, fate);
        }
        if !dryRun {
          ProgressStep(s, t, State(), order[..i], name, now);
        }
      }
      assert order[..|order|] == order;
      if !dryRun {
        ProgressDone(s, State(), order, now);
      }
    }
  }

  /** The run from `s` has dealt with exactly these names. */
  ghost predicate Progress(s: Store, t: Store, done: seq<string>, now: real) {
    && t.entries.Keys == s.entries.Keys && t.shipped == s.shipped
    && (forall n :: n in s.entries ==> t.entries[n] == if n in done then NewEntry(s, n, now) else s.entries[n])
    && (forall n :: n in t.live <==> n in s.live && !(n in done && Moves(s, n, now)))
    && (forall n :: n in t.archive <==> n in s.archive || (n in done && Moves(s, n, now)))
  }

  lemma ProgressStep(s: Store, t: Store, u: Store, done: seq<string>, name: string, now: real)
    requires Progress(s, t, done, now) && name in s.entries && name !in done
    requires Candidate(s, name) ==>
               && u.entries == t.entries[name := NewEntry(s, name, now)]
               && u.live == (if Moves(s, name, now) then t.live - {name} else t.live)
               && u.archive == (if Moves(s, name, now) then t.archive + {name} else t.archive)
               && u.shipped == t.shipped
    requires !Candidate(s, name) ==> u == t
    ensures Progress(s, u, done + [name], now)
  {
  }

  lemma ProgressDone(s: Store, t: Store, order: seq<string>, now: real)
    requires Progress(s, t, order, now) && forall n :: n in order <==> n in s.entries
    ensures t == After(s, now)
  {
    assert forall n :: Moves(s, n, now) ==> n in order;
  }

  function Noted(r: Transitions, name: string, fate: Fate): Transitions {
    match fate
    case Skipped => r.(skipped := r.skipped + [name])
    case Archived => r.(archived := r.archived + [name])
    case Stale => r.(stale := r.stale + [name])
    case _ => r
  }

  lemma ReportStep(s: Store, names: seq<string>, name: string, now: real)
    ensures Report(s, names + [name], now) == Noted(Report(s, names, now), name, FateOf(s, name, now))
  {
    assert (names + [name])[..|names|] == names;
  }

  // ---------------------------------------------------------------------------------------------
  // Runs
  // ---------------------------------------------------------------------------------------------

  /** What a second run at the same time would decide. */
  lemma FateAfter(s: Store, name: string, now: real)
    ensures FateOf(After(s, now), name, now) ==
            if Moves(s, name, now) then (if name in s.shipped then Ignored else Kept)
            else if FateOf(s, name, now) == Stale then Kept
            else FateOf(s, name, now)
  {
    if name in s.entries {
      var e, f := s.entries[name], After(s, now).entries[name];
      assert IdleDays(e, now) == IdleDays(f, now);
    }
  }

  /** A second run at the same time changes nothing. */
  lemma SecondRunChangesNothing(s: Store, now: real)
    ensures After(After(s, now), now) == After(s, now)
  {
    var t := After(s, now);
    forall n ensures !Moves(t, n, now) && FateOf(t, n, now) != Stale {
      FateAfter(s, n, now);
    }
    assert forall n :: n in t.entries ==> NewEntry(t, n, now) == t.entries[n];
  }

  lemma {:induction false} NoneHasFate(s: Store, names: seq<string>, fate: Fate, now: real)
    ensures WithFate(s, names, fate, now) == [] <==> forall n :: n in names ==> FateOf(s, n, now) != fate
  {
    if names != [] {
      var front, last := names[..|names| - 1], names[|names| - 1];
      NoneHasFate(s, front, fate, now);
      assert forall n :: n in names <==> n in front || n == last;
    }
  }

  /** It also reports no transition, exactly if every skill reported as archived had a directory. */
  lemma SecondReportIff(s: Store, names: seq<string>, now: real)
    ensures var again := Report(After(s, now), names, now);
            again.stale == [] &&
            (again.archived == [] <==> forall n :: n in names && FateOf(s, n, now) == Archived ==> n in s.live)
  {
    var t := After(s, now);
    forall n ensures FateOf(t, n, now) != Stale
      && (FateOf(t, n, now) == Archived <==> FateOf(s, n, now) == Archived && n !in s.live)
    {
      FateAfter(s, n, now);
    }
    NoneHasFate(t, names, Stale, now);
    NoneHasFate(t, names, Archived, now);
  }

  // ---------------------------------------------------------------------------------------------
  // Restoring
  // ---------------------------------------------------------------------------------------------

  datatype RestoreError = NotFound | AlreadyExists

  /** `restore_archived_skill`, with the entry marked active again. */
  function Restore(s: Store, name: string): Result<Store, RestoreError> {
    if name !in s.archive then Failure(NotFound)
    else if name in s.live then Failure(AlreadyExists)
    else
      var e := if name in s.entries then s.entries[name] else NEW_ENTRY;
      Success(Store(s.entries[name := e.(state := "active")], s.live + {name}, s.archive - {name}, s.shipped))
  }

  /** Restoring a skill right after it was archived brings back its directory, and the state `active`. */
  lemma RestoreUndoes(s: Store, name: string, now: real)
    requires Moves(s, name, now)
    ensures var r := Restore(After(s, now), name);
            && r.Success? && r.value.live == After(s, now).live + {name} && name !in r.value.archive
            && r.value.entries[name] == s.entries[name].(state := "active")
  {
  }

  /** Nothing records the restore as activity: the next run archives the skill again. */
  lemma RestoredIsArchivedAgain(s: Store, name: string, now: real, later: real)
    requires Moves(s, name, now) && now <= later
    ensures var r := Restore(After(s, now), name); r.Success? && Moves(r.value, name, later)
  {
    RestoreUndoes(s, name, now);
    var e := s.entries[name];
    var latest := Later(e.lastUsed, Later(e.lastViewed, e.lastPatched)).value;
    assert (later - latest) / DAY_SEC >= (now - latest) / DAY_SEC;
  }

  // ---------------------------------------------------------------------------------------------
  // Backups
  // ---------------------------------------------------------------------------------------------

  function Last(names: seq<string>, n: nat): seq<string> {
    if |names| <= n then names else names[|names| - n..]
  }

  /** The retention loop over the backups in the order of their names. */
  method TrimBackups(names: seq<string>, keep: int) returns (kept: seq<string>, removed: seq<string>)
    ensures removed + kept == names
    ensures kept == Last(names, if keep > 1 then keep else 1)
  {
    kept, removed := names, [];
    var most := if keep > 1 then keep else 1;
    while |kept| > most
      invariant |removed| <= |names| && removed == names[..|removed|] && kept == names[|removed|..]
      invariant |kept| >= most || removed == []
    {
      removed := removed + [kept[0]];
      kept := kept[1..];
    }
  }
}
