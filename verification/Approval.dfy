/**
 The approval handshake (src/media2text/agent/approval.py): a gated call registers a request and
 waits; another thread may resolve it once.  The registry is a class over mutable items; the runs of
 all threads are interleavings of atomic steps.  Identifiers are fresh (uuid4).
 */
module Approval {
  import opened Wrappers

  // ---------------------------------------------------------------------------------------------
  // What the registry's operations do to the pending requests and their answers
  // ---------------------------------------------------------------------------------------------

  predicate IsTrue(answer: Option<bool>) {
    answer.Some? && answer.value
  }

  type Answers = map<string, Option<bool>>

  predicate Resolvable(pending: Answers, id: string) {
    id in pending && pending[id].None?
  }

  function Resolved(pending: Answers, id: string, approved: bool): Answers {
    if Resolvable(pending, id) then pending[id := Some(approved)] else pending
  }

  class PendingApproval {
    const id: string
    const action: string
    const summary: string
    var event: bool
    var approved: Option<bool>

    constructor (id: string, action: string, summary: string)
      ensures this.id == id && !event && approved.None?
    {
      this.id, this.action, this.summary := id, action, summary;
      event, approved := false, None;
    }
  }

  class ApprovalRegistry {
    var pending: map<string, PendingApproval>

    ghost predicate Valid()
      reads this, pending.Values
    {
      forall id :: id in pending ==> pending[id].id == id && (pending[id].event <==> pending[id].approved.Some?)
    }

    ghost function View(): Answers
      reads this, pending.Values
    {
      map id | id in pending :: pending[id].approved
    }

    constructor ()
      ensures Valid() && View() == map[]
    {
      pending := map[];
    }

    method Create(id: string, action: string, summary: string) returns (item: PendingApproval)
      requires Valid() && id !in pending
      modifies this
      ensures Valid() && View() == old(View())[id := None]
      ensures fresh(item) && pending == old(pending)[id := item] && item.id == id
    {
      item := new PendingApproval(id, action, summary);
      pending := pending[id := item];
    }

    method Resolve(id: string, approved: bool) returns (ok: bool)
      requires Valid()
      modifies pending.Values
      ensures Valid() && pending == old(pending)
      ensures ok <==> id in old(View()) && old(View())[id].None?
      ensures View() == Resolved(old(View()), id, approved)
    {
      if id !in pending {
        return false;
      }
      var item := pending[id];
      if item.approved.Some? {
        return false;
      }
      item.approved := Some(approved);
      item.event := true;
      assert forall other :: other in pending && other != id ==> pending[other] != item;
      return true;
    }

    method Pop(id: string) returns (item: Option<PendingApproval>)
      requires Valid()
      modifies this
      ensures Valid() && View() == old(View()) - {id} && pending == old(pending) - {id}
      ensures item == if id in old(pending) then Some(old(pending)[id]) else None
    {
      item := if id in pending then Some(pending[id]) else None;
      pending := pending - {id};
    }
  }

  // ---------------------------------------------------------------------------------------------
  // The gate
  // ---------------------------------------------------------------------------------------------

  datatype Gate = Gate(autoApprove: bool, mode: string, allowlist: set<string>, emits: bool)

  predicate Bypass(gate: Gate, action: string) {
    gate.autoApprove || gate.mode == "off" || (gate.mode == "allowlist" && action in gate.allowlist)
  }

  datatype Answer = Answer(id: string, approved: bool)

  /** The registry's answers after other threads called `resolve` in this order. */
  function AllResolved(pending: Answers, answers: seq<Answer>): Answers {
    if answers == [] then pending
    else
      var last := answers[|answers| - 1];
      Resolved(AllResolved(pending, answers[..|answers| - 1]), last.id, last.approved)
  }

  function FirstAnswer(answers: seq<Answer>, id: string): Option<bool> {
    if answers == [] then None
    else if answers[0].id == id then Some(answers[0].approved)
    else FirstAnswer(answers[1..], id)
  }

  /** The `k`th answer is the first to this request. */
  ghost predicate IsFirst(answers: seq<Answer>, id: string, k: nat) {
    k < |answers| && answers[k].id == id && forall j :: 0 <= j < k ==> answers[j].id != id
  }

  lemma {:induction false} FirstAnswerIs(answers: seq<Answer>, id: string)
    ensures forall k: nat :: IsFirst(answers, id, k) ==> FirstAnswer(answers, id) == Some(answers[k].approved)
    ensures FirstAnswer(answers, id).None? <==> forall a :: a in answers ==> a.id != id
    ensures FirstAnswer(answers, id).Some? ==> exists k: nat :: IsFirst(answers, id, k)
  {
    if answers != [] {
      var first, rest := answers[0], answers[1..];
      assert answers == [first] + rest;
      FirstAnswerIs(rest, id);
      forall k: nat | IsFirst(answers, id, k) ensures FirstAnswer(answers, id) == Some(answers[k].approved) {
        if k > 0 {
          assert first.id != id && IsFirst(rest, id, k - 1);
        }
      }
      if first.id == id {
        assert IsFirst(answers, id, 0);
      } else if k: nat :| IsFirst(rest, id, k) {
        assert IsFirst(answers, id, k + 1);
      }
    }
  }

  lemma {:induction false} FirstAnswerSnoc(answers: seq<Answer>, last: Answer, id: string)
    ensures FirstAnswer(answers + [last], id) ==
            if FirstAnswer(answers, id).Some? then FirstAnswer(answers, id)
            else if last.id == id then Some(last.approved) else None
  {
    if answers == [] {
      assert ([] + [last])[1..] == [];
    } else {
      assert (answers + [last])[1..] == answers[1..] + [last];
      FirstAnswerSnoc(answers[1..], last, id);
    }
  }

  /** Of several answers to one request, the first is the one that counts. */
  lemma {:induction false} FirstAnswerCounts(pending: Answers, answers: seq<Answer>, id: string)
    requires id in pending && pending[id].None?
    ensures AllResolved(pending, answers).Keys == pending.Keys
    ensures AllResolved(pending, answers)[id] == FirstAnswer(answers, id)
  {
    if answers != [] {
      var front, last := answers[..|answers| - 1], answers[|answers| - 1];
      FirstAnswerCounts(pending, front, id);
      FirstAnswerSnoc(front, last, id);
      assert answers == front + [last];
    }
  }

  method ResolveAll(registry: ApprovalRegistry, answers: seq<Answer>)
    requires registry.Valid()
    modifies registry.pending.Values
    ensures registry.Valid() && registry.pending == old(registry.pending)
    ensures registry.View() == AllResolved(old(registry.View()), answers)
  {
    for i := 0 to |answers|
      invariant registry.Valid() && registry.pending == old(registry.pending)
      invariant registry.View() == AllResolved(old(registry.View()), answers[..i])
    {
      assert answers[..i + 1][..i] == answers[..i];
      var ok := registry.Resolve(answers[i].id, answers[i].approved);
    }
    assert answers[..|answers|] == answers;
  }

  /**
   One gated call on its own: `before` are the answers other threads give while it waits, `late`
   those between the end of the wait and the removal of the request; `timesOut` says that the wait
   ended by its timeout, which it also does when no answer sets the event.
   */
  method Ensure(registry: ApprovalRegistry, gate: Gate, id: string, action: string, summary: string,
                before: seq<Answer>, timesOut: bool, late: seq<Answer>)
    returns (granted: bool)
    requires registry.Valid() && id !in registry.pending
    modifies registry, registry.pending.Values
    ensures registry.Valid() && id !in registry.pending
    ensures granted <==>
            || gate.autoApprove || gate.mode == "off" || (gate.mode == "allowlist" && action in gate.allowlist)
            || (!timesOut && exists k: nat :: IsFirst(before, id, k) && before[k].approved)
    ensures registry.View() ==
            if gate.autoApprove || gate.mode == "off" || (gate.mode == "allowlist" && action in gate.allowlist)
            then old(registry.View())
            else AllResolved(AllResolved(old(registry.View())[id := None], before), late) - {id}
  {
    FirstAnswerIs(before, id);
    if Bypass(gate, action) {
      return true;
    }
    var item := registry.Create(id, action, summary);
    ghost var created := registry.View();
    ResolveAll(registry, before);
    FirstAnswerCounts(created, before, id);
    assert item.approved == registry.View()[id];
    var woken := item.event && !timesOut;
    granted := woken && IsTrue(item.approved);
    ResolveAll(registry, late);
    var popped := registry.Pop(id);
  }

  // ---------------------------------------------------------------------------------------------
  // All interleavings
  // ---------------------------------------------------------------------------------------------

  datatype Phase =
    | Announcing                            // registered, the request not emitted yet
    | Waiting
    | Woken(granted: bool)                  // the event was set; the answer has been read
    | TimedOut
    | Returned(granted: bool, woke: bool)   // the request has been removed
    | Bypassed
    | Raised                                // the emitter raised: nothing removes the request

  datatype Call = Call(gate: Gate, action: string, phase: Phase, approved: Option<bool>)

  /** `registry` holds the identifiers of the pending requests, `resolved` the successful resolves. */
  datatype World = World(calls: map<string, Call>, registry: set<string>, resolved: seq<Answer>)

  datatype Step =
    | Begin(id: string, gate: Gate, action: string)
    | Emit(id: string, ok: bool)
    | Resolve(answer: Answer)
    | Wake(id: string)
    | TimeOut(id: string)
    | Remove(id: string)

  function Pending(w: World): Answers {
    map id | id in w.registry && id in w.calls :: w.calls[id].approved
  }

  function Moved(w: World, id: string, phase: Phase): World
    requires id in w.calls
  {
    w.(calls := w.calls[id := w.calls[id].(phase := phase)])
  }

  /** A step that is not enabled changes nothing. */
  function After(w: World, step: Step): World {
    match step
    case Begin(id, gate, action) =>
      if id in w.calls then w
      else if Bypass(gate, action) then w.(calls := w.calls[id := Call(gate, action, Bypassed, None)])
      else World(w.calls[id := Call(gate, action, if gate.emits then Announcing else Waiting, None)],
                 w.registry + {id}, w.resolved)
    case Emit(id, ok) =>
      if id in w.calls && w.calls[id].phase.Announcing? then Moved(w, id, if ok then Waiting else Raised) else w
    case Resolve(answer) =>
      if Resolvable(Pending(w), answer.id)
      then World(w.calls[answer.id := w.calls[answer.id].(approved := Some(answer.approved))],
                 w.registry, w.resolved + [answer])
      else w
    case Wake(id) =>
      if id in w.calls && w.calls[id].phase.Waiting? && w.calls[id].approved.Some?
      then Moved(w, id, Woken(IsTrue(w.calls[id].approved))) else w
    case TimeOut(id) =>
      if id in w.calls && w.calls[id].phase.Waiting? then Moved(w, id, TimedOut) else w
    case Remove(id) =>
      if id in w.calls && (w.calls[id].phase.Woken? || w.calls[id].phase.TimedOut?)
      then
        var granted := w.calls[id].phase.Woken? && w.calls[id].phase.granted;
        var m := Moved(w, id, Returned(granted, w.calls[id].phase.Woken?));
        m.(registry := m.registry - {id})
      else w
  }

  function Run(steps: seq<Step>): World {
    if steps == [] then World(map[], {}, []) else After(Run(steps[..|steps| - 1]), steps[|steps| - 1])
  }

  /** The answers a request got through successful resolves. */
  function AnswersTo(resolved: seq<Answer>, id: string): seq<bool> {
    if resolved == [] then []
    else
      var last := resolved[|resolved| - 1];
      AnswersTo(resolved[..|resolved| - 1], id) + if last.id == id then [last.approved] else []
  }

  predicate InProgress(phase: Phase) {
    phase.Announcing? || phase.Waiting? || phase.Woken? || phase.TimedOut?
  }

  predicate CallFits(c: Call) {
    && (c.phase.Bypassed? <==> Bypass(c.gate, c.action))
    && (c.phase.Bypassed? ==> c.approved.None?)
    && (c.phase.Woken? ==> c.approved == Some(c.phase.granted))
    && (c.phase.Returned? && c.phase.woke ==> c.approved == Some(c.phase.granted))
    && (c.phase.Returned? && !c.phase.woke ==> !c.phase.granted)
  }

  /** What holds of one identifier in every reachable world. */
  predicate Fits(w: World, id: string) {
    if id in w.calls then
      && CallFits(w.calls[id])
      && (id in w.registry <==> InProgress(w.calls[id].phase) || w.calls[id].phase.Raised?)
      && AnswersTo(w.resolved, id) == (if w.calls[id].approved.Some? then [w.calls[id].approved.value] else [])
    else id !in w.registry && AnswersTo(w.resolved, id) == []
  }

  lemma AnswersSnoc(resolved: seq<Answer>, last: Answer, id: string)
    ensures AnswersTo(resolved + [last], id) == AnswersTo(resolved, id) + if last.id == id then [last.approved] else []
  {
    assert (resolved + [last])[..|resolved|] == resolved;
  }

  lemma ResolveKeepsFits(w: World, answer: Answer, id: string)
    requires Fits(w, id)
    ensures Fits(After(w, Resolve(answer)), id)
  {
    AnswersSnoc(w.resolved, answer, id);
  }

  lemma BeginKeepsFits(w: World, begun: string, gate: Gate, action: string, id: string)
    requires Fits(w, id)
    ensures Fits(After(w, Begin(begun, gate, action)), id)
  {
  }

  lemma RemoveKeepsFits(w: World, removed: string, id: string)
    requires Fits(w, id)
    ensures Fits(After(w, Remove(removed)), id)
  {
  }

  lemma MoveKeepsFits(w: World, step: Step, id: string)
    requires Fits(w, id) && (step.Emit? || step.Wake? || step.TimeOut?)
    ensures Fits(After(w, step), id)
  {
  }

  lemma FitsKept(w: World, step: Step, id: string)
    requires Fits(w, id)
    ensures Fits(After(w, step), id)
  {
    match step
    case Begin(begun, gate, action) => BeginKeepsFits(w, begun, gate, action, id);
    case Resolve(answer) => ResolveKeepsFits(w, answer, id);
    case Remove(removed) => RemoveKeepsFits(w, removed, id);
    case _ => MoveKeepsFits(w, step, id);
  }

  lemma {:induction false} RunFits(steps: seq<Step>, id: string)
    ensures Fits(Run(steps), id)
  {
    if steps != [] {
      RunFits(steps[..|steps| - 1], id);
      FitsKept(Run(steps[..|steps| - 1]), steps[|steps| - 1], id);
    }
  }

  /** At most one `resolve` succeeds for any request. */
  lemma ResolvedAtMostOnce(steps: seq<Step>, id: string)
    ensures |AnswersTo(Run(steps).resolved, id)| <= 1
  {
    RunFits(steps, id);
  }

  /** A call is granted exactly if it needs no approval, or woke up and its own request was approved. */
  lemma GrantedIff(steps: seq<Step>, id: string)
    requires id in Run(steps).calls && (Run(steps).calls[id].phase.Returned? || Run(steps).calls[id].phase.Bypassed?)
    ensures var w := Run(steps);
            var c := w.calls[id];
            (c.phase.Bypassed? || c.phase.granted) <==>
            || c.gate.autoApprove || c.gate.mode == "off"
            || (c.gate.mode == "allowlist" && c.action in c.gate.allowlist)
            || (c.phase.Returned? && c.phase.woke && AnswersTo(w.resolved, id) == [true])
  {
    RunFits(steps, id);
  }

  /** The registry holds the requests in progress, and those whose announcement failed. */
  lemma {:induction false} RegistryIs(steps: seq<Step>, id: string)
    ensures var w := Run(steps);
            id in w.registry <==>
            id in w.calls && (InProgress(w.calls[id].phase) || w.calls[id].phase.Raised?)
  {
    RunFits(steps, id);
  }

  lemma StaysRaised(w: World, step: Step, id: string)
    requires IsRaised(w, id)
    ensures IsRaised(After(w, step), id)
  {
  }

  lemma RunSnoc(steps: seq<Step>, last: Step)
    ensures Run(steps + [last]) == After(Run(steps), last)
  {
    assert (steps + [last])[..|steps|] == steps;
  }

  predicate IsRaised(w: World, id: string) {
    id in w.registry && id in w.calls && w.calls[id].phase.Raised?
  }

  lemma {:induction false} RaisedStays(steps: seq<Step>, more: seq<Step>, id: string)
    requires IsRaised(Run(steps), id)
    ensures IsRaised(Run(steps + more), id)
  {
    if more == [] {
      assert steps + more == steps;
    } else {
      var front, last := more[..|more| - 1], more[|more| - 1];
      RaisedStays(steps, front, id);
      assert steps + more == (steps + front) + [last];
      RunSnoc(steps + front, last);
      StaysRaised(Run(steps + front), last, id);
    }
  }

  /** Such a run: the request is registered, and its announcement raises. */
  lemma RaisedReached(id: string, gate: Gate, action: string)
    requires !Bypass(gate, action) && gate.emits
    ensures IsRaised(Run([Begin(id, gate, action), Emit(id, false)]), id)
  {
    var s := [Begin(id, gate, action), Emit(id, false)];
    assert s[..1] == [s[0]] && [s[0]][..0] == [];
    assert Run(s[..1]) == After(Run([]), s[0]);
    assert Run(s) == After(Run(s[..1]), s[1]);
  }

  /** A successful answer and the call's result differ exactly when it approves a call that timed out. */
  lemma AnswerHonouredIff(steps: seq<Step>, id: string, approved: bool)
    requires id in Run(steps).calls && Run(steps).calls[id].phase.Returned?
    requires AnswersTo(Run(steps).resolved, id) == [approved]
    ensures var phase := Run(steps).calls[id].phase;
            phase.granted == approved <==> phase.woke || !approved
  {
    RunFits(steps, id);
  }

  /** Such a run: the approval succeeds after the timeout, and the call is refused. */
  lemma LateApproval(id: string, gate: Gate, action: string)
    requires !Bypass(gate, action) && !gate.emits
    ensures var w := Run([Begin(id, gate, action), TimeOut(id), Resolve(Answer(id, true)), Remove(id)]);
            AnswersTo(w.resolved, id) == [true] && id in w.calls && w.calls[id].phase == Returned(false, false)
  {
    var s := [Begin(id, gate, action), TimeOut(id), Resolve(Answer(id, true)), Remove(id)];
    var w1 := Run(s[..1]);
    assert s[..1][..0] == [] && s[..2][..1] == s[..1] && s[..3][..2] == s[..2] && s[..4] == s;
    assert w1 == After(Run([]), s[0]);
    var w2 := Run(s[..2]);
    assert w2 == After(w1, s[1]);
    var w3 := Run(s[..3]);
    assert w3 == After(w2, s[2]);
    assert Resolvable(Pending(w2), id);
    assert w3.resolved == [Answer(id, true)];
    assert w3.resolved[..0] == [];
    assert Run(s) == After(w3, s[3]);
  }

  lemma MovingKeepsPending(w: World, id: string, phase: Phase)
    requires id in w.calls
    ensures Pending(Moved(w, id, phase)) == Pending(w)
  {
  }

  lemma BeginRegisters(steps: seq<Step>, id: string, gate: Gate, action: string)
    ensures var w := Run(steps);
            Pending(After(w, Begin(id, gate, action))) ==
            if id !in w.calls && !Bypass(gate, action) then Pending(w)[id := None] else Pending(w)
  {
    RunFits(steps, id);
  }

  lemma ResolveAnswers(w: World, answer: Answer)
    ensures Pending(After(w, Resolve(answer))) == Resolved(Pending(w), answer.id, answer.approved)
  {
  }

  lemma RemoveRemoves(w: World, id: string)
    requires id in w.calls && (w.calls[id].phase.Woken? || w.calls[id].phase.TimedOut?)
    ensures Pending(After(w, Remove(id))) == Pending(w) - {id}
  {
  }

  /** The steps change the pending requests just as the registry's methods do. */
  lemma StepsAreTheRegistrys(steps: seq<Step>, step: Step)
    ensures var w := Run(steps);
            var before, after := Pending(w), Pending(After(w, step));
            match step
            case Begin(id, gate, action) =>
              after == if id !in w.calls && !Bypass(gate, action) then before[id := None] else before
            case Resolve(answer) => after == Resolved(before, answer.id, answer.approved)
            case Remove(id) =>
              after == if id in w.calls && (w.calls[id].phase.Woken? || w.calls[id].phase.TimedOut?)
                       then before - {id} else before
            case _ => after == before
  {
    var w := Run(steps);
    match step
    case Begin(id, gate, action) => BeginRegisters(steps, id, gate, action);
    case Resolve(answer) => ResolveAnswers(w, answer);
    case Remove(id) =>
      if id in w.calls && (w.calls[id].phase.Woken? || w.calls[id].phase.TimedOut?) {
        RemoveRemoves(w, id);
      }
    case Emit(id, ok) =>
      if id in w.calls { MovingKeepsPending(w, id, if ok then Waiting else Raised); }
    case Wake(id) =>
      if id in w.calls { MovingKeepsPending(w, id, Woken(IsTrue(w.calls[id].approved))); }
    case TimeOut(id) =>
      if id in w.calls { MovingKeepsPending(w, id, TimedOut); }
  }
}
