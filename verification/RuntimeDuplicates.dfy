/** What the active keys prevent between resets and restarts, and what they do not. */
module RuntimeDuplicates {
  import opened Json
  import Geofence
  import opened GateTypes
  import opened Interlock
  import opened LatencyGate
  import opened RuntimeModel
  import opened RuntimeSafety
  import opened RuntimeRestart
  import opened RuntimeAccounting

  predicate Registered(rules: Rules, active: set<string>, coa: Coa) {
    coa.id in active || PairKey(rules, coa) in active
  }

  predicate Clearing(a: Action) {
    a == DoReset || a == DoRestart
  }

  predicate NeverCleared(run: seq<Step>) {
    forall i :: 0 <= i < |run| ==> !Clearing(run[i].action)
  }

  lemma HandleKeepsActive(env: Env, m: Mem, a: Action, now: string)
    requires !Clearing(a)
    ensures m.active <= Handle(env, m, a, now).mem.active
  {
  }

  /** Between resets and restarts nothing is taken off the active keys. */
  lemma {:induction false} ActiveOnlyGrows(env: Env, sys: Sys, run: seq<Step>)
    requires NeverCleared(run)
    ensures sys.mem.active <= After(env, sys, run).mem.active
  {
    if run != [] {
      var n := |run| - 1;
      ActiveOnlyGrows(env, sys, run[..n]);
      HandleKeepsActive(env, After(env, sys, run[..n]).mem, run[n].action, run[n].now);
    }
  }

  // ---------------------------------------------------------------- queueing

  /** Every proposal pending afterwards was pending before, unchanged, or is kept under its
      own id and carries no active key. */
  predicate QueuesUnregistered(rules: Rules, m: Mem, out: Mem) {
    forall id :: id in out.proposals ==>
      (id in m.proposals && out.proposals[id] == m.proposals[id]) ||
      (out.proposals[id].coa.id == id && !Registered(rules, m.active, out.proposals[id].coa))
  }

  lemma EnqueueUnregistered(rules: Rules, m: Mem, p: Pending, e: Event, r: Response)
    requires FullCheck(rules, m.active, p.coa) == Pass
    ensures QueuesUnregistered(rules, m, Enqueue(m, p, e, r).mem)
  {
    PassMeansSafe(rules, m.active, p.coa);
  }

  lemma FewerProposals(rules: Rules, m: Mem, out: Mem)
    requires forall id :: id in out.proposals ==> id in m.proposals && out.proposals[id] == m.proposals[id]
    ensures QueuesUnregistered(rules, m, out)
  {
  }

  lemma ProposeQueuesUnregistered(env: Env, m: Mem, request: Request, unit: string, tokenId: string, now: string)
    ensures QueuesUnregistered(env.rules, m, Propose(env, m, request, unit, tokenId, now).mem)
  {
    var o := Propose(env, m, request, unit, tokenId, now);
    if o.response == Queued {
      var coa := ApplyDefaults(env.policy, request.coa);
      EnqueueUnregistered(env.rules, m, Pending(coa, unit, now, None), CoaProposed(coa.id, coa.intent, unit), Queued);
    } else {
      FewerProposals(env.rules, m, o.mem);
    }
  }

  lemma GuardrailQueuesUnregistered(env: Env, m: Mem, dangerous: Coa, unit: string, navyUnit: string,
                                    freshId: string, offshore: Option<Geofence.Point>, now: string)
    ensures QueuesUnregistered(env.rules, m,
                               QueueOptionB(env, m, dangerous, unit, navyUnit, freshId, offshore, now).mem)
  {
    var fallback := ApplyDefaults(env.policy, OptionB(dangerous, freshId, offshore));
    if FullCheck(env.rules, m.active, fallback) == Pass {
      EnqueueUnregistered(env.rules, m, Pending(fallback, unit, now, Some(navyUnit)),
                          GuardrailQueued(dangerous, fallback, unit, navyUnit), OptionBQueued);
    }
  }

  lemma HandleQueuesUnregistered(env: Env, m: Mem, a: Action, now: string)
    requires !Clearing(a)
    ensures QueuesUnregistered(env.rules, m, Handle(env, m, a, now).mem)
  {
    match a
    case DoPropose(request, unit, tokenId) => ProposeQueuesUnregistered(env, m, request, unit, tokenId, now);
    case DoGuardrail(scenario, unit, navyUnit, freshId, offshore) =>
      if scenario.Some? {
        var dangerous := DangerousDraft(ApplyDefaults(env.policy, scenario.value));
        GuardrailQueuesUnregistered(env, m, dangerous, unit, navyUnit, freshId, offshore, now);
      }
    case DoDecide(id, decision, operator, ids) =>
      FewerProposals(env.rules, m, Decide(env, m, id, decision, operator, ids, now).mem);
    case DoAck(req, ackId) => FewerProposals(env.rules, m, Acknowledge(env, m, req, ackId, now).mem);
  }

  /** Under the key's id, or for the key's target, intent and coordinates. */
  predicate Matches(rules: Rules, key: string, coa: Coa) {
    coa.id == key || PairKey(rules, coa) == key
  }

  /** Once a key is active, then over any run without resets and restarts every pending
      proposal under it was already pending, unchanged, at the start: no request, scenario
      or guardrail demo queues another. */
  lemma {:induction false} ActiveKeyBlocksQueueing(env: Env, sys: Sys, run: seq<Step>, key: string)
    requires NeverCleared(run) && key in sys.mem.active
    ensures var m := After(env, sys, run).mem;
      forall id :: id in m.proposals && Matches(env.rules, key, m.proposals[id].coa) ==>
        id in sys.mem.proposals && m.proposals[id] == sys.mem.proposals[id]
  {
    if run != [] {
      var n := |run| - 1;
      ActiveKeyBlocksQueueing(env, sys, run[..n], key);
      ActiveOnlyGrows(env, sys, run[..n]);
      HandleQueuesUnregistered(env, After(env, sys, run[..n]).mem, run[n].action, run[n].now);
    }
  }

  // ---------------------------------------------------------------- issuing

  /** The course of action was issued for this proposal: its own, or its navy copy. */
  predicate IssuedFor(p: Pending, coa: Coa) {
    coa == p.coa || (NavyUnit(p).Some? && coa == NavyCopy(p.coa, coa.id))
  }

  /** A proposal waits from which this course of action would be issued; a navy copy's id is
      drawn afresh, so it is not the key. */
  predicate Waiting(m: Mem, key: string, coa: Coa) {
    exists id :: id in m.proposals &&
      (coa == m.proposals[id].coa || (coa.id != key && IssuedFor(m.proposals[id], coa)))
  }

  predicate InInbox(m: Mem, coa: Coa) {
    coa.id in m.inbox && m.inbox[coa.id].coa == coa
  }

  /** The ids a run draws for navy copies are not the key. */
  predicate DrawsFresh(run: seq<Step>, key: string) {
    forall i :: 0 <= i < |run| && run[i].action.DoDecide? ==> run[i].action.ids.navyCoaId != key
  }

  lemma DecideIssuesPending(env: Env, m: Mem, d: Action, now: string, key: string, coa: Coa)
    requires d.DoDecide? && d.ids.navyCoaId != key
    requires InInbox(Handle(env, m, d, now).mem, coa)
    ensures InInbox(m, coa) || Waiting(m, key, coa)
  {
    if d.id in m.proposals && !InInbox(m, coa) {
      assert IssuedFor(m.proposals[d.id], coa);
    }
  }

  lemma HandleIssuesPending(env: Env, m: Mem, a: Action, now: string, key: string, coa: Coa)
    requires !Clearing(a) && key in m.active && Matches(env.rules, key, coa)
    requires a.DoDecide? ==> a.ids.navyCoaId != key
    requires InInbox(Handle(env, m, a, now).mem, coa)
    ensures InInbox(m, coa) || Waiting(m, key, coa)
  {
    match a
    case DoPropose(request, unit, tokenId) =>
      if request.Given? {
        PassMeansSafe(env.rules, m.active, ApplyDefaults(env.policy, request.coa));
      }
    case DoGuardrail(scenario, unit, navyUnit, freshId, offshore) =>
    case DoDecide(id, decision, operator, ids) => DecideIssuesPending(env, m, a, now, key, coa);
    case DoAck(req, ackId) =>
  }

  lemma CopyMatches(rules: Rules, p: Pending, key: string, coa: Coa)
    requires Matches(rules, key, coa) && (coa == p.coa || (coa.id != key && IssuedFor(p, coa)))
    ensures Matches(rules, key, p.coa)
  {
  }

  lemma {:induction false} IssuedWasWaiting(env: Env, sys: Sys, run: seq<Step>, key: string, coa: Coa)
    requires NeverCleared(run) && DrawsFresh(run, key)
    requires key in sys.mem.active && Matches(env.rules, key, coa)
    requires InInbox(After(env, sys, run).mem, coa)
    ensures InInbox(sys.mem, coa) || Waiting(sys.mem, key, coa)
  {
    if run != [] {
      var front, last := run[..|run| - 1], run[|run| - 1];
      var before := After(env, sys, front);
      ActiveOnlyGrows(env, sys, front);
      StepIssuesPending(env, before, last, key, coa);
      if InInbox(before.mem, coa) {
        IssuedWasWaiting(env, sys, front, key, coa);
      } else {
        WaitedFromTheStart(env, sys, front, key, coa);
      }
    }
  }

  lemma StepIssuesPending(env: Env, sys: Sys, s: Step, key: string, coa: Coa)
    requires !Clearing(s.action) && key in sys.mem.active && Matches(env.rules, key, coa)
    requires s.action.DoDecide? ==> s.action.ids.navyCoaId != key
    requires InInbox(Next(env, sys, s).mem, coa)
    ensures InInbox(sys.mem, coa) || Waiting(sys.mem, key, coa)
  {
    HandleIssuesPending(env, sys.mem, s.action, s.now, key, coa);
  }

  lemma WaitedFromTheStart(env: Env, sys: Sys, run: seq<Step>, key: string, coa: Coa)
    requires NeverCleared(run) && key in sys.mem.active && Matches(env.rules, key, coa)
    requires Waiting(After(env, sys, run).mem, key, coa)
    ensures Waiting(sys.mem, key, coa)
  {
    var m := After(env, sys, run).mem;
    var id :| id in m.proposals && (coa == m.proposals[id].coa || (coa.id != key && IssuedFor(m.proposals[id], coa)));
    CopyMatches(env.rules, m.proposals[id], key, coa);
    ActiveKeyBlocksQueueing(env, sys, run, key);
    assert id in sys.mem.proposals && sys.mem.proposals[id] == m.proposals[id];
  }

  /** Some run without resets and restarts puts this course of action into an inbox. */
  ghost predicate Issuable(env: Env, sys: Sys, key: string, coa: Coa) {
    exists run: seq<Step> :: NeverCleared(run) && DrawsFresh(run, key) && InInbox(After(env, sys, run).mem, coa)
  }

  lemma DecideIssuesOwn(env: Env, m: Mem, id: string, yes: string, ids: Ids, now: string)
    requires id in m.proposals && m.proposals[id].coa.id == id && ids.navyCoaId != id
    requires env.norm(yes) in YES_WORDS
    ensures InInbox(Decide(env, m, id, yes, "op", ids, now).mem, m.proposals[id].coa)
  {
  }

  lemma DecideIssuesCopy(env: Env, m: Mem, id: string, yes: string, ids: Ids, now: string)
    requires id in m.proposals && NavyUnit(m.proposals[id]).Some? && env.norm(yes) in YES_WORDS
    ensures InInbox(Decide(env, m, id, yes, "op", ids, now).mem, NavyCopy(m.proposals[id].coa, ids.navyCoaId))
  {
  }

  lemma WaitingIsIssuable(env: Env, sys: Sys, key: string, coa: Coa, yes: string)
    requires KeyedById(sys.mem) && Waiting(sys.mem, key, coa) && env.norm(yes) in YES_WORDS
    ensures Issuable(env, sys, key, coa)
  {
    var m := sys.mem;
    var id :| id in m.proposals && (coa == m.proposals[id].coa || (coa.id != key && IssuedFor(m.proposals[id], coa)));
    var other := key + coa.id + "x";
    assert |other| > |key| && |other| > |coa.id|;
    var drawn := if coa == m.proposals[id].coa then other else coa.id;
    var ids := Ids("t", "u", drawn);
    var approve := Step(DoDecide(id, yes, "op", ids), "now", {});
    if coa == m.proposals[id].coa {
      DecideIssuesOwn(env, m, id, yes, ids, "now");
    } else {
      DecideIssuesCopy(env, m, id, yes, ids, "now");
    }
    IssuableInOne(env, sys, approve, key, coa);
  }

  lemma IssuableInOne(env: Env, sys: Sys, s: Step, key: string, coa: Coa)
    requires s.action.DoDecide? && s.action.ids.navyCoaId != key && InInbox(Next(env, sys, s).mem, coa)
    ensures Issuable(env, sys, key, coa)
  {
    AfterOneMore(env, sys, [], s);
    assert [] + [s] == [s];
    assert NeverCleared([s]) && DrawsFresh([s], key) && InInbox(After(env, sys, [s]).mem, coa);
  }

  /** The keys are consulted when queueing only. So while a key is active a course of action
      under it gets into an inbox if and only if it is there already or was queued before. */
  lemma DuplicateIssuedIffQueuedBefore(env: Env, sys: Sys, key: string, coa: Coa, yes: string)
    requires KeyedById(sys.mem) && env.norm(yes) in YES_WORDS
    requires key in sys.mem.active && Matches(env.rules, key, coa)
    ensures Issuable(env, sys, key, coa) <==> InInbox(sys.mem, coa) || Waiting(sys.mem, key, coa)
  {
    if Issuable(env, sys, key, coa) {
      var run: seq<Step> :| NeverCleared(run) && DrawsFresh(run, key) && InInbox(After(env, sys, run).mem, coa);
      IssuedWasWaiting(env, sys, run, key, coa);
    }
    if InInbox(sys.mem, coa) {
      assert NeverCleared([]) && DrawsFresh([], key) && After(env, sys, []) == sys;
    } else if Waiting(sys.mem, key, coa) {
      WaitingIsIssuable(env, sys, key, coa, yes);
    }
  }

  // ---------------------------------------------------------------- approvals

  /** What an approving step approves: a pending proposal, or an autonomous request. */
  function Approving(env: Env, m: Mem, a: Action): Option<Coa> {
    match a
    case DoDecide(id, _, _, _) => if id in m.proposals then Some(m.proposals[id].coa) else None
    case DoPropose(request, _, _) => if request.Given? then Some(ApplyDefaults(env.policy, request.coa)) else None
    case _ => None
  }

  predicate ApprovesCoa(env: Env, m: Mem, s: Step, coa: Coa) {
    && !Clearing(s.action)
    && Handle(env, m, s.action, s.now).response == Approved
    && Approving(env, m, s.action) == Some(coa)
  }

  lemma ApprovalRegisters(env: Env, m: Mem, s: Step)
    requires !Clearing(s.action) && Handle(env, m, s.action, s.now).response == Approved
    ensures Approving(env, m, s.action).Some?
    ensures var coa := Approving(env, m, s.action).value;
      {coa.id, PairKey(env.rules, coa)} <= Handle(env, m, s.action, s.now).mem.active
  {
  }

  lemma RegisteredIsRefused(env: Env, m: Mem, request: Coa, unit: string, tokenId: string, now: string)
    requires Registered(env.rules, m.active, request)
    ensures var o := Propose(env, m, Given(request), unit, tokenId, now);
      && o.response != Queued && o.response != Approved
      && o.mem.inbox == m.inbox && o.mem.proposals == m.proposals && o.writes == []
  {
    PassMeansSafe(env.rules, m.active, ApplyDefaults(env.policy, request));
  }

  lemma ApprovalStays(env: Env, sys: Sys, approve: Step, run: seq<Step>, coa: Coa)
    requires ApprovesCoa(env, sys.mem, approve, coa) && NeverCleared(run)
    ensures {coa.id, PairKey(env.rules, coa)} <= After(env, Next(env, sys, approve), run).mem.active
  {
    ApprovalRegisters(env, sys.mem, approve);
    ActiveOnlyGrows(env, Next(env, sys, approve), run);
  }

  /** Once a course of action is approved, by a person or autonomously, then until the next
      reset or restart no request under its id, or for its target, intent and coordinates,
      is queued or issued, and no step of any kind leaves a new proposal under either. */
  lemma ApprovalBlocksDuplicates(env: Env, sys: Sys, approve: Step, first: Coa, run: seq<Step>, request: Coa,
                                 unit: string, tokenId: string, now: string)
    requires ApprovesCoa(env, sys.mem, approve, first) && NeverCleared(run)
    requires request.id == first.id || PairKey(env.rules, request) == PairKey(env.rules, first)
    ensures var m := After(env, Next(env, sys, approve), run).mem;
      var o := Propose(env, m, Given(request), unit, tokenId, now);
      && o.response != Queued && o.response != Approved
      && o.mem.inbox == m.inbox && o.mem.proposals == m.proposals && o.writes == []
    ensures var m, start := After(env, Next(env, sys, approve), run).mem, Next(env, sys, approve).mem;
      var keys := {first.id, PairKey(env.rules, first)};
      forall id :: id in m.proposals && Registered(env.rules, keys, m.proposals[id].coa) ==>
        id in start.proposals && m.proposals[id] == start.proposals[id]
  {
    var start := Next(env, sys, approve);
    ApprovalStays(env, sys, approve, run, first);
    RegisteredIsRefused(env, After(env, start, run).mem, request, unit, tokenId, now);
    ApprovalStays(env, sys, approve, [], first);
    ActiveKeyBlocksQueueing(env, start, run, first.id);
    ActiveKeyBlocksQueueing(env, start, run, PairKey(env.rules, first));
  }

  // ---------------------------------------------------------------- what a restart shows

  /** A proposal that passes every check but the active keys. */
  predicate Repeats(env: Env, m: Mem, full: Coa) {
    Safe(env.rules, full) && Registered(env.rules, m.active, full)
  }

  lemma CheckWithoutKeys(env: Env, active: set<string>, coa: Coa)
    ensures !Registered(env.rules, active, coa) ==> FullCheck(env.rules, active, coa) == FullCheck(env.rules, {}, coa)
    ensures !Safe(env.rules, coa) ==> FullCheck(env.rules, active, coa) == FullCheck(env.rules, {}, coa) != Pass
    ensures Safe(env.rules, coa) && Registered(env.rules, active, coa) ==>
      FullCheck(env.rules, active, coa).Reject? && FullCheck(env.rules, {}, coa) == Pass
  {
    PassMeansSafe(env.rules, active, coa);
    PassMeansSafe(env.rules, {}, coa);
  }

  /** Two states equal but for active keys, one of them with none, as after a restart: a
      proposal is answered alike if and only if it does not repeat an active one. */
  lemma RestartShowsInProposals(env: Env, a: Mem, b: Mem, request: Coa, unit: string, tokenId: string, now: string)
    requires Same(a, b) && b.active == {}
    ensures var full := ApplyDefaults(env.policy, request);
      var o := Propose(env, a, Given(request), unit, tokenId, now);
      var q := Propose(env, b, Given(request), unit, tokenId, now);
      o.response == q.response <==> !Repeats(env, a, full)
  {
    CheckWithoutKeys(env, a.active, ApplyDefaults(env.policy, request));
  }

  /** And so is the guardrail demo, of the option it queues. */
  lemma RestartShowsInGuardrail(env: Env, a: Mem, b: Mem, scenario: Coa, unit: string, navyUnit: string,
                                freshId: string, offshore: Option<Geofence.Point>, now: string)
    requires Same(a, b) && b.active == {}
    ensures var dangerous := DangerousDraft(ApplyDefaults(env.policy, scenario));
      var fallback := ApplyDefaults(env.policy, OptionB(dangerous, freshId, offshore));
      var o := Guardrail(env, a, Some(scenario), unit, navyUnit, freshId, offshore, now);
      var q := Guardrail(env, b, Some(scenario), unit, navyUnit, freshId, offshore, now);
      o.response == q.response <==> StaticCheck(env.rules, dangerous) == Crash || !Repeats(env, a, fallback)
  {
    var dangerous := DangerousDraft(ApplyDefaults(env.policy, scenario));
    CheckWithoutKeys(env, a.active, ApplyDefaults(env.policy, OptionB(dangerous, freshId, offshore)));
  }

  /** A restart that reads a mirrored store leaves such a pair. */
  lemma RestartLeavesSame(env: Env, sys: Sys, restart: Step)
    requires Mirrored(sys) && restart.action == DoRestart && 0 !in restart.faults
    ensures var m := Next(env, sys, restart).mem; Same(sys.mem, m) && m.active == {}
  {
    RestartKeepsMirror(sys);
  }

  // ---------------------------------------------------------------- runs that show it

  lemma ApprovalInto(env: Env, m: Mem, id: string, yes: string, ids: Ids, now: string)
    requires id in m.proposals && m.proposals[id].coa.id == id && m.proposals[id].navy == None
    requires env.norm(yes) in YES_WORDS
    ensures var p, o := m.proposals[id], Decide(env, m, id, yes, "op", ids, now);
      && o.response == Approved
      && o.mem.proposals == m.proposals - {id} && o.mem.acked == m.acked
      && o.mem.inbox == m.inbox[id := Issued(env, p.coa, ids.tokenId, p.unit, "op", now)]
  {
  }

  /** Two requests for one target and intent, both queued before either is approved, are
      both issued. */
  lemma QueuedDuplicatesBothIssue(env: Env, a: Coa, b: Coa, yes: string, ids: Ids)
    requires Queueable(env, a) && Queueable(env, b) && a.id != b.id && env.norm(yes) in YES_WORDS
    requires PairKey(env.rules, a) == PairKey(env.rules, b)
    ensures
      var run := [Step(DoPropose(Given(a), "unit", "t"), "1", {}), Step(DoPropose(Given(b), "unit", "t"), "2", {}),
                  Step(DoDecide(a.id, yes, "op", ids), "3", {}), Step(DoDecide(b.id, yes, "op", ids), "4", {})];
      var m := After(env, EMPTY, run).mem;
      && InInbox(m, ApplyDefaults(env.policy, a)) && InInbox(m, ApplyDefaults(env.policy, b))
      && PairKey(env.rules, m.inbox[a.id].coa) == PairKey(env.rules, m.inbox[b.id].coa)
  {
    var s1, s2 := Step(DoPropose(Given(a), "unit", "t"), "1", {}), Step(DoPropose(Given(b), "unit", "t"), "2", {});
    var s3, s4 := Step(DoDecide(a.id, yes, "op", ids), "3", {}), Step(DoDecide(b.id, yes, "op", ids), "4", {});
    ThreeSteps(env, EMPTY, s1, s2, s3);
    AfterOneMore(env, EMPTY, [s1, s2, s3], s4);
    assert [s1, s2, s3] + [s4] == [s1, s2, s3, s4];
    var one := Next(env, EMPTY, s1);
    ProposeQueues(env, EMPTY.mem, a, "unit", "t", "1");
    var two := Next(env, one, s2);
    ProposeQueues(env, one.mem, b, "unit", "t", "2");
    ApprovalInto(env, two.mem, a.id, yes, ids, "3");
    ApprovalInto(env, Next(env, two, s3).mem, b.id, yes, ids, "4");
  }

  /** An approved tasking reaches its unit's list exactly when its id was not acked
      before. Ids are the caller's, and active keys do not survive a restart, so the
      condition can fail: an acked id can be proposed and approved again, unseen. */
  lemma ApprovedIsListed(env: Env, m: Mem, id: string, decision: string, operator: string, ids: Ids, now: string)
    requires KeyedById(m) && ids.navyCoaId != id
    requires Decide(env, m, id, decision, operator, ids, now).response == Approved
    ensures var o := Decide(env, m, id, decision, operator, ids, now);
      id in Listed(o.mem, m.proposals[id].unit) <==> id !in m.acked
  {
  }

  /** A tasking proposed, approved and acked. */
  function AckedRun(coa: Coa, yes: string, ids: Ids): seq<Step> {
    [Step(DoPropose(Given(coa), "unit", "t"), "1", {}),
     Step(DoDecide(coa.id, yes, "op", ids), "2", {}),
     Step(DoAck(AckRequest(coa.id, "unit", None, "OK", ""), "a"), "3", {})]
  }

  /** A restart, and the same proposed and approved again. */
  function AgainRun(coa: Coa, yes: string, ids: Ids): seq<Step> {
    [Step(DoRestart, "4", {}),
     Step(DoPropose(Given(coa), "unit", "t"), "5", {}),
     Step(DoDecide(coa.id, yes, "op", ids), "6", {})]
  }

  lemma AckInto(env: Env, m: Mem, req: AckRequest, ackId: string, now: string)
    requires req.coaId in m.inbox && m.inbox[req.coaId].unit == req.unit
    ensures var o := Acknowledge(env, m, req, ackId, now);
      && o.mem.proposals == m.proposals && o.mem.acked == m.acked + {req.coaId}
      && o.mem.inbox.Keys == m.inbox.Keys
  {
  }

  lemma AckedRunIsMirrored(env: Env, coa: Coa, yes: string, ids: Ids)
    ensures Mirrored(After(env, EMPTY, AckedRun(coa, yes, ids)))
  {
    assert Mirrored(EMPTY);
    EveryRunIsMirrored(env, EMPTY, AckedRun(coa, yes, ids));
  }

  lemma AckedRunAcks(env: Env, coa: Coa, yes: string, ids: Ids)
    requires Queueable(env, coa) && env.norm(yes) in YES_WORDS
    ensures var m := After(env, EMPTY, AckedRun(coa, yes, ids)).mem;
      m.inbox.Keys == m.acked == {coa.id} && m.proposals == map[]
  {
    var s1, s2 := Step(DoPropose(Given(coa), "unit", "t"), "1", {}), Step(DoDecide(coa.id, yes, "op", ids), "2", {});
    var req := AckRequest(coa.id, "unit", None, "OK", "");
    var s3 := Step(DoAck(req, "a"), "3", {});
    ThreeSteps(env, EMPTY, s1, s2, s3);
    ProposedInto(env, coa);
    var one := Next(env, EMPTY, s1).mem;
    var two := Decide(env, one, coa.id, yes, "op", ids, "2").mem;
    ApprovedInto(env, one, coa.id, yes, ids);
    AckInto(env, two, req, "a", "3");
  }

  lemma ProposedInto(env: Env, coa: Coa)
    requires Queueable(env, coa)
    ensures var m := Next(env, EMPTY, Step(DoPropose(Given(coa), "unit", "t"), "1", {})).mem;
      && m.proposals.Keys == {coa.id} && m.inbox == map[] && m.acked == {}
      && m.proposals[coa.id].coa.id == coa.id && m.proposals[coa.id].unit == "unit"
      && m.proposals[coa.id].navy == None
  {
    ProposeQueues(env, EMPTY.mem, coa, "unit", "t", "1");
  }

  lemma ApprovedInto(env: Env, m: Mem, id: string, yes: string, ids: Ids)
    requires m.proposals.Keys == {id} && m.inbox == map[] && m.acked == {} && env.norm(yes) in YES_WORDS
    requires m.proposals[id].coa.id == id && m.proposals[id].unit == "unit" && m.proposals[id].navy == None
    ensures var out := Decide(env, m, id, yes, "op", ids, "2").mem;
      && out.inbox.Keys == {id} && out.proposals == map[] && out.acked == {}
      && out.inbox[id].unit == "unit"
  {
    ApprovalInto(env, m, id, yes, ids, "2");
  }

  /** Acked, restarted, proposed and approved again: the second tasking is approved, waits
      for an ack, and is on no list and not in the depth. */
  lemma RestartLetsAckedIdBack(env: Env, coa: Coa, yes: string, ids: Ids)
    requires Queueable(env, coa) && env.norm(yes) in YES_WORDS
    ensures var m := After(env, EMPTY, AckedRun(coa, yes, ids) + AgainRun(coa, yes, ids)).mem;
      && coa.id in m.inbox && m.inbox[coa.id].status == PENDING_ACK && m.inbox[coa.id].issuedAt == "6"
      && coa.id !in Listed(m, "unit") && Depth(m) == 0
  {
    var acked := After(env, EMPTY, AckedRun(coa, yes, ids));
    var run := AgainRun(coa, yes, ids);
    AckedRunAcks(env, coa, yes, ids);
    AckedRunIsMirrored(env, coa, yes, ids);
    AfterConcat(env, EMPTY, AckedRun(coa, yes, ids), run);
    ThreeSteps(env, acked, run[0], run[1], run[2]);
    assert run == [run[0], run[1], run[2]];
    var back := Next(env, acked, run[0]);
    ProposeQueues(env, back.mem, coa, "unit", "t", "5");
    var queued := Next(env, back, run[1]);
    ApprovalInto(env, queued.mem, coa.id, yes, ids, "6");
    assert Unacked(Next(env, queued, run[2]).mem) == {};
  }

  lemma {:induction false} AfterConcat(env: Env, sys: Sys, a: seq<Step>, b: seq<Step>)
    ensures After(env, sys, a + b) == After(env, After(env, sys, a), b)
  {
    if b == [] {
      assert a + b == a;
    } else {
      var n := |b| - 1;
      AfterConcat(env, sys, a, b[..n]);
      assert (a + b)[..|a + b| - 1] == a + b[..n];
    }
  }
}
