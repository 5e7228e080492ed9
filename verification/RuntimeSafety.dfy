/** Safety of tasking over every run of the gate, with any pattern of failed store
    writes: whatever sits in an inbox was checked, authorised and sealed. */
module RuntimeSafety {
  import opened Json
  import opened GateTypes
  import opened Interlock
  import opened LatencyGate
  import opened RuntimeModel

  predicate Queues(e: Event, id: string) {
    (e.CoaProposed? && e.coaId == id) || (e.GuardrailQueued? && e.fallback.id == id)
  }

  predicate Approves(e: Event, id: string, operator: Option<string>) {
    e.GateDecision? && e.coaId == id && e.verdict == APPROVED && operator == Some(e.operator)
  }

  ghost predicate WasQueued(trail: seq<Event>, id: string) {
    exists i :: 0 <= i < |trail| && Queues(trail[i], id)
  }

  /** Queued under `via`, then approved by the operator, then issued, in that order. */
  ghost predicate HumanIssued(trail: seq<Event>, id: string, unit: string, operator: Option<string>, via: string) {
    exists i, j, k :: 0 <= i < j < k < |trail| &&
      Queues(trail[i], via) && Approves(trail[j], via, operator) && trail[k] == TaskingIssued(id, unit)
  }

  ghost predicate AutoIssued(trail: seq<Event>, t: Tasking) {
    t.coa.tier == Tier0Autonomous && CoaAutoApproved(t.coa.id, t.token) in trail
  }

  /** Autonomous, approved under its own id, or the navy copy of an approved proposal. */
  ghost predicate Authorised(trail: seq<Event>, t: Tasking) {
    || AutoIssued(trail, t)
    || HumanIssued(trail, t.coa.id, t.unit, t.token.operator, t.coa.id)
    || (t.coa.pairedWith.Some? && HumanIssued(trail, t.coa.id, t.unit, t.token.operator, t.coa.pairedWith.value))
  }

  ghost predicate TaskingOk(env: Env, trail: seq<Event>, id: string, t: Tasking) {
    && t.coa.id == id
    && t.token.coaId == id
    && t.token.verdict == APPROVED
    && IsSealed(env.hash, t.token)
    && Safe(env.rules, t.coa)
    && Authorised(trail, t)
  }

  ghost predicate ProposalOk(env: Env, trail: seq<Event>, id: string, p: Pending) {
    p.coa.id == id && Safe(env.rules, p.coa) && WasQueued(trail, id)
  }

  ghost predicate TablesOk(env: Env, trail: seq<Event>, proposals: map<string, Pending>, inbox: map<string, Tasking>) {
    && (forall id :: id in proposals ==> ProposalOk(env, trail, id, proposals[id]))
    && (forall id :: id in inbox ==> TaskingOk(env, trail, id, inbox[id]))
  }

  ghost predicate WriteOk(env: Env, trail: seq<Event>, w: Write) {
    match w
    case PutProposal(id, p) => ProposalOk(env, trail, id, p)
    case PutInbox(id, t) => TaskingOk(env, trail, id, t)
    case _ => true
  }

  ghost predicate SysOk(env: Env, sys: Sys) {
    && TablesOk(env, sys.mem.trail, sys.mem.proposals, sys.mem.inbox)
    && TablesOk(env, sys.mem.trail, sys.db.proposals, sys.db.inbox)
  }

  // ---------------------------------------------------------------- a longer trail

  lemma QueuedStays(trail: seq<Event>, more: seq<Event>, id: string)
    requires WasQueued(trail, id)
    ensures WasQueued(trail + more, id)
  {
    var i :| 0 <= i < |trail| && Queues(trail[i], id);
    assert (trail + more)[i] == trail[i];
  }

  lemma HumanIssuedStays(trail: seq<Event>, more: seq<Event>, id: string, unit: string, operator: Option<string>,
                         via: string)
    requires HumanIssued(trail, id, unit, operator, via)
    ensures HumanIssued(trail + more, id, unit, operator, via)
  {
    var i, j, k :| 0 <= i < j < k < |trail| &&
      Queues(trail[i], via) && Approves(trail[j], via, operator) && trail[k] == TaskingIssued(id, unit);
    var t := trail + more;
    assert t[i] == trail[i] && t[j] == trail[j] && t[k] == trail[k];
  }

  lemma TaskingStaysOk(env: Env, trail: seq<Event>, more: seq<Event>, id: string, t: Tasking)
    requires TaskingOk(env, trail, id, t)
    ensures TaskingOk(env, trail + more, id, t)
  {
    if HumanIssued(trail, id, t.unit, t.token.operator, id) {
      HumanIssuedStays(trail, more, id, t.unit, t.token.operator, id);
    } else if !AutoIssued(trail, t) {
      HumanIssuedStays(trail, more, id, t.unit, t.token.operator, t.coa.pairedWith.value);
    }
  }

  lemma TablesStayOk(env: Env, trail: seq<Event>, more: seq<Event>, proposals: map<string, Pending>,
                     inbox: map<string, Tasking>)
    requires TablesOk(env, trail, proposals, inbox)
    ensures TablesOk(env, trail + more, proposals, inbox)
  {
    forall id | id in proposals
      ensures ProposalOk(env, trail + more, id, proposals[id])
    {
      QueuedStays(trail, more, id);
    }
    forall id | id in inbox
      ensures TaskingOk(env, trail + more, id, inbox[id])
    {
      TaskingStaysOk(env, trail, more, id, inbox[id]);
    }
  }

  // ---------------------------------------------------------------- the handlers

  /** What a handler must establish: its tables and every row it writes are in order,
      judged against the trail it leaves, which extends the trail it found. */
  ghost predicate OutcomeOk(env: Env, m: Mem, o: Outcome) {
    && m.trail <= o.mem.trail
    && TablesOk(env, o.mem.trail, o.mem.proposals, o.mem.inbox)
    && forall i :: 0 <= i < |o.writes| ==> WriteOk(env, o.mem.trail, o.writes[i])
  }

  lemma RejectFastOk(env: Env, m: Mem, coa: Coa, reason: Reason, tokenId: string, now: string)
    requires TablesOk(env, m.trail, m.proposals, m.inbox)
    ensures OutcomeOk(env, m, RejectFast(env, m, coa, reason, tokenId, now))
  {
    var o := RejectFast(env, m, coa, reason, tokenId, now);
    TablesStayOk(env, m.trail, [o.mem.trail[|m.trail|]], m.proposals, m.inbox);
  }

  lemma AutoApproveOk(env: Env, m: Mem, coa: Coa, unit: string, tokenId: string, now: string)
    requires TablesOk(env, m.trail, m.proposals, m.inbox)
    requires Safe(env.rules, coa) && coa.tier == Tier0Autonomous
    ensures OutcomeOk(env, m, AutoApprove(env, m, coa, unit, tokenId, now))
  {
    var o := AutoApprove(env, m, coa, unit, tokenId, now);
    var t := o.mem.inbox[coa.id];
    TablesStayOk(env, m.trail, [o.mem.trail[|m.trail|]], m.proposals, m.inbox);
    assert o.mem.trail[|m.trail|] == CoaAutoApproved(coa.id, t.token);
    assert TaskingOk(env, o.mem.trail, coa.id, t);
  }

  lemma EnqueueOk(env: Env, m: Mem, p: Pending, e: Event, r: Response)
    requires TablesOk(env, m.trail, m.proposals, m.inbox)
    requires Safe(env.rules, p.coa) && Queues(e, p.coa.id)
    ensures OutcomeOk(env, m, Enqueue(m, p, e, r))
  {
    var o := Enqueue(m, p, e, r);
    TablesStayOk(env, m.trail, [e], m.proposals, m.inbox);
    assert Queues(o.mem.trail[|m.trail|], p.coa.id);
  }

  lemma ProposeOk(env: Env, m: Mem, request: Request, unit: string, tokenId: string, now: string)
    requires TablesOk(env, m.trail, m.proposals, m.inbox)
    ensures OutcomeOk(env, m, Propose(env, m, request, unit, tokenId, now))
  {
    if request.Given? {
      var coa := ApplyDefaults(env.policy, request.coa);
      PassMeansSafe(env.rules, m.active, coa);
      match FullCheck(env.rules, m.active, coa)
      case Crash =>
      case Reject(reason) => RejectFastOk(env, m, coa, reason, tokenId, now);
      case Pass =>
        if coa.tier == Tier0Autonomous {
          AutoApproveOk(env, m, coa, unit, tokenId, now);
        } else {
          EnqueueOk(env, m, Pending(coa, unit, now, None), CoaProposed(coa.id, coa.intent, unit), Queued);
        }
    }
  }

  lemma GuardrailOk(env: Env, m: Mem, scenario: Option<Coa>, unit: string, navyUnit: string,
                    freshId: string, offshore: Option<Geofence.Point>, now: string)
    requires TablesOk(env, m.trail, m.proposals, m.inbox)
    ensures OutcomeOk(env, m, Guardrail(env, m, scenario, unit, navyUnit, freshId, offshore, now))
  {
    if scenario.Some? {
      var dangerous := DangerousDraft(ApplyDefaults(env.policy, scenario.value));
      var fallback := ApplyDefaults(env.policy, OptionB(dangerous, freshId, offshore));
      if FullCheck(env.rules, m.active, fallback) == Pass {
        PassMeansSafe(env.rules, m.active, fallback);
        EnqueueOk(env, m, Pending(fallback, unit, now, Some(navyUnit)),
                  GuardrailQueued(dangerous, fallback, unit, navyUnit), OptionBQueued);
      }
    }
  }

  ghost predicate ApprovedBefore(trail: seq<Event>, operator: Option<string>, via: string) {
    exists i, j :: 0 <= i < j < |trail| && Queues(trail[i], via) && Approves(trail[j], via, operator)
  }

  /** Deciding a queued proposal leaves a trail that shows queueing and approval in order. */
  lemma RecordOk(env: Env, m: Mem, id: string, token: Token, operator: string)
    requires TablesOk(env, m.trail, m.proposals, m.inbox) && id in m.proposals
    ensures var o := Decided(m, id, token, operator);
      && OutcomeOk(env, m, o)
      && (token.verdict == APPROVED ==> ApprovedBefore(o.mem.trail, Some(operator), id))
  {
    var o := Decided(m, id, token, operator);
    TablesStayOk(env, m.trail, [o.mem.trail[|m.trail|]], m.proposals, m.inbox);
    assert ProposalOk(env, m.trail, id, m.proposals[id]);
    var i :| 0 <= i < |m.trail| && Queues(m.trail[i], id);
    assert Queues(o.mem.trail[i], id);
    assert token.verdict == APPROVED ==> Approves(o.mem.trail[|m.trail|], id, Some(operator));
  }

  lemma IssueEvidence(trail: seq<Event>, id: string, unit: string, operator: Option<string>, via: string)
    requires ApprovedBefore(trail, operator, via)
    ensures HumanIssued(trail + [TaskingIssued(id, unit)], id, unit, operator, via)
    ensures ApprovedBefore(trail + [TaskingIssued(id, unit)], operator, via)
  {
    var i, j :| 0 <= i < j < |trail| && Queues(trail[i], via) && Approves(trail[j], via, operator);
    var t := trail + [TaskingIssued(id, unit)];
    assert Queues(t[i], via) && Approves(t[j], via, operator) && t[|trail|] == TaskingIssued(id, unit);
  }

  /** A sealed tasking for a checked proposal, with the evidence on the trail, is in order. */
  lemma IssuedOk(env: Env, trail: seq<Event>, coa: Coa, tokenId: string, unit: string, operator: string, now: string,
                 via: string)
    requires Safe(env.rules, coa)
    requires HumanIssued(trail, coa.id, unit, Some(operator), via)
    requires via == coa.id || Some(via) == coa.pairedWith
    ensures TaskingOk(env, trail, coa.id, Issued(env, coa, tokenId, unit, operator, now))
  {
  }

  lemma WritesStayOk(env: Env, trail: seq<Event>, more: seq<Event>, ws: seq<Write>)
    requires forall i :: 0 <= i < |ws| ==> WriteOk(env, trail, ws[i])
    ensures forall i :: 0 <= i < |ws| ==> WriteOk(env, trail + more, ws[i])
  {
    forall i | 0 <= i < |ws|
      ensures WriteOk(env, trail + more, ws[i])
    {
      WriteStaysOk(env, trail, more, ws[i]);
    }
  }

  /** Issuing a sealed tasking for an approved, checked proposal keeps all in order. */
  lemma IssueOk(env: Env, m: Mem, o: Outcome, coa: Coa, tokenId: string, unit: string, operator: string, now: string,
                via: string)
    requires OutcomeOk(env, m, o) && Safe(env.rules, coa)
    requires ApprovedBefore(o.mem.trail, Some(operator), via)
    requires via == coa.id || Some(via) == coa.pairedWith
    ensures var out := Issue(o, Issued(env, coa, tokenId, unit, operator, now));
      OutcomeOk(env, m, out) && ApprovedBefore(out.mem.trail, Some(operator), via)
  {
    var more := [TaskingIssued(coa.id, unit)];
    var trail := o.mem.trail + more;
    TablesStayOk(env, o.mem.trail, more, o.mem.proposals, o.mem.inbox);
    WritesStayOk(env, o.mem.trail, more, o.writes);
    IssueEvidence(o.mem.trail, coa.id, unit, Some(operator), via);
    IssuedOk(env, trail, coa, tokenId, unit, operator, now, via);
    var t := Issued(env, coa, tokenId, unit, operator, now);
    assert WriteOk(env, trail, PutInbox(coa.id, t));
  }

  lemma WriteStaysOk(env: Env, trail: seq<Event>, more: seq<Event>, w: Write)
    requires WriteOk(env, trail, w)
    ensures WriteOk(env, trail + more, w)
  {
    match w
    case PutProposal(id, p) => QueuedStays(trail, more, id);
    case PutInbox(id, t) => TaskingStaysOk(env, trail, more, id, t);
    case _ =>
  }

  lemma DecideOk(env: Env, m: Mem, id: string, decision: string, operator: string, ids: Ids, now: string)
    requires TablesOk(env, m.trail, m.proposals, m.inbox)
    ensures OutcomeOk(env, m, Decide(env, m, id, decision, operator, ids, now))
  {
    var word := env.norm(decision);
    if id in m.proposals && (word in YES_WORDS || word in NO_WORDS) {
      var p := m.proposals[id];
      assert ProposalOk(env, m.trail, id, p);
      var yes := word in YES_WORDS;
      var token := DecisionToken(env, ids.tokenId, p.coa.id, yes, operator, now);
      RecordOk(env, m, id, token, operator);
      if yes {
        var o := Decided(m, id, token, operator);
        IssueOk(env, m, o, p.coa, ids.tokenId, p.unit, operator, now, id);
        if NavyUnit(p).Some? {
          var copy := NavyCopy(p.coa, ids.navyCoaId);
          CopyIsSafe(env.rules, p.coa, copy);
          IssueOk(env, m, Issue(o, Issued(env, p.coa, ids.tokenId, p.unit, operator, now)),
                  copy, ids.navyTokenId, NavyUnit(p).value, operator, now, id);
        }
      }
    }
  }

  /** The interlock reads nothing that the navy copy changes. */
  lemma CopyIsSafe(rules: Rules, coa: Coa, copy: Coa)
    requires copy == coa.(id := copy.id, pairedWith := copy.pairedWith)
    ensures Safe(rules, copy) <==> Safe(rules, coa)
  {
    assert forall q :: DebrisReaches(rules, copy, q) <==> DebrisReaches(rules, coa, q);
  }

  lemma AckedTaskingOk(env: Env, trail: seq<Event>, id: string, before: Tasking, after: Tasking)
    requires TaskingOk(env, trail, id, before)
    requires after == before.(status := after.status, ack := after.ack)
    ensures TaskingOk(env, trail, id, after)
  {
    assert Authorised(trail, before) ==> Authorised(trail, after);
  }

  lemma InboxPutOk(env: Env, trail: seq<Event>, proposals: map<string, Pending>, inbox: map<string, Tasking>,
                   id: string, t: Tasking)
    requires TablesOk(env, trail, proposals, inbox) && TaskingOk(env, trail, id, t)
    ensures TablesOk(env, trail, proposals, inbox[id := t])
  {
  }

  lemma AcceptOk(env: Env, m: Mem, ack: Ack)
    requires TablesOk(env, m.trail, m.proposals, m.inbox) && ack.coaId in m.inbox
    ensures OutcomeOk(env, m, Accept(m, ack))
  {
    var trail, id := m.trail + [RecipientAck(ack)], ack.coaId;
    var updated := m.inbox[id].(status := ACKED, ack := Some(ack));
    TablesStayOk(env, m.trail, [RecipientAck(ack)], m.proposals, m.inbox);
    AckedTaskingOk(env, trail, id, m.inbox[id], updated);
    InboxPutOk(env, trail, m.proposals, m.inbox, id, updated);
    assert Accept(m, ack).writes == [AddAcked(id), PutInbox(id, updated)];
  }

  lemma AcknowledgeOk(env: Env, m: Mem, req: AckRequest, ackId: string, now: string)
    requires TablesOk(env, m.trail, m.proposals, m.inbox)
    ensures OutcomeOk(env, m, Acknowledge(env, m, req, ackId, now))
  {
    if req.coaId in m.inbox && m.inbox[req.coaId].unit == req.unit {
      AcceptOk(env, m, AckRecord(env, req, m.inbox[req.coaId].token.digest, ackId, now));
    }
  }

  lemma HandleOk(env: Env, m: Mem, a: Action, now: string)
    requires a != DoRestart
    requires TablesOk(env, m.trail, m.proposals, m.inbox)
    ensures OutcomeOk(env, m, Handle(env, m, a, now))
  {
    match a
    case DoPropose(request, unit, tokenId) => ProposeOk(env, m, request, unit, tokenId, now);
    case DoGuardrail(scenario, unit, navyUnit, freshId, offshore) =>
      GuardrailOk(env, m, scenario, unit, navyUnit, freshId, offshore, now);
    case DoDecide(id, decision, operator, ids) => DecideOk(env, m, id, decision, operator, ids, now);
    case DoAck(req, ackId) => AcknowledgeOk(env, m, req, ackId, now);
    case DoReset =>
  }

  // ---------------------------------------------------------------- whole runs

  /** The tables stay in order through any writes in order, whichever of them fail. */
  lemma {:induction false} WritesKeepTables(env: Env, trail: seq<Event>, db: Db, ws: seq<Write>, faults: set<nat>)
    requires TablesOk(env, trail, db.proposals, db.inbox)
    requires forall i :: 0 <= i < |ws| ==> WriteOk(env, trail, ws[i])
    ensures var out := ApplyWrites(db, ws, faults); TablesOk(env, trail, out.proposals, out.inbox)
  {
    if ws != [] {
      var n := |ws| - 1;
      WritesKeepTables(env, trail, db, ws[..n], faults);
      assert WriteOk(env, trail, ws[n]);
    }
  }

  lemma NextOk(env: Env, sys: Sys, s: Step)
    requires SysOk(env, sys)
    ensures SysOk(env, Next(env, sys, s))
    ensures sys.mem.trail <= Next(env, sys, s).mem.trail
  {
    if s.action != DoRestart {
      var o := Handle(env, sys.mem, s.action, s.now);
      HandleOk(env, sys.mem, s.action, s.now);
      var more := o.mem.trail[|sys.mem.trail|..];
      assert o.mem.trail == sys.mem.trail + more;
      TablesStayOk(env, sys.mem.trail, more, sys.db.proposals, sys.db.inbox);
      WritesKeepTables(env, o.mem.trail, sys.db, o.writes, s.faults);
    }
  }

  /** In every reachable state, of memory and of the store, every pending proposal
      passed the checks and was queued, and every tasking is in order. */
  lemma {:induction false} EveryRunIsSafe(env: Env, run: seq<Step>)
    ensures SysOk(env, After(env, EMPTY, run))
  {
    if run != [] {
      EveryRunIsSafe(env, run[..|run| - 1]);
      NextOk(env, After(env, EMPTY, run[..|run| - 1]), run[|run| - 1]);
    }
  }

  /** Option A of the guardrail is never queued: what it queues is soft kill, not a
      draft, and never a terminal intent. */
  lemma GuardrailQueuesSoftKill(env: Env, m: Mem, scenario: Option<Coa>, unit: string, navyUnit: string,
                                freshId: string, offshore: Option<Geofence.Point>, now: string)
    ensures var o := Guardrail(env, m, scenario, unit, navyUnit, freshId, offshore, now);
      o.response == OptionBQueued ==>
        && o.mem.proposals.Keys == m.proposals.Keys + {freshId}
        && !Dangerous(o.mem.proposals[freshId].coa)
        && (forall id :: id in m.proposals && id != freshId ==> o.mem.proposals[id] == m.proposals[id])
  {
  }
}
