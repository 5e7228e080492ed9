/** What each handler answers and does, said of the request itself: who is approved without
    being asked, what an operator's word does, and that an error changes nothing. */
module RuntimeAnswers {
  import opened Json
  import opened Geofence
  import opened GateTypes
  import opened Interlock
  import opened LatencyGate
  import opened RuntimeModel

  /** A request may go without a person: it claims autonomy, or its confidence, sources and
      harmless intent all reach the policy; never under dual key. */
  predicate Earned(policy: TierPolicy, c: Coa) {
    && c.tier != Tier2DualKey
    && (c.tier == Tier0Autonomous ||
        (c.confidence >= policy.autoApproveMin && c.sources >= policy.minSources &&
         (c.intent == "OBSERVE_ONLY" || c.intent == "STATION_KEEP")))
  }

  predicate Unclaimed(rules: Rules, active: set<string>, c: Coa) {
    c.id !in active && rules.pairKey(c.target, c.intent, c.at) !in active
  }

  /** The request as it is acted on: a positive timeout and the tier it earned. */
  function Resolved(policy: TierPolicy, c: Coa): Coa {
    c.(timeout := if c.timeout > 0.0 then c.timeout else policy.defaultTimeout,
       tier := if Earned(policy, c) then Tier0Autonomous
               else if c.tier == Tier2DualKey then Tier2DualKey else Tier1Hitl)
  }

  lemma DefaultsResolve(policy: TierPolicy, c: Coa)
    ensures ApplyDefaults(policy, c) == Resolved(policy, c)
  {
  }

  /** The checks read neither the tier nor the timeout. */
  lemma ChecksIgnoreTier(rules: Rules, active: set<string>, c: Coa, d: Coa)
    requires d == c.(tier := d.tier, timeout := d.timeout)
    ensures Safe(rules, d) <==> Safe(rules, c)
    ensures FullCheck(rules, active, d) == FullCheck(rules, active, c)
    ensures StaticCheck(rules, d) == StaticCheck(rules, c)
  {
    CniIgnoresTier(rules, c, d, rules.pois);
    PassMeansSafe(rules, active, c);
    PassMeansSafe(rules, active, d);
  }

  lemma {:induction false} CniIgnoresTier(rules: Rules, c: Coa, d: Coa, pois: seq<Poi>)
    requires d == c.(tier := d.tier, timeout := d.timeout)
    ensures CniCheck(rules, d, pois) == CniCheck(rules, c, pois)
  {
    if pois != [] {
      CniIgnoresTier(rules, c, d, pois[1..]);
    }
  }

  lemma CrashIsNoPass(rules: Rules, active: set<string>, c: Coa)
    ensures FullCheck(rules, active, c) == Pass <==> Safe(rules, c) && Unclaimed(rules, active, c)
    ensures FullCheck(rules, active, c) == Crash <==> StaticCheck(rules, c) == Crash
    ensures StaticCheck(rules, c) == Crash ==> !Safe(rules, c)
  {
    PassMeansSafe(rules, active, c);
  }

  /** The answer to every proposal: approved unasked exactly when safe, unclaimed and earned;
      queued for a person exactly when safe, unclaimed and not earned. */
  lemma ProposalAnswer(env: Env, m: Mem, c: Coa, unit: string, tokenId: string, now: string)
    ensures var r := Propose(env, m, Given(c), unit, tokenId, now).response;
      var passes := Safe(env.rules, c) && Unclaimed(env.rules, m.active, c);
      && (r == Approved <==> passes && Earned(env.policy, c))
      && (r == Queued <==> passes && !Earned(env.policy, c))
      && (r == HttpError(500) <==> StaticCheck(env.rules, c) == Crash)
      && (r.RejectedFast? <==> !passes && StaticCheck(env.rules, c) != Crash)
      && (r.RejectedFast? ==> FullCheck(env.rules, m.active, c) == Reject(r.reason))
  {
    DefaultsResolve(env.policy, c);
    ChecksIgnoreTier(env.rules, m.active, c, Resolved(env.policy, c));
    CrashIsNoPass(env.rules, m.active, c);
  }

  /** Without a proposal to check there is nothing to answer but an error. */
  lemma NoProposalAnswer(env: Env, m: Mem, unit: string, tokenId: string, now: string)
    ensures Propose(env, m, Missing, unit, tokenId, now) == Outcome(m, [], HttpError(400))
    ensures Propose(env, m, NoFinding, unit, tokenId, now) == Outcome(m, [], HttpError(404))
  {
  }

  /** A sealed token with these entries. */
  predicate SealedToken(env: Env, t: Token, tokenId: string, coaId: string, verdict: GateVerdict, now: string,
                        operator: Option<string>, reason: string)
  {
    && t.digest == env.hash(t.(digest := ""))
    && t.tokenId == tokenId && t.coaId == coaId && t.verdict == verdict && t.issuedAt == now
    && t.operator == operator && t.reason == Some(reason)
  }

  /** And everything it does. */
  lemma ProposalEffect(env: Env, m: Mem, c: Coa, unit: string, tokenId: string, now: string)
    ensures var o, full := Propose(env, m, Given(c), unit, tokenId, now), Resolved(env.policy, c);
      && o.mem.acked == m.acked
      && (o.response == Approved ==>
            && c.id in o.mem.inbox
            && var t := o.mem.inbox[c.id];
            && t == Tasking(full, t.token, unit, now, PENDING_ACK, None)
            && SealedToken(env, t.token, tokenId, c.id, APPROVED, now, Some("autonomous"), "tier0_auto")
            && o.mem == m.(inbox := m.inbox[c.id := t],
                           active := m.active + {c.id, env.rules.pairKey(c.target, c.intent, c.at)},
                           trail := m.trail + [CoaAutoApproved(c.id, t.token)])
            && o.writes == [PutInbox(c.id, t)])
      && (o.response == Queued ==>
            && o.mem == m.(proposals := m.proposals[c.id := Pending(full, unit, now, None)],
                           trail := m.trail + [CoaProposed(c.id, c.intent, unit)])
            && o.writes == [PutProposal(c.id, Pending(full, unit, now, None))])
      && (o.response.RejectedFast? ==>
            && |o.mem.trail| == |m.trail| + 1
            && var e := o.mem.trail[|m.trail|];
            && e.CoaRejectedFast? && e.coa == full
            && SealedToken(env, e.token, tokenId, c.id, REJECTED_FAST, now, None, env.explain(o.response.reason))
            && o.mem == m.(trail := m.trail + [e]) && o.writes == [])
  {
    DefaultsResolve(env.policy, c);
  }

  // ---------------------------------------------------------------- guardrail

  /** Option B, said of the scenario's own proposal. */
  function Fallback(policy: TierPolicy, scenario: Coa, freshId: string, offshore: Option<Point>): Coa {
    var s := Resolved(policy, scenario);
    Resolved(policy, s.(id := freshId, intent := "OFFSHORE_INTERCEPT_RF_SOFTKILL", speedKt := None, draft := false,
                        at := if offshore == None then scenario.at else offshore.value,
                        fallbackOf := Some(scenario.id)))
  }

  lemma DraftCrashesAlike(rules: Rules, c: Coa, d: Coa)
    requires d.at == c.at && d.speedKt == c.speedKt
    ensures StaticCheck(rules, d) == Crash <==> StaticCheck(rules, c) == Crash
  {
    CniNeverCrashes(rules, c, rules.pois);
    CniNeverCrashes(rules, d, rules.pois);
  }

  lemma {:induction false} CniNeverCrashes(rules: Rules, c: Coa, pois: seq<Poi>)
    ensures CniCheck(rules, c, pois) != Crash
  {
    if pois != [] {
      CniNeverCrashes(rules, c, pois[1..]);
    }
  }

  lemma GuardrailAnswer(env: Env, m: Mem, scenario: Option<Coa>, unit: string, navyUnit: string,
                        freshId: string, offshore: Option<Point>, now: string)
    ensures var o := Guardrail(env, m, scenario, unit, navyUnit, freshId, offshore, now);
      if scenario == None then o == Outcome(m, [], HttpError(404))
      else
        var b := Fallback(env.policy, scenario.value, freshId, offshore);
        if StaticCheck(env.rules, scenario.value) != Crash && Safe(env.rules, b) && Unclaimed(env.rules, m.active, b)
        then
          && o.response == OptionBQueued
          && |o.mem.trail| == |m.trail| + 1
          && var e := o.mem.trail[|m.trail|];
          && e.GuardrailQueued? && e.fallback == b && e.unit == unit && e.navyUnit == navyUnit
          && e.dangerous.id == scenario.value.id && e.dangerous.draft
          && (e.dangerous.intent == "TERMINAL_SAM_INTERCEPT" || e.dangerous.intent == "OVERHEAD_KINETIC_INTERCEPT")
          && o.mem == m.(proposals := m.proposals[freshId := Pending(b, unit, now, Some(navyUnit))],
                         trail := m.trail + [e])
          && o.writes == [PutProposal(freshId, Pending(b, unit, now, Some(navyUnit)))]
        else o == Outcome(m, [], HttpError(500))
  {
    if scenario.Some? {
      DefaultsResolve(env.policy, scenario.value);
      var dangerous := DangerousDraft(ApplyDefaults(env.policy, scenario.value));
      DraftCrashesAlike(env.rules, scenario.value, dangerous);
      CrashIsNoPass(env.rules, m.active, dangerous);
      var b := OptionB(dangerous, freshId, offshore);
      DefaultsResolve(env.policy, b);
      assert Resolved(env.policy, b) == Fallback(env.policy, scenario.value, freshId, offshore);
      CrashIsNoPass(env.rules, m.active, Resolved(env.policy, b));
    }
  }

  // ---------------------------------------------------------------- decisions

  predicate SaysYes(word: string) {
    word == "y" || word == "yes" || word == "approve" || word == "approved"
  }

  predicate SaysNo(word: string) {
    word == "n" || word == "no" || word == "deny" || word == "denied" || word == "reject" || word == "rejected"
  }

  /** Every decision's answer, and nothing but a yes or a no moves the proposal. */
  lemma DecisionAnswer(env: Env, m: Mem, id: string, decision: string, operator: string, ids: Ids, now: string)
    ensures var o, word := Decide(env, m, id, decision, operator, ids, now), env.norm(decision);
      && (o.response == Approved <==> id in m.proposals && SaysYes(word))
      && (o.response == Denied <==> id in m.proposals && SaysNo(word))
      && (o.response == HttpError(404) <==> id !in m.proposals)
      && (o.response == HttpError(400) <==> id in m.proposals && !SaysYes(word) && !SaysNo(word))
  {
  }

  /** A denial takes the proposal out and records one sealed rejection. */
  lemma DenialEffect(env: Env, m: Mem, id: string, decision: string, operator: string, ids: Ids, now: string)
    requires Decide(env, m, id, decision, operator, ids, now).response == Denied
    ensures var o := Decide(env, m, id, decision, operator, ids, now);
      && id in m.proposals && |o.mem.trail| == |m.trail| + 1
      && var e, coaId := o.mem.trail[|m.trail|], m.proposals[id].coa.id;
      && e == GateDecision(coaId, REJECTED_OPERATOR, e.token, operator)
      && SealedToken(env, e.token, ids.tokenId, coaId, REJECTED_OPERATOR, now, Some(operator), "operator_deny")
      && o.mem == m.(proposals := m.proposals - {id}, trail := m.trail + [e])
      && o.writes == [DropProposal(id)]
  {
  }

  /** The tasking an approval issues: the queued course of action or its copy, waiting for an
      ack, under a sealed approval of its own id. */
  predicate IssuedBy(env: Env, t: Tasking, coa: Coa, tokenId: string, unit: string, operator: string, now: string) {
    && t == Tasking(coa, t.token, unit, now, PENDING_ACK, None)
    && SealedToken(env, t.token, tokenId, coa.id, APPROVED, now, Some(operator), "operator_approve")
  }

  /** An approval takes the proposal out, records the decision, issues to its unit and to a
      distinct navy unit, and registers both keys. */
  lemma ApprovalEffect(env: Env, m: Mem, id: string, decision: string, operator: string, ids: Ids, now: string)
    requires Decide(env, m, id, decision, operator, ids, now).response == Approved
    ensures id in m.proposals
    ensures var o, p := Decide(env, m, id, decision, operator, ids, now), m.proposals[id];
      && |o.mem.trail| > |m.trail| && |o.writes| >= 2 && o.writes[1].PutInbox?
      && var e, t := o.mem.trail[|m.trail|], o.writes[1].tasking;
      && e == GateDecision(p.coa.id, APPROVED, t.token, operator)
      && IssuedBy(env, t, p.coa, ids.tokenId, p.unit, operator, now)
      && o.mem.proposals == m.proposals - {id} && o.mem.acked == m.acked
      && o.mem.active == m.active + {p.coa.id, env.rules.pairKey(p.coa.target, p.coa.intent, p.coa.at)}
      && if p.navy == None || p.navy == Some("") || p.navy == Some(p.unit) then
           && o.mem.inbox == m.inbox[p.coa.id := t]
           && o.mem.trail == m.trail + [e, TaskingIssued(p.coa.id, p.unit)]
           && o.writes == [DropProposal(id), PutInbox(p.coa.id, t)]
         else
           && |o.writes| == 3 && o.writes[2].PutInbox?
           && var n, copy := o.writes[2].tasking, p.coa.(id := ids.navyCoaId, pairedWith := Some(p.coa.id));
           && IssuedBy(env, n, copy, ids.navyTokenId, p.navy.value, operator, now)
           && o.mem.inbox == m.inbox[p.coa.id := t][copy.id := n]
           && o.mem.trail == m.trail + [e, TaskingIssued(p.coa.id, p.unit), TaskingIssued(copy.id, p.navy.value)]
           && o.writes == [DropProposal(id), PutInbox(p.coa.id, t), PutInbox(copy.id, n)]
  {
  }

  // ---------------------------------------------------------------- acks

  /** The answer to every ack, and everything it does. */
  lemma AckAnswer(env: Env, m: Mem, req: AckRequest, ackId: string, now: string)
    ensures var o := Acknowledge(env, m, req, ackId, now);
      if req.coaId !in m.inbox then o == Outcome(m, [], HttpError(404))
      else if m.inbox[req.coaId].unit != req.unit then o == Outcome(m, [], HttpError(403))
      else
        && o.response == Acknowledged
        && req.coaId in o.mem.inbox && o.mem.inbox[req.coaId].ack.Some?
        && var t, ack := m.inbox[req.coaId], o.mem.inbox[req.coaId].ack.value;
        && ack.ackId == ackId && ack.coaId == req.coaId && ack.unit == req.unit
        && ack.status == req.status && ack.message == req.message && ack.ackedAt == now
        && ack.tokenDigest == t.token.digest
        && ack.signature == (if req.signature == None || req.signature == Some("")
                             then env.ackHash(req.coaId, req.unit, req.status, now) else req.signature.value)
        && var after := t.(status := ACKED, ack := Some(ack));
        && o.mem == m.(inbox := m.inbox[req.coaId := after], acked := m.acked + {req.coaId},
                       trail := m.trail + [RecipientAck(ack)])
        && o.writes == [AddAcked(req.coaId), PutInbox(req.coaId, after)]
  {
  }

  // ---------------------------------------------------------------- errors

  /** An error answer of any handler leaves memory as it was and writes nothing. */
  lemma ErrorsChangeNothing(env: Env, m: Mem, a: Action, now: string)
    requires a != DoRestart && Handle(env, m, a, now).response.HttpError?
    ensures Handle(env, m, a, now) == Outcome(m, [], Handle(env, m, a, now).response)
  {
    match a
    case DoPropose(request, unit, tokenId) =>
    case DoGuardrail(scenario, unit, navyUnit, freshId, offshore) =>
      GuardrailAnswer(env, m, scenario, unit, navyUnit, freshId, offshore, now);
    case DoDecide(id, decision, operator, ids) =>
    case DoAck(req, ackId) =>
    case DoReset =>
  }

  // ---------------------------------------------------------------- runs

  /** The step asks for this course of action, and it is safe, unclaimed and earned. */
  predicate EarnedBy(env: Env, m: Mem, s: Step, coaId: string) {
    && s.action.DoPropose? && s.action.request.Given?
    && var c := s.action.request.coa;
    && c.id == coaId && Safe(env.rules, c) && Unclaimed(env.rules, m.active, c) && Earned(env.policy, c)
  }

  predicate AutoApproves(e: Event) {
    e.CoaAutoApproved?
  }

  /** What a handler adds to the trail. */
  lemma TrailGrows(env: Env, m: Mem, a: Action, now: string)
    requires a != DoRestart
    ensures m.trail <= Handle(env, m, a, now).mem.trail
    ensures !a.DoPropose? ==> forall i :: |m.trail| <= i < |Handle(env, m, a, now).mem.trail| ==>
      !AutoApproves(Handle(env, m, a, now).mem.trail[i])
  {
  }

  lemma NewAutoApproval(env: Env, m: Mem, s: Step, i: nat)
    requires s.action != DoRestart
    requires |m.trail| <= i < |Handle(env, m, s.action, s.now).mem.trail|
    requires AutoApproves(Handle(env, m, s.action, s.now).mem.trail[i])
    ensures EarnedBy(env, m, s, Handle(env, m, s.action, s.now).mem.trail[i].coaId)
  {
    TrailGrows(env, m, s.action, s.now);
    var a := s.action;
    if a.request.Given? {
      ProposalAnswer(env, m, a.request.coa, a.unit, a.tokenId, s.now);
      ProposalEffect(env, m, a.request.coa, a.unit, a.tokenId, s.now);
    }
  }

  /** Over every run each unasked approval on the trail is some step's proposal that was safe,
      unclaimed and earned at that step. */
  lemma {:induction false} AutoApprovalsAreEarned(env: Env, run: seq<Step>, i: nat) returns (k: nat)
    requires i < |After(env, EMPTY, run).mem.trail| && AutoApproves(After(env, EMPTY, run).mem.trail[i])
    ensures k < |run|
    ensures EarnedBy(env, After(env, EMPTY, run[..k]).mem, run[k], After(env, EMPTY, run).mem.trail[i].coaId)
  {
    var front, last := run[..|run| - 1], run[|run| - 1];
    var m := After(env, EMPTY, front).mem;
    if last.action != DoRestart {
      TrailGrows(env, m, last.action, last.now);
    }
    if i < |m.trail| {
      k := AutoApprovalsAreEarned(env, front, i);
      assert front[..k] == run[..k];
    } else {
      NewAutoApproval(env, m, last, i);
      k := |run| - 1;
    }
  }
}
