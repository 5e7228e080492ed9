/** The picture-to-tasking gate of `app/c2_server.py` as a transition system: the
    in-memory tables, the SQLite mirror and one atomic step per REST handler. */
module RuntimeModel {
  import opened Json
  import opened Geofence
  import opened GateTypes
  import opened Interlock
  import opened LatencyGate

  /** Fixed for a run: rules (zones, speed limit, points of interest), tier policy, the
      token hash, the text of a rejection and of an ack signature, strip-and-lowercase. */
  datatype Env = Env(
    rules: Rules,
    policy: TierPolicy,
    hash: TokenHash,
    explain: Reason -> string,
    ackHash: (string, string, string, string) -> string,
    norm: string -> string)

  datatype Pending = Pending(coa: Coa, unit: string, queuedAt: string, navy: Option<string>)

  datatype Ack = Ack(
    ackId: string,
    coaId: string,
    unit: string,
    status: string,
    message: string,
    signature: string,
    tokenDigest: string,
    ackedAt: string)

  datatype TaskStatus = PENDING_ACK | ACKED

  datatype Tasking = Tasking(
    coa: Coa,
    token: Token,
    unit: string,
    issuedAt: string,
    status: TaskStatus,
    ack: Option<Ack>)

  /** Audit records the handlers append, with the data the claims are about. */
  datatype Event =
    | CoaRejectedFast(coa: Coa, token: Token)
    | CoaAutoApproved(coaId: string, token: Token)
    | CoaProposed(coaId: string, intent: string, unit: string)
    | GuardrailQueued(dangerous: Coa, fallback: Coa, unit: string, navyUnit: string)
    | GateDecision(coaId: string, verdict: GateVerdict, token: Token, operator: string)
    | TaskingIssued(coaId: string, unit: string)
    | RecipientAck(ack: Ack)

  datatype Mem = Mem(
    proposals: map<string, Pending>,
    inbox: map<string, Tasking>,
    acked: set<string>,
    active: set<string>,
    trail: seq<Event>)

  datatype Db = Db(proposals: map<string, Pending>, inbox: map<string, Tasking>, acked: set<string>)

  datatype Sys = Sys(mem: Mem, db: Db)

  const EMPTY := Sys(Mem(map[], map[], {}, {}, []), Db(map[], map[], {}))

  // ---------------------------------------------------------------- the store

  datatype Write =
    | PutProposal(id: string, pending: Pending)
    | DropProposal(id: string)
    | PutInbox(id: string, tasking: Tasking)
    | AddAcked(id: string)
    | Clear

  /** What a proposal row holds: an empty navy unit is not stored. */
  function Stored(p: Pending): Pending {
    if p.navy == Some("") then p.(navy := None) else p
  }

  function ApplyWrite(db: Db, w: Write): Db {
    match w
    case PutProposal(id, p) => db.(proposals := db.proposals[id := Stored(p)])
    case DropProposal(id) => db.(proposals := db.proposals - {id})
    case PutInbox(id, t) => db.(inbox := db.inbox[id := t])
    case AddAcked(id) => db.(acked := db.acked + {id})
    case Clear => Db(map[], map[], {})
  }

  /** The tables after a handler's writes; the writes numbered in `faults` failed. */
  function ApplyWrites(db: Db, ws: seq<Write>, faults: set<nat>): Db {
    if ws == [] then db
    else
      var before := ApplyWrites(db, ws[..|ws| - 1], faults);
      if |ws| - 1 in faults then before else ApplyWrite(before, ws[|ws| - 1])
  }

  lemma WriteOneMore(db: Db, ws: seq<Write>, w: Write, faults: set<nat>)
    ensures var d := ApplyWrites(db, ws, faults);
      ApplyWrites(db, ws + [w], faults) == if |ws| in faults then d else ApplyWrite(d, w)
  {
    assert (ws + [w])[..|ws|] == ws;
  }

  // ---------------------------------------------------------------- the handlers

  datatype Response =
    | Queued
    | Approved
    | Denied
    | RejectedFast(reason: Reason)
    | OptionBQueued
    | Acknowledged
    | ResetDone
    | HttpError(code: nat)

  datatype Outcome = Outcome(mem: Mem, writes: seq<Write>, response: Response)

  function Fail(m: Mem, code: nat): Outcome {
    Outcome(m, [], HttpError(code))
  }

  /** What a proposal request yields: neither scenario nor proposal, a scenario without
      a finding, or a proposal (raw, built from a scenario or interpreted). */
  datatype Request = Missing | NoFinding | Given(coa: Coa)

  function RejectFast(env: Env, m: Mem, coa: Coa, reason: Reason, tokenId: string, now: string): Outcome {
    var token := Seal(env.hash, Token(tokenId, coa.id, REJECTED_FAST, now, None, Some(env.explain(reason)), ""));
    Outcome(m.(trail := m.trail + [CoaRejectedFast(coa, token)]), [], RejectedFast(reason))
  }

  function AutoApprove(env: Env, m: Mem, coa: Coa, unit: string, tokenId: string, now: string): Outcome {
    var token := Seal(env.hash, Token(tokenId, coa.id, APPROVED, now, Some("autonomous"), Some("tier0_auto"), ""));
    var tasking := Tasking(coa, token, unit, now, PENDING_ACK, None);
    Outcome(
      m.(inbox := m.inbox[coa.id := tasking],
         active := m.active + {coa.id, PairKey(env.rules, coa)},
         trail := m.trail + [CoaAutoApproved(coa.id, token)]),
      [PutInbox(coa.id, tasking)],
      Approved)
  }

  function Enqueue(m: Mem, pending: Pending, e: Event, response: Response): Outcome {
    Outcome(
      m.(proposals := m.proposals[pending.coa.id := pending], trail := m.trail + [e]),
      [PutProposal(pending.coa.id, pending)],
      response)
  }

  /** `gate_proposals` */
  function Propose(env: Env, m: Mem, request: Request, unit: string, tokenId: string, now: string): Outcome {
    if request.Missing? then Fail(m, 400)
    else if request.NoFinding? then Fail(m, 404)
    else
      var coa := ApplyDefaults(env.policy, request.coa);
      match FullCheck(env.rules, m.active, coa)
      case Crash => Fail(m, 500)
      case Reject(reason) => RejectFast(env, m, coa, reason, tokenId, now)
      case Pass =>
        if coa.tier == Tier0Autonomous then AutoApprove(env, m, coa, unit, tokenId, now)
        else Enqueue(m, Pending(coa, unit, now, None), CoaProposed(coa.id, coa.intent, unit), Queued)
  }

  /** Option A of the guardrail demo: always a terminal-fire draft. */
  function DangerousDraft(coa: Coa): Coa {
    coa.(draft := true, intent := if coa.intent in TERMINAL_INTENTS then coa.intent else "TERMINAL_SAM_INTERCEPT")
  }

  /** Option B: offshore intercept with soft kill, at the offshore point when there is one. */
  function OptionB(dangerous: Coa, freshId: string, offshore: Option<Point>): Coa {
    dangerous.(
      id := freshId,
      intent := "OFFSHORE_INTERCEPT_RF_SOFTKILL",
      at := if offshore.Some? then offshore.value else dangerous.at,
      speedKt := None,
      draft := false,
      fallbackOf := Some(dangerous.id))
  }

  function QueueOptionB(env: Env, m: Mem, dangerous: Coa, unit: string, navyUnit: string,
                        freshId: string, offshore: Option<Point>, now: string): Outcome
  {
    var fallback := ApplyDefaults(env.policy, OptionB(dangerous, freshId, offshore));
    if FullCheck(env.rules, m.active, fallback) != Pass then Fail(m, 500)
    else
      Enqueue(m, Pending(fallback, unit, now, Some(navyUnit)),
              GuardrailQueued(dangerous, fallback, unit, navyUnit), OptionBQueued)
  }

  /** `gate_demo_evaluate_with_guardrail` */
  function Guardrail(env: Env, m: Mem, scenario: Option<Coa>, unit: string, navyUnit: string,
                     freshId: string, offshore: Option<Point>, now: string): Outcome
  {
    if scenario.None? then Fail(m, 404)
    else
      var dangerous := DangerousDraft(ApplyDefaults(env.policy, scenario.value));
      if FullCheck(env.rules, m.active, dangerous) == Crash then Fail(m, 500)
      else QueueOptionB(env, m, dangerous, unit, navyUnit, freshId, offshore, now)
  }

  /** The unit that gets the paired tasking, if any. */
  function NavyUnit(p: Pending): Option<string> {
    if p.navy.Some? && p.navy.value != "" && p.navy.value != p.unit then p.navy else None
  }

  /** Identifiers a decision draws: two token ids and the navy copy's proposal id. */
  datatype Ids = Ids(tokenId: string, navyTokenId: string, navyCoaId: string)

  function DecisionToken(env: Env, tokenId: string, coaId: string, yes: bool, operator: string, now: string): Token {
    Seal(env.hash, Token(tokenId, coaId, if yes then APPROVED else REJECTED_OPERATOR, now, Some(operator),
                         Some(if yes then "operator_approve" else "operator_deny"), ""))
  }

  /** The tasking an approval issues for a proposal, under its own sealed token. */
  function Issued(env: Env, coa: Coa, tokenId: string, unit: string, operator: string, now: string): Tasking {
    Tasking(coa, DecisionToken(env, tokenId, coa.id, true, operator, now), unit, now, PENDING_ACK, None)
  }

  function NavyCopy(coa: Coa, id: string): Coa {
    coa.(id := id, pairedWith := Some(coa.id))
  }

  /** One round of the issuing loop: inbox row, its write, its audit record. */
  function Issue(o: Outcome, t: Tasking): Outcome {
    Outcome(
      o.mem.(inbox := o.mem.inbox[t.coa.id := t], trail := o.mem.trail + [TaskingIssued(t.coa.id, t.unit)]),
      o.writes + [PutInbox(t.coa.id, t)],
      o.response)
  }

  function Register(env: Env, o: Outcome, coa: Coa): Outcome {
    o.(mem := o.mem.(active := o.mem.active + {coa.id, PairKey(env.rules, coa)}))
  }

  /** The part of a decision before anything is issued. */
  function Decided(m: Mem, id: string, token: Token, operator: string): Outcome
    requires id in m.proposals
  {
    Outcome(
      m.(proposals := m.proposals - {id},
         trail := m.trail + [GateDecision(m.proposals[id].coa.id, token.verdict, token, operator)]),
      [DropProposal(id)],
      if token.verdict == APPROVED then Approved else Denied)
  }

  /** Both rounds of issuing: the queued unit, then the navy unit when there is one. */
  function IssueAll(env: Env, o: Outcome, p: Pending, operator: string, ids: Ids, now: string): Outcome {
    var first := Issue(o, Issued(env, p.coa, ids.tokenId, p.unit, operator, now));
    match NavyUnit(p)
    case None => first
    case Some(navy) => Issue(first, Issued(env, NavyCopy(p.coa, ids.navyCoaId), ids.navyTokenId, navy, operator, now))
  }

  /** `gate_approve` */
  function Decide(env: Env, m: Mem, id: string, decision: string, operator: string, ids: Ids, now: string): Outcome {
    if id !in m.proposals then Fail(m, 404)
    else
      var p := m.proposals[id];
      var word := env.norm(decision);
      if word in YES_WORDS then
        var decided := Decided(m, id, DecisionToken(env, ids.tokenId, p.coa.id, true, operator, now), operator);
        Register(env, IssueAll(env, decided, p, operator, ids, now), p.coa)
      else if word in NO_WORDS then
        Decided(m, id, DecisionToken(env, ids.tokenId, p.coa.id, false, operator, now), operator)
      else Fail(m, 400)
  }

  datatype AckRequest = AckRequest(
    coaId: string,
    unit: string,
    signature: Option<string>,
    status: string,
    message: string)

  function AckRecord(env: Env, req: AckRequest, tokenDigest: string, ackId: string, now: string): Ack {
    var signature :=
      if req.signature.Some? && req.signature.value != "" then req.signature.value
      else env.ackHash(req.coaId, req.unit, req.status, now);
    Ack(ackId, req.coaId, req.unit, req.status, req.message, signature, tokenDigest, now)
  }

  function Accept(m: Mem, ack: Ack): Outcome
    requires ack.coaId in m.inbox
  {
    var updated := m.inbox[ack.coaId].(status := ACKED, ack := Some(ack));
    Outcome(
      m.(inbox := m.inbox[ack.coaId := updated], acked := m.acked + {ack.coaId},
         trail := m.trail + [RecipientAck(ack)]),
      [AddAcked(ack.coaId), PutInbox(ack.coaId, updated)],
      Acknowledged)
  }

  /** `recipient_ack` */
  function Acknowledge(env: Env, m: Mem, req: AckRequest, ackId: string, now: string): Outcome {
    if req.coaId !in m.inbox then Fail(m, 404)
    else
      var tasking := m.inbox[req.coaId];
      if tasking.unit != req.unit then Fail(m, 403)
      else Accept(m, AckRecord(env, req, tasking.token.digest, ackId, now))
  }

  /** `C2Runtime.reset`: everything but the audit trail. */
  function ResetAll(m: Mem): Outcome {
    Outcome(Mem(map[], map[], {}, {}, m.trail), [Clear], ResetDone)
  }

  /** `_hydrate_from_store` in a new process: active keys start empty. */
  function Hydrate(db: Db, trail: seq<Event>): Mem {
    Mem(db.proposals, db.inbox, db.acked, {}, trail)
  }

  // ---------------------------------------------------------------- views

  /** `inbox_depth` of `ontology_state` */
  function Depth(m: Mem): nat {
    |set k | k in m.inbox && k !in m.acked|
  }

  /** Inbox keys `recipient_inbox` lists for a unit; it filters on the tasking's own id. */
  function Listed(m: Mem, unit: string): set<string> {
    set k | k in m.inbox && m.inbox[k].unit == unit && m.inbox[k].coa.id !in m.acked
  }

  // ---------------------------------------------------------------- runs

  datatype Action =
    | DoPropose(request: Request, unit: string, tokenId: string)
    | DoGuardrail(scenario: Option<Coa>, unit: string, navyUnit: string, freshId: string, offshore: Option<Point>)
    | DoDecide(id: string, decision: string, operator: string, ids: Ids)
    | DoAck(req: AckRequest, ackId: string)
    | DoReset
    | DoRestart

  /** One step of a run: the action, the clock and the store accesses that fail - of a
      handler its writes by number, of a restart the read, as number 0. */
  datatype Step = Step(action: Action, now: string, faults: set<nat>)

  function Handle(env: Env, m: Mem, a: Action, now: string): Outcome
    requires a != DoRestart
  {
    match a
    case DoPropose(request, unit, tokenId) => Propose(env, m, request, unit, tokenId, now)
    case DoGuardrail(scenario, unit, navyUnit, freshId, offshore) =>
      Guardrail(env, m, scenario, unit, navyUnit, freshId, offshore, now)
    case DoDecide(id, decision, operator, ids) => Decide(env, m, id, decision, operator, ids, now)
    case DoAck(req, ackId) => Acknowledge(env, m, req, ackId, now)
    case DoReset => ResetAll(m)
  }

  function Next(env: Env, sys: Sys, s: Step): Sys {
    if s.action == DoRestart then sys.(mem := Hydrate(if 0 in s.faults then EMPTY.db else sys.db, sys.mem.trail))
    else
      var o := Handle(env, sys.mem, s.action, s.now);
      Sys(o.mem, ApplyWrites(sys.db, o.writes, s.faults))
  }

  function After(env: Env, sys: Sys, run: seq<Step>): Sys {
    if run == [] then sys else Next(env, After(env, sys, run[..|run| - 1]), run[|run| - 1])
  }

  lemma AfterOneMore(env: Env, sys: Sys, run: seq<Step>, s: Step)
    ensures After(env, sys, run + [s]) == Next(env, After(env, sys, run), s)
  {
    assert (run + [s])[..|run|] == run;
  }

  lemma ThreeSteps(env: Env, sys: Sys, a: Step, b: Step, c: Step)
    ensures After(env, sys, [a, b, c]) == Next(env, Next(env, Next(env, sys, a), b), c)
  {
    AfterOneMore(env, sys, [], a);
    AfterOneMore(env, sys, [a], b);
    AfterOneMore(env, sys, [a, b], c);
    assert [] + [a] == [a] && [a] + [b] == [a, b] && [a, b] + [c] == [a, b, c];
  }

  predicate Faultless(run: seq<Step>) {
    forall i :: 0 <= i < |run| ==> run[i].faults == {}
  }
}
