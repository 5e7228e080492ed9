/** `C2Runtime` and its REST handlers, written as the server writes them - tables,
    store, audit log and active keys updated one after another - and proved to take
    exactly the steps of the transition system. */
module C2 {
  import opened Json
  import opened Geofence
  import opened GateTypes
  import opened Interlock
  import opened LatencyGate
  import opened RuntimeModel
  import opened Store
  import opened AuditChain
  import opened ChainTheorems
  import opened AuditLog
  import opened EdsSidecar
  import opened Tamper

  function EventName(e: Event): string {
    match e
    case CoaRejectedFast(_, _) => "coa_rejected_fast"
    case CoaAutoApproved(_, _) => "coa_auto_approved"
    case CoaProposed(_, _, _) => "coa_proposed"
    case GuardrailQueued(_, _, _, _) => "guardrail_veto_option_b_queued"
    case GateDecision(_, _, _, _) => "gate_decision"
    case TaskingIssued(_, _) => "tasking_issued"
    case RecipientAck(_) => "recipient_ack"
  }

  function EventSeverity(e: Event): string {
    if e.CoaProposed? then "Medium" else "High"
  }

  /** What an event's record is called, and how grave it is. */
  lemma EventsAreNamed(e: Event)
    ensures EventName(e) == "coa_rejected_fast" <==> e.CoaRejectedFast?
    ensures EventName(e) == "coa_auto_approved" <==> e.CoaAutoApproved?
    ensures EventName(e) == "coa_proposed" <==> e.CoaProposed?
    ensures EventName(e) == "guardrail_veto_option_b_queued" <==> e.GuardrailQueued?
    ensures EventName(e) == "gate_decision" <==> e.GateDecision?
    ensures EventName(e) == "tasking_issued" <==> e.TaskingIssued?
    ensures EventName(e) == "recipient_ack" <==> e.RecipientAck?
    ensures EventSeverity(e) == (if EventName(e) == "coa_proposed" then "Medium" else "High")
  {
  }

  /** The dump of an event's data to JSON is a library's; any function will do. */
  type Wire = Event -> Dict

  /** The jsonl file after these events were appended one by one. */
  function SealAll(codec: Codec, wire: Wire, disk: seq<Record>, events: seq<Event>, now: string): seq<Record> {
    if events == [] then disk
    else
      var n := |events| - 1;
      var d := SealAll(codec, wire, disk, events[..n], now);
      d + [SealedRecord(codec, HeadOf(codec, d), EventName(events[n]), EventSeverity(events[n]), now, wire(events[n]))]
  }

  lemma SealOneMore(codec: Codec, wire: Wire, disk: seq<Record>, events: seq<Event>, e: Event, now: string)
    ensures var d := SealAll(codec, wire, disk, events, now);
      SealAll(codec, wire, disk, events + [e], now) ==
        d + [SealedRecord(codec, HeadOf(codec, d), EventName(e), EventSeverity(e), now, wire(e))]
  {
    assert (events + [e])[..|events|] == events;
  }

  /** One more record in the file for one more event in the trail. */
  lemma SealNext(codec: Codec, wire: Wire, disk0: seq<Record>, disk: seq<Record>, trail0: seq<Event>, trail: seq<Event>,
                 e: Event, now: string)
    requires trail0 <= trail && disk == SealAll(codec, wire, disk0, trail[|trail0|..], now)
    ensures trail0 <= trail + [e]
    ensures SealAll(codec, wire, disk0, (trail + [e])[|trail0|..], now) ==
              disk + [SealedRecord(codec, HeadOf(codec, disk), EventName(e), EventSeverity(e), now, wire(e))]
  {
    SealOneMore(codec, wire, disk0, trail[|trail0|..], e, now);
    assert (trail + [e])[|trail0|..] == trail[|trail0|..] + [e];
  }

  /** Handlers never change what a walk says about the records already there: whatever
      the trail's faults, they stay the same faults. */
  lemma {:induction false} HandlersKeepVerdict(codec: Codec, wire: Wire, disk: seq<Record>, events: seq<Event>,
                                               now: string)
    requires disk == [] || StringHash(disk[|disk| - 1])
    ensures var out := SealAll(codec, wire, disk, events, now);
      && disk <= out && |out| == |disk| + |events|
      && (out == [] || StringHash(out[|out| - 1]))
      && Verdict(codec, out) == Verdict(codec, disk).(total := |out|)
  {
    if events != [] {
      var n := |events| - 1;
      HandlersKeepVerdict(codec, wire, disk, events[..n], now);
      var d := SealAll(codec, wire, disk, events[..n], now);
      var e := events[n];
      SealedRecordLinks(codec, HeadOf(codec, d), EventName(e), EventSeverity(e), now, wire(e));
      AppendKeepsVerdict(codec, d, SealedRecord(codec, HeadOf(codec, d), EventName(e), EventSeverity(e), now, wire(e)));
    }
  }

  /** A trail that verifies still verifies after any handler, and the next process start
      finds nothing to quarantine. */
  lemma HandlersKeepTrailGreen(codec: Codec, wire: Wire, disk: seq<Record>, events: seq<Event>, now: string)
    requires Intact(codec, disk)
    ensures var out := SealAll(codec, wire, disk, events, now); Intact(codec, out) && LinksIntact(codec, out)
  {
    if disk != [] {
      assert IntactAt(codec, disk, |disk| - 1);
    }
    HandlersKeepVerdict(codec, wire, disk, events, now);
    VerdictOkIffIntact(codec, disk);
    var out := SealAll(codec, wire, disk, events, now);
    VerdictOkIffIntact(codec, out);
    IntactLinksHold(codec, out);
  }

  lemma TakeOneMore<T>(front: seq<T>, s: seq<T>, i: nat)
    requires i < |s|
    ensures front + s[..i] + [s[i]] == front + s[..i + 1]
  {
  }

  lemma {:induction false} SealedLength(codec: Codec, wire: Wire, disk: seq<Record>, events: seq<Event>, now: string)
    ensures var out := SealAll(codec, wire, disk, events, now); disk <= out && |out| == |disk| + |events|
  {
    if events != [] {
      SealedLength(codec, wire, disk, events[..|events| - 1], now);
    }
  }

  /** Putting an intact snapshot back over the records appended to it since loses exactly
      those, and no walk shows it: both trails verify, and only their heads differ. */
  lemma RestoreForgetsAppends(codec: Codec, wire: Wire, snapshot: seq<Record>, events: seq<Event>, now: string)
    requires Intact(codec, snapshot) && events != []
    ensures var grown := SealAll(codec, wire, snapshot, events, now);
      && |grown| == |snapshot| + |events| && snapshot == grown[..|snapshot|]
      && Verdict(codec, grown).ok && Verdict(codec, snapshot).ok
      && (HeadOf(codec, snapshot) != HeadOf(codec, grown) || DigestBroken(codec, Bodies(grown)))
  {
    if snapshot != [] {
      assert IntactAt(codec, snapshot, |snapshot| - 1);
    }
    var grown := SealAll(codec, wire, snapshot, events, now);
    HandlersKeepVerdict(codec, wire, snapshot, events, now);
    VerdictOkIffIntact(codec, snapshot);
    VerdictOkIffIntact(codec, grown);
    TailTruncationIsSilent(codec, grown, |snapshot|);
  }

  class C2Runtime {
    const env: Env
    const wire: Wire
    const interlock: DeterministicInterlock
    const store: RuntimeStore
    const audit: AuditLogger
    var proposals: map<string, Pending>
    var inbox: map<string, Tasking>
    var acked: set<string>
    var auditPreTamper: Option<seq<Record>>
    var edsPreTamper: Option<seq<EdsRecord>>
    ghost var trail: seq<Event>  // events appended so far, over all processes

    ghost predicate Valid()
      reads this, interlock, audit, audit.eds
    {
      interlock.rules == env.rules && audit.Valid()
    }

    ghost function View(): Mem
      reads this, interlock
    {
      Mem(proposals, inbox, acked, interlock.active, trail)
    }

    /** The store after a handler's writes, if there is a store. */
    ghost function Written(before: Db, ws: seq<Write>, faults: set<nat>): Db {
      if store.connected then ApplyWrites(before, ws, faults) else before
    }

    /** A new process over the same files: a restart. */
    constructor (env: Env, wire: Wire, store: RuntimeStore, audit: AuditLogger, readOk: bool, ghost trail: seq<Event>)
      requires audit.Valid()
      ensures Valid() && this.env == env && this.wire == wire && this.store == store && this.audit == audit
      ensures fresh(interlock)
      ensures View() == Hydrate(if store.connected && readOk then store.Tables() else EMPTY.db, trail)
      ensures auditPreTamper == None && edsPreTamper == None
    {
      this.env, this.wire, this.store, this.audit := env, wire, store, audit;
      interlock := new DeterministicInterlock(env.rules);
      proposals, inbox, acked := map[], map[], {};
      auditPreTamper, edsPreTamper := None, None;
      this.trail := trail;
      new;
      var picture := store.LoadAll(readOk);
      proposals, inbox, acked := picture.proposals, picture.inbox, picture.acked;
    }

    /** What a handler has promised so far, relative to where it started. */
    ghost predicate At(o: Outcome, db0: Db, disk0: seq<Record>, trail0: seq<Event>, faults: set<nat>, now: string)
      reads this, interlock, store, audit
    {
      && View() == o.mem
      && store.Tables() == Written(db0, o.writes, faults)
      && Grown(disk0, trail0, now)
    }

    /** The jsonl file gained exactly the records of the events the trail gained. */
    ghost predicate Grown(disk0: seq<Record>, trail0: seq<Event>, now: string)
      reads this, audit
    {
      trail0 <= trail && audit.disk == SealAll(audit.codec, wire, disk0, trail[|trail0|..], now)
    }

    method AppendEvent(e: Event, now: string, clock: int, ghost disk0: seq<Record>, ghost trail0: seq<Event>)
      requires Valid()
      requires Grown(disk0, trail0, now)
      modifies this`trail, audit, audit.eds
      ensures Valid()
      ensures trail == old(trail) + [e]
      ensures Grown(disk0, trail0, now)
    {
      SealNext(audit.codec, wire, disk0, audit.disk, trail0, trail, e, now);
      var _ := audit.Append(EventName(e), EventSeverity(e), now, wire(e), clock);
      trail := trail + [e];
    }

    method PersistProposal(id: string, pending: Pending, faults: set<nat>)
      modifies store
      ensures store.Tables() == Written(old(store.Tables()), [PutProposal(id, pending)], faults)
    {
      var payload := Pending(pending.coa, pending.unit, pending.queuedAt, None);
      if pending.navy.Some? && pending.navy.value != "" {
        payload := payload.(navy := pending.navy);
      }
      assert payload == Stored(pending);
      WriteOneMore(store.Tables(), [], PutProposal(id, pending), faults);
      assert [] + [PutProposal(id, pending)] == [PutProposal(id, pending)];
      store.UpsertProposal(id, payload, 0 !in faults);
    }

    method PersistInboxItem(id: string, tasking: Tasking, faults: set<nat>)
      modifies store
      ensures store.Tables() == Written(old(store.Tables()), [PutInbox(id, tasking)], faults)
    {
      WriteOneMore(store.Tables(), [], PutInbox(id, tasking), faults);
      assert [] + [PutInbox(id, tasking)] == [PutInbox(id, tasking)];
      store.UpsertInbox(id, tasking, 0 !in faults);
    }

    // ------------------------------------------------------------- POST /api/gate/proposals

    method RejectProposal(coa: Coa, reason: Interlock.Reason, tokenId: string, now: string, clock: int,
                          ghost faults: set<nat>)
      requires Valid()
      modifies this`trail, audit, audit.eds
      ensures Valid()
      ensures At(RejectFast(env, old(View()), coa, reason, tokenId, now),
                 old(store.Tables()), old(audit.disk), old(trail), faults, now)
    {
      var token := Token(tokenId, coa.id, REJECTED_FAST, now, None, Some(env.explain(reason)), "");
      token := Seal(env.hash, token);
      AppendEvent(CoaRejectedFast(coa, token), now, clock, audit.disk, trail);
    }

    method ApproveAutonomous(coa: Coa, unit: string, tokenId: string, now: string, clock: int, faults: set<nat>)
      requires Valid()
      modifies this`inbox, this`trail, interlock`active, store, audit, audit.eds
      ensures Valid()
      ensures At(AutoApprove(env, old(View()), coa, unit, tokenId, now),
                 old(store.Tables()), old(audit.disk), old(trail), faults, now)
    {
      var token := Token(tokenId, coa.id, APPROVED, now, Some("autonomous"), Some("tier0_auto"), "");
      token := Seal(env.hash, token);
      var tasking := Tasking(coa, token, unit, now, PENDING_ACK, None);
      inbox := inbox[coa.id := tasking];
      PersistInboxItem(coa.id, tasking, faults);
      interlock.RegisterActive(coa);
      AppendEvent(CoaAutoApproved(coa.id, token), now, clock, audit.disk, trail);
    }

    method QueueForHuman(pending: Pending, e: Event, now: string, clock: int, faults: set<nat>, ghost r: Response)
      requires Valid()
      modifies this`proposals, this`trail, store, audit, audit.eds
      ensures Valid()
      ensures At(Enqueue(old(View()), pending, e, r), old(store.Tables()), old(audit.disk), old(trail), faults, now)
    {
      proposals := proposals[pending.coa.id := pending];
      PersistProposal(pending.coa.id, pending, faults);
      AppendEvent(e, now, clock, audit.disk, trail);
    }

    method GateProposals(request: Request, unit: string, tokenId: string, now: string, clock: int, faults: set<nat>)
      returns (r: Response)
      requires Valid()
      modifies this`proposals, this`inbox, this`trail, interlock`active, store, audit, audit.eds
      ensures Valid()
      ensures var o := Propose(env, old(View()), request, unit, tokenId, now);
        r == o.response && At(o, old(store.Tables()), old(audit.disk), old(trail), faults, now)
    {
      if request.Missing? {
        return HttpError(400);
      }
      if request.NoFinding? {
        return HttpError(404);
      }
      var coa := ApplyDefaults(env.policy, request.coa);
      var check := interlock.Verify(coa);
      if check == Crash {
        return HttpError(500);
      }
      if check.Reject? {
        RejectProposal(coa, check.reason, tokenId, now, clock, faults);
        return RejectedFast(check.reason);
      }
      if coa.tier == Tier0Autonomous {
        ApproveAutonomous(coa, unit, tokenId, now, clock, faults);
        return Approved;
      }
      QueueForHuman(Pending(coa, unit, now, None), CoaProposed(coa.id, coa.intent, unit), now, clock, faults, Queued);
      r := Queued;
    }

    // ------------------------------------- POST /api/gate/demo-evaluate-with-guardrail

    method GateGuardrail(scenario: Option<Coa>, unit: string, navyUnit: string, freshId: string,
                         offshore: Option<Point>, now: string, clock: int, faults: set<nat>)
      returns (r: Response)
      requires Valid()
      modifies this`proposals, this`trail, interlock`rules, store, audit, audit.eds
      ensures Valid()
      ensures var o := Guardrail(env, old(View()), scenario, unit, navyUnit, freshId, offshore, now);
        r == o.response && At(o, old(store.Tables()), old(audit.disk), old(trail), faults, now)
    {
      interlock.SetCniPois(env.rules.pois);
      if scenario.None? {
        return HttpError(404);
      }
      var dangerous := ApplyDefaults(env.policy, scenario.value).(draft := true);
      if dangerous.intent !in TERMINAL_INTENTS {
        dangerous := dangerous.(intent := "TERMINAL_SAM_INTERCEPT");
      }
      assert dangerous == DangerousDraft(ApplyDefaults(env.policy, scenario.value));
      var check := interlock.Verify(dangerous);
      if check == Crash {
        return HttpError(500);
      }
      r := OfferOptionB(dangerous, unit, navyUnit, freshId, offshore, now, clock, faults);
    }

    method OfferOptionB(dangerous: Coa, unit: string, navyUnit: string, freshId: string,
                        offshore: Option<Point>, now: string, clock: int, faults: set<nat>)
      returns (r: Response)
      requires Valid()
      modifies this`proposals, this`trail, store, audit, audit.eds
      ensures Valid()
      ensures var o := QueueOptionB(env, old(View()), dangerous, unit, navyUnit, freshId, offshore, now);
        r == o.response && At(o, old(store.Tables()), old(audit.disk), old(trail), faults, now)
    {
      var fallback := ApplyDefaults(env.policy, OptionB(dangerous, freshId, offshore));
      var check := interlock.Verify(fallback);
      if check != Pass {
        return HttpError(500);
      }
      QueueForHuman(Pending(fallback, unit, now, Some(navyUnit)),
                    GuardrailQueued(dangerous, fallback, unit, navyUnit), now, clock, faults, OptionBQueued);
      r := OptionBQueued;
    }

    // --------------------------------------------------------- POST /api/gate/approve

    /** Up to the audit record of the decision. */
    method RecordDecision(id: string, token: Token, operator: string, now: string, clock: int, faults: set<nat>)
      requires Valid() && id in proposals
      modifies this`proposals, this`trail, store, audit, audit.eds
      ensures Valid()
      ensures At(Decided(old(View()), id, token, operator),
                 old(store.Tables()), old(audit.disk), old(trail), faults, now)
    {
      var coa := proposals[id].coa;
      WriteOneMore(store.Tables(), [], DropProposal(id), faults);
      proposals := proposals - {id};
      store.DeleteProposal(id, 0 !in faults);
      AppendEvent(GateDecision(coa.id, token.verdict, token, operator), now, clock, audit.disk, trail);
    }

    /** One round of the issuing loop. */
    method IssueTasking(t: Tasking, now: string, clock: int, faults: set<nat>, slot: nat,
                        ghost o: Outcome, ghost db0: Db, ghost disk0: seq<Record>, ghost trail0: seq<Event>)
      requires Valid() && At(o, db0, disk0, trail0, faults, now) && slot == |o.writes|
      modifies this`inbox, this`trail, store, audit, audit.eds
      ensures Valid() && At(Issue(o, t), db0, disk0, trail0, faults, now)
    {
      WriteOneMore(db0, o.writes, PutInbox(t.coa.id, t), faults);
      inbox := inbox[t.coa.id := t];
      store.UpsertInbox(t.coa.id, t, slot !in faults);
      AppendEvent(TaskingIssued(t.coa.id, t.unit), now, clock, disk0, trail0);
    }

    /** The issuing loop: the queued unit first, a distinct navy unit second. */
    method IssueTaskings(pending: Pending, token: Token, operator: string, ids: Ids, now: string, clock: int,
                         faults: set<nat>,
                         ghost decided: Outcome, ghost db0: Db, ghost disk0: seq<Record>, ghost trail0: seq<Event>)
      requires Valid() && At(decided, db0, disk0, trail0, faults, now) && |decided.writes| == 1
      requires token == DecisionToken(env, ids.tokenId, pending.coa.id, true, operator, now)
      modifies this`inbox, this`trail, store, audit, audit.eds
      ensures Valid() && At(IssueAll(env, decided, pending, operator, ids, now), db0, disk0, trail0, faults, now)
    {
      var coa := pending.coa;
      var units := [pending.unit];
      if pending.navy.Some? && pending.navy.value != "" && pending.navy.value !in units {
        units := units + [pending.navy.value];
      }
      assert |units| == if NavyUnit(pending).Some? then 2 else 1;
      ghost var o := decided;
      for index := 0 to |units|
        invariant Valid() && At(o, db0, disk0, trail0, faults, now)
        invariant |o.writes| == index + 1
        invariant o == if index == 0 then decided
                       else if index == 1 then
                         Issue(decided, Issued(env, coa, ids.tokenId, pending.unit, operator, now))
                       else IssueAll(env, decided, pending, operator, ids, now)
      {
        var issuedCoa, payload := coa, token;
        if index > 0 {
          issuedCoa := coa.(id := ids.navyCoaId, pairedWith := Some(coa.id));
          payload := Seal(env.hash,
            Token(ids.navyTokenId, issuedCoa.id, APPROVED, now, Some(operator), Some("operator_approve"), ""));
        }
        var tasking := Tasking(issuedCoa, payload, units[index], now, PENDING_ACK, None);
        IssueTasking(tasking, now, clock, faults, index + 1, o, db0, disk0, trail0);
        o := Issue(o, tasking);
      }
    }

    method GateApprove(id: string, decision: string, operator: string, ids: Ids, now: string, clock: int,
                       faults: set<nat>)
      returns (r: Response)
      requires Valid()
      modifies this`proposals, this`inbox, this`trail, interlock`active, store, audit, audit.eds
      ensures Valid()
      ensures var o := Decide(env, old(View()), id, decision, operator, ids, now);
        r == o.response && At(o, old(store.Tables()), old(audit.disk), old(trail), faults, now)
    {
      if id !in proposals {
        return HttpError(404);
      }
      var pending := proposals[id];
      var word := env.norm(decision);
      var verdict, reason;
      if word in YES_WORDS {
        verdict, reason := APPROVED, "operator_approve";
      } else if word in NO_WORDS {
        verdict, reason := REJECTED_OPERATOR, "operator_deny";
      } else {
        return HttpError(400);
      }
      var token := Seal(env.hash, Token(ids.tokenId, pending.coa.id, verdict, now, Some(operator), Some(reason), ""));
      assert token == DecisionToken(env, ids.tokenId, pending.coa.id, verdict == APPROVED, operator, now);
      ghost var db0, disk0, trail0 := store.Tables(), audit.disk, trail;
      ghost var decided := Decided(View(), id, token, operator);
      RecordDecision(id, token, operator, now, clock, faults);
      r := Denied;
      if verdict == APPROVED {
        IssueTaskings(pending, token, operator, ids, now, clock, faults, decided, db0, disk0, trail0);
        interlock.RegisterActive(pending.coa);
        r := Approved;
      }
    }

    // ------------------------------------------------------- POST /api/recipient/ack

    method RecipientAcknowledge(req: AckRequest, ackId: string, now: string, clock: int, faults: set<nat>)
      returns (r: Response)
      requires Valid()
      modifies this`inbox, this`acked, this`trail, store, audit, audit.eds
      ensures Valid()
      ensures var o := Acknowledge(env, old(View()), req, ackId, now);
        r == o.response && At(o, old(store.Tables()), old(audit.disk), old(trail), faults, now)
    {
      if req.coaId !in inbox {
        return HttpError(404);
      }
      var tasking := inbox[req.coaId];
      if tasking.unit != req.unit {
        return HttpError(403);
      }
      var signature := if req.signature.Some? then req.signature.value else "";
      if signature == "" {
        signature := env.ackHash(req.coaId, req.unit, req.status, now);
      }
      var ack := Ack(ackId, req.coaId, req.unit, req.status, req.message, signature, tasking.token.digest, now);
      assert ack == AckRecord(env, req, tasking.token.digest, ackId, now);
      RecordAck(ack, now, clock, faults);
      r := Acknowledged;
    }

    method RecordAck(ack: Ack, now: string, clock: int, faults: set<nat>)
      requires Valid() && ack.coaId in inbox
      modifies this`inbox, this`acked, this`trail, store, audit, audit.eds
      ensures Valid()
      ensures At(Accept(old(View()), ack), old(store.Tables()), old(audit.disk), old(trail), faults, now)
    {
      var tasking := inbox[ack.coaId];
      acked := acked + {ack.coaId};
      tasking := tasking.(status := ACKED);
      tasking := tasking.(ack := Some(ack));
      inbox := inbox[ack.coaId := tasking];
      PersistAck(ack.coaId, tasking, faults);
      AppendEvent(RecipientAck(ack), now, clock, audit.disk, trail);
    }

    method PersistAck(id: string, tasking: Tasking, faults: set<nat>)
      modifies store
      ensures store.Tables() == Written(old(store.Tables()), [AddAcked(id), PutInbox(id, tasking)], faults)
    {
      ghost var first := [AddAcked(id)];
      assert first == [] + [AddAcked(id)];
      assert first + [PutInbox(id, tasking)] == [AddAcked(id), PutInbox(id, tasking)];
      WriteOneMore(store.Tables(), [], AddAcked(id), faults);
      WriteOneMore(store.Tables(), first, PutInbox(id, tasking), faults);
      store.AddAcked(id, 0 !in faults);
      store.UpsertInbox(id, tasking, 1 !in faults);
    }

    /** `GET /api/recipient/inbox`: the keys of the listed taskings. */
    method RecipientInbox(unit: string) returns (items: set<string>)
      ensures items == Listed(View(), unit)
    {
      items := {};
      var rows := inbox.Keys;
      while rows != {}
        invariant rows <= inbox.Keys
        invariant items == set k | k in inbox && k !in rows && inbox[k].unit == unit && inbox[k].coa.id !in acked
        decreases |rows|
      {
        var k :| k in rows;
        if inbox[k].unit == unit && inbox[k].coa.id !in acked {
          items := items + {k};
        }
        rows := rows - {k};
      }
    }

    // --------------------------------------------------------- POST /api/admin/reset

    method Reset(now: string, faults: set<nat>)
      requires Valid()
      modifies this`proposals, this`inbox, this`acked, this`auditPreTamper, this`edsPreTamper, interlock`active, store
      ensures Valid()
      ensures At(ResetAll(old(View())), old(store.Tables()), old(audit.disk), old(trail), faults, now)
      ensures auditPreTamper == None && edsPreTamper == None
    {
      proposals, inbox, acked := map[], map[], {};
      interlock.ClearActive();
      auditPreTamper, edsPreTamper := None, None;
      WriteOneMore(store.Tables(), [], RuntimeModel.Clear, faults);
      store.Clear(0 !in faults);
    }

    // ------------------------------------------------ POST /api/admin/audit/{tamper,restore}

    /** Snapshot, tamper with one OCSF record, corrupt the sidecar. A tamper that raises
        leaves the files alone but keeps the snapshot it took. */
    method InjectAuditTamper(index: nat) returns (status: nat)
      requires Valid()
      modifies this`auditPreTamper, this`edsPreTamper, audit, audit.eds
      ensures Valid() && View() == old(View())
      ensures status == 400 <==> |old(audit.disk)| < 2
      ensures status == 400 ==> auditPreTamper == old(auditPreTamper) && edsPreTamper == old(edsPreTamper)
      ensures status != 400 ==>
        && auditPreTamper == Some(old(audit.disk))
        && edsPreTamper == if audit.eds != null then Some(old(audit.eds.chain)) else None
      ensures status == 200 <==> |old(audit.disk)| >= 2 && TamperTrail(audit.codec, old(audit.disk), index).Ok?
      ensures status == 200 ==>
        && audit.disk == TamperTrail(audit.codec, old(audit.disk), index).value
        && (audit.eds != null ==> audit.eds.chain == CorruptRecords(old(audit.eds.chain), index))
      ensures status != 200 ==>
        && audit.disk == old(audit.disk)
        && (audit.eds != null ==> audit.eds.chain == old(audit.eds.chain))
    {
      var records := audit.disk;
      if |records| < 2 {
        return 400;
      }
      auditPreTamper := Some(records);
      edsPreTamper := if audit.eds != null then Some(audit.eds.chain) else None;
      var tampered := InjectOneCharTamper(audit.codec, records, index);
      if tampered.Err? {
        return 500;
      }
      audit.OverwriteOcsfKeepEds(tampered.value);
      if audit.eds != null && |edsPreTamper.value| > 0 {
        audit.eds.ReplaceRecords(CorruptRecords(edsPreTamper.value, index));
      }
      status := 200;
    }

    method RestoreAuditTamper() returns (status: nat)
      requires Valid()
      modifies audit, audit.eds
      ensures Valid() && View() == old(View())
      ensures auditPreTamper.None? ==> status == 400 && audit.disk == old(audit.disk) &&
                                       (audit.eds != null ==> audit.eds.chain == old(audit.eds.chain))
      ensures auditPreTamper.Some? ==>
        && status == 200
        && audit.disk == auditPreTamper.value
        && (audit.eds != null ==>
              audit.eds.chain == if edsPreTamper.Some? then edsPreTamper.value else old(audit.eds.chain))
    {
      if auditPreTamper.None? {
        return 400;
      }
      audit.present, audit.disk := true, auditPreTamper.value;
      audit.RewindFromDisk();
      if edsPreTamper.Some? && audit.eds != null {
        audit.eds.ReplaceRecords(edsPreTamper.value);
      }
      status := 200;
    }

    /** Tamper and restore give back trail, cached head, sidecar and sidecar head exactly,
        whether or not the tamper went through. */
    method TamperDemo(index: nat)
      requires Valid() && |audit.disk| >= 2
      modifies this`auditPreTamper, this`edsPreTamper, audit, audit.eds
      ensures Valid() && View() == old(View())
      ensures audit.disk == old(audit.disk) && audit.prev == old(audit.prev)
      ensures audit.eds != null ==>
        && audit.eds.chain == old(audit.eds.chain)
        && audit.eds.prevHash == old(audit.eds.prevHash)
        && audit.eds.sequence == old(audit.eds.sequence)
    {
      var _ := InjectAuditTamper(index);
      var _ := RestoreAuditTamper();
    }

    /** Any number of events, appended one by one as the handlers do. */
    method AppendEvents(events: seq<Event>, now: string, clock: int)
      requires Valid()
      modifies this`trail, audit, audit.eds
      ensures Valid() && trail == old(trail) + events
      ensures audit.disk == SealAll(audit.codec, wire, old(audit.disk), events, now)
    {
      ghost var disk0, trail0 := audit.disk, trail;
      assert trail[|trail0|..] == [];
      for i := 0 to |events|
        invariant Valid() && trail == trail0 + events[..i]
        invariant Grown(disk0, trail0, now)
      {
        AppendEvent(events[i], now, clock, disk0, trail0);
        TakeOneMore(trail0, events, i);
      }
      assert events[..|events|] == events && trail[|trail0|..] == events;
    }

    /** A snapshot outlives its restore and every later append: restoring it drops from the
        file the records of all events appended in between, which the server still acted on. */
    method RestoreAfterAppends(events: seq<Event>, now: string, clock: int) returns (ghost before: seq<Record>)
      requires Valid() && auditPreTamper.Some?
      modifies this`trail, audit, audit.eds
      ensures Valid() && trail == old(trail) + events
      ensures before == SealAll(audit.codec, wire, old(audit.disk), events, now)
      ensures old(audit.disk) <= before && |before| == |old(audit.disk)| + |events|
      ensures audit.disk == auditPreTamper.value && auditPreTamper == old(auditPreTamper)
      ensures audit.eds != null && edsPreTamper.Some? ==> audit.eds.chain == edsPreTamper.value
    {
      SealedLength(audit.codec, wire, audit.disk, events, now);
      AppendEvents(events, now, clock);
      before := audit.disk;
      var _ := RestoreAuditTamper();
    }
  }
}
