/** Counting laws of the gate: decisions against queueings, inbox depth against what the units
    see, acked ids against inbox rows. */
module RuntimeAccounting {
  import opened Json
  import opened GateTypes
  import opened Interlock
  import opened LatencyGate
  import opened RuntimeModel
  import opened RuntimeSafety
  import opened RuntimeRestart

  // ------------------------------------------------- decisions never exceed queueings

  function Decisions(trail: seq<Event>, id: string): nat {
    if trail == [] then 0
    else
      var e := trail[|trail| - 1];
      Decisions(trail[..|trail| - 1], id) + if e.GateDecision? && e.coaId == id then 1 else 0
  }

  function Queueings(trail: seq<Event>, id: string): nat {
    if trail == [] then 0
    else Queueings(trail[..|trail| - 1], id) + if Queues(trail[|trail| - 1], id) then 1 else 0
  }

  /** Every decision of an id, and one still pending, has its own queueing. */
  predicate Balanced(m: Mem, id: string) {
    Decisions(m.trail, id) + (if id in m.proposals then 1 else 0) <= Queueings(m.trail, id)
  }

  lemma OneMore(trail: seq<Event>, e: Event, id: string)
    ensures Decisions(trail + [e], id) == Decisions(trail, id) + if e.GateDecision? && e.coaId == id then 1 else 0
    ensures Queueings(trail + [e], id) == Queueings(trail, id) + if Queues(e, id) then 1 else 0
  {
    assert (trail + [e])[..|trail|] == trail;
  }

  predicate KeyedById(m: Mem) {
    forall id :: id in m.proposals ==> m.proposals[id].coa.id == id
  }

  /** The same, counting a proposal that only the store still holds. */
  predicate Booked(sys: Sys, id: string) {
    var pending := id in sys.mem.proposals || id in sys.db.proposals;
    Decisions(sys.mem.trail, id) + (if pending then 1 else 0) <= Queueings(sys.mem.trail, id)
  }

  /** None of these writes puts a proposal row for the id. */
  predicate NoPut(ws: seq<Write>, id: string) {
    forall i :: 0 <= i < |ws| ==> !(ws[i].PutProposal? && ws[i].id == id)
  }

  /** The outcome queued the id once more. */
  predicate QueuedOnce(m: Mem, o: Outcome, id: string) {
    && Decisions(o.mem.trail, id) == Decisions(m.trail, id)
    && Queueings(o.mem.trail, id) == Queueings(m.trail, id) + 1
  }

  /** It neither queued nor decided it, and left nothing new pending under it. */
  predicate Untouched(m: Mem, o: Outcome, id: string) {
    && Decisions(o.mem.trail, id) == Decisions(m.trail, id)
    && Queueings(o.mem.trail, id) == Queueings(m.trail, id)
    && (id in o.mem.proposals ==> id in m.proposals)
    && NoPut(o.writes, id)
  }

  /** It decided it: taken out of memory, and out of the store by the first write. */
  predicate DecidedOnce(m: Mem, o: Outcome, id: string) {
    && Decisions(o.mem.trail, id) == Decisions(m.trail, id) + 1
    && Queueings(o.mem.trail, id) == Queueings(m.trail, id)
    && id in m.proposals && id !in o.mem.proposals
    && |o.writes| > 0 && o.writes[0] == DropProposal(id)
    && (forall i :: 1 <= i < |o.writes| ==> o.writes[i].PutInbox?)
  }

  predicate Accounted(m: Mem, o: Outcome, id: string) {
    QueuedOnce(m, o, id) || Untouched(m, o, id) || DecidedOnce(m, o, id)
  }

  lemma IssueCountsNothing(o: Outcome, t: Tasking, id: string)
    ensures var out := Issue(o, t);
      && Decisions(out.mem.trail, id) == Decisions(o.mem.trail, id)
      && Queueings(out.mem.trail, id) == Queueings(o.mem.trail, id)
      && out.mem.proposals == o.mem.proposals
      && out.writes == o.writes + [PutInbox(t.coa.id, t)]
  {
    OneMore(o.mem.trail, TaskingIssued(t.coa.id, t.unit), id);
  }

  lemma InboxPutIsNoPut(ws: seq<Write>, key: string, t: Tasking, id: string)
    requires NoPut(ws, id)
    ensures NoPut(ws + [PutInbox(key, t)], id)
  {
  }

  lemma IssueAccounted(m: Mem, o: Outcome, t: Tasking, id: string)
    requires Accounted(m, o, id)
    ensures Accounted(m, Issue(o, t), id)
    ensures DecidedOnce(m, o, id) ==> DecidedOnce(m, Issue(o, t), id)
  {
    IssueCountsNothing(o, t, id);
    if Untouched(m, o, id) {
      InboxPutIsNoPut(o.writes, t.coa.id, t, id);
    }
  }

  lemma RecordAccounted(m: Mem, key: string, token: Token, operator: string, id: string)
    requires KeyedById(m) && key in m.proposals
    ensures Accounted(m, Decided(m, key, token, operator), id)
    ensures key == id ==> DecidedOnce(m, Decided(m, key, token, operator), id)
  {
    OneMore(m.trail, GateDecision(key, token.verdict, token, operator), id);
  }

  lemma IssueAllAccounted(env: Env, m: Mem, o: Outcome, p: Pending, operator: string, ids: Ids, now: string, id: string)
    requires Accounted(m, o, id)
    ensures var out := IssueAll(env, o, p, operator, ids, now);
      Accounted(m, out, id) && (DecidedOnce(m, o, id) ==> DecidedOnce(m, out, id))
  {
    var t := Issued(env, p.coa, ids.tokenId, p.unit, operator, now);
    IssueAccounted(m, o, t, id);
    if NavyUnit(p).Some? {
      var copy := NavyCopy(p.coa, ids.navyCoaId);
      IssueAccounted(m, Issue(o, t), Issued(env, copy, ids.navyTokenId, NavyUnit(p).value, operator, now), id);
    }
  }

  lemma DecideAccounted(env: Env, m: Mem, key: string, decision: string, operator: string, ids: Ids,
                        now: string, id: string)
    requires KeyedById(m)
    ensures var o := Decide(env, m, key, decision, operator, ids, now);
      && Accounted(m, o, id)
      && (key == id && (o.response == Approved || o.response == Denied) ==> DecidedOnce(m, o, id))
  {
    var word := env.norm(decision);
    if key in m.proposals && (word in YES_WORDS || word in NO_WORDS) {
      var p := m.proposals[key];
      var token := DecisionToken(env, ids.tokenId, p.coa.id, word in YES_WORDS, operator, now);
      RecordAccounted(m, key, token, operator, id);
      if word in YES_WORDS {
        IssueAllAccounted(env, m, Decided(m, key, token, operator), p, operator, ids, now, id);
      }
    }
  }

  lemma OneQueuesAtMost(e: Event, id: string, other: string)
    requires Queues(e, id)
    ensures Queues(e, other) <==> other == id
  {
  }

  lemma EnqueueAccounted(m: Mem, p: Pending, e: Event, r: Response, id: string)
    requires Queues(e, p.coa.id)
    ensures Accounted(m, Enqueue(m, p, e, r), id)
  {
    var trail := m.trail + [e];
    OneQueuesAtMost(e, p.coa.id, id);
    OneMore(m.trail, e, id);
    assert Decisions(trail, id) == Decisions(m.trail, id);
    EnqueueLeaves(m, p, e, r, id);
  }

  lemma EnqueueLeaves(m: Mem, p: Pending, e: Event, r: Response, id: string)
    ensures var o := Enqueue(m, p, e, r);
      && o.mem.trail == m.trail + [e]
      && (id != p.coa.id ==> NoPut(o.writes, id) && (id in o.mem.proposals ==> id in m.proposals))
  {
  }

  lemma AutoApproveAccounted(env: Env, m: Mem, coa: Coa, unit: string, tokenId: string, now: string, id: string)
    ensures Accounted(m, AutoApprove(env, m, coa, unit, tokenId, now), id)
  {
    var o := AutoApprove(env, m, coa, unit, tokenId, now);
    var e := o.mem.trail[|m.trail|];
    assert e.CoaAutoApproved? && o.mem.trail == m.trail + [e];
    OneMore(m.trail, e, id);
  }

  lemma RejectFastAccounted(env: Env, m: Mem, coa: Coa, reason: Interlock.Reason, tokenId: string, now: string,
                            id: string)
    ensures Accounted(m, RejectFast(env, m, coa, reason, tokenId, now), id)
  {
    var o := RejectFast(env, m, coa, reason, tokenId, now);
    var e := o.mem.trail[|m.trail|];
    assert e.CoaRejectedFast? && o.mem.trail == m.trail + [e];
    OneMore(m.trail, e, id);
  }

  lemma ProposeAccounted(env: Env, m: Mem, request: Request, unit: string, tokenId: string, now: string, id: string)
    ensures Accounted(m, Propose(env, m, request, unit, tokenId, now), id)
  {
    if request.Given? {
      var coa := ApplyDefaults(env.policy, request.coa);
      match FullCheck(env.rules, m.active, coa)
      case Crash =>
      case Reject(reason) => RejectFastAccounted(env, m, coa, reason, tokenId, now, id);
      case Pass =>
        if coa.tier == Tier0Autonomous {
          AutoApproveAccounted(env, m, coa, unit, tokenId, now, id);
        } else {
          EnqueueAccounted(m, Pending(coa, unit, now, None), CoaProposed(coa.id, coa.intent, unit), Queued, id);
        }
    }
  }

  lemma GuardrailAccounted(env: Env, m: Mem, dangerous: Coa, unit: string, navyUnit: string,
                           freshId: string, offshore: Option<Geofence.Point>, now: string, id: string)
    ensures Accounted(m, QueueOptionB(env, m, dangerous, unit, navyUnit, freshId, offshore, now), id)
  {
    var fallback := ApplyDefaults(env.policy, OptionB(dangerous, freshId, offshore));
    if FullCheck(env.rules, m.active, fallback) == Pass {
      EnqueueAccounted(m, Pending(fallback, unit, now, Some(navyUnit)),
                       GuardrailQueued(dangerous, fallback, unit, navyUnit), OptionBQueued, id);
    }
  }

  /** Every handler queues an id once, decides it once, or leaves its account alone. */
  lemma HandleAccounted(env: Env, m: Mem, a: Action, now: string, id: string)
    requires a != DoRestart && KeyedById(m)
    ensures Accounted(m, Handle(env, m, a, now), id)
  {
    match a
    case DoPropose(request, unit, tokenId) => ProposeAccounted(env, m, request, unit, tokenId, now, id);
    case DoGuardrail(scenario, unit, navyUnit, freshId, offshore) =>
      if scenario.Some? {
        var dangerous := DangerousDraft(ApplyDefaults(env.policy, scenario.value));
        GuardrailAccounted(env, m, dangerous, unit, navyUnit, freshId, offshore, now, id);
      }
    case DoDecide(key, decision, operator, ids) => DecideAccounted(env, m, key, decision, operator, ids, now, id);
    case DoAck(req, ackId) => AckAccounted(env, m, req, ackId, now, id);
    case DoReset =>
  }

  lemma AckAccounted(env: Env, m: Mem, req: AckRequest, ackId: string, now: string, id: string)
    ensures Accounted(m, Acknowledge(env, m, req, ackId, now), id)
  {
    if req.coaId in m.inbox {
      OneMore(m.trail, RecipientAck(AckRecord(env, req, m.inbox[req.coaId].token.digest, ackId, now)), id);
    }
  }

  lemma OnlyDecisionsDecide(env: Env, m: Mem, a: Action, now: string, id: string)
    requires a != DoRestart && !a.DoDecide?
    ensures !DecidedOnce(m, Handle(env, m, a, now), id)
  {
  }

  lemma {:induction false} UnputStaysOut(db: Db, ws: seq<Write>, faults: set<nat>, id: string)
    requires NoPut(ws, id)
    ensures id in ApplyWrites(db, ws, faults).proposals ==> id in db.proposals
  {
    if ws != [] {
      UnputStaysOut(db, ws[..|ws| - 1], faults, id);
    }
  }

  /** The row goes exactly when the first write, its delete, is accepted. */
  lemma {:induction false} RowGoesWithItsDelete(db: Db, ws: seq<Write>, faults: set<nat>, id: string)
    requires |ws| > 0 && ws[0] == DropProposal(id)
    requires forall i :: 1 <= i < |ws| ==> ws[i].PutInbox?
    ensures id in ApplyWrites(db, ws, faults).proposals <==> id in db.proposals && 0 in faults
  {
    var front := ws[..|ws| - 1];
    if |ws| > 1 {
      RowGoesWithItsDelete(db, front, faults, id);
    } else {
      assert front == [];
    }
  }

  /** The one store failure the account cannot stand: the delete of a decided row. */
  predicate LosesDelete(s: Step) {
    s.action.DoDecide? && 0 in s.faults
  }

  lemma NextBooked(env: Env, sys: Sys, s: Step, id: string)
    requires KeyedById(sys.mem) && Booked(sys, id) && !LosesDelete(s)
    ensures Booked(Next(env, sys, s), id)
  {
    if s.action != DoRestart {
      var o := Handle(env, sys.mem, s.action, s.now);
      HandleAccounted(env, sys.mem, s.action, s.now, id);
      if Untouched(sys.mem, o, id) {
        UnputStaysOut(sys.db, o.writes, s.faults, id);
      } else if DecidedOnce(sys.mem, o, id) {
        OnlyDecisionsCount(env, sys.mem, s, id);
        RowGoesWithItsDelete(sys.db, o.writes, s.faults, id);
      }
    }
  }

  lemma OnlyDecisionsCount(env: Env, m: Mem, s: Step, id: string)
    requires s.action != DoRestart && DecidedOnce(m, Handle(env, m, s.action, s.now), id)
    ensures s.action.DoDecide?
  {
    if !s.action.DoDecide? {
      OnlyDecisionsDecide(env, m, s.action, s.now, id);
    }
  }

  /** Over every run - resets, restarts, failing writes and reads included, but for the
      deletes of decided rows - an id is decided at most as often as it was queued, counting one still
      pending in memory or in the store. */
  lemma {:induction false} DecisionsNeverExceedQueueings(env: Env, run: seq<Step>, id: string)
    requires forall i :: 0 <= i < |run| ==> !LosesDelete(run[i])
    ensures Booked(After(env, EMPTY, run), id) && Balanced(After(env, EMPTY, run).mem, id)
  {
    if run != [] {
      var n := |run| - 1;
      DecisionsNeverExceedQueueings(env, run[..n], id);
      EveryRunIsKeyed(env, run[..n]);
      NextBooked(env, After(env, EMPTY, run[..n]), run[n], id);
    }
  }

  predicate FailsToRead(s: Step) {
    s.action == DoRestart && 0 in s.faults
  }

  /** And that failure is what it takes: with no queueing to spare, a decision followed by a
      restart keeps the law exactly when the delete went through or the row is not read. */
  lemma LawNeedsTheDelete(env: Env, sys: Sys, s: Step, restart: Step, id: string)
    requires KeyedById(sys.mem) && id in sys.mem.proposals && id in sys.db.proposals
    requires Decisions(sys.mem.trail, id) + 1 == Queueings(sys.mem.trail, id)
    requires s.action.DoDecide? && s.action.id == id
    requires env.norm(s.action.decision) in YES_WORDS + NO_WORDS
    requires restart.action == DoRestart
    ensures Balanced(Next(env, Next(env, sys, s), restart).mem, id) <==> !LosesDelete(s) || FailsToRead(restart)
  {
    var d := s.action;
    var o := Decide(env, sys.mem, id, d.decision, d.operator, d.ids, s.now);
    DecideAccounted(env, sys.mem, id, d.decision, d.operator, d.ids, s.now, id);
    RowGoesWithItsDelete(sys.db, o.writes, s.faults, id);
  }

  /** The plain proposals of the examples below: accepted, and queued for a person. */
  predicate Queueable(env: Env, coa: Coa) {
    Safe(env.rules, ApplyDefaults(env.policy, coa)) && ApplyDefaults(env.policy, coa).tier != Tier0Autonomous
  }

  lemma ProposeQueues(env: Env, m: Mem, coa: Coa, unit: string, tokenId: string, now: string)
    requires Queueable(env, coa)
    requires coa.id !in m.active && PairKey(env.rules, coa) !in m.active
    ensures var full := ApplyDefaults(env.policy, coa);
      Propose(env, m, Given(coa), unit, tokenId, now) ==
        Outcome(m.(proposals := m.proposals[coa.id := Pending(full, unit, now, None)],
                   trail := m.trail + [CoaProposed(coa.id, coa.intent, unit)]),
                [PutProposal(coa.id, Pending(full, unit, now, None))], Queued)
  {
    PassMeansSafe(env.rules, m.active, ApplyDefaults(env.policy, coa));
  }

  /** The law needs the store: one failed row delete and a restart bring a denied
      proposal back, to be decided a second time on one queueing. */
  lemma FailedDeleteDecidesTwice(env: Env, coa: Coa, no: string, ids: Ids)
    requires Queueable(env, coa) && env.norm(no) in NO_WORDS && env.norm(no) !in YES_WORDS
    ensures
      var queued := Next(env, EMPTY, Step(DoPropose(Given(coa), "unit", "t"), "1", {}));
      var denied := Next(env, queued, Step(DoDecide(coa.id, no, "op", ids), "2", {0}));
      var restarted := Next(env, denied, Step(DoRestart, "3", {}));
      var trail := Next(env, restarted, Step(DoDecide(coa.id, no, "op", ids), "4", {})).mem.trail;
      Decisions(trail, coa.id) == 2 && Queueings(trail, coa.id) == 1
  {
    var pending := Pending(ApplyDefaults(env.policy, coa), "unit", "1", None);
    ProposeQueues(env, EMPTY.mem, coa, "unit", "t", "1");
    SingleWrite(EMPTY.db, PutProposal(coa.id, pending));
    var queued := Next(env, EMPTY, Step(DoPropose(Given(coa), "unit", "t"), "1", {}));
    assert queued.db.proposals == map[coa.id := pending];
    var drop := [DropProposal(coa.id)];
    assert drop[..0] == [] && ApplyWrites(queued.db, drop, {0}) == queued.db;
    var denied := Next(env, queued, Step(DoDecide(coa.id, no, "op", ids), "2", {0}));
    assert denied.db == queued.db;
    OneMore([], queued.mem.trail[0], coa.id);
    OneMore(queued.mem.trail, denied.mem.trail[1], coa.id);
    var restarted := Next(env, denied, Step(DoRestart, "3", {}));
    var again := Next(env, restarted, Step(DoDecide(coa.id, no, "op", ids), "4", {}));
    OneMore(restarted.mem.trail, again.mem.trail[2], coa.id);
  }

  // ---------------------------------------------------------------- inbox accounting

  predicate InboxKeyedById(m: Mem) {
    forall k :: k in m.inbox ==> m.inbox[k].coa.id == k
  }

  function Unacked(m: Mem): set<string> {
    set k | k in m.inbox && k !in m.acked
  }

  function ListedTotal(m: Mem, units: seq<string>): nat {
    if units == [] then 0 else ListedTotal(m, units[..|units| - 1]) + |Listed(m, units[|units| - 1])|
  }

  function ListedAny(m: Mem, units: seq<string>): set<string> {
    set k | k in m.inbox && m.inbox[k].unit in units && k !in m.acked
  }

  lemma ListedSplits(m: Mem, units: seq<string>, unit: string)
    requires InboxKeyedById(m) && unit !in units
    ensures ListedAny(m, units + [unit]) == ListedAny(m, units) + Listed(m, unit)
    ensures ListedAny(m, units) !! Listed(m, unit)
  {
  }

  lemma {:induction false} ListedDisjoint(m: Mem, units: seq<string>)
    requires InboxKeyedById(m)
    requires forall i, j :: 0 <= i < j < |units| ==> units[i] != units[j]
    ensures ListedTotal(m, units) == |ListedAny(m, units)|
  {
    if units == [] {
      assert ListedAny(m, units) == {};
    } else {
      var n := |units| - 1;
      ListedDisjoint(m, units[..n]);
      ListedSplits(m, units[..n], units[n]);
      assert units == units[..n] + [units[n]];
    }
  }

  lemma EveryRunIsKeyed(env: Env, run: seq<Step>)
    ensures var m := After(env, EMPTY, run).mem; KeyedById(m) && InboxKeyedById(m)
  {
    EveryRunIsSafe(env, run);
    var m := After(env, EMPTY, run).mem;
    assert forall k :: k in m.inbox ==> TaskingOk(env, m.trail, k, m.inbox[k]);
    assert forall k :: k in m.proposals ==> ProposalOk(env, m.trail, k, m.proposals[k]);
  }

  /** The units of every waiting tasking, each listed once. */
  predicate CoversUnits(m: Mem, units: seq<string>) {
    && (forall k :: k in m.inbox ==> m.inbox[k].unit in units)
    && (forall i, j :: 0 <= i < j < |units| ==> units[i] != units[j])
  }

  lemma KeyedDepth(m: Mem, units: seq<string>)
    requires InboxKeyedById(m) && CoversUnits(m, units)
    ensures Depth(m) == ListedTotal(m, units)
  {
    ListedDisjoint(m, units);
    assert ListedAny(m, units) == Unacked(m);
  }

  /** In every reachable state `inbox_depth` is the sum of what the units' inboxes list. */
  lemma DepthIsSumOfInboxes(env: Env, run: seq<Step>, units: seq<string>)
    requires CoversUnits(After(env, EMPTY, run).mem, units)
    ensures Depth(After(env, EMPTY, run).mem) == ListedTotal(After(env, EMPTY, run).mem, units)
  {
    EveryRunIsKeyed(env, run);
    KeyedDepth(After(env, EMPTY, run).mem, units);
  }

  /** Putting a tasking under a key raises the depth exactly when the key is new to both
      the inbox and the acked set. */
  lemma DepthAfterIssue(o: Outcome, t: Tasking)
    ensures var k := t.coa.id;
      Depth(Issue(o, t).mem) == Depth(o.mem) + if k in o.mem.inbox || k in o.mem.acked then 0 else 1
  {
    var out := Issue(o, t);
    if t.coa.id in o.mem.inbox || t.coa.id in o.mem.acked {
      assert Unacked(out.mem) == Unacked(o.mem);
    } else {
      assert Unacked(out.mem) == Unacked(o.mem) + {t.coa.id};
    }
  }

  function Raises(m: Mem, id: string): nat {
    if id in m.inbox || id in m.acked then 0 else 1
  }

  /** A decision's effect on the depth: none for a denial; for an approval one per issued
      id that is new, so with fresh ids 1, or 2 when a distinct navy unit is named - and
      then under two ids, two units and two sealed tokens. */
  lemma DecideDepth(env: Env, m: Mem, id: string, decision: string, operator: string, ids: Ids, now: string)
    requires KeyedById(m) && ids.navyCoaId != id && ids.tokenId != ids.navyTokenId
    ensures var o := Decide(env, m, id, decision, operator, ids, now);
      && (o.response != Approved ==> o.mem.inbox == m.inbox && o.mem.acked == m.acked && Depth(o.mem) == Depth(m))
      && (o.response == Approved ==>
            var p := m.proposals[id];
            && o.mem.acked == m.acked
            && Depth(o.mem) == Depth(m) + Raises(m, id) + (if NavyUnit(p).Some? then Raises(m, ids.navyCoaId) else 0)
            && id in o.mem.inbox && o.mem.inbox[id].unit == p.unit
            && o.mem.inbox[id].coa == p.coa
            && (NavyUnit(p).Some? ==>
                  var first, second := o.mem.inbox[id], o.mem.inbox[ids.navyCoaId];
                  && o.mem.inbox.Keys == m.inbox.Keys + {id, ids.navyCoaId}
                  && second.unit == NavyUnit(p).value != first.unit
                  && second.coa.pairedWith == Some(id)
                  && second.token.tokenId != first.token.tokenId
                  && second.token.coaId != first.token.coaId)
            && (NavyUnit(p).None? ==> o.mem.inbox.Keys == m.inbox.Keys + {id}))
  {
    var word := env.norm(decision);
    if id in m.proposals && word in YES_WORDS {
      var p := m.proposals[id];
      var o := Decided(m, id, DecisionToken(env, ids.tokenId, p.coa.id, true, operator, now), operator);
      var t := Issued(env, p.coa, ids.tokenId, p.unit, operator, now);
      DepthAfterIssue(o, t);
      if NavyUnit(p).Some? {
        var copy := NavyCopy(p.coa, ids.navyCoaId);
        DepthAfterIssue(Issue(o, t), Issued(env, copy, ids.navyTokenId, NavyUnit(p).value, operator, now));
      }
    }
  }

  /** An ack takes its own tasking off its own unit's list and touches no other list;
      a second ack of the same tasking is accepted and changes no list at all. */
  lemma AckHidesOnlyItself(env: Env, m: Mem, req: AckRequest, ackId: string, now: string, unit: string)
    requires InboxKeyedById(m)
    ensures var o := Acknowledge(env, m, req, ackId, now);
      && Listed(o.mem, unit) == (if o.response == Acknowledged then Listed(m, unit) - {req.coaId} else Listed(m, unit))
      && (o.response == Acknowledged <==> req.coaId in m.inbox && m.inbox[req.coaId].unit == req.unit)
      && (o.response == Acknowledged ==>
            && Depth(o.mem) == Depth(m) - (if req.coaId in m.acked then 0 else 1)
            && Acknowledge(env, o.mem, req, ackId, now).response == Acknowledged
            && Listed(Acknowledge(env, o.mem, req, ackId, now).mem, unit) == Listed(o.mem, unit))
  {
    var o := Acknowledge(env, m, req, ackId, now);
    if o.response == Acknowledged {
      assert Unacked(o.mem) == Unacked(m) - {req.coaId};
      assert Listed(o.mem, unit) == Listed(m, unit) - {req.coaId};
      var again := Acknowledge(env, o.mem, req, ackId, now);
      assert Listed(again.mem, unit) == Listed(o.mem, unit);
    }
  }

  predicate AckedHeld(sys: Sys) {
    sys.mem.acked <= sys.mem.inbox.Keys && sys.db.acked <= sys.db.inbox.Keys
  }

  /** An ack whose mark reaches the store and whose own inbox row does not. */
  predicate LosesAckedRow(s: Step) {
    s.action.DoAck? && 0 !in s.faults && 1 in s.faults
  }

  predicate KeepsInbox(w: Write) {
    w.PutProposal? || w.DropProposal? || w.PutInbox?
  }

  lemma {:induction false} InboxRowsStay(db: Db, ws: seq<Write>, faults: set<nat>)
    requires forall i :: 0 <= i < |ws| ==> KeepsInbox(ws[i])
    ensures var out := ApplyWrites(db, ws, faults); out.acked == db.acked && db.inbox.Keys <= out.inbox.Keys
  {
    if ws != [] {
      InboxRowsStay(db, ws[..|ws| - 1], faults);
      assert KeepsInbox(ws[|ws| - 1]);
    }
  }

  lemma AckWrites(db: Db, id: string, t: Tasking, faults: set<nat>)
    ensures var out := ApplyWrites(db, [AddAcked(id), PutInbox(id, t)], faults);
      && out.acked == (if 0 in faults then db.acked else db.acked + {id})
      && out.inbox == (if 1 in faults then db.inbox else db.inbox[id := t])
  {
    WriteOneMore(db, [], AddAcked(id), faults);
    WriteOneMore(db, [AddAcked(id)], PutInbox(id, t), faults);
    assert [] + [AddAcked(id)] == [AddAcked(id)];
    assert [AddAcked(id)] + [PutInbox(id, t)] == [AddAcked(id), PutInbox(id, t)];
  }

  lemma ClearWrites(db: Db, faults: set<nat>)
    ensures ApplyWrites(db, [Clear], faults) == if 0 in faults then db else EMPTY.db
  {
    assert [Clear][..0] == [];
  }

  lemma InboxGrows(env: Env, m: Mem, a: Action, now: string)
    requires a != DoRestart && a != DoReset
    ensures var o := Handle(env, m, a, now);
      && m.inbox.Keys <= o.mem.inbox.Keys && m.acked <= o.mem.acked <= m.acked + o.mem.inbox.Keys
      && (!a.DoAck? ==> forall i :: 0 <= i < |o.writes| ==> KeepsInbox(o.writes[i]))
  {
  }

  lemma NextHeld(env: Env, sys: Sys, s: Step)
    requires AckedHeld(sys) && !LosesAckedRow(s)
    ensures AckedHeld(Next(env, sys, s))
  {
    if s.action == DoReset {
      ClearWrites(sys.db, s.faults);
    } else if s.action != DoRestart {
      var o := Handle(env, sys.mem, s.action, s.now);
      InboxGrows(env, sys.mem, s.action, s.now);
      if !s.action.DoAck? {
        InboxRowsStay(sys.db, o.writes, s.faults);
      } else if o.response == Acknowledged {
        AckWrites(sys.db, o.writes[0].id, o.writes[1].tasking, s.faults);
      }
    }
  }

  /** Acked ids stay within the inbox, memory and store alike, over every run in which no
      ack loses only its inbox row, whatever else the store refuses. */
  lemma {:induction false} AckedWithinInbox(env: Env, run: seq<Step>)
    requires forall i :: 0 <= i < |run| ==> !LosesAckedRow(run[i])
    ensures var sys := After(env, EMPTY, run);
      sys.mem.acked <= sys.mem.inbox.Keys && sys.db.acked <= sys.db.inbox.Keys
  {
    if run != [] {
      var n := |run| - 1;
      AckedWithinInbox(env, run[..n]);
      NextHeld(env, After(env, EMPTY, run[..n]), run[n]);
    }
  }

  /** Where the store never got the tasking's row, that ack is what it takes: after a
      restart the acked ids are within the inbox exactly when it did not happen, or nothing
      is read. */
  lemma LawNeedsTheAckedRow(env: Env, sys: Sys, ack: Step, restart: Step)
    requires AckedHeld(sys) && ack.action.DoAck? && restart.action == DoRestart
    requires Handle(env, sys.mem, ack.action, ack.now).response == Acknowledged
    requires ack.action.req.coaId !in sys.db.inbox
    ensures var m := Next(env, Next(env, sys, ack), restart).mem;
      m.acked <= m.inbox.Keys <==> !LosesAckedRow(ack) || FailsToRead(restart)
  {
    var o := Handle(env, sys.mem, ack.action, ack.now);
    AckWrites(sys.db, o.writes[0].id, o.writes[1].tasking, ack.faults);
  }

  /** And it can happen: an autonomous tasking whose row was lost, acked with the row lost
      again, is after a restart acked and in no inbox. */
  lemma LostRowLeavesAckAlone(env: Env, coa: Coa)
    requires Safe(env.rules, ApplyDefaults(env.policy, coa)) && ApplyDefaults(env.policy, coa).tier == Tier0Autonomous
    ensures
      var run := [Step(DoPropose(Given(coa), "unit", "t"), "1", {0}),
                  Step(DoAck(AckRequest(coa.id, "unit", None, "OK", ""), "a"), "2", {1}),
                  Step(DoRestart, "3", {})];
      var m := After(env, EMPTY, run).mem;
      coa.id in m.acked && coa.id !in m.inbox
  {
    var first := Step(DoPropose(Given(coa), "unit", "t"), "1", {0});
    var second := Step(DoAck(AckRequest(coa.id, "unit", None, "OK", ""), "a"), "2", {1});
    var third := Step(DoRestart, "3", {});
    ThreeSteps(env, EMPTY, first, second, third);
    PassMeansSafe(env.rules, {}, ApplyDefaults(env.policy, coa));
    var issued := Next(env, EMPTY, first);
    FirstWriteLost(EMPTY.db, Handle(env, EMPTY.mem, first.action, first.now).writes);
    assert issued.db == EMPTY.db && coa.id in issued.mem.inbox;
    LawNeedsTheAckedRow(env, issued, second, third);
    var o := Handle(env, issued.mem, second.action, second.now);
    AckWrites(issued.db, coa.id, o.writes[1].tasking, second.faults);
  }

  lemma FirstWriteLost(db: Db, ws: seq<Write>)
    requires |ws| == 1
    ensures ApplyWrites(db, ws, {0}) == db
  {
    assert ws[..0] == [];
  }
}
