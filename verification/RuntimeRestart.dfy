/** The SQLite mirror: after every step it holds exactly the tasking state, so a
    restart at any point changes nothing that later decisions and acks can see. */
module RuntimeRestart {
  import opened Json
  import opened GateTypes
  import opened Interlock
  import opened LatencyGate
  import opened RuntimeModel

  function StoredAll(proposals: map<string, Pending>): map<string, Pending> {
    map id | id in proposals :: Stored(proposals[id])
  }

  /** The tables a memory state should be mirrored by. */
  function MirrorOf(m: Mem): Db {
    Db(StoredAll(m.proposals), m.inbox, m.acked)
  }

  predicate Mirrored(sys: Sys) {
    sys.db == MirrorOf(sys.mem)
  }

  /** A handler's writes bring the tables from the old mirror to the new one. */
  predicate WritesMirror(m: Mem, o: Outcome) {
    ApplyWrites(MirrorOf(m), o.writes, {}) == MirrorOf(o.mem)
  }

  lemma IssueMirrors(m: Mem, o: Outcome, t: Tasking)
    requires WritesMirror(m, o)
    ensures WritesMirror(m, Issue(o, t))
  {
    var ws := Issue(o, t).writes;
    assert ws[..|ws| - 1] == o.writes;
  }

  lemma SingleWrite(db: Db, w: Write)
    ensures ApplyWrites(db, [w], {}) == ApplyWrite(db, w)
  {
    assert [w][..0] == [];
  }

  lemma RecordMirrors(m: Mem, id: string, token: Token, operator: string)
    requires id in m.proposals
    ensures WritesMirror(m, Decided(m, id, token, operator))
  {
    SingleWrite(MirrorOf(m), DropProposal(id));
    assert StoredAll(m.proposals - {id}) == StoredAll(m.proposals) - {id};
  }

  lemma DecideMirrors(env: Env, m: Mem, id: string, decision: string, operator: string, ids: Ids, now: string)
    ensures WritesMirror(m, Decide(env, m, id, decision, operator, ids, now))
  {
    var word := env.norm(decision);
    if id in m.proposals && (word in YES_WORDS || word in NO_WORDS) {
      var p := m.proposals[id];
      var yes := word in YES_WORDS;
      var token := DecisionToken(env, ids.tokenId, p.coa.id, yes, operator, now);
      RecordMirrors(m, id, token, operator);
      if yes {
        var o := Decided(m, id, token, operator);
        var t := Issued(env, p.coa, ids.tokenId, p.unit, operator, now);
        IssueMirrors(m, o, t);
        if NavyUnit(p).Some? {
          var copy := NavyCopy(p.coa, ids.navyCoaId);
          IssueMirrors(m, Issue(o, t), Issued(env, copy, ids.navyTokenId, NavyUnit(p).value, operator, now));
        }
      }
    }
  }

  lemma QueueMirrors(m: Mem, id: string, p: Pending)
    ensures ApplyWrites(MirrorOf(m), [PutProposal(id, p)], {}) == MirrorOf(m.(proposals := m.proposals[id := p]))
  {
    SingleWrite(MirrorOf(m), PutProposal(id, p));
    assert StoredAll(m.proposals[id := p]) == StoredAll(m.proposals)[id := Stored(p)];
  }

  lemma ProposeMirrors(env: Env, m: Mem, request: Request, unit: string, tokenId: string, now: string)
    ensures WritesMirror(m, Propose(env, m, request, unit, tokenId, now))
  {
    if request.Given? {
      var coa := ApplyDefaults(env.policy, request.coa);
      QueueMirrors(m, coa.id, Pending(coa, unit, now, None));
      var token := Seal(env.hash, Token(tokenId, coa.id, APPROVED, now, Some("autonomous"), Some("tier0_auto"), ""));
      SingleWrite(MirrorOf(m), PutInbox(coa.id, Tasking(coa, token, unit, now, PENDING_ACK, None)));
    }
  }

  lemma AcknowledgeMirrors(env: Env, m: Mem, req: AckRequest, ackId: string, now: string)
    ensures WritesMirror(m, Acknowledge(env, m, req, ackId, now))
  {
    var o := Acknowledge(env, m, req, ackId, now);
    if o.response == Acknowledged {
      assert o.writes[..1] == [AddAcked(req.coaId)];
      SingleWrite(MirrorOf(m), AddAcked(req.coaId));
    }
  }

  lemma HandleMirrors(env: Env, m: Mem, a: Action, now: string)
    requires a != DoRestart
    ensures WritesMirror(m, Handle(env, m, a, now))
  {
    match a
    case DoPropose(request, unit, tokenId) => ProposeMirrors(env, m, request, unit, tokenId, now);
    case DoGuardrail(scenario, unit, navyUnit, freshId, offshore) =>
      var o := Guardrail(env, m, scenario, unit, navyUnit, freshId, offshore, now);
      if o.response == OptionBQueued {
        QueueMirrors(m, o.writes[0].id, o.writes[0].pending);
      }
    case DoDecide(id, decision, operator, ids) => DecideMirrors(env, m, id, decision, operator, ids, now);
    case DoAck(req, ackId) => AcknowledgeMirrors(env, m, req, ackId, now);
    case DoReset => SingleWrite(MirrorOf(m), Clear);
  }

  lemma RestartKeepsMirror(sys: Sys)
    requires Mirrored(sys)
    ensures Mirrored(sys.(mem := Hydrate(sys.db, sys.mem.trail)))
  {
    assert StoredAll(StoredAll(sys.mem.proposals)) == StoredAll(sys.mem.proposals);
  }

  /** If no store write fails, the store mirrors memory after every step of every run. */
  lemma {:induction false} EveryRunIsMirrored(env: Env, sys: Sys, run: seq<Step>)
    requires Mirrored(sys) && Faultless(run)
    ensures Mirrored(After(env, sys, run))
  {
    if run != [] {
      var n := |run| - 1;
      EveryRunIsMirrored(env, sys, run[..n]);
      var before := After(env, sys, run[..n]);
      if run[n].action == DoRestart {
        RestartKeepsMirror(before);
      } else {
        HandleMirrors(env, before.mem, run[n].action, run[n].now);
      }
    }
  }

  /** A reset empties both sides, unless the store refuses: then a restart brings the
      cleared tasking back. */
  lemma ResetEmptiesBoth(env: Env, sys: Sys, s: Step)
    requires s.action == DoReset
    ensures var out := Next(env, sys, s);
      && out.mem == Mem(map[], map[], {}, {}, sys.mem.trail)
      && (0 !in s.faults ==> out.db == EMPTY.db)
      && (0 in s.faults ==>
            Next(env, out, Step(DoRestart, s.now, {})).mem == Hydrate(sys.db, sys.mem.trail))
  {
    var ws := ResetAll(sys.mem).writes;
    assert ws[..0] == [];
    assert ApplyWrites(sys.db, ws, s.faults) == if 0 in s.faults then sys.db else EMPTY.db;
  }

  /** A restart keeps the mirror exactly when its read succeeds or there is nothing to read;
      the rows stay, so the next start that can read them brings the state back. */
  lemma FailedReadIsTemporary(env: Env, sys: Sys, s: Step, again: Step)
    requires Mirrored(sys) && s.action == again.action == DoRestart
    ensures Mirrored(Next(env, sys, s)) <==> 0 !in s.faults || sys.db == EMPTY.db
    ensures 0 !in again.faults ==> Next(env, Next(env, sys, s), again) == Next(env, sys, again)
  {
    RestartKeepsMirror(sys);
    assert StoredAll(map[]) == map[];
  }

  predicate NamesUnits(db: Db) {
    forall id :: id in db.proposals ==> db.proposals[id].navy != Some("")
  }

  lemma {:induction false} WritesNameUnits(db: Db, ws: seq<Write>, faults: set<nat>)
    requires NamesUnits(db)
    ensures NamesUnits(ApplyWrites(db, ws, faults))
  {
    if ws != [] {
      WritesNameUnits(db, ws[..|ws| - 1], faults);
    }
  }

  /** Over every run, whatever the store refuses, no stored proposal carries an empty navy unit. */
  lemma {:induction false} EveryRowNamesUnits(env: Env, run: seq<Step>)
    ensures NamesUnits(After(env, EMPTY, run).db)
  {
    if run != [] {
      var n := |run| - 1;
      var before := After(env, EMPTY, run[..n]);
      EveryRowNamesUnits(env, run[..n]);
      if run[n].action != DoRestart {
        WritesNameUnits(before.db, Handle(env, before.mem, run[n].action, run[n].now).writes, run[n].faults);
      }
    }
  }

  /** And an accepted put stores everything else of a proposal as it is. */
  lemma PutStoresTheRest(db: Db, id: string, p: Pending)
    ensures var row := ApplyWrites(db, [PutProposal(id, p)], {}).proposals[id];
      row.coa == p.coa && row.unit == p.unit && row.queuedAt == p.queuedAt &&
      (row.navy == p.navy || (p.navy == Some("") && row.navy == None))
  {
    SingleWrite(db, PutProposal(id, p));
  }

  // ------------------------------------------------------- restarts are invisible

  /** Equal up to active keys and the spelling of an absent navy unit. */
  predicate Same(a: Mem, b: Mem) {
    MirrorOf(a) == MirrorOf(b) && a.trail == b.trail
  }

  /** Actions that do not consult the active keys. */
  predicate Settling(a: Action) {
    a.DoDecide? || a.DoAck? || a.DoReset? || a.DoRestart?
  }

  lemma SameProposals(a: Mem, b: Mem, id: string)
    requires Same(a, b)
    ensures id in a.proposals <==> id in b.proposals
    ensures id in a.proposals ==>
      && a.proposals[id].coa == b.proposals[id].coa
      && a.proposals[id].unit == b.proposals[id].unit
      && NavyUnit(a.proposals[id]) == NavyUnit(b.proposals[id])
  {
    assert id in a.proposals <==> id in StoredAll(a.proposals);
    assert id in b.proposals <==> id in StoredAll(b.proposals);
    if id in a.proposals {
      assert StoredAll(a.proposals)[id] == StoredAll(b.proposals)[id];
    }
  }

  lemma IssueSame(o: Outcome, q: Outcome, t: Tasking)
    requires Same(o.mem, q.mem) && o.response == q.response
    ensures Same(Issue(o, t).mem, Issue(q, t).mem) && Issue(o, t).response == Issue(q, t).response
  {
  }

  lemma RecordSame(a: Mem, b: Mem, id: string, token: Token, operator: string)
    requires Same(a, b) && id in a.proposals && id in b.proposals
    ensures Same(Decided(a, id, token, operator).mem, Decided(b, id, token, operator).mem)
  {
    SameProposals(a, b, id);
    assert StoredAll(a.proposals - {id}) == StoredAll(a.proposals) - {id};
    assert StoredAll(b.proposals - {id}) == StoredAll(b.proposals) - {id};
  }

  lemma DecideSame(env: Env, a: Mem, b: Mem, id: string, decision: string, operator: string, ids: Ids, now: string)
    requires Same(a, b)
    ensures var o := Decide(env, a, id, decision, operator, ids, now);
      var q := Decide(env, b, id, decision, operator, ids, now);
      o.response == q.response && Same(o.mem, q.mem)
  {
    SameProposals(a, b, id);
    var word := env.norm(decision);
    if id in a.proposals && (word in YES_WORDS || word in NO_WORDS) {
      var p, r := a.proposals[id], b.proposals[id];
      var yes := word in YES_WORDS;
      var token := DecisionToken(env, ids.tokenId, p.coa.id, yes, operator, now);
      RecordSame(a, b, id, token, operator);
      if yes {
        var o, q := Decided(a, id, token, operator), Decided(b, id, token, operator);
        var t := Issued(env, p.coa, ids.tokenId, p.unit, operator, now);
        IssueSame(o, q, t);
        if NavyUnit(p).Some? {
          IssueSame(Issue(o, t), Issue(q, t),
                    Issued(env, NavyCopy(p.coa, ids.navyCoaId), ids.navyTokenId, NavyUnit(p).value, operator, now));
        }
      }
    }
  }

  /** Such an action answers the same and leaves the same state from the same states. */
  lemma SettlingSame(env: Env, a: Mem, b: Mem, action: Action, now: string)
    requires Same(a, b) && Settling(action) && action != DoRestart
    ensures var o, q := Handle(env, a, action, now), Handle(env, b, action, now);
      o.response == q.response && Same(o.mem, q.mem)
  {
    if action.DoDecide? {
      DecideSame(env, a, b, action.id, action.decision, action.operator, action.ids, now);
    }
  }

  function WithoutRestarts(run: seq<Step>): seq<Step> {
    if run == [] then []
    else
      WithoutRestarts(run[..|run| - 1]) + if run[|run| - 1].action == DoRestart then [] else [run[|run| - 1]]
  }

  /** Over any run of decisions, acks and resets, restarts may be put anywhere: the
      tasking state and the trail come out as if there had been none. */
  lemma {:induction false} RestartsAreInvisible(env: Env, sys: Sys, run: seq<Step>)
    requires Mirrored(sys) && Faultless(run)
    requires forall i :: 0 <= i < |run| ==> Settling(run[i].action)
    ensures Same(After(env, sys, run).mem, After(env, sys, WithoutRestarts(run)).mem)
  {
    if run != [] {
      var n := |run| - 1;
      RestartsAreInvisible(env, sys, run[..n]);
      var x, y := After(env, sys, run[..n]), After(env, sys, WithoutRestarts(run[..n]));
      EveryRunIsMirrored(env, sys, run[..n]);
      if run[n].action == DoRestart {
        RestartKeepsMirror(x);
        assert WithoutRestarts(run) == WithoutRestarts(run[..n]);
      } else {
        SettlingSame(env, x.mem, y.mem, run[n].action, run[n].now);
        var w := WithoutRestarts(run);
        assert w[..|w| - 1] == WithoutRestarts(run[..n]) && w[|w| - 1] == run[n];
      }
    }
  }
}
