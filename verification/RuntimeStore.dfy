/** `RuntimeStore`: three keyed SQLite tables, written best-effort. The argument `ok`
    of a write says whether SQLite accepted it. */
module Store {
  import opened Json
  import opened RuntimeModel

  class RuntimeStore {
    const connected: bool
    var proposals: map<string, Pending>
    var inbox: map<string, Tasking>
    var acked: set<string>

    function Tables(): Db
      reads this
    {
      Db(proposals, inbox, acked)
    }

    constructor (connected: bool, onDisk: Db)
      ensures this.connected == connected && Tables() == onDisk
    {
      this.connected := connected;
      proposals, inbox, acked := onDisk.proposals, onDisk.inbox, onDisk.acked;
    }

    method UpsertProposal(id: string, payload: Pending, ok: bool)
      modifies this`proposals
      ensures proposals == if connected && ok then old(proposals)[id := payload] else old(proposals)
    {
      if !connected || !ok {
        return;
      }
      proposals := proposals[id := payload];
    }

    method DeleteProposal(id: string, ok: bool)
      modifies this`proposals
      ensures proposals == if connected && ok then old(proposals) - {id} else old(proposals)
    {
      if !connected || !ok {
        return;
      }
      proposals := proposals - {id};
    }

    method UpsertInbox(id: string, tasking: Tasking, ok: bool)
      modifies this`inbox
      ensures inbox == if connected && ok then old(inbox)[id := tasking] else old(inbox)
    {
      if !connected || !ok {
        return;
      }
      inbox := inbox[id := tasking];
    }

    method AddAcked(id: string, ok: bool)
      modifies this`acked
      ensures acked == if connected && ok then old(acked) + {id} else old(acked)
    {
      if !connected || !ok {
        return;
      }
      acked := acked + {id};
    }

    method Clear(ok: bool)
      modifies this
      ensures Tables() == if connected && ok then Db(map[], map[], {}) else old(Tables())
    {
      if !connected || !ok {
        return;
      }
      proposals, inbox, acked := map[], map[], {};
    }

    /** Rows are read one by one, in any order; no connection or a failed read is an
        empty picture. */
    method LoadAll(ok: bool) returns (db: Db)
      ensures db == if connected && ok then Tables() else Db(map[], map[], {})
    {
      if !connected || !ok {
        return Db(map[], map[], {});
      }
      var p: map<string, Pending> := map[];
      var rows := proposals.Keys;
      while rows != {}
        invariant rows <= proposals.Keys
        invariant p == map id | id in proposals && id !in rows :: proposals[id]
        decreases |rows|
      {
        var id :| id in rows;
        p := p[id := proposals[id]];
        rows := rows - {id};
      }
      var b: map<string, Tasking> := map[];
      rows := inbox.Keys;
      while rows != {}
        invariant rows <= inbox.Keys
        invariant b == map id | id in inbox && id !in rows :: inbox[id]
        decreases |rows|
      {
        var id :| id in rows;
        b := b[id := inbox[id]];
        rows := rows - {id};
      }
      assert p == proposals && b == inbox;
      db := Db(p, b, acked);
    }
  }
}
