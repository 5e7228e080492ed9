/** The signed sidecar chain of `core/audit_eds.py`. The Rust bridge is abstract:
    it may refuse to sign, and its digests are arbitrary functions. */
module EdsSidecar {
  import opened Json

  type Bytes = seq<int>

  const ZERO_HASH: Bytes :=
    [0, 0, 0, 0, 0, 0, 0, 0, 0, 0, 0, 0, 0, 0, 0, 0, 0, 0, 0, 0, 0, 0, 0, 0, 0, 0, 0, 0, 0, 0, 0, 0]

  datatype EdsRecord = EdsRecord(
    sequence: nat,
    timestampMs: int,
    payloadHash: Bytes,
    signature: Bytes,
    prev: Bytes,
    deviceId: string,
    objectRef: string)

  datatype Bridge = Bridge(
    payloadHash: string -> Bytes,
    sign: EdsRecord -> Bytes,
    recordHash: EdsRecord -> Bytes,
    fails: (nat, string, string) -> bool)
  {
    /** `sign_record`: an absent predecessor is stored as the zero hash. */
    function SignRecord(deviceId: string, sequence: nat, timestampMs: int, payload: string,
                        prev: Option<Bytes>, objectRef: string): EdsRecord
    {
      var p := if prev.Some? then prev.value else ZERO_HASH;
      var unsigned := EdsRecord(sequence, timestampMs, payloadHash(payload), [], p, deviceId, objectRef);
      unsigned.(signature := sign(unsigned))
    }
  }

  function ChainHead(bridge: Bridge, chain: seq<EdsRecord>): Bytes {
    if chain == [] then ZERO_HASH else bridge.recordHash(chain[|chain| - 1])
  }

  function ChainSequence(chain: seq<EdsRecord>): nat {
    if chain == [] then 0 else chain[|chain| - 1].sequence
  }

  /** The chain after one `append_payload`: unchanged when the bridge refuses. */
  function Appended(bridge: Bridge, deviceId: string, chain: seq<EdsRecord>,
                    payload: string, objectRef: string, now: int): seq<EdsRecord>
  {
    var sequence := ChainSequence(chain) + 1;
    if bridge.fails(sequence, payload, objectRef) then chain
    else
      chain + [bridge.SignRecord(deviceId, sequence, now, payload, Some(ChainHead(bridge, chain)), objectRef)]
  }

  /** A chain sealing exactly these payloads: numbered 1..n, each record naming the
      hash of the one before it, carrying the digest of its own payload and signed. */
  predicate Seals(bridge: Bridge, payloads: seq<string>, chain: seq<EdsRecord>) {
    |chain| == |payloads| &&
    forall i :: 0 <= i < |chain| ==> SealsAt(bridge, payloads[i], chain, i)
  }

  predicate SealsAt(bridge: Bridge, payload: string, chain: seq<EdsRecord>, i: nat)
    requires i < |chain|
  {
    && chain[i].sequence == i + 1
    && chain[i].prev == (if i == 0 then ZERO_HASH else bridge.recordHash(chain[i - 1]))
    && chain[i].payloadHash == bridge.payloadHash(payload)
    && chain[i].signature == bridge.sign(chain[i].(signature := []))
  }

  lemma SignedSeals(bridge: Bridge, deviceId: string, payloads: seq<string>, chain: seq<EdsRecord>,
                    payload: string, objectRef: string, now: int)
    requires Seals(bridge, payloads, chain)
    requires !bridge.fails(|chain| + 1, payload, objectRef)
    ensures Seals(bridge, payloads + [payload], Appended(bridge, deviceId, chain, payload, objectRef, now))
  {
    var n := |chain|;
    SequenceIsLength(bridge, payloads, chain);
    var next := Appended(bridge, deviceId, chain, payload, objectRef, now);
    forall i | 0 <= i < |next|
      ensures SealsAt(bridge, (payloads + [payload])[i], next, i)
    {
      assert next[..i] == chain[..i];
      if i < n {
        assert SealsAt(bridge, payloads[i], chain, i);
      } else {
        assert chain[..n] == chain;
        assert next[n].(signature := []).(signature := next[n].signature) == next[n];
      }
    }
  }

  lemma SequenceIsLength(bridge: Bridge, payloads: seq<string>, chain: seq<EdsRecord>)
    requires Seals(bridge, payloads, chain)
    ensures ChainSequence(chain) == |chain|
  {
    if chain != [] {
      assert SealsAt(bridge, payloads[|chain| - 1], chain, |chain| - 1);
    }
  }

  /** An append to a sealing chain seals the longer list exactly when the bridge signs. */
  lemma AppendSeals(bridge: Bridge, deviceId: string, payloads: seq<string>, chain: seq<EdsRecord>,
                    payload: string, objectRef: string, now: int)
    requires Seals(bridge, payloads, chain)
    ensures Seals(bridge, payloads + [payload], Appended(bridge, deviceId, chain, payload, objectRef, now)) <==>
            !bridge.fails(|chain| + 1, payload, objectRef)
  {
    SequenceIsLength(bridge, payloads, chain);
    if !bridge.fails(|chain| + 1, payload, objectRef) {
      SignedSeals(bridge, deviceId, payloads, chain, payload, objectRef, now);
    }
  }

  /** One chain cannot seal two payload lists without a payload-digest collision. */
  lemma SealCommits(bridge: Bridge, p: seq<string>, q: seq<string>, chain: seq<EdsRecord>)
    requires Seals(bridge, p, chain) && Seals(bridge, q, chain)
    ensures p == q || exists i :: 0 <= i < |p| && p[i] != q[i] && bridge.payloadHash(p[i]) == bridge.payloadHash(q[i])
  {
    if p != q {
      var i :| 0 <= i < |p| && p[i] != q[i];
      assert SealsAt(bridge, p[i], chain, i) && SealsAt(bridge, q[i], chain, i);
    }
  }

  class EdsChainWriter {
    const bridge: Bridge
    const deviceId: string
    var chain: seq<EdsRecord>  // contents of eds_chain.json
    var prevHash: Bytes
    var sequence: nat

    ghost predicate Valid()
      reads this
    {
      prevHash == ChainHead(bridge, chain) && sequence == ChainSequence(chain)
    }

    constructor (bridge: Bridge, deviceId: string, onDisk: seq<EdsRecord>)
      ensures Valid() && this.bridge == bridge && this.deviceId == deviceId && chain == onDisk
    {
      this.bridge := bridge;
      this.deviceId := deviceId;
      chain := onDisk;
      prevHash := ZERO_HASH;
      sequence := 0;
      new;
      Rewind();
    }

    method Rewind()
      modifies this`prevHash, this`sequence
      ensures Valid()
    {
      if |chain| == 0 {
        prevHash := ZERO_HASH;
        sequence := 0;
        return;
      }
      sequence := chain[|chain| - 1].sequence;
      prevHash := bridge.recordHash(chain[|chain| - 1]);
    }

    method ReplaceRecords(records: seq<EdsRecord>)
      modifies this
      ensures Valid() && chain == records
    {
      chain := records;
      Rewind();
    }

    method Clear()
      modifies this
      ensures Valid() && chain == []
    {
      chain := [];
      prevHash := ZERO_HASH;
      sequence := 0;
    }

    method AppendPayload(payload: string, objectRef: string, now: int) returns (r: Option<EdsRecord>)
      requires Valid()
      modifies this
      ensures Valid()
      ensures chain == Appended(bridge, deviceId, old(chain), payload, objectRef, now)
      ensures r.None? <==> chain == old(chain)
      ensures r.Some? ==> chain == old(chain) + [r.value]
      ensures r.Some? ==>
        && r.value.deviceId == deviceId && r.value.objectRef == objectRef && r.value.timestampMs == now
        && r.value.payloadHash == bridge.payloadHash(payload)
        && r.value.sequence == (if old(chain) == [] then 1 else old(chain)[|old(chain)| - 1].sequence + 1)
    {
      var next := sequence + 1;
      var prev := if prevHash == ZERO_HASH then None else Some(prevHash);
      if bridge.fails(next, payload, objectRef) {
        return None;
      }
      var rec := bridge.SignRecord(deviceId, next, now, payload, prev, objectRef);
      prevHash := bridge.recordHash(rec);
      sequence := next;
      chain := chain + [rec];
      r := Some(rec);
    }
  }

  // ------------------------------------------------------------- demo corruption

  function FlipRef(s: string): string {
    var t := if s == "" then "x" else s;
    (if t[0] != 'X' then "X" else "Y") + t[1..]
  }

  /** `_corrupt_eds_records`: bump one payload-hash byte of one record. */
  function CorruptRecords(chain: seq<EdsRecord>, index: nat): seq<EdsRecord> {
    if chain == [] then chain
    else
      var k := if index < |chain| then index else 0;
      var rec := chain[k];
      if rec.payloadHash != [] then
        chain[k := rec.(payloadHash := rec.payloadHash[0 := (rec.payloadHash[0] + 1) % 256])]
      else
        chain[k := rec.(objectRef := FlipRef(rec.objectRef))]
  }

  /** The corruption touches one record, the one asked for if there is one, and in it one byte
      of the payload digest. */
  lemma CorruptionIsOneByte(chain: seq<EdsRecord>, index: nat)
    requires chain != []
    ensures var k, out := if index < |chain| then index else 0, CorruptRecords(chain, index);
      && |out| == |chain| && (forall i :: 0 <= i < |chain| && i != k ==> out[i] == chain[i])
      && var was, now := chain[k], out[k];
      && (was.payloadHash != [] ==>
            && now == was.(payloadHash := now.payloadHash) && |now.payloadHash| == |was.payloadHash|
            && now.payloadHash[0] == (was.payloadHash[0] + 1) % 256 && now.payloadHash[1..] == was.payloadHash[1..])
      && (was.payloadHash == [] ==> now == was.(objectRef := now.objectRef) && now != was)
  {
  }

  /** A corrupted sidecar no longer seals the payloads it sealed. */
  lemma CorruptionUnseals(bridge: Bridge, payloads: seq<string>, chain: seq<EdsRecord>, index: nat)
    requires Seals(bridge, payloads, chain) && chain != []
    requires forall p :: p in payloads ==> bridge.payloadHash(p) != []
    ensures !Seals(bridge, payloads, CorruptRecords(chain, index))
  {
    var k := if index < |chain| then index else 0;
    assert SealsAt(bridge, payloads[k], chain, k);
    assert payloads[k] in payloads;
    var out := CorruptRecords(chain, index);
    assert out[k].payloadHash[0] != chain[k].payloadHash[0];
    assert !SealsAt(bridge, payloads[k], out, k);
  }
}
