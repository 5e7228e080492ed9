/** `AuditLogger`: the jsonl file, the cached head and the signed sidecar kept in
    lock-step with it. */
module AuditLog {
  import opened Json
  import opened AuditChain
  import opened ChainTheorems
  import opened EdsSidecar

  // ---------------------------------------------------------------- specification

  function EventBody(prev: string, name: string, severity: string, time: string, data: Dict): Dict {
    map[
      "class_name" := Text("Security Finding"),
      "activity_name" := Text(name),
      "severity" := Text(severity),
      "time" := Text(time),
      "metadata" := Object(data),
      "prev_hash" := Text(prev)
    ]
  }

  /** The record `append` writes on top of a head. */
  function SealedRecord(codec: Codec, prev: string, name: string, severity: string, time: string, data: Dict): Record {
    var body := EventBody(prev, name, severity, time, data);
    body["hash" := Text(codec.Digest(body))]
  }

  lemma SealedRecordLinks(codec: Codec, prev: string, name: string, severity: string, time: string, data: Dict)
    ensures var rec := SealedRecord(codec, prev, name, severity, time, data);
      && Sealed(codec, rec)
      && LinksTo(rec, prev)
      && Body(rec) == EventBody(prev, name, severity, time, data)
      && HeadOf(codec, [rec]) == codec.Digest(Body(rec))
  {
    var body := EventBody(prev, name, severity, time, data);
    assert Body(SealedRecord(codec, prev, name, severity, time, data)) == body;
  }

  /** What an appended record says, entry by entry, and that it says no more. */
  lemma SealedRecordSays(codec: Codec, prev: string, name: string, severity: string, time: string, data: Dict)
    ensures var rec := SealedRecord(codec, prev, name, severity, time, data);
      && rec.Keys == {"class_name", "activity_name", "severity", "time", "metadata", "prev_hash", "hash"}
      && rec["class_name"] == Text("Security Finding") && rec["activity_name"] == Text(name)
      && rec["severity"] == Text(severity) && rec["time"] == Text(time)
      && rec["metadata"] == Object(data) && rec["prev_hash"] == Text(prev)
      && rec["hash"] == Text(codec.Digest(rec - {"hash"}))
  {
    var rec := SealedRecord(codec, prev, name, severity, time, data);
    assert rec - {"hash"} == EventBody(prev, name, severity, time, data);
  }

  /** An append onto a trail whose last record stores a string hash: one more record,
      the same errors, the same break index. */
  lemma AppendKeepsVerdict(codec: Codec, recs: seq<Record>, rec: Record)
    requires Sealed(codec, rec) && LinksTo(rec, HeadOf(codec, recs))
    ensures HeadOf(codec, recs + [rec]) == codec.Digest(Body(rec))
    ensures recs == [] || StringHash(recs[|recs| - 1]) ==>
      Verdict(codec, recs + [rec]) == Verdict(codec, recs).(total := |recs| + 1)
  {
    AppendConservesErrors(codec, recs, rec);
    assert (recs + [rec])[|recs|] == rec;
    if recs == [] || StringHash(recs[|recs| - 1]) {
      StringHashCarriesHead(codec, recs);
    }
  }

  predicate LinksIntact(codec: Codec, recs: seq<Record>) {
    forall i :: 0 <= i < |recs| ==> LinkHolds(codec, recs, i)
  }

  function PayloadOf(codec: Codec, rec: Record): string {
    codec.canonical(Body(rec))
  }

  function Payloads(codec: Codec, recs: seq<Record>): seq<string> {
    seq(|recs|, i requires 0 <= i < |recs| => PayloadOf(codec, recs[i]))
  }

  function Decimal(n: nat): string {
    if n < 10 then ["0123456789"[n]] else Decimal(n / 10) + ["0123456789"[n % 10]]
  }

  /** The number a decimal text stands for. */
  function Numeral(s: string): int {
    if s == "" then 0 else Numeral(s[..|s| - 1]) * 10 + (s[|s| - 1] as int - '0' as int)
  }

  lemma {:induction false} DecimalReadsBack(n: nat)
    ensures Numeral(Decimal(n)) == n
  {
    var digits, d := "0123456789", n % 10;
    assert digits[d] as int - '0' as int == d;
    if n >= 10 {
      DecimalReadsBack(n / 10);
      assert (Decimal(n / 10) + [digits[d]])[..|Decimal(n / 10)|] == Decimal(n / 10);
    } else {
      assert [digits[n]][..0] == "";
    }
  }

  function ObjectRef(sequence: nat, activity: string): string {
    "gate/" + Decimal(sequence) + "/" + activity
  }

  /** `str(rec.get("activity_name") or "event")` */
  function Activity(codec: Codec, rec: Record): string {
    var name := Get(rec, "activity_name");
    if name.Some? && name.value.Truthy() then codec.Str(name.value) else "event"
  }

  /** The reference names the gate, the record's number and its activity. */
  lemma ObjectRefSays(sequence: nat, activity: string) returns (digits: string)
    ensures ObjectRef(sequence, activity) == "gate/" + digits + "/" + activity && Numeral(digits) == sequence
  {
    digits := Decimal(sequence);
    DecimalReadsBack(sequence);
  }

  /** A sidecar built record by record from the first `n` bodies. */
  function Rebuilt(codec: Codec, bridge: Bridge, deviceId: string, recs: seq<Record>, n: nat, now: int): seq<EdsRecord>
    requires n <= |recs|
  {
    if n == 0 then []
    else Appended(bridge, deviceId, Rebuilt(codec, bridge, deviceId, recs, n - 1, now),
                  PayloadOf(codec, recs[n - 1]), ObjectRef(n, Activity(codec, recs[n - 1])), now)
  }

  /** The sidecar seals the body of every trail record, in order. */
  predicate InStep(codec: Codec, bridge: Bridge, recs: seq<Record>, chain: seq<EdsRecord>) {
    Seals(bridge, Payloads(codec, recs), chain)
  }

  function RefOf(codec: Codec, recs: seq<Record>, i: nat): string
    requires i < |recs|
  {
    ObjectRef(i + 1, Activity(codec, recs[i]))
  }

  /** The bridge signs each of the first `n` bodies when they are sealed in order. */
  ghost predicate AllSigned(codec: Codec, bridge: Bridge, recs: seq<Record>, n: nat)
    requires n <= |recs|
  {
    forall i :: 0 <= i < n ==> !bridge.fails(i + 1, PayloadOf(codec, recs[i]), RefOf(codec, recs, i))
  }

  lemma PayloadsOneMore(codec: Codec, recs: seq<Record>, n: nat)
    requires 0 < n <= |recs|
    ensures Payloads(codec, recs[..n]) == Payloads(codec, recs[..n - 1]) + [PayloadOf(codec, recs[n - 1])]
  {
  }

  lemma AllSignedOneMore(codec: Codec, bridge: Bridge, recs: seq<Record>, n: nat)
    requires 0 < n <= |recs|
    ensures AllSigned(codec, bridge, recs, n) <==>
      AllSigned(codec, bridge, recs, n - 1) &&
      !bridge.fails(n, PayloadOf(codec, recs[n - 1]), RefOf(codec, recs, n - 1))
  {
  }

  lemma {:induction false} SignedRebuildSeals(codec: Codec, bridge: Bridge, deviceId: string, recs: seq<Record>, n: nat,
                                              now: int)
    requires n <= |recs| && AllSigned(codec, bridge, recs, n)
    ensures Seals(bridge, Payloads(codec, recs[..n]), Rebuilt(codec, bridge, deviceId, recs, n, now))
  {
    if n > 0 {
      AllSignedOneMore(codec, bridge, recs, n);
      SignedRebuildSeals(codec, bridge, deviceId, recs, n - 1, now);
      PayloadsOneMore(codec, recs, n);
      SignedSeals(bridge, deviceId, Payloads(codec, recs[..n - 1]), Rebuilt(codec, bridge, deviceId, recs, n - 1, now),
                  PayloadOf(codec, recs[n - 1]), RefOf(codec, recs, n - 1), now);
    }
  }

  lemma {:induction false} RefusedRebuildIsShort(codec: Codec, bridge: Bridge, deviceId: string, recs: seq<Record>,
                                                 n: nat, now: int)
    requires n <= |recs|
    ensures var chain := Rebuilt(codec, bridge, deviceId, recs, n, now);
      |chain| <= n && (|chain| == n ==> AllSigned(codec, bridge, recs, n))
  {
    if n > 0 {
      AllSignedOneMore(codec, bridge, recs, n);
      RefusedRebuildIsShort(codec, bridge, deviceId, recs, n - 1, now);
      if AllSigned(codec, bridge, recs, n - 1) {
        SignedRebuildSeals(codec, bridge, deviceId, recs, n - 1, now);
        SequenceIsLength(bridge, Payloads(codec, recs[..n - 1]), Rebuilt(codec, bridge, deviceId, recs, n - 1, now));
      }
    }
  }

  /** A sidecar rebuilt from a trail has a record for each body, and seals them all, exactly
      when the bridge signed every one. */
  lemma RebuiltInStep(codec: Codec, bridge: Bridge, deviceId: string, recs: seq<Record>, n: nat, now: int)
    requires n <= |recs|
    ensures var chain := Rebuilt(codec, bridge, deviceId, recs, n, now);
      && |chain| <= n
      && (|chain| == n <==> AllSigned(codec, bridge, recs, n))
      && (InStep(codec, bridge, recs[..n], chain) <==> AllSigned(codec, bridge, recs, n))
  {
    RefusedRebuildIsShort(codec, bridge, deviceId, recs, n, now);
    if AllSigned(codec, bridge, recs, n) {
      SignedRebuildSeals(codec, bridge, deviceId, recs, n, now);
    }
  }

  /** What a rebuilt sidecar is written under: its device, and the gate's reference to record
      and activity, "event" for a record that names none. */
  lemma {:induction false} RebuiltNames(codec: Codec, bridge: Bridge, deviceId: string, recs: seq<Record>, n: nat,
                                        now: int, i: nat)
    requires i < n <= |recs| && AllSigned(codec, bridge, recs, n)
    ensures var chain, rec := Rebuilt(codec, bridge, deviceId, recs, n, now), recs[i];
      && |chain| == n
      && chain[i].deviceId == deviceId && chain[i].timestampMs == now
      && chain[i].objectRef == "gate/" + Decimal(i + 1) + "/" +
           (if "activity_name" in rec && rec["activity_name"].Truthy() then codec.Str(rec["activity_name"])
            else "event")
  {
    AllSignedOneMore(codec, bridge, recs, n);
    RebuiltInStep(codec, bridge, deviceId, recs, n, now);
    RebuiltInStep(codec, bridge, deviceId, recs, n - 1, now);
    SequenceIsLength(bridge, Payloads(codec, recs[..n - 1]), Rebuilt(codec, bridge, deviceId, recs, n - 1, now));
    if i < n - 1 {
      RebuiltNames(codec, bridge, deviceId, recs, n - 1, now, i);
    }
  }

  /** One append keeps an in-step sidecar in step exactly when the bridge signs it. */
  lemma AppendInStep(codec: Codec, bridge: Bridge, deviceId: string, recs: seq<Record>, chain: seq<EdsRecord>,
                     rec: Record, objectRef: string, now: int)
    requires InStep(codec, bridge, recs, chain)
    ensures |chain| == |recs| == ChainSequence(chain)
    ensures InStep(codec, bridge, recs + [rec],
                   Appended(bridge, deviceId, chain, PayloadOf(codec, rec), objectRef, now)) <==>
            !bridge.fails(|recs| + 1, PayloadOf(codec, rec), objectRef)
  {
    SequenceIsLength(bridge, Payloads(codec, recs), chain);
    AppendSeals(bridge, deviceId, Payloads(codec, recs), chain, PayloadOf(codec, rec), objectRef, now);
    assert Payloads(codec, recs + [rec]) == Payloads(codec, recs) + [PayloadOf(codec, rec)];
  }

  /** An in-step sidecar fixes every body of the trail. */
  lemma InStepCommits(codec: Codec, bridge: Bridge, s: seq<Record>, t: seq<Record>, chain: seq<EdsRecord>)
    requires InStep(codec, bridge, s, chain) && InStep(codec, bridge, t, chain)
    ensures |s| == |t|
    ensures forall i :: 0 <= i < |s| ==>
      bridge.payloadHash(PayloadOf(codec, s[i])) == bridge.payloadHash(PayloadOf(codec, t[i]))
  {
    forall i | 0 <= i < |s|
      ensures bridge.payloadHash(PayloadOf(codec, s[i])) == bridge.payloadHash(PayloadOf(codec, t[i]))
    {
      assert SealsAt(bridge, Payloads(codec, s)[i], chain, i);
      assert SealsAt(bridge, Payloads(codec, t)[i], chain, i);
    }
  }

  // ---------------------------------------------------------------- the logger

  class AuditLogger {
    const codec: Codec
    const eds: EdsChainWriter?
    var present: bool              // does the jsonl file exist
    var disk: seq<Record>          // its records
    var archives: seq<seq<Record>> // quarantined files
    var prev: string

    ghost predicate Valid()
      reads this, eds
    {
      && prev == HeadOf(codec, disk)
      && (!present ==> disk == [])
      && (eds != null ==> eds.Valid())
    }

    /** The sidecar, when there is one, seals exactly the trail on disk. */
    ghost predicate LockStep()
      reads this, eds
    {
      eds != null ==> InStep(codec, eds.bridge, disk, eds.chain)
    }

    constructor (codec: Codec, onDisk: Option<seq<Record>>, sidecar: EdsChainWriter?, quarantineBroken: bool, now: int)
      requires sidecar != null ==> sidecar.Valid()
      modifies sidecar
      ensures Valid() && this.codec == codec && eds == sidecar
      ensures
        var contents := if onDisk.Some? then onDisk.value else [];
        var quarantined := quarantineBroken && !LinksIntact(codec, contents);
        && disk == (if quarantined then [] else contents)
        && archives == (if quarantined then [contents] else [])
        && present == (onDisk.Some? && !quarantined)
        && (eds != null ==>
              eds.chain == if quarantined then []
                           else if old(sidecar.chain) == [] then
                             Rebuilt(codec, eds.bridge, eds.deviceId, contents, |contents|, now)
                           else old(sidecar.chain))
        && (sidecar != null ==>
              (LockStep() <==>
                quarantined ||
                if old(sidecar.chain) == [] then AllSigned(codec, sidecar.bridge, contents, |contents|)
                else InStep(codec, sidecar.bridge, contents, old(sidecar.chain))))
      ensures quarantineBroken ==> LinksIntact(codec, disk)
    {
      this.codec := codec;
      eds := sidecar;
      present := onDisk.Some?;
      disk := if onDisk.Some? then onDisk.value else [];
      archives := [];
      prev := GENESIS;
      new;
      if eds != null && |disk| > 0 && |eds.chain| == 0 {
        SealSidecar(disk, now);
      }
      if quarantineBroken {
        QuarantineIfBroken();
      }
      RewindFromDisk();
      if sidecar != null {
        var contents := if onDisk.Some? then onDisk.value else [];
        RebuiltInStep(codec, sidecar.bridge, sidecar.deviceId, contents, |contents|, now);
        assert contents[..|contents|] == contents;
      }
    }

    /** Seal every body of `recs` into an empty sidecar. */
    method SealSidecar(recs: seq<Record>, now: int)
      requires eds != null && eds.Valid() && eds.chain == []
      modifies eds
      ensures eds.Valid()
      ensures eds.chain == Rebuilt(codec, eds.bridge, eds.deviceId, recs, |recs|, now)
    {
      for i := 0 to |recs|
        invariant eds.Valid()
        invariant eds.chain == Rebuilt(codec, eds.bridge, eds.deviceId, recs, i, now)
      {
        var body := recs[i] - {"hash"};
        var name := Get(recs[i], "activity_name");
        var activity := if name.Some? && name.value.Truthy() then codec.Str(name.value) else "event";
        var _ := eds.AppendPayload(codec.canonical(body), ObjectRef(i + 1, activity), now);
      }
    }

    method QuarantineIfBroken()
      requires eds != null ==> eds.Valid()
      requires !present ==> disk == []
      modifies this`disk, this`present, this`archives, eds
      ensures eds != null ==> eds.Valid()
      ensures !present ==> disk == []
      ensures LinksIntact(codec, old(disk)) ==>
        unchanged(this) && (eds != null ==> unchanged(eds))
      ensures !LinksIntact(codec, old(disk)) ==>
        && disk == [] && !present
        && archives == old(archives) + [old(disk)]
        && (eds != null ==> eds.chain == [])
    {
      if !present || |disk| == 0 {
        return;
      }
      var brokeAt := ChainBreakIndex(codec, disk);
      if brokeAt == None {
        return;
      }
      archives := archives + [disk];
      disk := [];
      present := false;
      if eds != null {
        eds.Clear();
      }
    }

    method RewindFromDisk()
      modifies this`prev
      ensures prev == HeadOf(codec, disk)
    {
      prev := GENESIS;
      if |disk| > 0 {
        var last := disk[|disk| - 1];
        if "hash" in last {
          prev := codec.Str(last["hash"]);
        }
      }
    }

    method ReplaceRecords(records: seq<Record>, now: int)
      requires Valid()
      modifies this, eds
      ensures Valid() && present && disk == records && archives == old(archives)
      ensures eds != null ==> eds.chain == Rebuilt(codec, eds.bridge, eds.deviceId, records, |records|, now)
      ensures eds != null ==> (LockStep() <==> AllSigned(codec, eds.bridge, records, |records|))
    {
      present, disk := true, records;
      RewindFromDisk();
      if eds != null {
        eds.Clear();
        SealSidecar(records, now);
        RebuiltInStep(codec, eds.bridge, eds.deviceId, records, |records|, now);
        assert records[..|records|] == records;
      }
    }

    method OverwriteOcsfKeepEds(records: seq<Record>)
      requires Valid()
      modifies this
      ensures Valid() && present && disk == records && archives == old(archives)
    {
      present, disk := true, records;
      RewindFromDisk();
    }

    method Append(name: string, severity: string, time: string, data: Dict, now: int) returns (rec: Record)
      requires Valid()
      modifies this`disk, this`present, this`prev, eds
      ensures Valid() && present
      ensures rec == SealedRecord(codec, HeadOf(codec, old(disk)), name, severity, time, data)
      ensures disk == old(disk) + [rec]
      ensures eds != null ==>
        eds.chain == Appended(eds.bridge, eds.deviceId, old(eds.chain), PayloadOf(codec, rec),
                              ObjectRef(ChainSequence(old(eds.chain)) + 1, name), now)
      ensures old(disk) == [] || StringHash(old(disk)[|old(disk)| - 1]) ==>
        Verdict(codec, disk) == Verdict(codec, old(disk)).(total := |disk|)
      ensures old(LockStep()) && eds != null ==>
        (LockStep() <==> !eds.bridge.fails(|disk|, PayloadOf(codec, rec), ObjectRef(|disk|, name)))
    {
      ghost var result := SealedRecord(codec, prev, name, severity, time, data);
      if eds != null && LockStep() {
        AppendInStep(codec, eds.bridge, eds.deviceId, disk, eds.chain, result, ObjectRef(eds.sequence + 1, name), now);
      }
      SealedRecordLinks(codec, prev, name, severity, time, data);
      AppendKeepsVerdict(codec, disk, result);
      rec := map[
        "class_name" := Text("Security Finding"),
        "activity_name" := Text(name),
        "severity" := Text(severity),
        "time" := Text(time),
        "metadata" := Object(data),
        "prev_hash" := Text(prev)
      ];
      assert rec == EventBody(prev, name, severity, time, data) == Body(result);
      var digest := codec.Digest(rec);
      if eds != null {
        var sequence := eds.sequence + 1;
        var _ := eds.AppendPayload(codec.canonical(rec), ObjectRef(sequence, name), now);
      }
      rec := rec["hash" := Text(digest)];
      present, disk := true, disk + [rec];
      prev := digest;
    }
  }
}
