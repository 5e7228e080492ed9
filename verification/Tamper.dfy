/** The one-character tamper of the pitch demo (`inject_one_char_tamper`). */
module Tamper {
  import opened Json
  import opened AuditChain
  import opened ChainTheorems

  datatype TamperError = IndexOutOfRange | MetadataNotADict | NothingToFlip

  predicate NonEmptyText(d: Dict, key: string) {
    key in d && d[key].Text? && d[key].s != ""
  }

  function FlipFirst(s: string): string
    requires s != ""
  {
    (if s[0] != 'X' then "X" else "Y") + s[1..]
  }

  /** Index of the first digit at or after `i`, or the length. */
  function FirstDigit(codec: Codec, s: string, i: nat): (r: nat)
    requires i <= |s|
    ensures i <= r <= |s|
    ensures r < |s| ==> codec.isDigit(s[r])
    ensures forall j :: i <= j < r ==> !codec.isDigit(s[j])
    decreases |s| - i
  {
    if i == |s| || codec.isDigit(s[i]) then i else FirstDigit(codec, s, i + 1)
  }

  function FlipTime(codec: Codec, s: string): string
    requires s != ""
  {
    var d := FirstDigit(codec, s, 0);
    if d < |s| then s[d := if s[d] != '0' then '0' else '1'] else FlipFirst(s)
  }

  function TamperRecord(codec: Codec, rec: Record): Result<Record, TamperError> {
    var rec := if "metadata" in rec then rec else rec["metadata" := Object(map[])];
    if !rec["metadata"].Object? then Err(MetadataNotADict)
    else
      var meta := rec["metadata"].members;
      if NonEmptyText(meta, "status") then
        Ok(rec["metadata" := Object(meta["status" := Text(FlipFirst(meta["status"].s))])])
      else if NonEmptyText(meta, "verdict") then
        Ok(rec["metadata" := Object(meta["verdict" := Text(FlipFirst(meta["verdict"].s))])])
      else
        var ts := codec.StrOrEmpty(Get(rec, "time"));
        if ts == "" then Err(NothingToFlip)
        else Ok(rec["time" := Text(FlipTime(codec, ts))])
  }

  function TamperTrail(codec: Codec, recs: seq<Record>, index: int): Result<seq<Record>, TamperError> {
    if index < 0 || index >= |recs| then Err(IndexOutOfRange)
    else match TamperRecord(codec, recs[index])
      case Ok(rec) => Ok(recs[index := rec])
      case Err(e) => Err(e)
  }

  method FlipApproved(meta: Dict, key: string) returns (flipped: bool, out: Dict)
    ensures flipped <==> NonEmptyText(meta, key)
    ensures flipped ==> out == meta[key := Text(FlipFirst(meta[key].s))]
    ensures !flipped ==> out == meta
  {
    var value := Get(meta, key);
    if value == Some(Text("APPROVED")) {
      assert "XPPROVED" == FlipFirst("APPROVED");
      return true, meta[key := Text("XPPROVED")];
    }
    if value.Some? && value.value.Text? && |value.value.s| >= 1 {
      var s := value.value.s;
      return true, meta[key := Text((if s[0] != 'X' then "X" else "Y") + s[1..])];
    }
    return false, meta;
  }

  method InjectOneCharTamper(codec: Codec, recs: seq<Record>, index: int)
    returns (r: Result<seq<Record>, TamperError>)
    ensures r == TamperTrail(codec, recs, index)
  {
    if index < 0 || index >= |recs| {
      return Err(IndexOutOfRange);
    }
    var rec := recs[index];
    if "metadata" !in rec {
      rec := rec["metadata" := Object(map[])];
    }
    if !rec["metadata"].Object? {
      return Err(MetadataNotADict);
    }
    var done, meta := FlipApproved(rec["metadata"].members, "status");
    if !done {
      done, meta := FlipApproved(meta, "verdict");
    }
    if done {
      return Ok(recs[index := rec["metadata" := Object(meta)]]);
    }
    var ts := codec.StrOrEmpty(Get(rec, "time"));
    if ts == "" {
      return Err(NothingToFlip);
    }
    var chars := ts;
    var i := 0;
    while i < |ts| && !codec.isDigit(ts[i])
      invariant i <= |ts|
      invariant FirstDigit(codec, ts, 0) == FirstDigit(codec, ts, i)
    {
      i := i + 1;
    }
    if i < |ts| {
      chars := chars[i := if ts[i] != '0' then '0' else '1'];
    } else {
      chars := chars[0 := if ts[0] != 'X' then 'X' else 'Y'];
    }
    assert chars == FlipTime(codec, ts);
    r := Ok(recs[index := rec["time" := Text(chars)]]);
  }

  /** Same length, and different at exactly one position. */
  predicate OneCharApart(a: string, b: string) {
    |a| == |b| &&
    exists k :: 0 <= k < |a| && a[k] != b[k] && forall j :: 0 <= j < |a| && j != k ==> a[j] == b[j]
  }

  lemma FlipsOneChar(codec: Codec, s: string)
    requires s != ""
    ensures OneCharApart(s, FlipFirst(s))
    ensures OneCharApart(s, FlipTime(codec, s))
  {
    var f, t := FlipFirst(s), FlipTime(codec, s);
    var d := FirstDigit(codec, s, 0);
    assert s[0] != f[0] && forall j :: 0 <= j < |s| && j != 0 ==> s[j] == f[j];
    if d < |s| {
      assert s[d] != t[d] && forall j :: 0 <= j < |s| && j != d ==> s[j] == t[j];
    }
  }

  /** `to` is `from` with the k-th character, and no other, replaced by c, or by d if it was c. */
  predicate FlippedAt(from: string, to: string, k: nat, c: char, d: char) {
    k < |from| && to == from[k := if from[k] == c then d else c]
  }

  function Metadata(rec: Record): Value {
    if "metadata" in rec then rec["metadata"] else Object(map[])
  }

  /** Which error, or which character: the first of a non-empty status, else of a non-empty
      verdict, else the first digit of the time, or its first character if it has none. */
  lemma TamperExact(codec: Codec, rec: Record)
    ensures var r, meta, time := TamperRecord(codec, rec), Metadata(rec), codec.StrOrEmpty(Get(rec, "time"));
      if !meta.Object? then r == Err(MetadataNotADict)
      else
        var d := meta.members;
        if NonEmptyText(d, "status") then
          && r.Ok? && r.value.Keys == rec.Keys && r.value - {"metadata"} == rec - {"metadata"}
          && exists t :: FlippedAt(d["status"].s, t, 0, 'X', 'Y') &&
               r.value["metadata"] == Object(d["status" := Text(t)])
        else if NonEmptyText(d, "verdict") then
          && r.Ok? && r.value.Keys == rec.Keys && r.value - {"metadata"} == rec - {"metadata"}
          && exists t :: FlippedAt(d["verdict"].s, t, 0, 'X', 'Y') &&
               r.value["metadata"] == Object(d["verdict" := Text(t)])
        else if time == "" then r == Err(NothingToFlip)
        else
          && r.Ok? && r.value.Keys == rec.Keys + {"metadata", "time"} && r.value["metadata"] == meta
          && r.value - {"metadata", "time"} == rec - {"metadata", "time"}
          && r.value["time"].Text? && TimeFlipped(codec, time, r.value["time"].s)
  {
    var meta, time := Metadata(rec), codec.StrOrEmpty(Get(rec, "time"));
    if meta.Object? {
      var d := meta.members;
      if NonEmptyText(d, "status") {
        assert FlippedAt(d["status"].s, FlipFirst(d["status"].s), 0, 'X', 'Y');
      } else if NonEmptyText(d, "verdict") {
        assert FlippedAt(d["verdict"].s, FlipFirst(d["verdict"].s), 0, 'X', 'Y');
      } else if time != "" {
        TimeFlips(codec, time);
      }
    }
  }

  ghost predicate TimeFlipped(codec: Codec, from: string, to: string) {
    if exists i :: 0 <= i < |from| && codec.isDigit(from[i]) then
      exists k: nat :: FlippedAt(from, to, k, '0', '1') && codec.isDigit(from[k]) &&
        forall i :: 0 <= i < k ==> !codec.isDigit(from[i])
    else FlippedAt(from, to, 0, 'X', 'Y')
  }

  lemma TimeFlips(codec: Codec, s: string)
    requires s != ""
    ensures TimeFlipped(codec, s, FlipTime(codec, s))
  {
    var k := FirstDigit(codec, s, 0);
    if k < |s| {
      assert FlippedAt(s, FlipTime(codec, s), k, '0', '1');
    } else {
      assert FlippedAt(s, FlipFirst(s), 0, 'X', 'Y');
    }
  }

  /** The tamper changes the body and neither the stored digest nor the link. */
  lemma TamperTouchesBodyOnly(codec: Codec, rec: Record)
    requires TamperRecord(codec, rec).Ok?
    ensures var out := TamperRecord(codec, rec).value;
      && StoredHash(out) == StoredHash(rec)
      && Get(out, "prev_hash") == Get(rec, "prev_hash")
      && Body(out) != Body(rec)
  {
    var out := TamperRecord(codec, rec).value;
    var meta := if "metadata" in rec then rec["metadata"].members else map[];
    if NonEmptyText(meta, "status") {
      FlipsOneChar(codec, meta["status"].s);
      assert out["metadata"].members["status"] != rec["metadata"].members["status"];
      assert Body(out)["metadata"] != Body(rec)["metadata"];
    } else if NonEmptyText(meta, "verdict") {
      FlipsOneChar(codec, meta["verdict"].s);
      assert out["metadata"].members["verdict"] != rec["metadata"].members["verdict"];
      assert Body(out)["metadata"] != Body(rec)["metadata"];
    } else {
      var ts := codec.StrOrEmpty(Get(rec, "time"));
      FlipsOneChar(codec, ts);
      assert "time" in rec && rec["time"] != out["time"];
      assert Body(out)["time"] != Body(rec)["time"];
    }
  }

  lemma IntactLinksHold(codec: Codec, recs: seq<Record>)
    requires Intact(codec, recs)
    ensures forall i :: 0 <= i < |recs| ==> LinkHolds(codec, recs, i)
  {
    forall i | 0 <= i < |recs|
      ensures LinkHolds(codec, recs, i)
    {
      assert IntactAt(codec, recs, i);
      if i > 0 {
        assert IntactAt(codec, recs, i - 1);
      }
    }
  }

  /** A record with another body under the stored digest and the link it had. */
  predicate Drifted(codec: Codec, rec: Record, out: Record) {
    && StoredHash(out) == StoredHash(rec)
    && Get(out, "prev_hash") == Get(rec, "prev_hash")
    && codec.Digest(Body(out)) != codec.Digest(Body(rec))
  }

  lemma DriftCarries(codec: Codec, recs: seq<Record>, index: nat, out: Record, n: nat)
    requires Intact(codec, recs) && index < |recs| && n <= |recs| && Drifted(codec, recs[index], out)
    ensures Carried(recs[index := out], n) == if n == 0 then GENESIS else codec.Digest(Body(recs[n - 1]))
  {
    if n > 0 {
      assert IntactAt(codec, recs, n - 1);
    }
  }

  lemma DriftErrsHere(codec: Codec, recs: seq<Record>, index: nat, out: Record, i: nat)
    requires Intact(codec, recs) && index < |recs| && i < |recs| && Drifted(codec, recs[index], out)
    ensures ErrorsAt(codec, recs[index := out], i) == if i == index then [ChainError(index, HashMismatch)] else []
  {
    DriftCarries(codec, recs, index, out, i);
    assert IntactAt(codec, recs, i);
  }

  lemma {:induction false} NoFaultBefore(codec: Codec, t: seq<Record>, n: nat)
    requires n <= |t| && forall i :: 0 <= i < n ==> ErrorsAt(codec, t, i) == []
    ensures Errors(codec, t, n) == []
  {
    if n > 0 {
      NoFaultBefore(codec, t, n - 1);
    }
  }

  lemma {:induction false} OneFault(codec: Codec, t: seq<Record>, index: nat, e: ChainError, n: nat)
    requires index < n <= |t| && ErrorsAt(codec, t, index) == [e]
    requires forall i :: 0 <= i < n && i != index ==> ErrorsAt(codec, t, i) == []
    ensures Errors(codec, t, n) == [e]
  {
    if n == index + 1 {
      NoFaultBefore(codec, t, index);
    } else {
      OneFault(codec, t, index, e, n - 1);
    }
  }

  /** It is the walk's only error. */
  lemma DriftWalk(codec: Codec, recs: seq<Record>, index: nat, out: Record)
    requires Intact(codec, recs) && index < |recs| && Drifted(codec, recs[index], out)
    ensures Errors(codec, recs[index := out], |recs|) == [ChainError(index, HashMismatch)]
  {
    var t := recs[index := out];
    forall i | 0 <= i < |t|
      ensures ErrorsAt(codec, t, i) == if i == index then [ChainError(index, HashMismatch)] else []
    {
      DriftErrsHere(codec, recs, index, out, i);
    }
    OneFault(codec, t, index, ChainError(index, HashMismatch), |t|);
  }

  lemma LinksUntouched(codec: Codec, recs: seq<Record>, index: nat, out: Record)
    requires Intact(codec, recs) && index < |recs|
    requires StoredHash(out) == StoredHash(recs[index])
    requires Get(out, "prev_hash") == Get(recs[index], "prev_hash")
    ensures var t := recs[index := out]; forall i :: 0 <= i < |t| ==> LinkHolds(codec, t, i)
  {
    var t := recs[index := out];
    IntactLinksHold(codec, recs);
    forall i | 0 <= i < |t|
      ensures LinkHolds(codec, t, i)
    {
      assert LinkHolds(codec, recs, i);
    }
  }

  /** On an intact trail the demo tamper is seen by the full walk as one digest
      mismatch at its own index, and by the link-only walk not at all. */
  lemma TamperIsLocalised(codec: Codec, recs: seq<Record>, index: nat, t: seq<Record>)
    requires Intact(codec, recs) && TamperTrail(codec, recs, index) == Ok(t)
    ensures index < |recs| == |t|
    ensures Collision(codec, Body(t[index]), Body(recs[index])) ||
            Verdict(codec, t) == ChainVerdict(false, |t|, Some(index), Some(HashMismatch),
                                              [ChainError(index, HashMismatch)])
    ensures forall i :: 0 <= i < |t| ==> LinkHolds(codec, t, i)
  {
    TamperTouchesBodyOnly(codec, recs[index]);
    if !Collision(codec, Body(t[index]), Body(recs[index])) {
      DriftWalk(codec, recs, index, t[index]);
    }
    LinksUntouched(codec, recs, index, t[index]);
  }
}
