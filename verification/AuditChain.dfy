/** The hash chain of `core/audit.py`: what the three chain walks report about an
    arbitrary list of on-disk records, well formed or not. */
module AuditChain {
  import opened Json

  type Record = Dict

  const GENESIS := "0000000000000000000000000000000000000000000000000000000000000000"

  /** A record without its own digest: the part that is hashed. */
  function Body(rec: Record): Dict {
    rec - {"hash"}
  }

  function StoredHash(rec: Record): Option<Value> {
    Get(rec, "hash")
  }

  predicate LinksTo(rec: Record, prev: string) {
    Get(rec, "prev_hash") == Some(Text(prev))
  }

  /** The stored digest is the digest of the body. */
  predicate Sealed(codec: Codec, rec: Record) {
    StoredHash(rec) == Some(Text(codec.Digest(Body(rec))))
  }

  // ---------------------------------------------------------------- reports

  datatype Reason = BrokenLink | HashMismatch

  datatype ChainError = ChainError(index: nat, reason: Reason)

  datatype ChainVerdict = ChainVerdict(
    ok: bool,
    total: nat,
    breakIndex: Option<nat>,
    reason: Option<Reason>,
    errors: seq<ChainError>)

  /** The digest a full walk carries into record `i`: the last stored string hash. */
  function Carried(recs: seq<Record>, i: nat): string
    requires i <= |recs|
  {
    if i == 0 then GENESIS
    else match StoredHash(recs[i - 1])
      case Some(Text(s)) => s
      case _ => Carried(recs, i - 1)
  }

  function ErrorsAt(codec: Codec, recs: seq<Record>, i: nat): seq<ChainError>
    requires i < |recs|
  {
    (if LinksTo(recs[i], Carried(recs, i)) then [] else [ChainError(i, BrokenLink)]) +
    (if Sealed(codec, recs[i]) then [] else [ChainError(i, HashMismatch)])
  }

  /** Errors of the first `n` records, in walking order. */
  function Errors(codec: Codec, recs: seq<Record>, n: nat): seq<ChainError>
    requires n <= |recs|
  {
    if n == 0 then [] else Errors(codec, recs, n - 1) + ErrorsAt(codec, recs, n - 1)
  }

  function VerdictOf(total: nat, errors: seq<ChainError>): ChainVerdict {
    if errors == [] then ChainVerdict(true, total, None, None, [])
    else ChainVerdict(false, total, Some(errors[0].index), Some(errors[0].reason), errors)
  }

  function Verdict(codec: Codec, recs: seq<Record>): ChainVerdict {
    VerdictOf(|recs|, Errors(codec, recs, |recs|))
  }

  // ---------------------------------------------------------------- the walks

  method VerifyAuditChain(codec: Codec, recs: seq<Record>) returns (r: ChainVerdict)
    ensures r == Verdict(codec, recs)
  {
    if |recs| == 0 {
      return ChainVerdict(true, 0, None, None, []);
    }
    var errors: seq<ChainError> := [];
    var breakIndex: Option<nat> := None;
    var reason: Option<Reason> := None;
    var prev := GENESIS;
    for i := 0 to |recs|
      invariant prev == Carried(recs, i)
      invariant errors == Errors(codec, recs, i)
      invariant breakIndex == VerdictOf(|recs|, errors).breakIndex
      invariant reason == VerdictOf(|recs|, errors).reason
    {
      if Get(recs[i], "prev_hash") != Some(Text(prev)) {
        errors := errors + [ChainError(i, BrokenLink)];
        if breakIndex == None {
          breakIndex, reason := Some(i), Some(BrokenLink);
        }
      }
      var stored := Get(recs[i], "hash");
      var expected := codec.Digest(recs[i] - {"hash"});
      if stored != Some(Text(expected)) {
        errors := errors + [ChainError(i, HashMismatch)];
        if breakIndex == None {
          breakIndex, reason := Some(i), Some(HashMismatch);
        }
      }
      prev := if stored.Some? && stored.value.Text? then stored.value.s else prev;
    }
    r := ChainVerdict(errors == [], |recs|, breakIndex, reason, errors);
  }

  /** The digest the link-only walks carry into record `i`. */
  function LinkCarried(codec: Codec, recs: seq<Record>, i: nat): string
    requires i <= |recs|
  {
    if i == 0 then GENESIS else codec.StrOrEmpty(StoredHash(recs[i - 1]))
  }

  predicate LinkHolds(codec: Codec, recs: seq<Record>, i: nat)
    requires i < |recs|
  {
    LinksTo(recs[i], LinkCarried(codec, recs, i))
  }

  method ChainBreakIndex(codec: Codec, recs: seq<Record>) returns (r: Option<nat>)
    ensures r.None? <==> forall i :: 0 <= i < |recs| ==> LinkHolds(codec, recs, i)
    ensures r.Some? ==> r.value < |recs| && !LinkHolds(codec, recs, r.value)
    ensures r.Some? ==> forall i :: 0 <= i < r.value ==> LinkHolds(codec, recs, i)
  {
    var prev := GENESIS;
    for i := 0 to |recs|
      invariant prev == LinkCarried(codec, recs, i)
      invariant forall j :: 0 <= j < i ==> LinkHolds(codec, recs, j)
    {
      if Get(recs[i], "prev_hash") != Some(Text(prev)) {
        assert !LinkHolds(codec, recs, i);
        return Some(i);
      }
      prev := codec.StrOrEmpty(Get(recs[i], "hash"));
    }
    r := None;
  }

  /** Indices below `n` at which a link-only walk finds a broken link. */
  function BrokenLinks(codec: Codec, recs: seq<Record>, n: nat): (r: set<nat>)
    requires n <= |recs|
  {
    set i: nat | i < n && !LinkHolds(codec, recs, i)
  }

  method BrokenLinkCount(codec: Codec, recs: seq<Record>) returns (broken: nat)
    ensures broken == |BrokenLinks(codec, recs, |recs|)|
  {
    var prev := GENESIS;
    broken := 0;
    assert BrokenLinks(codec, recs, 0) == {};
    for i := 0 to |recs|
      invariant prev == LinkCarried(codec, recs, i)
      invariant broken == |BrokenLinks(codec, recs, i)|
    {
      assert BrokenLinks(codec, recs, i + 1) ==
             BrokenLinks(codec, recs, i) + if LinkHolds(codec, recs, i) then {} else {i};
      if Get(recs[i], "prev_hash") != Some(Text(prev)) {
        broken := broken + 1;
      }
      prev := codec.StrOrEmpty(Get(recs[i], "hash"));
    }
  }

  // ------------------------------------------------------- what a verdict means

  /** The chain as the log means it: every record seals its body and names its
      predecessor's digest, the first one naming the genesis value. */
  predicate Intact(codec: Codec, recs: seq<Record>) {
    forall i :: 0 <= i < |recs| ==> IntactAt(codec, recs, i)
  }

  predicate IntactAt(codec: Codec, recs: seq<Record>, i: nat)
    requires i < |recs|
  {
    Sealed(codec, recs[i]) &&
    LinksTo(recs[i], if i == 0 then GENESIS else codec.Digest(Body(recs[i - 1])))
  }

  lemma ErrorsAtExact(codec: Codec, recs: seq<Record>, i: nat, e: ChainError)
    requires i < |recs|
    ensures e in ErrorsAt(codec, recs, i) <==>
      e.index == i &&
      match e.reason
      case BrokenLink => !LinksTo(recs[i], Carried(recs, i))
      case HashMismatch => !Sealed(codec, recs[i])
  {
  }

  lemma {:induction false} ErrorsExact(codec: Codec, recs: seq<Record>, n: nat, e: ChainError)
    requires n <= |recs|
    ensures e in Errors(codec, recs, n) <==>
      e.index < n &&
      match e.reason
      case BrokenLink => !LinksTo(recs[e.index], Carried(recs, e.index))
      case HashMismatch => !Sealed(codec, recs[e.index])
  {
    if n > 0 {
      ErrorsExact(codec, recs, n - 1, e);
      ErrorsAtExact(codec, recs, n - 1, e);
    }
  }

  /** Records are reported in order and each fault once. */
  lemma {:induction false} ErrorsOrdered(codec: Codec, recs: seq<Record>, n: nat)
    requires n <= |recs|
    ensures forall a :: 0 <= a < |Errors(codec, recs, n)| ==> Errors(codec, recs, n)[a].index < n
    ensures forall a, b :: 0 <= a < b < |Errors(codec, recs, n)| ==>
      var x, y := Errors(codec, recs, n)[a], Errors(codec, recs, n)[b];
      x.index < y.index || (x.index == y.index && x.reason == BrokenLink && y.reason == HashMismatch)
  {
    if n > 0 {
      ErrorsOrdered(codec, recs, n - 1);
    }
  }

  /** No errors below `n` means the first `n` records form an intact chain. */
  lemma {:induction false} CleanPrefix(codec: Codec, recs: seq<Record>, n: nat)
    requires n <= |recs|
    ensures Errors(codec, recs, n) == [] <==> Intact(codec, recs[..n])
    ensures Errors(codec, recs, n) == [] ==>
      Carried(recs, n) == if n == 0 then GENESIS else codec.Digest(Body(recs[n - 1]))
  {
    if n > 0 {
      CleanPrefix(codec, recs, n - 1);
      var p, q := recs[..n], recs[..n - 1];
      assert forall i :: 0 <= i < n - 1 ==> (IntactAt(codec, p, i) <==> IntactAt(codec, q, i));
      assert Intact(codec, p) <==> Intact(codec, q) && IntactAt(codec, p, n - 1);
    }
  }

  lemma VerdictOkIffIntact(codec: Codec, recs: seq<Record>)
    ensures Verdict(codec, recs).ok <==> Intact(codec, recs)
  {
    CleanPrefix(codec, recs, |recs|);
    assert recs[..|recs|] == recs;
  }

  /** `break_index` is the least faulty record, and is absent exactly when `ok`. */
  lemma BreakIndexIsFirst(codec: Codec, recs: seq<Record>)
    ensures var v := Verdict(codec, recs);
      match v.breakIndex
      case None => v.ok
      case Some(b) => !v.ok && b < |recs| && ErrorsAt(codec, recs, b) != [] &&
                      forall i :: 0 <= i < b ==> ErrorsAt(codec, recs, i) == []
  {
    var errors := Errors(codec, recs, |recs|);
    ErrorsOrdered(codec, recs, |recs|);
    if errors != [] {
      var b := errors[0].index;
      ErrorsExact(codec, recs, |recs|, errors[0]);
      forall i | 0 <= i < b
        ensures ErrorsAt(codec, recs, i) == []
      {
        ErrorsExact(codec, recs, |recs|, ChainError(i, BrokenLink));
        ErrorsExact(codec, recs, |recs|, ChainError(i, HashMismatch));
      }
    }
  }

  predicate StringHash(rec: Record) {
    StoredHash(rec).Some? && StoredHash(rec).value.Text?
  }

  /** The two walks carry the same digest past every record that stores a string hash. */
  lemma WalksAgree(codec: Codec, recs: seq<Record>, i: nat)
    requires i <= |recs|
    requires i > 0 ==> StringHash(recs[i - 1])
    ensures LinkCarried(codec, recs, i) == Carried(recs, i)
  {
  }

  /** Of any other record the link walk carries nothing, or the text of a non-string value that
      is neither null, false, zero nor empty. */
  lemma LinkWalkCarries(codec: Codec, recs: seq<Record>, i: nat)
    requires 0 < i <= |recs|
    ensures LinkCarried(codec, recs, i) ==
      match StoredHash(recs[i - 1])
      case None => ""
      case Some(v) =>
        if v.Text? then v.s
        else if v in {Null, Bool(false), Int(0), Float(0.0), Array([]), Object(map[])} then ""
        else codec.show(v)
  {
  }

  /** They can disagree otherwise: the full walk skips a record without a hash, the
      link walk forgets the digest before it. */
  lemma WalksCanDisagree(codec: Codec)
    ensures exists recs: seq<Record> ::
      |recs| == 2 && LinksTo(recs[1], Carried(recs, 1)) && !LinkHolds(codec, recs, 1)
  {
    var bare: Record := map["prev_hash" := Text(GENESIS)];
    var recs := [bare, bare];
    assert StoredHash(bare) == None;
    assert Carried(recs, 0) == GENESIS;
    assert Carried(recs, 1) == GENESIS;
    assert |GENESIS| == 64;
    assert LinkCarried(codec, recs, 1) == "";
    assert |recs| == 2 && LinksTo(recs[1], Carried(recs, 1)) && !LinkHolds(codec, recs, 1);
  }
}
