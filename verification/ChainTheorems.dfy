/** What the chain commits to. Nothing is assumed of the digest: each theorem ends
    in "or here is a collision", naming bodies that occur in the trails at hand. */
module ChainTheorems {
  import opened Json
  import opened AuditChain

  predicate Collision(codec: Codec, a: Dict, b: Dict) {
    a != b && codec.Digest(a) == codec.Digest(b)
  }

  function Bodies(recs: seq<Record>): set<Dict> {
    set r | r in recs :: Body(r)
  }

  /** Two different bodies with one digest, or a body whose digest is the genesis value. */
  ghost predicate DigestBroken(codec: Codec, bodies: set<Dict>) {
    || (exists a, b :: a in bodies && b in bodies && Collision(codec, a, b))
    || (exists a :: a in bodies && codec.Digest(a) == GENESIS)
  }

  /** The digest the next record will name: what `_rewind_from_disk` caches. */
  function HeadOf(codec: Codec, recs: seq<Record>): string {
    if recs == [] then GENESIS
    else match StoredHash(recs[|recs| - 1])
      case Some(v) => codec.Str(v)
      case None => GENESIS
  }

  lemma SealedBodyDetermines(codec: Codec, a: Record, b: Record)
    requires Sealed(codec, a) && Sealed(codec, b) && Body(a) == Body(b)
    ensures a == b
  {
    assert a == Body(a)["hash" := Text(codec.Digest(Body(a)))];
    assert b == Body(b)["hash" := Text(codec.Digest(Body(b)))];
  }

  lemma IntactPrefix(codec: Codec, recs: seq<Record>, k: nat)
    requires Intact(codec, recs) && k <= |recs|
    ensures Intact(codec, recs[..k])
    ensures HeadOf(codec, recs[..k]) == if k == 0 then GENESIS else codec.Digest(Body(recs[k - 1]))
  {
    forall i | 0 <= i < k
      ensures IntactAt(codec, recs[..k], i)
    {
      assert IntactAt(codec, recs, i);
    }
    if k > 0 {
      assert IntactAt(codec, recs, k - 1);
    }
  }

  lemma LastDigest(codec: Codec, recs: seq<Record>)
    requires Intact(codec, recs) && recs != []
    ensures var n := |recs| - 1;
      && Sealed(codec, recs[n])
      && HeadOf(codec, recs) == codec.Digest(Body(recs[n]))
      && Get(recs[n], "prev_hash") == Some(Text(HeadOf(codec, recs[..n])))
  {
    assert IntactAt(codec, recs, |recs| - 1);
    IntactPrefix(codec, recs, |recs| - 1);
  }

  ghost predicate Holds(bodies: set<Dict>, recs: seq<Record>) {
    forall i :: 0 <= i < |recs| ==> Body(recs[i]) in bodies
  }

  lemma EmptyHeadIsEmpty(codec: Codec, t: seq<Record>, bodies: set<Dict>)
    requires Intact(codec, t) && HeadOf(codec, t) == GENESIS && Holds(bodies, t)
    ensures t == [] || DigestBroken(codec, bodies)
  {
    if t != [] {
      LastDigest(codec, t);
      assert Body(t[|t| - 1]) in bodies;
    }
  }

  lemma SameHeadSameLast(codec: Codec, s: seq<Record>, t: seq<Record>, bodies: set<Dict>)
    requires Intact(codec, s) && Intact(codec, t) && s != [] && t != []
    requires HeadOf(codec, s) == HeadOf(codec, t) && Holds(bodies, s) && Holds(bodies, t)
    ensures DigestBroken(codec, bodies) ||
            (s[|s| - 1] == t[|t| - 1] && HeadOf(codec, s[..|s| - 1]) == HeadOf(codec, t[..|t| - 1]))
  {
    var a, b := s[|s| - 1], t[|t| - 1];
    LastDigest(codec, s);
    LastDigest(codec, t);
    if Body(a) == Body(b) {
      SealedBodyDetermines(codec, a, b);
    } else {
      assert Collision(codec, Body(a), Body(b));
    }
  }

  lemma {:induction false} HeadCommitsWithin(codec: Codec, s: seq<Record>, t: seq<Record>, bodies: set<Dict>)
    requires Intact(codec, s) && Intact(codec, t)
    requires HeadOf(codec, s) == HeadOf(codec, t)
    requires Holds(bodies, s) && Holds(bodies, t)
    ensures s == t || DigestBroken(codec, bodies)
    decreases |s|
  {
    if s == [] {
      EmptyHeadIsEmpty(codec, t, bodies);
    } else if t == [] {
      EmptyHeadIsEmpty(codec, s, bodies);
    } else if !DigestBroken(codec, bodies) {
      var m, n := |s| - 1, |t| - 1;
      SameHeadSameLast(codec, s, t, bodies);
      IntactPrefix(codec, s, m);
      IntactPrefix(codec, t, n);
      HeadCommitsWithin(codec, s[..m], t[..n], bodies);
      assert s == s[..m] + [s[m]] && t == t[..n] + [t[n]];
    }
  }

  /** The head commits to the whole trail, record for record and in length. */
  lemma HeadCommits(codec: Codec, s: seq<Record>, t: seq<Record>)
    requires Intact(codec, s) && Intact(codec, t)
    requires HeadOf(codec, s) == HeadOf(codec, t)
    ensures s == t || DigestBroken(codec, Bodies(s) + Bodies(t))
  {
    HeadCommitsWithin(codec, s, t, Bodies(s) + Bodies(t));
  }

  /** The walk over the first `n` records depends on those records only. */
  lemma {:induction false} WalkIsLocal(codec: Codec, s: seq<Record>, t: seq<Record>, n: nat)
    requires n <= |s| && n <= |t| && s[..n] == t[..n]
    ensures Carried(s, n) == Carried(t, n)
    ensures Errors(codec, s, n) == Errors(codec, t, n)
  {
    if n > 0 {
      assert s[..n - 1] == s[..n][..n - 1] && t[..n - 1] == t[..n][..n - 1];
      assert s[n - 1] == s[..n][n - 1] && t[n - 1] == t[..n][n - 1];
      WalkIsLocal(codec, s, t, n - 1);
    }
  }

  lemma {:induction false} ErrorsExtend(codec: Codec, recs: seq<Record>, k: nat, n: nat)
    requires k <= n <= |recs|
    ensures Errors(codec, recs, k) <= Errors(codec, recs, n)
    decreases n - k
  {
    if k < n {
      ErrorsExtend(codec, recs, k, n - 1);
    }
  }

  /** A clean prefix followed by a faulty record breaks exactly there. */
  lemma BreaksAt(codec: Codec, recs: seq<Record>, i: nat)
    requires i < |recs|
    requires Errors(codec, recs, i) == [] && ErrorsAt(codec, recs, i) != []
    ensures Verdict(codec, recs).breakIndex == Some(i)
  {
    assert Errors(codec, recs, i + 1) == ErrorsAt(codec, recs, i);
    ErrorsExtend(codec, recs, i + 1, |recs|);
    assert Errors(codec, recs, |recs|)[0] == ErrorsAt(codec, recs, i)[0];
  }

  /** Any rewrite of a record that has a successor is located at the record itself
      or at the next one, unless the new body collides with the old. */
  lemma RewriteIsLocated(codec: Codec, recs: seq<Record>, i: nat, rec: Record)
    requires Intact(codec, recs)
    requires i + 1 < |recs| && rec != recs[i]
    ensures var v := Verdict(codec, recs[i := rec]);
      v.breakIndex == Some(i) || v.breakIndex == Some(i + 1) ||
      Collision(codec, Body(rec), Body(recs[i]))
  {
    var t := recs[i := rec];
    CleanPrefix(codec, recs, i);
    IntactPrefix(codec, recs, i);
    assert t[..i] == recs[..i];
    WalkIsLocal(codec, t, recs, i);
    if ErrorsAt(codec, t, i) != [] {
      BreaksAt(codec, t, i);
    } else if !Collision(codec, Body(rec), Body(recs[i])) {
      assert IntactAt(codec, recs, i) && IntactAt(codec, recs, i + 1);
      ResealedDiffers(codec, rec, recs[i]);
      assert Carried(t, i + 1) == codec.Digest(Body(rec));
      BreaksAt(codec, t, i + 1);
    }
  }

  lemma ResealedDiffers(codec: Codec, rec: Record, was: Record)
    requires Sealed(codec, rec) && Sealed(codec, was) && rec != was && !Collision(codec, Body(rec), Body(was))
    ensures codec.Digest(Body(rec)) != codec.Digest(Body(was))
  {
    if Body(rec) == Body(was) {
      SealedBodyDetermines(codec, rec, was);
    }
  }

  /** The last record is the exception, and this is how far it goes: its replacement
      passes exactly when it seals itself and keeps the link. */
  lemma LastRecordIsReplaceable(codec: Codec, recs: seq<Record>, rec: Record)
    requires Intact(codec, recs) && recs != []
    ensures Verdict(codec, recs[|recs| - 1 := rec]).ok <==>
            Sealed(codec, rec) && Get(rec, "prev_hash") == Get(recs[|recs| - 1], "prev_hash")
  {
    var n := |recs| - 1;
    var t := recs[n := rec];
    VerdictOkIffIntact(codec, t);
    assert IntactAt(codec, recs, n);
    forall i | 0 <= i < n
      ensures IntactAt(codec, t, i)
    {
      assert IntactAt(codec, recs, i);
    }
    assert Intact(codec, t) <==> IntactAt(codec, t, n);
  }

  /** Two prefixes of one intact trail have different heads. */
  lemma SameHeadBreaksDigest(codec: Codec, recs: seq<Record>, i: nat, j: nat)
    requires Intact(codec, recs) && i < j <= |recs| && HeadOf(codec, recs[..i]) == HeadOf(codec, recs[..j])
    ensures DigestBroken(codec, Bodies(recs))
  {
    IntactPrefix(codec, recs, i);
    IntactPrefix(codec, recs, j);
    HeadCommitsWithin(codec, recs[..i], recs[..j], Bodies(recs));
    assert |recs[..i]| != |recs[..j]|;
  }

  /** Cutting records i..j-1 out of the middle (or off the front) breaks at i. */
  lemma ExcisionIsLocated(codec: Codec, recs: seq<Record>, i: nat, j: nat)
    requires Intact(codec, recs) && i < j < |recs|
    ensures Verdict(codec, recs[..i] + recs[j..]).breakIndex == Some(i) ||
            DigestBroken(codec, Bodies(recs))
  {
    var t := recs[..i] + recs[j..];
    IntactPrefix(codec, recs, i);
    IntactPrefix(codec, recs, j);
    CleanPrefix(codec, recs, i);
    assert t[..i] == recs[..i];
    WalkIsLocal(codec, t, recs, i);
    assert t[i] == recs[j] && IntactAt(codec, recs, j);
    if LinksTo(t[i], Carried(t, i)) {
      SameHeadBreaksDigest(codec, recs, i, j);
    } else {
      BreaksAt(codec, t, i);
    }
  }

  /** Dropping records off the end is never noticed by the walk: only the head tells. */
  lemma TailTruncationIsSilent(codec: Codec, recs: seq<Record>, k: nat)
    requires Intact(codec, recs) && k < |recs|
    ensures Verdict(codec, recs[..k]).ok
    ensures HeadOf(codec, recs[..k]) != HeadOf(codec, recs) || DigestBroken(codec, Bodies(recs))
  {
    IntactPrefix(codec, recs, k);
    VerdictOkIffIntact(codec, recs[..k]);
    assert recs[..|recs|] == recs;
    if HeadOf(codec, recs[..k]) == HeadOf(codec, recs) {
      SameHeadBreaksDigest(codec, recs, k, |recs|);
    }
  }

  /** Appending a record sealed against the cached head leaves the error list of any
      trail, tampered or not, as it was - exactly when the cached head is the digest
      the full walk carries to the end. */
  lemma AppendConservesErrors(codec: Codec, recs: seq<Record>, rec: Record)
    requires Sealed(codec, rec) && LinksTo(rec, HeadOf(codec, recs))
    ensures Errors(codec, recs + [rec], |recs| + 1) == Errors(codec, recs, |recs|) <==>
            HeadOf(codec, recs) == Carried(recs, |recs|)
  {
    var t := recs + [rec];
    assert t[..|recs|] == recs[..|recs|];
    WalkIsLocal(codec, t, recs, |recs|);
    assert t[|recs|] == rec;
  }

  /** The condition holds whenever the last record stores a string hash. */
  lemma StringHashCarriesHead(codec: Codec, recs: seq<Record>)
    requires recs == [] || StringHash(recs[|recs| - 1])
    ensures HeadOf(codec, recs) == Carried(recs, |recs|)
  {
  }

  /** Without a hash there the new record names genesis: the append itself is then a broken
      link, exactly when the walk carries any digest at all. */
  lemma AppendAfterHashlessRecord(codec: Codec, recs: seq<Record>, rec: Record)
    requires recs != [] && StoredHash(recs[|recs| - 1]) == None
    requires Sealed(codec, rec) && LinksTo(rec, HeadOf(codec, recs))
    ensures ChainError(|recs|, BrokenLink) in Verdict(codec, recs + [rec]).errors <==>
            Carried(recs, |recs|) != GENESIS
  {
    var t, n := recs + [rec], |recs|;
    assert HeadOf(codec, recs) == GENESIS;
    CarriedPast(recs, rec);
    ErrorsExact(codec, t, n + 1, ChainError(n, BrokenLink));
    VerdictLists(codec, t, ChainError(n, BrokenLink));
  }

  lemma CarriedPast(recs: seq<Record>, rec: Record)
    ensures Carried(recs + [rec], |recs|) == Carried(recs, |recs|)
  {
    CarriedIsLocal(recs + [rec], recs, |recs|);
  }

  lemma {:induction false} CarriedIsLocal(s: seq<Record>, t: seq<Record>, n: nat)
    requires n <= |s| && n <= |t| && forall i :: 0 <= i < n ==> s[i] == t[i]
    ensures Carried(s, n) == Carried(t, n)
  {
    if n > 0 {
      CarriedIsLocal(s, t, n - 1);
    }
  }

  lemma VerdictLists(codec: Codec, recs: seq<Record>, e: ChainError)
    ensures e in Verdict(codec, recs).errors <==> e in Errors(codec, recs, |recs|)
  {
  }

  /** And it can carry one: a sealed record, then one that lost its hash. */
  lemma HashlessRecordAfterSealed(codec: Codec, first: Record, rec: Record)
    requires Intact(codec, [first])
    requires Sealed(codec, rec) && LinksTo(rec, HeadOf(codec, [first, map[]]))
    ensures ChainError(2, BrokenLink) in Verdict(codec, [first, map[], rec]).errors ||
            DigestBroken(codec, Bodies([first]))
  {
    var two: seq<Record> := [first, map[]];
    assert IntactAt(codec, [first], 0);
    assert StoredHash(two[0]) == Some(Text(codec.Digest(Body(first))));
    assert StoredHash(two[1]) == None;
    assert Carried(two, 0) == GENESIS;
    assert Carried(two, 1) == codec.Digest(Body(first));
    assert Carried(two, 2) == Carried(two, 1);
    assert Body(first) in Bodies([first]) by { assert first in [first]; }
    AppendAfterHashlessRecord(codec, two, rec);
    assert two + [rec] == [first, map[], rec];
  }
}
