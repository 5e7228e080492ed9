/** `Track.fused_digest`: a digest over the sorted digests of a track. */
module FusedDigest {

  /** Order of strings by code point. */
  predicate LexLe(a: string, b: string) {
    if a == "" then true
    else if b == "" then false
    else if a[0] != b[0] then a[0] < b[0]
    else LexLe(a[1..], b[1..])
  }

  lemma {:induction false} LexTotal(a: string, b: string)
    ensures LexLe(a, b) || LexLe(b, a)
    ensures LexLe(a, b) && LexLe(b, a) ==> a == b
  {
    if a != "" && b != "" && a[0] == b[0] {
      LexTotal(a[1..], b[1..]);
      assert a == [a[0]] + a[1..] && b == [b[0]] + b[1..];
    }
  }

  lemma {:induction false} LexTransitive(a: string, b: string, c: string)
    requires LexLe(a, b) && LexLe(b, c)
    ensures LexLe(a, c)
  {
    if a != "" && b != "" && c != "" && a[0] == b[0] == c[0] {
      LexTransitive(a[1..], b[1..], c[1..]);
    }
  }

  function Insert(x: string, s: seq<string>): seq<string> {
    if s == [] || LexLe(x, s[0]) then [x] + s else [s[0]] + Insert(x, s[1..])
  }

  /** `sorted` */
  function Sorted(s: seq<string>): seq<string> {
    if s == [] then [] else Insert(s[0], Sorted(s[1..]))
  }

  predicate Ordered(s: seq<string>) {
    forall i :: 0 <= i < |s| - 1 ==> LexLe(s[i], s[i + 1])
  }

  lemma TailOrdered(s: seq<string>)
    requires Ordered(s) && s != []
    ensures Ordered(s[1..])
  {
    forall i | 0 <= i < |s| - 2
      ensures LexLe(s[1..][i], s[1..][i + 1])
    {
      assert LexLe(s[i + 1], s[i + 1 + 1]);
    }
  }

  lemma {:induction false} InsertOrdered(x: string, s: seq<string>)
    requires Ordered(s)
    ensures Ordered(Insert(x, s)) && multiset(Insert(x, s)) == multiset(s) + multiset{x}
    ensures Insert(x, s)[0] == x || (s != [] && Insert(x, s)[0] == s[0])
  {
    if s == [] || LexLe(x, s[0]) {
    } else {
      LexTotal(x, s[0]);
      TailOrdered(s);
      InsertOrdered(x, s[1..]);
      assert s == [s[0]] + s[1..];
      var r := Insert(x, s[1..]);
      assert LexLe(s[0], r[0]);
      assert Ordered([s[0]] + r);
    }
  }

  lemma {:induction false} SortedSorts(s: seq<string>)
    ensures Ordered(Sorted(s)) && multiset(Sorted(s)) == multiset(s)
  {
    if s != [] {
      SortedSorts(s[1..]);
      InsertOrdered(s[0], Sorted(s[1..]));
      assert s == [s[0]] + s[1..];
    }
  }

  lemma {:induction false} InsertsCommute(x: string, y: string, s: seq<string>)
    ensures Insert(x, Insert(y, s)) == Insert(y, Insert(x, s))
  {
    LexTotal(x, y);
    if s != [] {
      var h := s[0];
      LexTotal(x, h);
      LexTotal(y, h);
      if LexLe(x, y) && LexLe(y, h) {
        LexTransitive(x, y, h);
      }
      if LexLe(y, x) && LexLe(x, h) {
        LexTransitive(y, x, h);
      }
      if !LexLe(x, h) && !LexLe(y, h) {
        InsertsCommute(x, y, s[1..]);
        InsertPast(x, y, s);
        InsertPast(y, x, s);
      }
    }
  }

  lemma InsertPast(x: string, y: string, s: seq<string>)
    requires s != [] && !LexLe(x, s[0]) && !LexLe(y, s[0])
    ensures Insert(x, Insert(y, s)) == [s[0]] + Insert(x, Insert(y, s[1..]))
  {
    assert Insert(y, s)[1..] == Insert(y, s[1..]);
  }

  /** Any element may be sorted in first. */
  lemma {:induction false} SortedFromAnywhere(s: seq<string>, k: nat)
    requires k < |s|
    ensures Sorted(s) == Insert(s[k], Sorted(s[..k] + s[k + 1..]))
  {
    if k == 0 {
      assert s[..0] + s[1..] == s[1..];
    } else {
      SortedFromAnywhere(s[1..], k - 1);
      var rest := s[..k] + s[k + 1..];
      assert rest[0] == s[0] && rest[1..] == s[1..][..k - 1] + s[1..][k..];
      InsertsCommute(s[0], s[k], Sorted(rest[1..]));
    }
  }

  lemma Without<T>(s: seq<T>, k: nat)
    requires k < |s|
    ensures multiset(s[..k] + s[k + 1..]) == multiset(s) - multiset{s[k]}
  {
    assert s == s[..k] + [s[k]] + s[k + 1..];
  }

  lemma Elsewhere<T>(s: seq<T>, t: seq<T>) returns (k: nat)
    requires multiset(s) == multiset(t) && s != []
    ensures k < |t| && t[k] == s[0] && multiset(s[1..]) == multiset(t[..k] + t[k + 1..])
  {
    assert s[0] in multiset(t);
    k :| 0 <= k < |t| && t[k] == s[0];
    Without(t, k);
    assert s == [s[0]] + s[1..];
  }

  /** Sorting forgets the order it was given. */
  lemma {:induction false} SortedForgetsOrder(s: seq<string>, t: seq<string>)
    requires multiset(s) == multiset(t)
    ensures Sorted(s) == Sorted(t)
    decreases |s|
  {
    if s == [] {
      assert |multiset(t)| == 0;
    } else {
      var k := Elsewhere(s, t);
      SortedFromAnywhere(t, k);
      SortedForgetsOrder(s[1..], t[..k] + t[k + 1..]);
    }
  }

  function Joined(s: seq<string>): string {
    if s == [] then "" else if |s| == 1 then s[0] else s[0] + "|" + Joined(s[1..])
  }

  function FusedDigest(sha: string -> string, digests: seq<string>): string {
    sha(Joined(Sorted(digests)))
  }

  /** The fused digest depends on which digests a track holds, not on arrival order. */
  lemma FusedDigestIgnoresOrder(sha: string -> string, s: seq<string>, t: seq<string>)
    requires multiset(s) == multiset(t)
    ensures FusedDigest(sha, s) == FusedDigest(sha, t)
  {
    SortedForgetsOrder(s, t);
  }

  // ---------------------------------------------------------------- what it pins

  /** The order is by the first character in which two strings differ, a prefix first. */
  lemma {:induction false} LexByFirstDifference(a: string, b: string, k: nat)
    requires k <= |a| && k <= |b| && a[..k] == b[..k]
    ensures k == |a| ==> LexLe(a, b)
    ensures k == |b| < |a| ==> !LexLe(a, b)
    ensures k < |a| && k < |b| && a[k] != b[k] ==> (LexLe(a, b) <==> a[k] < b[k])
  {
    if k > 0 {
      assert a[0] == a[..k][0] == b[..k][0] == b[0];
      assert a[1..][..k - 1] == a[..k][1..] == b[..k][1..] == b[1..][..k - 1];
      LexByFirstDifference(a[1..], b[1..], k - 1);
    }
  }

  predicate Plain(s: seq<string>) {
    forall i :: 0 <= i < |s| ==> s[i] != "" && '|' !in s[i]
  }

  /** A text up to its first bar, and what is left. */
  lemma BarSplits(x: string, y: string, r: string, q: string)
    requires '|' !in x && '|' !in y && x + "|" + r == y + "|" + q
    ensures x == y && r == q
  {
    var t := x + "|" + r;
    assert t[|x|] == '|' && t[|y|] == '|';
    assert forall i :: 0 <= i < |x| ==> t[i] == x[i];
    assert forall i :: 0 <= i < |y| ==> t[i] == y[i];
    assert x == t[..|x|] && y == t[..|y|];
    assert r == t[|x| + 1..] && q == t[|y| + 1..];
  }

  lemma NoBarBefore(x: string, y: string, q: string)
    requires '|' !in x
    ensures x != y + "|" + q
  {
    assert (y + "|" + q)[|y|] == '|';
  }

  /** Joining plain texts loses nothing. */
  lemma {:induction false} JoinedIsInjective(s: seq<string>, t: seq<string>)
    requires Plain(s) && Plain(t) && Joined(s) == Joined(t)
    ensures s == t
    decreases |s|
  {
    if s == [] || t == [] {
      JoinedOfSome(s);
      JoinedOfSome(t);
    } else if |s| == 1 || |t| == 1 {
      if |s| > 1 {
        NoBarBefore(t[0], s[0], Joined(s[1..]));
      }
      if |t| > 1 {
        NoBarBefore(s[0], t[0], Joined(t[1..]));
      }
    } else {
      BarSplits(s[0], t[0], Joined(s[1..]), Joined(t[1..]));
      JoinedIsInjective(s[1..], t[1..]);
      assert s == [s[0]] + s[1..] && t == [t[0]] + t[1..];
    }
  }

  lemma JoinedOfSome(s: seq<string>)
    requires Plain(s)
    ensures Joined(s) == "" <==> s == []
  {
  }

  lemma SortedStaysPlain(s: seq<string>)
    requires Plain(s)
    ensures Plain(Sorted(s))
  {
    SortedSorts(s);
    forall i | 0 <= i < |Sorted(s)|
      ensures Sorted(s)[i] != "" && '|' !in Sorted(s)[i]
    {
      assert Sorted(s)[i] in multiset(Sorted(s));
      assert Sorted(s)[i] in multiset(s);
    }
  }

  predicate Collide(sha: string -> string, a: string, b: string) {
    a != b && sha(a) == sha(b)
  }

  /** And it pins them: equal fused digests of digests without a bar, none of them empty, are of
      the same digests, or the two joined texts collide. */
  lemma FusedDigestCommits(sha: string -> string, s: seq<string>, t: seq<string>)
    requires Plain(s) && Plain(t) && FusedDigest(sha, s) == FusedDigest(sha, t)
    ensures multiset(s) == multiset(t) || Collide(sha, Joined(Sorted(s)), Joined(Sorted(t)))
  {
    if Joined(Sorted(s)) == Joined(Sorted(t)) {
      SortedStaysPlain(s);
      SortedStaysPlain(t);
      JoinedIsInjective(Sorted(s), Sorted(t));
      SortedSorts(s);
      SortedSorts(t);
    }
  }
}
