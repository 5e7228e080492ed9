/** `point_in_polygon`: ray casting over latitude/longitude taken as planar,
    including the small constant the code adds to each edge's denominator. */
module Geofence {
  import opened RealMath

  datatype Point = Point(lat: real, lon: real)

  const EPS := 0.000000000000001

  datatype Hit = Hit | Miss | ZeroDivision

  /** The latitude at which the edge from vj to vi meets the point's meridian. */
  function Threshold(p: Point, vi: Point, vj: Point): real
    requires vj.lon - vi.lon + EPS != 0.0
  {
    (vj.lat - vi.lat) * (p.lon - vi.lon) / (vj.lon - vi.lon + EPS) + vi.lat
  }

  /** One edge from `vj` to `vi` against the eastward ray from `p`. */
  function Crosses(p: Point, vi: Point, vj: Point): Hit {
    if (vi.lon > p.lon) == (vj.lon > p.lon) then Miss
    else if vj.lon - vi.lon + EPS == 0.0 then ZeroDivision
    else if p.lat < Threshold(p, vi, vj) then Hit
    else Miss
  }

  datatype Containment = Inside | Outside | ZeroDivisionError

  type Edge = (Point, Point)

  function Edges(poly: seq<Point>): seq<Edge> {
    seq(|poly|, i requires 0 <= i < |poly| => (poly[i], poly[if i == 0 then |poly| - 1 else i - 1]))
  }

  /** What the ray does at each edge. */
  function Hits(p: Point, edges: seq<Edge>): (hits: seq<Hit>)
    ensures |hits| == |edges|
  {
    if edges == [] then []
    else Hits(p, edges[..|edges| - 1]) + [Crosses(p, edges[|edges| - 1].0, edges[|edges| - 1].1)]
  }

  lemma {:induction false} HitsAt(p: Point, edges: seq<Edge>, k: nat)
    requires k < |edges|
    ensures Hits(p, edges)[k] == Crosses(p, edges[k].0, edges[k].1)
  {
    if k < |edges| - 1 {
      HitsAt(p, edges[..|edges| - 1], k);
    }
  }

  /** Even-odd rule over the edges' outcomes. */
  function Judged(hits: seq<Hit>): Containment {
    if ZeroDivision in hits then ZeroDivisionError
    else if multiset(hits)[Hit] % 2 == 1 then Inside
    else Outside
  }

  /** The rule after the first i edges. */
  predicate OddHits(hits: seq<Hit>, i: nat)
    requires i <= |hits|
  {
    multiset(hits[..i])[Hit] % 2 == 1
  }

  lemma NextParity(hits: seq<Hit>, i: nat)
    requires i < |hits|
    ensures OddHits(hits, i + 1) <==> OddHits(hits, i) != (hits[i] == Hit)
    ensures ZeroDivision !in hits[..i + 1] <==> ZeroDivision !in hits[..i] && hits[i] != ZeroDivision
  {
    assert hits[..i + 1] == hits[..i] + [hits[i]];
  }

  lemma AllParity(hits: seq<Hit>)
    requires ZeroDivision !in hits[..|hits|]
    ensures Judged(hits) == if OddHits(hits, |hits|) then Inside else Outside
  {
    assert hits[..|hits|] == hits;
  }

  function Contains(p: Point, poly: seq<Point>): Containment {
    if |poly| < 3 then Outside else Judged(Hits(p, Edges(poly)))
  }

  /** One edge of the walk, the i-th of `edges`. */
  method TestEdge(p: Point, vi: Point, vj: Point, ghost edges: seq<Edge>, ghost i: nat) returns (r: Hit)
    requires i < |edges| && edges[i] == (vi, vj)
    ensures r == Hits(p, edges)[i]
  {
    HitsAt(p, edges, i);
    assert Hits(p, edges)[i] == Crosses(p, vi, vj);
    r := Miss;
    if (vi.lon > p.lon) != (vj.lon > p.lon) {
      if vj.lon - vi.lon + EPS == 0.0 {
        return ZeroDivision;
      }
      if p.lat < Threshold(p, vi, vj) {
        return Hit;
      }
    }
  }

  method PointInPolygon(p: Point, poly: seq<Point>) returns (r: Containment)
    ensures r == Contains(p, poly)
  {
    if |poly| < 3 {
      return Outside;
    }
    var inside := false;
    var j := |poly| - 1;
    ghost var hits := Hits(p, Edges(poly));
    for i := 0 to |poly|
      invariant j == if i == 0 then |poly| - 1 else i - 1
      invariant inside <==> OddHits(hits, i)
      invariant ZeroDivision !in hits[..i]
    {
      var hit := TestEdge(p, poly[i], poly[j], Edges(poly), i);
      NextParity(hits, i);
      if hit == ZeroDivision {
        return ZeroDivisionError;
      }
      if hit == Hit {
        inside := !inside;
      }
      j := i;
    }
    AllParity(hits);
    r := if inside then Inside else Outside;
  }

  // ---------------------------------------------------------- invariance laws

  lemma {:induction false} HitsConcat(p: Point, a: seq<Edge>, b: seq<Edge>)
    ensures Hits(p, a + b) == Hits(p, a) + Hits(p, b)
  {
    if b == [] {
      assert a + b == a;
    } else {
      var n := |b| - 1;
      assert (a + b)[..|a + b| - 1] == a + b[..n];
      HitsConcat(p, a, b[..n]);
    }
  }

  lemma HitsSingle(p: Point, e: Edge)
    ensures Hits(p, [e]) == [Crosses(p, e.0, e.1)]
  {
    assert [e][..0] == [];
  }

  lemma JudgedAnyOrder(a: seq<Hit>, b: seq<Hit>)
    ensures Judged(a + b) == Judged(b + a)
  {
    assert multiset(a + b) == multiset(b + a);
    assert ZeroDivision in a + b <==> ZeroDivision in b + a;
  }

  lemma MissIsNothing(a: seq<Hit>)
    ensures Judged([Miss] + a) == Judged(a)
  {
    assert ZeroDivision in [Miss] + a <==> ZeroDivision in a;
  }

  function Rotate<T>(s: seq<T>, k: nat): seq<T>
    requires k <= |s|
  {
    s[k..] + s[..k]
  }

  /** Where the vertex list starts does not matter. */
  lemma RotationInvariant(p: Point, poly: seq<Point>, k: nat)
    requires k <= |poly|
    ensures Contains(p, Rotate(poly, k)) == Contains(p, poly)
  {
    var edges := Edges(poly);
    assert Edges(Rotate(poly, k)) == Rotate(edges, k);
    assert edges == edges[..k] + edges[k..];
    HitsConcat(p, edges[k..], edges[..k]);
    HitsConcat(p, edges[..k], edges[k..]);
    JudgedAnyOrder(Hits(p, edges[..k]), Hits(p, edges[k..]));
  }

  /** Writing the polygon closed, first vertex repeated, does not matter, but for two
      vertices. */
  lemma ClosingInvariant(p: Point, poly: seq<Point>)
    requires |poly| == 1 || |poly| >= 3
    ensures Contains(p, poly + [poly[0]]) == Contains(p, poly)
  {
    var loop, first, rest := (poly[0], poly[0]), Edges(poly)[0], Edges(poly)[1..];
    assert Edges(poly + [poly[0]]) == [loop] + (rest + [first]);
    assert Edges(poly) == [first] + rest;
    HitsConcat(p, [loop], rest + [first]);
    HitsConcat(p, rest, [first]);
    HitsConcat(p, [first], rest);
    HitsSingle(p, loop);
    MissIsNothing(Hits(p, rest + [first]));
    JudgedAnyOrder(Hits(p, rest), Hits(p, [first]));
  }

  // The closed two-vertex list is an edge and its own reversal.

  lemma ClosedPairHits(p: Point, a: Point, b: Point)
    ensures Contains(p, [a, b]) == Outside
    ensures Contains(p, [a, b] + [a]) == Judged([Miss, Crosses(p, b, a), Crosses(p, a, b)])
  {
    var three := [a, b] + [a];
    assert three == [a, b, a] && Edges(three) == [(a, a), (b, a), (a, b)];
    ThreeHits(p, (a, a), (b, a), (a, b));
  }

  lemma JudgedReversal(h: Hit, k: Hit)
    ensures Judged([Miss, h, k]) == Judged([Miss, k, h])
  {
    assert [Miss, h, k] == [Miss] + ([h] + [k]) && [Miss, k, h] == [Miss] + ([k] + [h]);
    MissIsNothing([h] + [k]);
    MissIsNothing([k] + [h]);
    JudgedAnyOrder([h], [k]);
  }

  lemma JudgedTwo(h: Hit, k: Hit)
    ensures h == k && h != ZeroDivision ==> Judged([Miss, h, k]) == Outside
    ensures h == ZeroDivision ==> Judged([Miss, h, k]) == ZeroDivisionError
    ensures h == Hit && k == Miss ==> Judged([Miss, h, k]) == Inside
  {
    assert [Miss, h, k][1] == h;
  }

  lemma StraddledEdge(p: Point, vi: Point, vj: Point)
    requires (vi.lon > p.lon) != (vj.lon > p.lon)
    ensures vj.lon - vi.lon + EPS == 0.0 ==> Crosses(p, vi, vj) == ZeroDivision
    ensures vj.lon - vi.lon + EPS != 0.0 ==> Crosses(p, vi, vj) == if p.lat < Threshold(p, vi, vj) then Hit else Miss
  {
  }

  lemma QuotientDiffers(d: real, w: real, u: real, q: real)
    requires d != 0.0 && u != 0.0 && u != w && q == d * w / u
    ensures q != d
  {
    assert q * u == d * w;
    if q == d {
      assert d * (u - w) == 0.0;
      ZeroProduct(d, u - w);
    }
  }

  /** On the western end's meridian the edge is met at that end, its reversal elsewhere. */
  lemma ThresholdsDiffer(p: Point, a: Point, b: Point)
    requires a.lon < b.lon && p.lon == a.lon && a.lat != b.lat && b.lon - a.lon != EPS
    ensures Threshold(p, a, b) == a.lat && Threshold(p, b, a) != a.lat
  {
    ZeroOver(p.lon - a.lon, b.lat - a.lat, b.lon - a.lon + EPS);
    QuotientDiffers(a.lat - b.lat, a.lon - b.lon, a.lon - b.lon + EPS,
                    (a.lat - b.lat) * (a.lon - b.lon) / (a.lon - b.lon + EPS));
  }

  lemma ThresholdByMeridian(p: Point, q: Point, vi: Point, vj: Point)
    requires p.lon == q.lon && vj.lon - vi.lon + EPS != 0.0
    ensures Threshold(p, vi, vj) == Threshold(q, vi, vj)
  {
  }

  lemma HitBelowOnly(p: Point, vi: Point, vj: Point)
    requires (vi.lon > p.lon) != (vj.lon > p.lon) && vj.lon - vi.lon + EPS != 0.0 && vi.lon - vj.lon + EPS != 0.0
    requires p.lat == Threshold(p, vj, vi) < Threshold(p, vi, vj)
    ensures Judged([Miss, Crosses(p, vi, vj), Crosses(p, vj, vi)]) == Inside
  {
    StraddledEdge(p, vi, vj);
    StraddledEdge(p, vj, vi);
    JudgedTwo(Crosses(p, vi, vj), Crosses(p, vj, vi));
  }

  /** At the lower of the two, one edge is hit and the other is not. */
  lemma SliverPoint(a: Point, b: Point) returns (p: Point)
    requires a.lon < b.lon && a.lat != b.lat && b.lon - a.lon != EPS
    ensures Judged([Miss, Crosses(p, b, a), Crosses(p, a, b)]) == Inside
  {
    var q := Point(0.0, a.lon);
    var x, y := Threshold(q, a, b), Threshold(q, b, a);
    ThresholdsDiffer(q, a, b);
    p := Point(Min(x, y), a.lon);
    ThresholdByMeridian(p, q, a, b);
    ThresholdByMeridian(p, q, b, a);
    if x < y {
      HitBelowOnly(p, b, a);
    } else {
      HitBelowOnly(p, a, b);
      JudgedReversal(Crosses(p, b, a), Crosses(p, a, b));
    }
  }

  lemma DivisionPoint(a: Point, b: Point) returns (p: Point)
    requires b.lon - a.lon == EPS
    ensures Judged([Miss, Crosses(p, b, a), Crosses(p, a, b)]) == ZeroDivisionError
  {
    p := Point(0.0, a.lon);
    StraddledEdge(p, b, a);
    JudgedTwo(Crosses(p, b, a), Crosses(p, a, b));
  }

  /** The pairs closing makes no difference to: on one meridian, or on one parallel and not
      exactly the code's small constant apart. */
  predicate ClosesSafely(a: Point, b: Point) {
    a.lon == b.lon || (a.lat == b.lat && b.lon - a.lon != EPS && a.lon - b.lon != EPS)
  }

  lemma SafePairAgrees(p: Point, a: Point, b: Point)
    requires ClosesSafely(a, b)
    ensures Judged([Miss, Crosses(p, b, a), Crosses(p, a, b)]) == Outside
  {
    if a.lon != b.lon {
      LevelEdge(p, a.lat, a.lon, b.lon);
      LevelEdge(p, a.lat, b.lon, a.lon);
    }
    JudgedTwo(Crosses(p, b, a), Crosses(p, a, b));
  }

  lemma UnsafePairDiffers(a: Point, b: Point) returns (p: Point)
    requires !ClosesSafely(a, b)
    ensures Judged([Miss, Crosses(p, b, a), Crosses(p, a, b)]) != Outside
  {
    if b.lon - a.lon == EPS {
      p := DivisionPoint(a, b);
    } else if a.lon - b.lon == EPS {
      p := DivisionPoint(b, a);
      JudgedReversal(Crosses(p, b, a), Crosses(p, a, b));
    } else if a.lon < b.lon {
      p := SliverPoint(a, b);
    } else {
      p := SliverPoint(b, a);
      JudgedReversal(Crosses(p, b, a), Crosses(p, a, b));
    }
  }

  predicate SameAnswer(p: Point, a: Point, b: Point) {
    Contains(p, [a, b] + [a]) == Contains(p, [a, b])
  }

  /** With two vertices closing the list changes no point's answer if and only if they share
      a longitude, or share a latitude and are not exactly the small constant apart. */
  lemma ClosingTwoVertices(a: Point, b: Point)
    ensures (forall p :: SameAnswer(p, a, b)) <==> ClosesSafely(a, b)
  {
    if ClosesSafely(a, b) {
      forall p
        ensures SameAnswer(p, a, b)
      {
        ClosedPairHits(p, a, b);
        SafePairAgrees(p, a, b);
      }
    } else {
      var p := UnsafePairDiffers(a, b);
      ClosedPairHits(p, a, b);
      assert !SameAnswer(p, a, b);
    }
  }

  /** So closing a two-vertex list can matter, and make a point inside. */
  lemma ClosingTwoVerticesMatters()
    ensures exists p: Point, a: Point, b: Point ::
      Contains(p, [a, b]) == Outside && Contains(p, [a, b] + [a]) == Inside
  {
    var a, b := Point(0.0, 0.0), Point(1.0, 1.0);
    var p := SliverPoint(a, b);
    ClosedPairHits(p, a, b);
  }

  lemma ThreeHits(p: Point, a: Edge, b: Edge, c: Edge)
    ensures Hits(p, [a, b, c]) == [Crosses(p, a.0, a.1), Crosses(p, b.0, b.1), Crosses(p, c.0, c.1)]
  {
    HitsAt(p, [a, b, c], 0);
    HitsAt(p, [a, b, c], 1);
    HitsAt(p, [a, b, c], 2);
  }

  // ---------------------------------------------------------------- slanted edges

  predicate Straddles(p: Point, vi: Point, vj: Point) {
    (vi.lon > p.lon) != (vj.lon > p.lon)
  }

  /** The point is south of the chord through the edge's ends, on its own meridian: an
      inequality between products, whose sense follows the sign of the edge's width. */
  predicate Under(p: Point, vi: Point, vj: Point) {
    var width, rise := vj.lon - vi.lon + 0.000000000000001, (vj.lat - vi.lat) * (p.lon - vi.lon);
    (width > 0.0 && (p.lat - vi.lat) * width < rise) || (width < 0.0 && (p.lat - vi.lat) * width > rise)
  }

  lemma QuotientOrder(x: real, q: real, u: real, n: real)
    requires u != 0.0 && q * u == n
    ensures u > 0.0 ==> (x < q <==> x * u < n)
    ensures u < 0.0 ==> (x < q <==> x * u > n)
  {
    if u > 0.0 {
      if x < q {
        MulStrict(x, q, u);
      } else {
        MulMono(q, x, u);
      }
    } else {
      if x < q {
        MulStrict(x, q, -u);
      } else {
        MulMono(q, x, -u);
      }
    }
  }

  lemma ThresholdOrder(p: Point, vi: Point, vj: Point)
    requires vj.lon - vi.lon + EPS != 0.0
    ensures p.lat < Threshold(p, vi, vj) <==> Under(p, vi, vj)
  {
    var u, n := vj.lon - vi.lon + EPS, (vj.lat - vi.lat) * (p.lon - vi.lon);
    var q := n / u;
    assert q * u == n;
    assert Threshold(p, vi, vj) == q + vi.lat;
    QuotientOrder(p.lat - vi.lat, q, u, n);
  }

  /** An edge is hit exactly when it straddles the point's meridian and the point is under
      its chord, and divides by zero exactly when it straddles with no width. */
  lemma EdgeExact(p: Point, vi: Point, vj: Point)
    ensures Crosses(p, vi, vj) == Hit <==> Straddles(p, vi, vj) && Under(p, vi, vj)
    ensures Crosses(p, vi, vj) == ZeroDivision <==> Straddles(p, vi, vj) && vi.lon - vj.lon == 0.000000000000001
  {
    if vj.lon - vi.lon + EPS != 0.0 {
      ThresholdOrder(p, vi, vj);
    }
  }

  lemma JudgedPairExact(h: Hit, k: Hit)
    ensures Judged([Miss, h, k]) ==
      if h == ZeroDivision || k == ZeroDivision then ZeroDivisionError else if h != k then Inside else Outside
  {
    JudgedTwo(h, k);
    JudgedTwo(k, h);
    JudgedReversal(h, k);
  }

  lemma MissLast(h: Hit, k: Hit)
    ensures Judged([h, k, Miss]) == Judged([Miss, h, k])
  {
    assert [h, k, Miss] == [h, k] + [Miss] && [Miss, h, k] == [Miss] + [h, k];
    JudgedAnyOrder([h, k], [Miss]);
  }

  lemma MissBetween(h: Hit, k: Hit)
    ensures Judged([k, Miss, h]) == Judged([Miss, h, k])
  {
    assert [k, Miss, h] == [k] + [Miss, h] && [Miss, h, k] == [Miss, h] + [k];
    JudgedAnyOrder([k], [Miss, h]);
  }

  /** Two edges over one meridian: between their chords, or divided by zero. */
  function BetweenChords(p: Point, e: Edge, f: Edge): Containment {
    if e.1.lon - e.0.lon + EPS == 0.0 || f.1.lon - f.0.lon + EPS == 0.0 then ZeroDivisionError
    else if Under(p, e.0, e.1) != Under(p, f.0, f.1) then Inside
    else Outside
  }

  lemma JudgedChords(p: Point, e: Edge, f: Edge)
    requires Straddles(p, e.0, e.1) && Straddles(p, f.0, f.1)
    ensures Judged([Miss, Crosses(p, e.0, e.1), Crosses(p, f.0, f.1)]) == BetweenChords(p, e, f)
  {
    EdgeExact(p, e.0, e.1);
    EdgeExact(p, f.0, f.1);
    JudgedPairExact(Crosses(p, e.0, e.1), Crosses(p, f.0, f.1));
  }

  /** A triangle holds a point exactly when the point is over it in longitude and between the
      chord of its long side and the chord of the short side it is over. */
  lemma TriangleExact(p: Point, a: Point, b: Point, c: Point)
    requires a.lon < b.lon < c.lon
    ensures Contains(p, [a, b, c]) ==
      if p.lon < a.lon || p.lon >= c.lon then Outside
      else BetweenChords(p, (a, c), if p.lon < b.lon then (b, a) else (c, b))
  {
    assert Edges([a, b, c]) == [(a, c), (b, a), (c, b)];
    ThreeHits(p, (a, c), (b, a), (c, b));
    var h, k, l := Crosses(p, a, c), Crosses(p, b, a), Crosses(p, c, b);
    if p.lon < a.lon || p.lon >= c.lon {
      JudgedPairExact(Miss, Miss);
    } else if p.lon < b.lon {
      MissLast(h, k);
      JudgedChords(p, (a, c), (b, a));
    } else {
      MissBetween(l, h);
      JudgedReversal(l, h);
      JudgedChords(p, (a, c), (c, b));
    }
  }

  /** And listed the other way round. */
  lemma TriangleReversedExact(p: Point, a: Point, b: Point, c: Point)
    requires a.lon < b.lon < c.lon
    ensures Contains(p, [c, b, a]) ==
      if p.lon < a.lon || p.lon >= c.lon then Outside
      else BetweenChords(p, (c, a), if p.lon < b.lon then (a, b) else (b, c))
  {
    assert Edges([c, b, a]) == [(c, a), (b, c), (a, b)];
    ThreeHits(p, (c, a), (b, c), (a, b));
    var h, k, l := Crosses(p, c, a), Crosses(p, b, c), Crosses(p, a, b);
    if p.lon < a.lon || p.lon >= c.lon {
      JudgedPairExact(Miss, Miss);
    } else if p.lon < b.lon {
      MissBetween(l, h);
      JudgedReversal(l, h);
      JudgedChords(p, (c, a), (a, b));
    } else {
      MissLast(h, k);
      JudgedChords(p, (c, a), (b, c));
    }
  }

  // ---------------------------------------------------------------- rectangles

  function Rectangle(south: real, west: real, north: real, east: real): seq<Point> {
    [Point(south, west), Point(south, east), Point(north, east), Point(north, west)]
  }

  function Reversed<T>(s: seq<T>): seq<T> {
    seq(|s|, i requires 0 <= i < |s| => s[|s| - 1 - i])
  }

  lemma FourHits(p: Point, a: Edge, b: Edge, c: Edge, d: Edge)
    ensures Hits(p, [a, b, c, d]) ==
      [Crosses(p, a.0, a.1), Crosses(p, b.0, b.1), Crosses(p, c.0, c.1), Crosses(p, d.0, d.1)]
  {
    HitsAt(p, [a, b, c, d], 0);
    HitsAt(p, [a, b, c, d], 1);
    HitsAt(p, [a, b, c, d], 2);
    HitsAt(p, [a, b, c, d], 3);
  }

  lemma ZeroOver(x: real, y: real, w: real)
    requires x == 0.0 && w != 0.0
    ensures x * y / w == 0.0
  {
  }

  lemma MeridianEdge(p: Point, vi: Point, vj: Point)
    requires vi.lon == vj.lon
    ensures Crosses(p, vi, vj) == Miss
  {
  }

  /** Of two real edges, exactly one must be hit. */
  lemma JudgedPair(h: Hit, k: Hit)
    requires h != ZeroDivision && k != ZeroDivision
    ensures Judged([Miss, h, Miss, k]) == if h != k then Inside else Outside
  {
  }

  lemma LevelThreshold(p: Point, vi: Point, vj: Point)
    requires vj.lat == vi.lat && vj.lon - vi.lon + EPS != 0.0
    ensures Threshold(p, vi, vj) == vi.lat
  {
    ZeroOver(vj.lat - vi.lat, p.lon - vi.lon, vj.lon - vi.lon + EPS);
  }

  /** An edge of constant latitude is crossed exactly from south of it, between its
      end longitudes. */
  lemma LevelEdge(p: Point, lat: real, lonI: real, lonJ: real)
    requires lonJ - lonI + EPS != 0.0
    ensures Crosses(p, Point(lat, lonI), Point(lat, lonJ)) ==
      if ((lonI > p.lon) != (lonJ > p.lon)) && p.lat < lat then Hit else Miss
  {
    LevelThreshold(p, Point(lat, lonI), Point(lat, lonJ));
  }

  /** A rectangle, listed either way round, holds exactly its half-open extent. */
  lemma RectangleExact(p: Point, south: real, west: real, north: real, east: real)
    requires south <= north && west <= east && east - west != EPS
    ensures
      var inside := south <= p.lat < north && west <= p.lon < east;
      && Contains(p, Rectangle(south, west, north, east)) == (if inside then Inside else Outside)
      && Contains(p, Reversed(Rectangle(south, west, north, east))) == (if inside then Inside else Outside)
  {
    var a, b, c, d := Point(south, west), Point(south, east), Point(north, east), Point(north, west);
    RectangleParity(p, a, b, c, d);
    RectangleParity(p, d, c, b, a);
    assert Reversed(Rectangle(south, west, north, east)) == [d, c, b, a];
  }

  /** Four vertices with two level edges a-b and c-d, joined by two meridians. */
  lemma RectangleParity(p: Point, a: Point, b: Point, c: Point, d: Point)
    requires a.lat == b.lat && c.lat == d.lat && b.lon == c.lon && a.lon == d.lon
    requires a.lon - b.lon + EPS != 0.0 && b.lon - a.lon + EPS != 0.0
    ensures Contains(p, [a, b, c, d]) ==
      if ((a.lon > p.lon) != (b.lon > p.lon)) && ((p.lat < a.lat) != (p.lat < c.lat)) then Inside else Outside
  {
    var edges := Edges([a, b, c, d]);
    assert edges == [(a, d), (b, a), (c, b), (d, c)];
    LevelEdge(p, a.lat, b.lon, a.lon);
    LevelEdge(p, c.lat, d.lon, c.lon);
    MeridianEdge(p, a, d);
    MeridianEdge(p, c, b);
    FourHits(p, (a, d), (b, a), (c, b), (d, c));
    JudgedPair(Crosses(p, b, a), Crosses(p, d, c));
  }
}
