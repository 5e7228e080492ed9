/** The collision-course solver `_collision_course_eta_sec`, over exact reals in the flat
    north/east plane. */
module Intercept {
  import opened Json
  import opened RealMath

  const TINY := 0.000000001
  const FAST := 1000000000.0

  /** Range and relative speed as the solver sees them. */
  datatype Chase = Chase(rn: real, re: real, vn: real, ve: real, vo: real) {
    function A(): real { vn * vn + ve * ve - vo * vo }
    function B(): real { 2.0 * (rn * vn + re * ve) }
    function C(): real { rn * rn + re * re }

    /** |R + Vt t|^2 - (Vo t)^2 */
    function Residual(t: real): real {
      (rn + vn * t) * (rn + vn * t) + (re + ve * t) * (re + ve * t) - (vo * t) * (vo * t)
    }

    /** Own platform and contact are in the same place at time t. */
    predicate Meets(t: real) {
      Residual(t) == 0.0
    }
  }

  function Poly(a: real, b: real, c: real, t: real): real {
    a * t * t + b * t + c
  }

  /** Least of the two candidates above the cut, if any. */
  function LeastPositive(x: real, y: real): Option<real> {
    if x > TINY && y > TINY then Some(Min(x, y))
    else if x > TINY then Some(x)
    else if y > TINY then Some(y)
    else None
  }

  function Quadratic(m: Math, a: real, b: real, c: real): Option<real>
    requires a != 0.0
  {
    var disc := b * b - 4.0 * a * c;
    if disc < 0.0 then None
    else
      var s := m.sqrt(disc);
      LeastPositive((-b + s) / (2.0 * a), (-b - s) / (2.0 * a))
  }

  function Linear(b: real, c: real): Option<real> {
    if Abs(b) < TINY then None
    else
      var t := -c / b;
      if t > TINY then Some(t) else None
  }

  /** `_collision_course_eta_sec` */
  function CollisionCourseEta(m: Math, k: Chase): Option<real> {
    if k.C() < 1.0 then Some(0.0)
    else if k.vo <= TINY then None
    else if Abs(k.A()) < TINY then Linear(k.B(), k.C())
    else Quadratic(m, k.A(), k.B(), k.C())
  }

  // ---------------------------------------------------------------- algebra

  lemma ResidualIsPoly(k: Chase, t: real)
    ensures k.Residual(t) == Poly(k.A(), k.B(), k.C(), t)
  {
    var rn, re, vn, ve, vo := k.rn, k.re, k.vn, k.ve, k.vo;
    Expand(rn, vn, t);
    Expand(re, ve, t);
    assert (vo * t) * (vo * t) == vo * vo * t * t;
    assert k.A() * t * t == vn * vn * t * t + ve * ve * t * t - vo * vo * t * t;
    assert k.B() * t == 2.0 * rn * vn * t + 2.0 * re * ve * t;
  }

  lemma Expand(r: real, v: real, t: real)
    ensures (r + v * t) * (r + v * t) == r * r + 2.0 * r * v * t + v * v * t * t
  {
  }

  lemma CompleteSquare(a: real, b: real, c: real, t: real)
    ensures 4.0 * a * Poly(a, b, c, t) == (2.0 * a * t + b) * (2.0 * a * t + b) - (b * b - 4.0 * a * c)
  {
    var at := a * t;
    assert a * (a * t * t) == at * at;
    assert 4.0 * a * Poly(a, b, c, t) == 4.0 * (a * (a * t * t)) + 4.0 * a * (b * t) + 4.0 * a * c;
    assert (2.0 * at + b) * (2.0 * at + b) == 4.0 * (at * at) + 4.0 * at * b + b * b;
    assert a * (b * t) == at * b;
  }

  lemma PolyVanishes(a: real, b: real, c: real, t: real, w: real, disc: real)
    requires a != 0.0 && w == 2.0 * a * t + b && disc == b * b - 4.0 * a * c
    ensures Poly(a, b, c, t) == 0.0 <==> w * w == disc
  {
    CompleteSquare(a, b, c, t);
    ZeroProduct(4.0 * a, Poly(a, b, c, t));
  }

  lemma SquareRoots(w: real, s: real, disc: real)
    requires s * s == disc
    ensures w * w == disc <==> w == s || w == -s
  {
    assert (w - s) * (w + s) == w * w - s * s;
    ZeroProduct(w - s, w + s);
  }

  /** The roots are exactly the two candidates, and there are none without them. */
  lemma RootsAreCandidates(m: Math, a: real, b: real, c: real, t: real)
    requires m.Sound() && a != 0.0
    ensures var disc := b * b - 4.0 * a * c;
      if disc < 0.0 then Poly(a, b, c, t) != 0.0
      else
        var s := m.sqrt(disc);
        Poly(a, b, c, t) == 0.0 <==> (t == (-b + s) / (2.0 * a) || t == (-b - s) / (2.0 * a))
  {
    var disc := b * b - 4.0 * a * c;
    var w := 2.0 * a * t + b;
    PolyVanishes(a, b, c, t, w, disc);
    Square(w, w * w);
    if disc >= 0.0 {
      var s := m.sqrt(disc);
      SquareRoots(w, s, disc);
      SolveLinear(a, b, s, t);
      SolveLinear(a, b, -s, t);
    }
  }

  lemma SolveLinear(a: real, b: real, s: real, t: real)
    requires a != 0.0
    ensures t == (-b + s) / (2.0 * a) <==> 2.0 * a * t + b - s == 0.0
  {
    var q := (-b + s) / (2.0 * a);
    assert q * (2.0 * a) == -b + s;
    if 2.0 * a * t + b - s == 0.0 {
      assert (t - q) * (2.0 * a) == 0.0;
      ZeroProduct(t - q, 2.0 * a);
    }
  }

  /** The quadratic branch finds the least root above the cut, and misses none. */
  lemma QuadraticExact(m: Math, a: real, b: real, c: real)
    requires m.Sound() && a != 0.0
    ensures match Quadratic(m, a, b, c)
      case Some(t) => t > TINY && Poly(a, b, c, t) == 0.0 &&
                      forall u :: u > TINY && Poly(a, b, c, u) == 0.0 ==> t <= u
      case None => forall u :: u > TINY ==> Poly(a, b, c, u) != 0.0
  {
    forall u | u > TINY && Poly(a, b, c, u) == 0.0
      ensures Quadratic(m, a, b, c).Some? && Quadratic(m, a, b, c).value <= u
    {
      RootsAreCandidates(m, a, b, c, u);
    }
    if Quadratic(m, a, b, c).Some? {
      RootsAreCandidates(m, a, b, c, Quadratic(m, a, b, c).value);
    }
  }

  // ---------------------------------------------------------------- the solver

  /** Away from the linear branch the solver returns the first meeting time above the
      cut, and nothing exactly when there is none. */
  lemma SolverExact(m: Math, k: Chase)
    requires m.Sound() && k.C() >= 1.0 && k.vo > TINY && Abs(k.A()) >= TINY
    ensures match CollisionCourseEta(m, k)
      case Some(t) => t > TINY && k.Meets(t) && forall u :: u > TINY && k.Meets(u) ==> t <= u
      case None => forall u :: u > TINY ==> !k.Meets(u)
  {
    QuadraticExact(m, k.A(), k.B(), k.C());
    forall u
      ensures k.Meets(u) <==> Poly(k.A(), k.B(), k.C(), u) == 0.0
    {
      ResidualIsPoly(k, u);
    }
  }

  lemma LinearRoot(b: real, c: real, t: real)
    requires b != 0.0
    ensures t == -c / b <==> b * t + c == 0.0
  {
    var q := -c / b;
    assert q * b == -c;
    if b * t + c == 0.0 {
      assert (t - q) * b == 0.0;
      ZeroProduct(t - q, b);
    }
  }

  /** In the linear branch the answer is the root of B t + C above the cut, if the contact
      closes at all. */
  lemma LinearBranchExact(m: Math, k: Chase, t: real)
    requires k.C() >= 1.0 && k.vo > TINY && Abs(k.A()) < TINY
    ensures CollisionCourseEta(m, k) == Some(t) <==>
      Abs(k.B()) >= 0.000000001 && k.B() * t + k.C() == 0.0 && t > 0.000000001
  {
    if Abs(k.B()) >= TINY {
      LinearRoot(k.B(), k.C(), t);
    }
  }

  /** And at rest there is none. */
  lemma AtRestMeetsNothing(m: Math, k: Chase)
    requires k.C() >= 1.0 && k.vo <= TINY
    ensures CollisionCourseEta(m, k) == None
  {
  }

  /** Whatever branch answers, the miss at the answer is below the cut relative to t^2. */
  lemma SolverSound(m: Math, k: Chase)
    requires m.Sound() && k.C() >= 1.0 && CollisionCourseEta(m, k).Some?
    ensures var t := CollisionCourseEta(m, k).value;
      t > TINY && Abs(k.Residual(t)) < TINY * t * t
  {
    var t := CollisionCourseEta(m, k).value;
    if Abs(k.A()) < TINY {
      LinearMiss(k.A(), k.B(), k.C(), t);
      ResidualIsPoly(k, t);
    } else {
      SolverExact(m, k);
      assert k.Residual(t) == 0.0;
      ScaledSquare(TINY, t, t * t);
    }
  }

  lemma ScaledSquare(a: real, t: real, tt: real)
    requires t > 0.0 && tt == t * t
    ensures tt > 0.0 && a * t * t == a * tt
    ensures a > 0.0 ==> a * tt > 0.0
  {
    PosTimes(t, t, tt);
    assert a * t * t == a * (t * t);
    if a > 0.0 {
      PosTimes(a, tt, a * tt);
    }
  }

  /** In the linear branch the answer is off by the neglected square term only. */
  lemma LinearMiss(a: real, b: real, c: real, t: real)
    requires Abs(a) < TINY && t > 0.0 && b != 0.0 && t == -c / b
    ensures Poly(a, b, c, t) == a * t * t
    ensures Abs(a * t * t) < TINY * t * t
  {
    assert t * b == -c;
    assert b * t == t * b;
    var tt := t * t;
    ScaledSquare(a, t, tt);
    ScaledSquare(TINY, t, tt);
    MulStrict(a, TINY, tt);
    MulStrict(-TINY, a, tt);
  }

  /** Cauchy-Schwarz in the plane, for norms given by their squares. */
  lemma CauchySchwarz(a: real, b: real, c: real, d: real, r: real, w: real)
    requires r >= 0.0 && w >= 0.0 && r * r == a * a + b * b && w * w == c * c + d * d
    ensures -(r * w) <= a * c + b * d <= r * w
  {
    var dot, cross := a * c + b * d, a * d - b * c;
    LagrangeIdentity(a, b, c, d);
    Square(cross, cross * cross);
    assert (r * w) * (r * w) == (r * r) * (w * w);
    assert dot * dot <= (r * w) * (r * w);
    MulMono(0.0, r, w);
    if dot >= 0.0 {
      SquareMono(dot, r * w);
    } else {
      assert (-dot) * (-dot) == dot * dot;
      SquareMono(-dot, r * w);
    }
  }

  lemma LagrangeIdentity(a: real, b: real, c: real, d: real)
    ensures (a * a + b * b) * (c * c + d * d) == (a * c + b * d) * (a * c + b * d) + (a * d - b * c) * (a * d - b * c)
  {
    assert (a * a + b * b) * (c * c + d * d) == a * a * c * c + a * a * d * d + b * b * c * c + b * b * d * d;
    assert (a * c + b * d) * (a * c + b * d) == a * a * c * c + 2.0 * a * b * c * d + b * b * d * d;
    assert (a * d - b * c) * (a * d - b * c) == a * a * d * d - 2.0 * a * b * c * d + b * b * c * c;
  }

  /** The reverse triangle inequality for R and -Vt, by squares. */
  lemma ReverseTriangle(k: Chase, r: real, w: real, t: real)
    requires r >= 0.0 && w >= 0.0 && t > 0.0
    requires r * r == k.rn * k.rn + k.re * k.re && w * w == k.vn * k.vn + k.ve * k.ve
    ensures (r - w * t) * (r - w * t) <=
            (k.rn + k.vn * t) * (k.rn + k.vn * t) + (k.re + k.ve * t) * (k.re + k.ve * t)
  {
    CauchySchwarz(k.rn, k.re, k.vn, k.ve, r, w);
    Expand(k.rn, k.vn, t);
    Expand(k.re, k.ve, t);
    Expand(r, -w, t);
    var dot := k.rn * k.vn + k.re * k.ve;
    MulMono(-(r * w), dot, t);
    var tt := t * t;
    assert (-w) * t == -(w * t);
    assert w * w * tt == k.vn * k.vn * tt + k.ve * k.ve * tt;
    assert dot * t == k.rn * k.vn * t + k.re * k.ve * t;
  }

  lemma NotFarther(gap: real, reach: real)
    requires reach >= 0.0 && gap * gap <= reach * reach
    ensures gap <= reach
  {
    if gap > reach {
      SquareStrict(gap, reach);
    }
  }

  lemma NotBeforeClosing(m: Math, k: Chase, t: real)
    requires m.Sound() && k.C() >= 1.0 && k.vo >= 0.0 && t > 0.0 && k.Meets(t)
    ensures (k.vo + m.Hypot(k.vn, k.ve)) * t >= 1.0
  {
    var r, w := m.Hypot(k.rn, k.re), m.Hypot(k.vn, k.ve);
    HypotSquare(m, k.rn, k.re);
    HypotSquare(m, k.vn, k.ve);
    SquareMono(1.0, r);
    assert r >= 1.0;
    ReverseTriangle(k, r, w, t);
    NonnegTimes(k.vo, t, k.vo * t);
    NotFarther(r - w * t, k.vo * t);
    assert (k.vo + w) * t == k.vo * t + w * t;
  }

  /** A positive candidate of a quadratic that opens down from above zero. */
  function UpperRoot(m: Math, a: real, b: real, c: real): real
    requires a != 0.0
  {
    (-b - m.sqrt(b * b - 4.0 * a * c)) / (2.0 * a)
  }

  /** A downward parabola with a positive value at 0 has exactly one positive root. */
  lemma OnePositiveRoot(m: Math, a: real, b: real, c: real, u: real)
    requires m.Sound() && a < 0.0 && c > 0.0
    ensures UpperRoot(m, a, b, c) > 0.0
    ensures u > 0.0 ==> (Poly(a, b, c, u) == 0.0 <==> u == UpperRoot(m, a, b, c))
  {
    var disc := b * b - 4.0 * a * c;
    Square(b, b * b);
    PosTimes(c, -a, -(a * c));
    var s := m.sqrt(disc);
    RootBeatsMiddle(a, b, c, s);
    var q := UpperRoot(m, a, b, c);
    SolveLinear(a, b, -s, q);
    assert 2.0 * a * q == -b - s;
    if q <= 0.0 {
      NonnegTimes(-q, -a, q * a);
    }
    RootsAreCandidates(m, a, b, c, u);
    RootsAreCandidates(m, a, b, c, q);
    if u > 0.0 && u == (-b + s) / (2.0 * a) {
      SolveLinear(a, b, s, u);
      PosTimes(u, -a, -(u * a));
    }
  }

  /** A platform faster than the contact always gets an answer, and it is the only
      positive meeting time. */
  lemma FasterAlwaysMeets(m: Math, k: Chase)
    requires m.Sound() && k.C() >= 1.0 && k.vo >= 0.0
    requires k.vo * k.vo - (k.vn * k.vn + k.ve * k.ve) >= TINY
    requires k.vo + m.Hypot(k.vn, k.ve) < FAST
    ensures CollisionCourseEta(m, k).Some?
    ensures forall u :: u > 0.0 && k.Meets(u) <==> u == CollisionCourseEta(m, k).value
  {
    var a, b, c := k.A(), k.B(), k.C();
    var q := UpperRoot(m, a, b, c);
    NotStandingStill(k);
    OnePositiveRoot(m, a, b, c, q);
    ResidualIsPoly(k, q);
    NotBeforeClosing(m, k, q);
    AboveCut(k.vo + m.Hypot(k.vn, k.ve), q);
    SolverExact(m, k);
    var t := CollisionCourseEta(m, k).value;
    ResidualIsPoly(k, t);
    OnePositiveRoot(m, a, b, c, t);
    forall u | u > 0.0
      ensures k.Meets(u) <==> u == t
    {
      ResidualIsPoly(k, u);
      OnePositiveRoot(m, a, b, c, u);
    }
  }

  lemma NotStandingStill(k: Chase)
    requires k.vo >= 0.0 && k.vo * k.vo - (k.vn * k.vn + k.ve * k.ve) >= TINY
    ensures k.vo > TINY
  {
    Square(k.vn, k.vn * k.vn);
    Square(k.ve, k.ve * k.ve);
    if k.vo <= TINY {
      SquareMono(k.vo, TINY);
    }
  }

  lemma RootBeatsMiddle(a: real, b: real, c: real, s: real)
    requires a < 0.0 && c > 0.0 && s >= 0.0 && s * s == b * b - 4.0 * a * c
    ensures s > b && s > -b
  {
    PosTimes(c, -a, -(a * c));
    assert s * s > b * b;
    assert (-b) * (-b) == b * b;
    if b >= 0.0 {
      SquareMono(s, b);
    } else {
      SquareMono(s, -b);
    }
  }

  lemma AboveCut(speed: real, t: real)
    requires t > 0.0 && speed < FAST && speed * t >= 1.0
    ensures t > TINY
  {
    MulStrict(speed, FAST, t);
  }

  /** A platform no faster than a contact that is not closing never gets one. */
  lemma SlowerNeverMeets(m: Math, k: Chase)
    requires m.Sound() && k.C() >= 1.0
    requires k.vn * k.vn + k.ve * k.ve >= k.vo * k.vo
    requires k.rn * k.vn + k.re * k.ve >= 0.0
    ensures CollisionCourseEta(m, k) == None
  {
    var r := CollisionCourseEta(m, k);
    var a, b, c := k.A(), k.B(), k.C();
    if r.Some? {
      var t := r.value;
      SolverSound(m, k);
      if Abs(a) < TINY {
        LinearMiss(a, b, c, t);
        UpwardPositive(0.0, b, c, t);
      } else {
        SolverExact(m, k);
        ResidualIsPoly(k, t);
        UpwardPositive(a, b, c, t);
      }
    }
  }

  lemma UpwardPositive(a: real, b: real, c: real, t: real)
    requires a >= 0.0 && b >= 0.0 && c >= 1.0 && t > 0.0
    ensures Poly(a, b, c, t) >= 1.0
    ensures b * t + c >= 1.0
  {
    var tt := t * t;
    ScaledSquare(a, t, tt);
    NonnegTimes(a, tt, a * tt);
    NonnegTimes(b, t, b * t);
  }
}
