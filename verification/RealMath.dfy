/** The real functions the kinematics use, known only by their defining equations. */
module RealMath {

  datatype Math = Math(
    sqrt: real -> real,
    cos: real -> real,   // of an angle in degrees
    sin: real -> real,
    tan: real -> real,
    bearing: (real, real) -> real) // degrees(atan2(east, north)) brought into [0, 360)
  {
    ghost predicate Sound() {
      && (forall x: real :: x >= 0.0 ==> sqrt(x) >= 0.0 && sqrt(x) * sqrt(x) == x)
      && (forall a: real :: cos(a) * cos(a) + sin(a) * sin(a) == 1.0)
    }

    /** The bearing of a vector points along it. */
    ghost predicate Points() {
      forall east: real, north: real ::
        Hypot(north, east) * cos(bearing(east, north)) == north &&
        Hypot(north, east) * sin(bearing(east, north)) == east
    }

    function Hypot(x: real, y: real): real {
      sqrt(x * x + y * y)
    }
  }

  function Abs(x: real): real {
    if x < 0.0 then -x else x
  }

  function Max(x: real, y: real): real {
    if x < y then y else x
  }

  function Min(x: real, y: real): real {
    if x < y then x else y
  }

  /** A product under a name, for definitions whose users need not see it multiplied out. */
  function Times(x: real, y: real): real {
    x * y
  }

  // Products are passed to the sign lemmas by name (`p == x * y`): the solver rewrites a
  // bare square before it can use a fact about it.

  lemma PosTimes(x: real, y: real, p: real)
    requires x > 0.0 && y > 0.0 && p == x * y
    ensures p > 0.0
  {
  }

  lemma NonnegTimes(x: real, y: real, p: real)
    requires x >= 0.0 && y >= 0.0 && p == x * y
    ensures p >= 0.0
  {
  }

  lemma Square(x: real, p: real)
    requires p == x * x
    ensures p >= 0.0
    ensures x != 0.0 ==> p > 0.0
  {
    if x > 0.0 {
      PosTimes(x, x, p);
    } else if x < 0.0 {
      PosTimes(-x, -x, p);
    }
  }

  lemma MulMono(x: real, y: real, k: real)
    requires x <= y && k >= 0.0
    ensures x * k <= y * k && k * x <= k * y
  {
  }

  lemma MulStrict(x: real, y: real, k: real)
    requires x < y && k > 0.0
    ensures x * k < y * k && k * x < k * y
  {
  }

  lemma SquareStrict(x: real, y: real)
    requires 0.0 <= y < x
    ensures y * y < x * x
  {
    var d := x - y;
    PosTimes(d, x, d * x);
    NonnegTimes(d, y, d * y);
    assert d * x == x * x - y * x;
    assert d * y == x * y - y * y;
  }

  lemma SquareMono(x: real, y: real)
    requires 0.0 <= x && 0.0 <= y
    ensures x <= y <==> x * x <= y * y
  {
    if x <= y {
      MulMono(x, y, x);
      MulMono(x, y, y);
    } else {
      SquareStrict(x, y);
    }
  }

  lemma ZeroProduct(x: real, y: real)
    ensures x * y == 0.0 <==> x == 0.0 || y == 0.0
  {
    if x != 0.0 && y != 0.0 {
      assert (x * y) / y == x;
    }
  }

  lemma HypotSquare(m: Math, x: real, y: real)
    requires m.Sound()
    ensures m.Hypot(x, y) >= 0.0 && m.Hypot(x, y) * m.Hypot(x, y) == x * x + y * y
  {
    Square(x, x * x);
    Square(y, y * y);
  }

  /** A hypotenuse is within a radius exactly when the squares say so. */
  lemma HypotWithin(m: Math, x: real, y: real, r: real)
    requires m.Sound() && r >= 0.0
    ensures m.Hypot(x, y) <= r <==> x * x + y * y <= r * r
  {
    HypotSquare(m, x, y);
    SquareMono(m.Hypot(x, y), r);
  }

  lemma AbsTimes(x: real, y: real)
    ensures Abs(x * y) == Abs(x) * Abs(y)
  {
    if x >= 0.0 && y >= 0.0 {
      NonnegTimes(x, y, x * y);
    } else if x < 0.0 && y < 0.0 {
      PosTimes(-x, -y, x * y);
    } else if x < 0.0 {
      NonnegTimes(-x, y, -(x * y));
    } else {
      NonnegTimes(x, -y, -(x * y));
    }
  }

  lemma AbsSquare(t: real)
    ensures Abs(t) * Abs(t) == t * t
  {
  }

  /** A vector of length |t|, against a radius. */
  lemma Circle(m: Math, x: real, y: real, t: real, r: real)
    requires m.Sound() && r >= 0.0 && x * x + y * y == t * t
    ensures m.Hypot(x, y) <= r <==> Abs(t) <= r
  {
    HypotWithin(m, x, y, r);
    AbsSquare(t);
    SquareMono(Abs(t), r);
  }

  lemma ShiftBack(l: real, x: real, k: real, r: real)
    requires k != 0.0 && r == l + x / k
    ensures (r - l) * k == x
  {
    var y := x / k;
    assert y * k == x;
    assert r - l == y;
  }
}
