/** The stepping simulator of `app/adapters/kinematics_sim.py`: a platform that closes on
    its waypoint by speed * dt a step, and the bound on how long that takes. */
module PlatformSim {
  import opened Json
  import opened RealMath
  import opened Kinematics

  datatype Sim = Sim(
    lat: real,
    lon: real,
    speed: real,
    heading: real,
    waypoint: Option<(real, real)>,
    history: seq<(real, real)>)
  {
    function Position(): (real, real) {
      (lat, lon)
    }

    function Moved(lat': real, lon': real): Sim {
      this.(lat := lat', lon := lon', history := history + [(lat', lon')])
    }

    predicate UnderWay() {
      waypoint.Some? && speed > 0.0
    }
  }

  /** Degrees gained by going `step` of the `dist` metres whose component is `gap`. */
  function Along(gap: real, dist: real, step: real, scale: real): real
    requires dist > 0.0 && scale > 0.0
  {
    Times(gap / dist, step) / scale
  }

  /** Metres to the waypoint, in the plane scaled at the platform. */
  function ToGo(m: Math, s: Sim): real
    requires s.waypoint.Some?
  {
    var o := EnuOffset(m, s.lat, s.lon, s.waypoint.value.0, s.waypoint.value.1);
    m.Hypot(o.0, o.1)
  }

  function Leg(m: Math, s: Sim, dt: real): real
    requires s.waypoint.Some?
  {
    Min(Times(s.speed, dt), ToGo(m, s))
  }

  /** `step` */
  function Advance(m: Math, s: Sim, dt: real): Sim {
    if !s.UnderWay() then s.Moved(s.lat, s.lon)
    else
      var w := s.waypoint.value;
      var o := EnuOffset(m, s.lat, s.lon, w.0, w.1);
      var dist := ToGo(m, s);
      if dist < 1.0 then
        s.Moved(w.0, w.1).(waypoint := None, speed := 0.0)
      else
        s.Moved(
          s.lat + Along(o.0, dist, Leg(m, s, dt), M_PER_DEG),
          s.lon + Along(o.1, dist, Leg(m, s, dt), Max(LonScale(m, s.lat), SCALE_FLOOR)))
         .(heading := m.bearing(o.1, o.0))
  }

  /** `run_until_arrival`: at most n steps, none after arrival. */
  function Run(m: Math, s: Sim, dt: real, n: nat): Sim
    decreases n
  {
    if n == 0 || s.waypoint.None? then s else Run(m, Advance(m, s, dt), dt, n - 1)
  }

  // ---------------------------------------------------------------- one step

  lemma Cancel(x: real, y: real, k: real)
    requires k != 0.0 && x * k == y * k
    ensures x == y
  {
    assert (x - y) * k == 0.0;
    ZeroProduct(x - y, k);
  }

  lemma AlongIsShare(gap: real, dist: real, step: real, scale: real, x: real, f: real)
    requires dist > 0.0 && scale > 0.0 && gap == Times(x, scale) && f == step / dist
    ensures Along(gap, dist, step, scale) == Times(f, x)
  {
    var y := gap / dist;
    var p := Times(y, step);
    var z := p / scale;
    assert y * dist == gap && f * dist == step && z * scale == p;
    ShareOfGap(y, dist, step, f, gap, p);
    assert p == Times(f, x) * scale;
    Cancel(z, Times(f, x), scale);
  }

  lemma ShareOfGap(y: real, dist: real, step: real, f: real, gap: real, p: real)
    requires y * dist == gap && f * dist == step && p == Times(y, step)
    ensures p == f * gap
  {
    assert y * (f * dist) == f * (y * dist);
  }

  /** A step that neither waits nor snaps to the waypoint. */
  predicate Sails(m: Math, s: Sim) {
    s.UnderWay() && ToGo(m, s) >= 1.0 && LonScale(m, s.lat) >= SCALE_FLOOR
  }

  lemma SailsByShare(m: Math, s: Sim, dt: real, f: real)
    requires Sails(m, s) && f == Leg(m, s, dt) / ToGo(m, s)
    ensures var t, w := Advance(m, s, dt), s.waypoint.value;
      && t.lat == s.lat + Times(f, w.0 - s.lat)
      && t.lon == s.lon + Times(f, w.1 - s.lon)
  {
    var w := s.waypoint.value;
    var o := EnuOffset(m, s.lat, s.lon, w.0, w.1);
    AlongIsShare(o.0, ToGo(m, s), Leg(m, s, dt), M_PER_DEG, w.0 - s.lat, f);
    AlongIsShare(o.1, ToGo(m, s), Leg(m, s, dt), LonScale(m, s.lat), w.1 - s.lon, f);
  }

  /** `q` is on the straight line from `p` to `w`, `keep` of the way back from `w`. */
  function Back(p: (real, real), w: (real, real), keep: real): (real, real) {
    (w.0 + Times(keep, p.0 - w.0), w.1 + Times(keep, p.1 - w.1))
  }

  /** `q` is on the segment from `p` to `w`. */
  ghost predicate OnTheWay(p: (real, real), q: (real, real), w: (real, real)) {
    exists keep :: 0.0 <= keep <= 1.0 && q == Back(p, w, keep)
  }

  lemma BackIsForth(x: real, w: real, f: real, keep: real, r: real)
    requires keep == 1.0 - f && r == x + Times(f, w - x)
    ensures r == w + Times(keep, x - w)
  {
  }

  lemma ShareWithin(leg: real, dist: real, f: real)
    requires 0.0 <= leg <= dist && dist > 0.0 && f == leg / dist
    ensures 0.0 <= f <= 1.0 && (leg == dist ==> f == 1.0)
  {
    assert f * dist == leg;
    if f < 0.0 {
      MulStrict(f, 0.0, dist);
    } else if f > 1.0 {
      MulStrict(1.0, f, dist);
    } else if leg == dist {
      Cancel(f, 1.0, dist);
    }
  }

  lemma LegBounds(m: Math, s: Sim, dt: real)
    requires Sails(m, s) && dt > 0.0
    ensures 0.0 < Leg(m, s, dt) <= ToGo(m, s)
  {
    PosTimes(s.speed, dt, Times(s.speed, dt));
  }

  lemma StaysOnSegment(m: Math, s: Sim, dt: real) returns (keep: real)
    requires Sails(m, s) && dt > 0.0
    ensures Advance(m, s, dt).Position() == Back(s.Position(), s.waypoint.value, keep)
    ensures 0.0 <= keep <= 1.0
    ensures keep == 1.0 - Leg(m, s, dt) / ToGo(m, s)
    ensures Leg(m, s, dt) == ToGo(m, s) ==> keep == 0.0
  {
    var f := Leg(m, s, dt) / ToGo(m, s);
    var t, w := Advance(m, s, dt), s.waypoint.value;
    keep := 1.0 - f;
    LegBounds(m, s, dt);
    ShareWithin(Leg(m, s, dt), ToGo(m, s), f);
    SailsByShare(m, s, dt, f);
    BackIsForth(s.lat, w.0, f, keep, t.lat);
    BackIsForth(s.lon, w.1, f, keep, t.lon);
  }

  lemma ShareOfOffset(f: real, x: real, k: real, d: real)
    requires d == Times(f, x)
    ensures Times(d, k) == Times(f, Times(x, k))
  {
  }

  /** A sailing step covers speed * dt metres of ground, or all there is to the waypoint. */
  lemma StepCoversItsLeg(m: Math, s: Sim, dt: real)
    requires m.Sound() && Sails(m, s) && dt > 0.0
    ensures var t := Advance(m, s, dt);
      var gone := EnuOffset(m, s.lat, s.lon, t.lat, t.lon);
      m.Hypot(gone.0, gone.1) == Min(Times(s.speed, dt), ToGo(m, s))
  {
    var t, w := Advance(m, s, dt), s.waypoint.value;
    var f, o := Leg(m, s, dt) / ToGo(m, s), EnuOffset(m, s.lat, s.lon, w.0, w.1);
    LegBounds(m, s, dt);
    ShareWithin(Leg(m, s, dt), ToGo(m, s), f);
    SailsByShare(m, s, dt, f);
    ShareOfOffset(f, w.0 - s.lat, M_PER_DEG, t.lat - s.lat);
    ShareOfOffset(f, w.1 - s.lon, LonScale(m, s.lat), t.lon - s.lon);
    HypotShrinks(m, o.0, o.1, f);
    assert Times(f, ToGo(m, s)) == Leg(m, s, dt);
  }

  lemma ShareOfLeg(dist: real, leg: real, c: real, gap: real)
    requires dist > 0.0 && dist * c == gap
    ensures Times(gap / dist, leg) == Times(leg, c)
  {
    var y := gap / dist;
    assert y * dist == gap && c * dist == gap;
    Cancel(y, c, dist);
  }

  /** A sailing step is dead reckoning: it turns to the bearing of the waypoint and goes its
      leg along that heading, at the same speed and for the same waypoint. */
  lemma StepIsDeadReckoning(m: Math, s: Sim, dt: real)
    requires m.Points() && Sails(m, s)
    ensures var t, w := Advance(m, s, dt), s.waypoint.value;
      var gap := EnuOffset(m, s.lat, s.lon, w.0, w.1);
      && t.heading == m.bearing(gap.1, gap.0)
      && t.Position() == Displace(m, s.lat, s.lon, t.heading, Leg(m, s, dt))
      && t.speed == s.speed && t.waypoint == s.waypoint
  {
    var w := s.waypoint.value;
    var gap := EnuOffset(m, s.lat, s.lon, w.0, w.1);
    var h := m.bearing(gap.1, gap.0);
    assert m.Hypot(gap.0, gap.1) * m.cos(h) == gap.0 && m.Hypot(gap.0, gap.1) * m.sin(h) == gap.1;
    ShareOfLeg(ToGo(m, s), Leg(m, s, dt), m.cos(h), gap.0);
    ShareOfLeg(ToGo(m, s), Leg(m, s, dt), m.sin(h), gap.1);
  }

  /** Without a waypoint or a speed a step only records where the platform is. */
  lemma StepWaits(m: Math, s: Sim, dt: real)
    requires s.waypoint == None || s.speed <= 0.0
    ensures Advance(m, s, dt) == s.(history := s.history + [(s.lat, s.lon)])
  {
  }

  /** Within a metre it snaps to the waypoint and is done, heading as it was. */
  lemma StepSnaps(m: Math, s: Sim, dt: real)
    requires s.waypoint.Some? && s.speed > 0.0
    requires var gap := EnuOffset(m, s.lat, s.lon, s.waypoint.value.0, s.waypoint.value.1);
      m.Hypot(gap.0, gap.1) < 1.0
    ensures var w := s.waypoint.value;
      Advance(m, s, dt) == Sim(w.0, w.1, 0.0, s.heading, None, s.history + [w])
  {
  }

  // ---------------------------------------------------------------- progress

  /** Metres to go if a degree were as long as a degree of latitude. */
  function Remaining(m: Math, p: (real, real), w: (real, real)): real {
    Times(M_PER_DEG, m.Hypot(w.0 - p.0, w.1 - p.1))
  }

  lemma ScaleAtMost(m: Math, lat: real)
    requires m.Sound()
    ensures LonScale(m, lat) <= M_PER_DEG
  {
    var c, s := m.cos(lat), m.sin(lat);
    Pythagoras(m, lat, c, s);
    Square(s, s * s);
    if c > 1.0 {
      SquareStrict(c, 1.0);
    }
  }

  lemma SquaresScaled(x: real, y: real, a: real, b: real, k: real, px: real, py: real)
    requires px == x * a && py == y * b && 0.0 <= a <= k && 0.0 <= b <= k
    ensures px * px + py * py <= (k * k) * (x * x + y * y)
  {
    Square(x, x * x);
    Square(y, y * y);
    SquareMono(a, k);
    SquareMono(b, k);
    assert px * px == (x * x) * (a * a) && py * py == (y * y) * (b * b);
    MulMono(a * a, k * k, x * x);
    MulMono(b * b, k * k, y * y);
  }

  lemma HypotScaled(m: Math, x: real, y: real, a: real, b: real, k: real)
    requires m.Sound() && 0.0 <= a <= k && 0.0 <= b <= k
    ensures m.Hypot(Times(x, a), Times(y, b)) <= Times(k, m.Hypot(x, y))
  {
    var h := m.Hypot(x, y);
    var r := Times(k, h);
    HypotSquare(m, x, y);
    NonnegTimes(k, h, r);
    SquaresScaled(x, y, a, b, k, Times(x, a), Times(y, b));
    assert r * r == (k * k) * (h * h);
    HypotWithin(m, Times(x, a), Times(y, b), r);
  }

  lemma ToGoWithinRemaining(m: Math, s: Sim)
    requires m.Sound() && s.waypoint.Some? && LonScale(m, s.lat) >= SCALE_FLOOR
    ensures ToGo(m, s) <= Remaining(m, s.Position(), s.waypoint.value)
  {
    var w := s.waypoint.value;
    ScaleAtMost(m, s.lat);
    HypotScaled(m, w.0 - s.lat, w.1 - s.lon, M_PER_DEG, LonScale(m, s.lat), M_PER_DEG);
  }

  /** Hypotenuses scale: going back along the line shortens what remains by that share. */
  lemma HypotShrinks(m: Math, x: real, y: real, k: real)
    requires m.Sound() && k >= 0.0
    ensures m.Hypot(Times(k, x), Times(k, y)) == Times(k, m.Hypot(x, y))
  {
    var h := m.Hypot(x, y);
    var r, q := Times(k, h), m.Hypot(Times(k, x), Times(k, y));
    HypotSquare(m, x, y);
    HypotSquare(m, Times(k, x), Times(k, y));
    NonnegTimes(k, h, r);
    assert r * r == (k * k) * (h * h);
    assert Times(k, x) * Times(k, x) == (k * k) * (x * x) && Times(k, y) * Times(k, y) == (k * k) * (y * y);
    assert q * q == r * r;
    SquareMono(q, r);
    SquareMono(r, q);
  }

  lemma RemainingShrinks(m: Math, p: (real, real), w: (real, real), keep: real)
    requires m.Sound() && keep >= 0.0
    ensures Remaining(m, Back(p, w, keep), w) == Times(keep, Remaining(m, p, w))
  {
    var x, y := w.0 - p.0, w.1 - p.1;
    var q := Back(p, w, keep);
    assert w.0 - q.0 == Times(keep, x) && w.1 - q.1 == Times(keep, y);
    HypotShrinks(m, x, y, keep);
    Swapped(M_PER_DEG, keep, m.Hypot(x, y));
  }

  lemma Swapped(x: real, y: real, z: real)
    ensures Times(x, Times(y, z)) == Times(y, Times(x, z))
  {
  }

  lemma ShareOfRemaining(leg: real, dist: real, rem: real, keep: real)
    requires 0.0 < leg && 0.0 < dist <= rem && keep == 1.0 - leg / dist
    ensures Times(keep, rem) <= rem - leg
  {
    var f := leg / dist;
    assert f * dist == leg;
    if f <= 0.0 {
      MulMono(f, 0.0, dist);
    }
    MulMono(dist, rem, f);
    assert Times(keep, rem) == rem - f * rem;
  }

  /** A sailing step takes at least its own length off what remains, and the last one takes
      all of it. */
  lemma Progress(m: Math, s: Sim, dt: real)
    requires m.Sound() && Sails(m, s) && dt > 0.0
    ensures var w, t := s.waypoint.value, Advance(m, s, dt);
      && Remaining(m, t.Position(), w) <= Remaining(m, s.Position(), w) - Leg(m, s, dt)
      && (Leg(m, s, dt) == ToGo(m, s) ==> t.Position() == w)
  {
    var w := s.waypoint.value;
    var keep := StaysOnSegment(m, s, dt);
    LegBounds(m, s, dt);
    ToGoWithinRemaining(m, s);
    RemainingShrinks(m, s.Position(), w, keep);
    ShareOfRemaining(Leg(m, s, dt), ToGo(m, s), Remaining(m, s.Position(), w), keep);
  }

  // ---------------------------------------------------------------- whole runs

  /** Longitude has a usable scale at every latitude on the way. */
  ghost predicate Navigable(m: Math, lat: real, to: real) {
    forall a :: (lat <= a <= to || to <= a <= lat) ==> LonScale(m, a) >= SCALE_FLOOR
  }

  lemma ShareOf(keep: real, y: real, z: real)
    requires 0.0 <= keep <= 1.0 && z == Times(keep, y)
    ensures 0.0 <= z <= y || y <= z <= 0.0
  {
    if y < 0.0 {
      NonnegTimes(keep, -y, -z);
      MulMono(keep, 1.0, -y);
    } else {
      NonnegTimes(keep, y, z);
      MulMono(keep, 1.0, y);
    }
  }

  lemma BetweenBack(x: real, w: real, keep: real, r: real)
    requires 0.0 <= keep <= 1.0 && r == w + Times(keep, x - w)
    ensures x <= r <= w || w <= r <= x
  {
    ShareOf(keep, x - w, Times(keep, x - w));
  }

  lemma StaysNavigable(m: Math, s: Sim, dt: real)
    requires Sails(m, s) && dt > 0.0 && Navigable(m, s.lat, s.waypoint.value.0)
    ensures Navigable(m, Advance(m, s, dt).lat, s.waypoint.value.0)
  {
    var keep := StaysOnSegment(m, s, dt);
    BetweenBack(s.lat, s.waypoint.value.0, keep, Advance(m, s, dt).lat);
  }

  lemma NothingRemains(m: Math, w: (real, real))
    requires m.Sound()
    ensures Remaining(m, w, w) == 0.0
  {
    HypotSquare(m, 0.0, 0.0);
    ZeroProduct(m.Hypot(0.0, 0.0), m.Hypot(0.0, 0.0));
  }

  /** The steps left cover what remains, one leg later. */
  lemma CarryBudget(n: int, leg: real, toGo: real, before: real, after: real)
    requires leg > 0.0 && 0.0 < toGo <= before
    requires Times((n - 1) as real, leg) >= before
    requires after <= before - Min(leg, toGo) && (Min(leg, toGo) == toGo ==> after == 0.0)
    ensures n >= 2 && Times((n - 2) as real, leg) >= after
  {
    if n < 2 {
      MulMono((n - 1) as real, 0.0, leg);
    }
    assert (n - 2) as real == (n - 1) as real - 1.0;
    assert Times((n - 2) as real, leg) == Times((n - 1) as real, leg) - leg;
    NonnegTimes((n - 2) as real, leg, Times((n - 2) as real, leg));
  }

  lemma BudgetCarries(m: Math, s: Sim, dt: real, n: nat)
    requires m.Sound() && Sails(m, s) && dt > 0.0
    requires Times((n - 1) as real, Times(s.speed, dt)) >= Remaining(m, s.Position(), s.waypoint.value)
    ensures n >= 2
    ensures var t := Advance(m, s, dt);
      Times((n - 2) as real, Times(s.speed, dt)) >= Remaining(m, t.Position(), s.waypoint.value)
  {
    var w, leg := s.waypoint.value, Times(s.speed, dt);
    Progress(m, s, dt);
    ToGoWithinRemaining(m, s);
    NothingRemains(m, w);
    PosTimes(s.speed, dt, leg);
    CarryBudget(n, leg, ToGo(m, s), Remaining(m, s.Position(), w), Remaining(m, Advance(m, s, dt).Position(), w));
  }

  /** Enough steps for the straight line, and one to notice, end exactly at the waypoint
      with nothing left to do. */
  lemma {:induction false} Arrives(m: Math, s: Sim, dt: real, n: nat)
    requires m.Sound() && s.UnderWay() && dt > 0.0 && Navigable(m, s.lat, s.waypoint.value.0)
    requires n >= 1 && Times((n - 1) as real, Times(s.speed, dt)) >= Remaining(m, s.Position(), s.waypoint.value)
    ensures var r := Run(m, s, dt, n);
      r.Position() == s.waypoint.value && r.waypoint == None && r.speed == 0.0
    decreases n
  {
    if ToGo(m, s) >= 1.0 {
      BudgetCarries(m, s, dt, n);
      StaysNavigable(m, s, dt);
      Arrives(m, Advance(m, s, dt), dt, n - 1);
    }
  }

  /** The bound as a number of steps: remaining / (speed * dt) + 1. */
  lemma ArrivesWithin(m: Math, s: Sim, dt: real, n: nat, leg: real)
    requires m.Sound() && s.UnderWay() && dt > 0.0 && Navigable(m, s.lat, s.waypoint.value.0)
    requires leg == Times(s.speed, dt) && leg > 0.0
    requires n as real >= Remaining(m, s.Position(), s.waypoint.value) / leg + 1.0
    ensures var r := Run(m, s, dt, n);
      r.Position() == s.waypoint.value && r.waypoint == None && r.speed == 0.0
  {
    var rem := Remaining(m, s.Position(), s.waypoint.value);
    RemainingNonneg(m, s.Position(), s.waypoint.value);
    EnoughSteps(n, rem, leg, rem / leg);
    Arrives(m, s, dt, n);
  }

  lemma RemainingNonneg(m: Math, p: (real, real), w: (real, real))
    requires m.Sound()
    ensures Remaining(m, p, w) >= 0.0
  {
    HypotSquare(m, w.0 - p.0, w.1 - p.1);
    NonnegTimes(M_PER_DEG, m.Hypot(w.0 - p.0, w.1 - p.1), Remaining(m, p, w));
  }

  lemma EnoughSteps(n: nat, rem: real, leg: real, q: real)
    requires rem >= 0.0 && leg > 0.0 && q == rem / leg && n as real >= q + 1.0
    ensures n >= 1 && Times((n - 1) as real, leg) >= rem
  {
    assert q * leg == rem;
    if q < 0.0 {
      MulStrict(q, 0.0, leg);
    }
    MulMono(q, (n - 1) as real, leg);
  }

  lemma BackOfBack(p: (real, real), w: (real, real), k1: real, k2: real)
    ensures Back(Back(p, w, k1), w, k2) == Back(p, w, Times(k2, k1))
  {
    TimesOfTimes(k2, k1, p.0 - w.0);
    TimesOfTimes(k2, k1, p.1 - w.1);
  }

  lemma TimesOfTimes(x: real, y: real, z: real)
    ensures Times(x, Times(y, z)) == Times(Times(x, y), z)
  {
  }

  lemma ShareOfShare(k1: real, k2: real)
    requires 0.0 <= k1 <= 1.0 && 0.0 <= k2 <= 1.0
    ensures 0.0 <= Times(k2, k1) <= 1.0
  {
    NonnegTimes(k2, k1, Times(k2, k1));
    MulMono(k2, 1.0, k1);
  }

  lemma OnTheWayTransitive(p: (real, real), q: (real, real), r: (real, real), w: (real, real))
    requires OnTheWay(p, q, w) && OnTheWay(q, r, w)
    ensures OnTheWay(p, r, w)
  {
    var k1: real :| 0.0 <= k1 <= 1.0 && q == Back(p, w, k1);
    var k2: real :| 0.0 <= k2 <= 1.0 && r == Back(q, w, k2);
    BackOfBack(p, w, k1, k2);
    ShareOfShare(k1, k2);
  }

  lemma AlwaysOnTheWay(p: (real, real), w: (real, real))
    ensures OnTheWay(p, p, w) && OnTheWay(p, w, w)
  {
    assert p == Back(p, w, 1.0);
    assert w == Back(p, w, 0.0);
  }

  /** Where one step leaves the platform is on the straight line to the waypoint. */
  lemma StepOnTheWay(m: Math, s: Sim, dt: real)
    requires dt > 0.0 && s.waypoint.Some? && Navigable(m, s.lat, s.waypoint.value.0)
    ensures OnTheWay(s.Position(), Advance(m, s, dt).Position(), s.waypoint.value)
  {
    AlwaysOnTheWay(s.Position(), s.waypoint.value);
    if Sails(m, s) {
      var keep := StaysOnSegment(m, s, dt);
    }
  }

  /** Every position is on the line from every earlier one to the waypoint. */
  ghost predicate OnCourse(trail: seq<(real, real)>, w: (real, real)) {
    forall i, j :: 0 <= i <= j < |trail| ==> OnTheWay(trail[i], trail[j], w)
  }

  lemma OnCourseFrom(p: (real, real), trail: seq<(real, real)>, w: (real, real))
    requires |trail| > 0 && OnTheWay(p, trail[0], w) && OnCourse(trail, w)
    ensures OnCourse([p] + trail, w)
  {
    var all := [p] + trail;
    forall i, j | 0 <= i <= j < |all|
      ensures OnTheWay(all[i], all[j], w)
    {
      if i == 0 {
        AlwaysOnTheWay(p, w);
        if j > 0 {
          OnTheWayTransitive(p, trail[0], trail[j - 1], w);
        }
      } else {
        assert all[i] == trail[i - 1] && all[j] == trail[j - 1];
      }
    }
  }

  /** Where a run goes from where it is. */
  function Trail(m: Math, s: Sim, dt: real, n: nat): seq<(real, real)>
    decreases n
  {
    if n == 0 || s.waypoint.None? then [s.Position()]
    else [s.Position()] + Trail(m, Advance(m, s, dt), dt, n - 1)
  }

  lemma AdvanceRecords(m: Math, s: Sim, dt: real)
    ensures var t := Advance(m, s, dt); t.history == s.history + [t.Position()]
  {
  }

  lemma {:induction false} TrailIsHistory(m: Math, s: Sim, dt: real, n: nat)
    ensures var r, trail := Run(m, s, dt, n), Trail(m, s, dt, n);
      && r.history == s.history + trail[1..]
      && 1 <= |trail| <= n + 1
      && trail[0] == s.Position() && trail[|trail| - 1] == r.Position()
    decreases n
  {
    if n > 0 && s.waypoint.Some? {
      var t := Advance(m, s, dt);
      var rest := Trail(m, t, dt, n - 1);
      TrailIsHistory(m, t, dt, n - 1);
      AdvanceRecords(m, s, dt);
      assert ([s.Position()] + rest)[1..] == [rest[0]] + rest[1..];
    }
  }

  /** A run keeps to the straight line, never passes the waypoint and never turns back. */
  lemma {:induction false} KeepsCourse(m: Math, s: Sim, dt: real, n: nat, w: (real, real))
    requires dt > 0.0 && (s.waypoint.Some? ==> s.waypoint.value == w && Navigable(m, s.lat, w.0))
    ensures OnCourse(Trail(m, s, dt, n), w)
    decreases n
  {
    AlwaysOnTheWay(s.Position(), w);
    if n > 0 && s.waypoint.Some? {
      var t := Advance(m, s, dt);
      StepOnTheWay(m, s, dt);
      if Sails(m, s) {
        StaysNavigable(m, s, dt);
      }
      KeepsCourse(m, t, dt, n - 1, w);
      TrailIsHistory(m, t, dt, n - 1);
      OnCourseFrom(s.Position(), Trail(m, t, dt, n - 1), w);
    }
  }

  // ---------------------------------------------------------------- the platform

  class KinematicsSim {
    var latitude: real
    var longitude: real
    var speedMps: real
    var headingDeg: real
    var waypoint: Option<(real, real)>
    var history: seq<(real, real)>

    ghost function State(): Sim
      reads this
    {
      Sim(latitude, longitude, speedMps, headingDeg, waypoint, history)
    }

    constructor (lat: real, lon: real)
      ensures State() == Sim(lat, lon, 2.5, 0.0, None, [])
    {
      latitude, longitude, speedMps, headingDeg := lat, lon, 2.5, 0.0;
      waypoint, history := None, [];
    }

    method SetWaypoint(lat: real, lon: real, speed: Option<real>)
      modifies this
      ensures State() == old(State()).(
        waypoint := Some((lat, lon)),
        speed := if speed.Some? then speed.value else old(speedMps))
    {
      waypoint := Some((lat, lon));
      if speed.Some? {
        speedMps := speed.value;
      }
    }

    method StationKeep()
      modifies this
      ensures State() == old(State()).(waypoint := None, speed := 0.0)
    {
      waypoint, speedMps := None, 0.0;
    }

    method Step(m: Math, dt: real) returns (at: (real, real))
      modifies this
      ensures State() == Advance(m, old(State()), dt)
      ensures at == (latitude, longitude)
    {
      if waypoint.None? || speedMps <= 0.0 {
        history := history + [(latitude, longitude)];
        return (latitude, longitude);
      }
      var target := waypoint.value;
      var gap := EnuOffset(m, latitude, longitude, target.0, target.1);
      var dist := m.Hypot(gap.0, gap.1);
      if dist < 1.0 {
        latitude, longitude := target.0, target.1;
        waypoint, speedMps := None, 0.0;
        history := history + [(latitude, longitude)];
        return (latitude, longitude);
      }
      var leg := Min(Times(speedMps, dt), dist);
      var lonScale := LonScale(m, latitude);
      latitude := latitude + Along(gap.0, dist, leg, M_PER_DEG);
      longitude := longitude + Along(gap.1, dist, leg, Max(lonScale, SCALE_FLOOR));
      headingDeg := m.bearing(gap.1, gap.0);
      history := history + [(latitude, longitude)];
      return (latitude, longitude);
    }

    method RunUntilArrival(m: Math, maxSteps: int, dt: real) returns (visited: seq<(real, real)>)
      modifies this
      ensures State() == Run(m, old(State()), dt, if maxSteps < 0 then 0 else maxSteps)
      ensures visited == history
    {
      var left := if maxSteps < 0 then 0 else maxSteps;
      while left > 0 && waypoint.Some?
        invariant left >= 0
        invariant Run(m, State(), dt, left) == Run(m, old(State()), dt, if maxSteps < 0 then 0 else maxSteps)
      {
        var at := Step(m, dt);
        left := left - 1;
      }
      return history;
    }
  }
}
