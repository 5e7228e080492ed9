/** Dead reckoning, the reachability envelope and the lead-pursuit waypoint of
    `core/kinematics.py`, over exact reals in the flat north/east plane. */
module Kinematics {
  import opened Json
  import opened RealMath
  import opened Intercept

  const M_PER_DEG := 111320.0
  const SCALE_FLOOR := 0.000001
  const KT_TO_MPS := 0.514444

  /** Metres per degree of longitude at a latitude. */
  function LonScale(m: Math, lat: real): real {
    M_PER_DEG * m.cos(lat)
  }

  function Shift(lat: real, lon: real, north: real, east: real, scale: real): (real, real)
    requires scale > 0.0
  {
    (lat + north / M_PER_DEG, lon + east / scale)
  }

  function Offset(lat0: real, lon0: real, lat1: real, lon1: real, scale: real): (real, real) {
    (Times(lat1 - lat0, M_PER_DEG), Times(lon1 - lon0, scale))
  }

  /** `displace_m`: (latitude, longitude) at a distance along a heading. */
  function Displace(m: Math, lat: real, lon: real, heading: real, distance: real): (real, real) {
    Shift(lat, lon, Times(distance, m.cos(heading)), Times(distance, m.sin(heading)),
          Max(LonScale(m, lat), SCALE_FLOOR))
  }

  /** `enu_offset_m`: north and east metres, scaled at the first point. */
  function EnuOffset(m: Math, lat0: real, lon0: real, lat1: real, lon1: real): (real, real) {
    Offset(lat0, lon0, lat1, lon1, LonScale(m, lat0))
  }

  lemma NorthOfShifted(lat: real, lon: real, north: real, east: real, scale: real)
    requires scale > 0.0
    ensures var p := Shift(lat, lon, north, east, scale);
      Offset(lat, lon, p.0, p.1, scale).0 == north
  {
  }

  lemma EastOfShifted(lat: real, lon: real, north: real, east: real, scale: real)
    requires scale > 0.0
    ensures var p := Shift(lat, lon, north, east, scale);
      Offset(lat, lon, p.0, p.1, scale).1 == east
  {
    var p := Shift(lat, lon, north, east, scale);
    ShiftBack(lon, east, scale, p.1);
  }

  /** Above the scale floor the two are inverse: the offset of a displaced point is the
      displacement. */
  lemma OffsetOfDisplaced(m: Math, lat: real, lon: real, heading: real, distance: real)
    requires LonScale(m, lat) >= SCALE_FLOOR
    ensures var p := Displace(m, lat, lon, heading, distance);
      EnuOffset(m, lat, lon, p.0, p.1) == (Times(distance, m.cos(heading)), Times(distance, m.sin(heading)))
  {
    NorthOfShifted(lat, lon, Times(distance, m.cos(heading)), Times(distance, m.sin(heading)), LonScale(m, lat));
    EastOfShifted(lat, lon, Times(distance, m.cos(heading)), Times(distance, m.sin(heading)), LonScale(m, lat));
  }

  lemma NorthBetween(lat: real, lon: real, n1: real, e1: real, n2: real, e2: real, scale: real, there: real)
    requires scale > 0.0
    ensures var p, q := Shift(lat, lon, n1, e1, scale), Shift(lat, lon, n2, e2, scale);
      Offset(p.0, p.1, q.0, q.1, there).0 == n2 - n1
  {
  }

  /** Measured at another latitude the eastward part is stretched by the scales' ratio. */
  lemma EastBetween(lat: real, lon: real, n1: real, e1: real, n2: real, e2: real, scale: real, there: real, ratio: real)
    requires scale > 0.0 && ratio == there / scale
    ensures var p, q := Shift(lat, lon, n1, e1, scale), Shift(lat, lon, n2, e2, scale);
      Offset(p.0, p.1, q.0, q.1, there).1 == Times(e2 - e1, ratio)
  {
    var x, y := e1 / scale, e2 / scale;
    assert x * scale == e1 && y * scale == e2 && ratio * scale == there;
    Stretched(x, y, e1, e2, scale, there, ratio);
  }

  lemma Stretched(x: real, y: real, e1: real, e2: real, scale: real, there: real, ratio: real)
    requires x * scale == e1 && y * scale == e2 && ratio * scale == there
    ensures (y - x) * there == (e2 - e1) * ratio
  {
    var d := y - x;
    assert e2 - e1 == d * scale;
    assert d * (ratio * scale) == (d * scale) * ratio;
  }

  /** A degree is 111320 m north, and the cosine of that east. */
  lemma OneDegree(m: Math, lat: real, lon: real)
    ensures EnuOffset(m, lat, lon, lat + 1.0, lon) == (111320.0, 0.0)
    ensures EnuOffset(m, lat, lon, lat, lon + 1.0) == (0.0, 111320.0 * m.cos(lat))
  {
  }

  lemma Pythagoras(m: Math, heading: real, c: real, s: real)
    requires m.Sound() && c == m.cos(heading) && s == m.sin(heading)
    ensures c * c + s * s == 1.0
  {
    assert m.cos(heading) * m.cos(heading) + m.sin(heading) * m.sin(heading) == 1.0;
  }

  lemma UnitVector(m: Math, heading: real, d: real, x: real, y: real)
    requires m.Sound() && x == d * m.cos(heading) && y == d * m.sin(heading)
    ensures x * x + y * y == d * d
  {
    Pythagoras(m, heading, m.cos(heading), m.sin(heading));
    UnitVectorBy(m.cos(heading), m.sin(heading), d, x, y);
  }

  lemma UnitVectorBy(c: real, s: real, d: real, x: real, y: real)
    requires c * c + s * s == 1.0 && x == d * c && y == d * s
    ensures x * x + y * y == d * d
  {
    assert x * x + y * y == d * d * (c * c + s * s);
  }

  // ---------------------------------------------------------------- the envelope

  /** Speed band and uncertainties of a projection. */
  datatype Band = Band(vMin: real, vMax: real, sigma: real, headingSigma: real)

  /** `uncertainty_radius_m` */
  function UncertaintyRadius(dt: real, band: Band): real {
    Times(Abs(dt), band.vMax - band.vMin) / 2.0 + band.sigma
  }

  datatype Projected = Projected(
    lat: real,
    lon: real,
    heading: Option<real>,
    radius: real,
    along: real,
    cross: real)

  /** `project_dead_reckoning` */
  function Project(m: Math, lat: real, lon: real, heading: Option<real>, speed: real, dt: real, band: Band): Projected {
    match heading
    case None =>
      var radius := Times(Abs(dt), band.vMax) + band.sigma;
      Projected(lat, lon, None, radius, radius, radius)
    case Some(h) =>
      var p := Displace(m, lat, lon, h, Times(speed, dt));
      var along := UncertaintyRadius(dt, band);
      var cross := band.sigma + Times(Abs(Times(speed, dt)), m.tan(band.headingSigma));
      Projected(p.0, p.1, heading, along, Max(along, 1.0), Max(cross, 1.0))
  }

  /** The ellipse in its own coordinates. */
  predicate InEllipse(u: real, v: real, a: real, b: real)
    requires a >= 1.0 && b >= 1.0
  {
    Times(u / a, u / a) + Times(v / b, v / b) <= 1.0
  }

  /** The offset turned to the heading whose cosine and sine are given, in the ellipse. */
  predicate InTurnedEllipse(north: real, east: real, c: real, s: real, a: real, b: real)
    requires a >= 1.0 && b >= 1.0
  {
    InEllipse(Times(north, c) + Times(east, s), Times(-north, s) + Times(east, c), a, b)
  }

  /** The envelope test on an offset in metres from the projected point. */
  predicate Reaches(m: Math, p: Projected, north: real, east: real)
    requires p.heading.Some? ==> p.along >= 1.0 && p.cross >= 1.0
  {
    match p.heading
    case None => m.Hypot(north, east) <= p.radius
    case Some(h) => InTurnedEllipse(north, east, m.cos(h), m.sin(h), p.along, p.cross)
  }

  /** `in_reachability_envelope` */
  predicate InEnvelope(m: Math, p: Projected, lat: real, lon: real)
    requires p.heading.Some? ==> p.along >= 1.0 && p.cross >= 1.0
  {
    var o := EnuOffset(m, p.lat, p.lon, lat, lon);
    Reaches(m, p, o.0, o.1)
  }

  /** Unknown heading: a contact is inside exactly when it went no farther than the
      radius, whatever its heading. */
  lemma UnknownHeadingExact(m: Math, lat: real, lon: real, speed: real, dt: real, band: Band, heading: real,
                            travelled: real)
    requires m.Sound() && LonScale(m, lat) >= SCALE_FLOOR && Abs(dt) * band.vMax + band.sigma >= 0.0
    ensures var q := Displace(m, lat, lon, heading, travelled);
      InEnvelope(m, Project(m, lat, lon, None, speed, dt, band), q.0, q.1) <==>
      Abs(travelled) <= Abs(dt) * band.vMax + band.sigma
  {
    var q := Displace(m, lat, lon, heading, travelled);
    var o := EnuOffset(m, lat, lon, q.0, q.1);
    OffsetOfDisplaced(m, lat, lon, heading, travelled);
    UnitVector(m, heading, travelled, o.0, o.1);
    Circle(m, o.0, o.1, travelled, Abs(dt) * band.vMax + band.sigma);
  }

  /** So wherever a contact no faster than vMax went in |dt|, it is inside. */
  lemma UnknownHeadingCovers(m: Math, lat: real, lon: real, speed: real, dt: real, band: Band, heading: real, v: real)
    requires m.Sound() && LonScale(m, lat) >= SCALE_FLOOR && band.sigma >= 0.0 && Abs(v) <= band.vMax
    ensures var q := Displace(m, lat, lon, heading, v * dt);
      InEnvelope(m, Project(m, lat, lon, None, speed, dt, band), q.0, q.1)
  {
    RadiusHolds(v, dt, band.vMax, band.sigma);
    UnknownHeadingExact(m, lat, lon, speed, dt, band, heading, v * dt);
  }

  lemma RadiusHolds(v: real, dt: real, vMax: real, sigma: real)
    requires Abs(v) <= vMax && sigma >= 0.0
    ensures 0.0 <= Abs(v * dt) <= Abs(dt) * vMax + sigma
  {
    AbsTimes(v, dt);
    MulMono(Abs(v), vMax, Abs(dt));
  }

  /** The offset of a contact that kept the heading at another speed. */
  predicate OnTrackInside(m: Math, lat: real, lon: real, heading: real, speed: real, dt: real, band: Band,
                          actual: real) {
    var ahead := Times(actual - speed, dt);
    Reaches(m, Project(m, lat, lon, Some(heading), speed, dt, band), Times(ahead, m.cos(heading)),
            Times(ahead, m.sin(heading)))
  }

  lemma OnAxis(c: real, s: real, e: real, north: real, east: real)
    requires c * c + s * s == 1.0 && north == e * c && east == e * s
    ensures Times(north, c) + Times(east, s) == e
    ensures Times(-north, s) + Times(east, c) == 0.0
  {
    assert north * c + east * s == e * (c * c + s * s);
  }

  lemma RatioWithin(e: real, axis: real, q: real)
    requires axis >= 1.0 && q == e / axis
    ensures q * q <= 1.0 <==> Abs(e) <= axis
  {
    assert q * axis == e;
    AbsTimes(q, axis);
    AbsSquare(q);
    SquareMono(Abs(q), 1.0);
    if Abs(q) <= 1.0 {
      MulMono(Abs(q), 1.0, axis);
    } else {
      MulStrict(1.0, Abs(q), axis);
    }
  }

  lemma OnAxisInEllipse(e: real, z: real, a: real, b: real)
    requires a >= 1.0 && b >= 1.0 && z == 0.0
    ensures InEllipse(e, z, a, b) <==> Abs(e) <= a
  {
    var q, w := e / a, z / b;
    RatioWithin(e, a, q);
    assert w == 0.0;
    assert w * w == 0.0;
  }

  lemma TurnedOnAxis(e: real, north: real, east: real, c: real, s: real, a: real, b: real)
    requires c * c + s * s == 1.0 && a >= 1.0 && b >= 1.0
    requires north == e * c && east == e * s
    ensures InTurnedEllipse(north, east, c, s, a, b) <==> Abs(e) <= a
  {
    OnAxis(c, s, e, north, east);
    OnAxisInEllipse(e, 0.0, a, b);
  }

  lemma ReachesOnAxis(m: Math, p: Projected, e: real, north: real, east: real)
    requires m.Sound() && p.heading.Some? && p.along >= 1.0 && p.cross >= 1.0
    requires north == Times(e, m.cos(p.heading.value)) && east == Times(e, m.sin(p.heading.value))
    ensures Reaches(m, p, north, east) <==> Abs(e) <= p.along
  {
    var c, s := m.cos(p.heading.value), m.sin(p.heading.value);
    Pythagoras(m, p.heading.value, c, s);
    TurnedOnAxis(e, north, east, c, s, p.along, p.cross);
  }

  lemma OnTrackByLead(m: Math, lat: real, lon: real, heading: real, speed: real, dt: real, band: Band, actual: real)
    requires m.Sound()
    ensures OnTrackInside(m, lat, lon, heading, speed, dt, band, actual) <==>
            Abs(Times(actual - speed, dt)) <= Max(Times(Abs(dt), band.vMax - band.vMin) / 2.0 + band.sigma, 1.0)
  {
    var ahead := Times(actual - speed, dt);
    ReachesOnAxis(m, Project(m, lat, lon, Some(heading), speed, dt, band), ahead, Times(ahead, m.cos(heading)),
                  Times(ahead, m.sin(heading)));
  }

  lemma AbsOfTimes(x: real, y: real)
    ensures Abs(Times(x, y)) == Times(Abs(x), Abs(y))
  {
    AbsTimes(x, y);
  }

  /** Known heading: a contact on that heading is inside exactly when its lead or lag on
      the estimate is within the along-track axis. */
  lemma KnownHeadingExact(m: Math, lat: real, lon: real, heading: real, speed: real, dt: real, band: Band, actual: real)
    requires m.Sound()
    ensures OnTrackInside(m, lat, lon, heading, speed, dt, band, actual) <==>
            Times(Abs(actual - speed), Abs(dt)) <= Max(Times(Abs(dt), band.vMax - band.vMin) / 2.0 + band.sigma, 1.0)
  {
    OnTrackByLead(m, lat, lon, heading, speed, dt, band, actual);
    AbsOfTimes(actual - speed, dt);
  }

  lemma LeadComponent(actual: real, speed: real, dt: real, c: real)
    ensures Times(Times(actual, dt), c) - Times(Times(speed, dt), c) == Times(Times(actual - speed, dt), c)
  {
    assert (actual - speed) * dt == actual * dt - speed * dt;
  }

  /** The scale of longitude where the contact is projected to, over that where it was seen. */
  function ScaleRatio(m: Math, lat: real, p: Projected): real
    requires LonScale(m, lat) >= SCALE_FLOOR
  {
    LonScale(m, p.lat) / LonScale(m, lat)
  }

  lemma OffsetFromEstimate(m: Math, lat: real, lon: real, heading: real, speed: real, dt: real, band: Band,
                           actual: real)
    requires LonScale(m, lat) >= SCALE_FLOOR
    ensures var p := Project(m, lat, lon, Some(heading), speed, dt, band);
      var q := Displace(m, lat, lon, heading, Times(actual, dt));
      var ahead := Times(actual - speed, dt);
      EnuOffset(m, p.lat, p.lon, q.0, q.1) ==
        (Times(ahead, m.cos(heading)), Times(Times(ahead, m.sin(heading)), ScaleRatio(m, lat, p)))
  {
    var p := Project(m, lat, lon, Some(heading), speed, dt, band);
    var c, s, scale, there := m.cos(heading), m.sin(heading), LonScale(m, lat), LonScale(m, p.lat);
    var ran, goes := Times(speed, dt), Times(actual, dt);
    NorthBetween(lat, lon, Times(ran, c), Times(ran, s), Times(goes, c), Times(goes, s), scale, there);
    EastBetween(lat, lon, Times(ran, c), Times(ran, s), Times(goes, c), Times(goes, s), scale, there,
                ScaleRatio(m, lat, p));
    LeadComponent(actual, speed, dt, c);
    LeadComponent(actual, speed, dt, s);
  }

  /** A contact that kept any heading from the same origin at another speed is inside exactly
      when its lead on the estimate, its eastward part stretched by the ratio of the longitude
      scales at the two ends, is in the ellipse turned to the heading. */
  lemma ContactInEnvelopeExact(m: Math, lat: real, lon: real, heading: real, speed: real, dt: real, band: Band,
                               actual: real)
    requires m.Sound() && LonScale(m, lat) >= SCALE_FLOOR
    ensures var p := Project(m, lat, lon, Some(heading), speed, dt, band);
      var q := Displace(m, lat, lon, heading, Times(actual, dt));
      var ahead := Times(actual - speed, dt);
      InEnvelope(m, p, q.0, q.1) <==>
      InTurnedEllipse(Times(ahead, m.cos(heading)), Times(Times(ahead, m.sin(heading)), ScaleRatio(m, lat, p)),
                      m.cos(heading), m.sin(heading), p.along, p.cross)
  {
    OffsetFromEstimate(m, lat, lon, heading, speed, dt, band, actual);
  }

  lemma Unstretched(x: real, scale: real, there: real)
    requires scale > 0.0 && (there == scale || x == 0.0)
    ensures Times(x, there / scale) == x
  {
    if there == scale {
      assert scale / scale == 1.0;
    }
  }

  lemma NoEasting(e: real, s: real)
    requires s == 0.0
    ensures Times(e, s) == 0.0
  {
  }

  /** Due north or south, and wherever the scale is the same at both ends, that is: its lead
      or lag is within the along-track axis. */
  lemma ContactOnMeridianOrParallel(m: Math, lat: real, lon: real, heading: real, speed: real, dt: real, band: Band,
                                    actual: real)
    requires m.Sound() && LonScale(m, lat) >= SCALE_FLOOR
    requires m.sin(heading) == 0.0 ||
             LonScale(m, Project(m, lat, lon, Some(heading), speed, dt, band).lat) == LonScale(m, lat)
    ensures var q := Displace(m, lat, lon, heading, Times(actual, dt));
      InEnvelope(m, Project(m, lat, lon, Some(heading), speed, dt, band), q.0, q.1) <==>
      Times(Abs(actual - speed), Abs(dt)) <= Max(Times(Abs(dt), band.vMax - band.vMin) / 2.0 + band.sigma, 1.0)
  {
    var p := Project(m, lat, lon, Some(heading), speed, dt, band);
    var east := Times(Times(actual - speed, dt), m.sin(heading));
    if m.sin(heading) == 0.0 {
      NoEasting(Times(actual - speed, dt), m.sin(heading));
    }
    Unstretched(east, LonScale(m, lat), LonScale(m, p.lat));
    OffsetFromEstimate(m, lat, lon, heading, speed, dt, band, actual);
    KnownHeadingExact(m, lat, lon, heading, speed, dt, band, actual);
  }

  lemma TurnedAcrossAxis(e: real, north: real, east: real, c: real, s: real, a: real, b: real)
    requires c * c + s * s == 1.0 && a >= 1.0 && b >= 1.0
    requires north == Times(-e, s) && east == Times(e, c)
    ensures InTurnedEllipse(north, east, c, s, a, b) <==> Abs(e) <= b
  {
    AcrossAxis(c, s, e, north, east);
    AcrossAxisInEllipse(0.0, e, a, b);
  }

  lemma AcrossAxis(c: real, s: real, e: real, north: real, east: real)
    requires c * c + s * s == 1.0 && north == Times(-e, s) && east == Times(e, c)
    ensures Times(north, c) + Times(east, s) == 0.0
    ensures Times(-north, s) + Times(east, c) == e
  {
    assert -north * s + east * c == e * (c * c + s * s);
  }

  lemma AcrossAxisInEllipse(z: real, e: real, a: real, b: real)
    requires a >= 1.0 && b >= 1.0 && z == 0.0
    ensures InEllipse(z, e, a, b) <==> Abs(e) <= b
  {
    var q, w := e / b, z / a;
    RatioWithin(e, b, q);
    assert w == 0.0;
    assert w * w == 0.0;
  }

  /** Square across the heading, inside reaches as far as the navigation error and the
      heading error over the run: the cross-track axis. */
  lemma AcrossTrackExact(m: Math, lat: real, lon: real, heading: real, speed: real, dt: real, band: Band, off: real)
    requires m.Sound()
    ensures Reaches(m, Project(m, lat, lon, Some(heading), speed, dt, band),
                    Times(-off, m.sin(heading)), Times(off, m.cos(heading))) <==>
            Abs(off) <= Max(band.sigma + Times(Abs(Times(speed, dt)), m.tan(band.headingSigma)), 1.0)
  {
    var p := Project(m, lat, lon, Some(heading), speed, dt, band);
    var c, s := m.cos(heading), m.sin(heading);
    Pythagoras(m, heading, c, s);
    TurnedAcrossAxis(off, Times(-off, s), Times(off, c), c, s, p.along, p.cross);
  }

  lemma HalfWidth(off: real, width: real, time: real)
    requires off <= width / 2.0 && time >= 0.0
    ensures Times(off, time) <= Times(time, width) / 2.0
  {
    MulMono(off, width / 2.0, time);
  }

  lemma TimesMono(x: real, y: real, k: real)
    requires x <= y && k >= 0.0
    ensures Times(x, k) <= Times(y, k)
  {
    MulMono(x, y, k);
  }

  /** So half the band's width either side of the estimate is always covered. */
  lemma HalfBandCovered(m: Math, lat: real, lon: real, heading: real, speed: real, dt: real, band: Band, actual: real)
    requires m.Sound() && band.sigma >= 0.0 && Abs(actual - speed) <= (band.vMax - band.vMin) / 2.0
    ensures OnTrackInside(m, lat, lon, heading, speed, dt, band, actual)
  {
    KnownHeadingExact(m, lat, lon, heading, speed, dt, band, actual);
    HalfWidth(Abs(actual - speed), band.vMax - band.vMin, Abs(dt));
  }

  /** The whole speed band is covered exactly when the estimate's larger distance to an
      end of the band, over |dt|, fits the along-track axis. */
  lemma WholeBandCovered(m: Math, lat: real, lon: real, heading: real, speed: real, dt: real, band: Band)
    requires m.Sound() && band.vMin <= band.vMax
    ensures (forall v :: band.vMin <= v <= band.vMax ==> OnTrackInside(m, lat, lon, heading, speed, dt, band, v)) <==>
            Times(Max(Abs(band.vMin - speed), Abs(band.vMax - speed)), Abs(dt)) <=
              Max(Times(Abs(dt), band.vMax - band.vMin) / 2.0 + band.sigma, 1.0)
  {
    var worst := Max(Abs(band.vMin - speed), Abs(band.vMax - speed));
    var end := if worst == Abs(band.vMin - speed) then band.vMin else band.vMax;
    KnownHeadingExact(m, lat, lon, heading, speed, dt, band, end);
    if Times(worst, Abs(dt)) <= Max(Times(Abs(dt), band.vMax - band.vMin) / 2.0 + band.sigma, 1.0) {
      forall v | band.vMin <= v <= band.vMax
        ensures OnTrackInside(m, lat, lon, heading, speed, dt, band, v)
      {
        KnownHeadingExact(m, lat, lon, heading, speed, dt, band, v);
        TimesMono(Abs(v - speed), worst, Abs(dt));
      }
    } else {
      assert !OnTrackInside(m, lat, lon, heading, speed, dt, band, end);
    }
  }

  const DEFAULT_BAND := Band(4.0 * KT_TO_MPS, 18.0 * KT_TO_MPS, 250.0, 20.0)
  const DEFAULT_SPEED := 12.0 * KT_TO_MPS

  /** The default estimate is not the middle of the default band, and it shows: an hour
      on, a contact at the band's low end is outside its own envelope. */
  lemma DefaultBandLeaks(m: Math, lat: real, lon: real, heading: real)
    requires m.Sound()
    ensures !OnTrackInside(m, lat, lon, heading, DEFAULT_SPEED, 3600.0, DEFAULT_BAND, DEFAULT_BAND.vMin)
    ensures OnTrackInside(m, lat, lon, heading, 11.0 * KT_TO_MPS, 3600.0, DEFAULT_BAND, DEFAULT_BAND.vMin)
  {
    KnownHeadingExact(m, lat, lon, heading, DEFAULT_SPEED, 3600.0, DEFAULT_BAND, DEFAULT_BAND.vMin);
    KnownHeadingExact(m, lat, lon, heading, 11.0 * KT_TO_MPS, 3600.0, DEFAULT_BAND, DEFAULT_BAND.vMin);
  }

  lemma Rotation(c: real, s: real, north: real, east: real, along: real, cross: real)
    requires c * c + s * s == 1.0 && along == north * c + east * s && cross == -north * s + east * c
    ensures along * along + cross * cross == north * north + east * east
  {
    var nn, ee, ne, cc, ss, cs := north * north, east * east, north * east, c * c, s * s, c * s;
    assert along * along == nn * cc + 2.0 * (ne * cs) + ee * ss;
    assert cross * cross == nn * ss - 2.0 * (ne * cs) + ee * cc;
    assert nn * cc + nn * ss == nn * (cc + ss) && ee * cc + ee * ss == ee * (cc + ss);
  }

  lemma ProductOfSquares(x: real, a: real, u: real)
    requires u == x * a
    ensures u * u == (x * x) * (a * a)
  {
  }

  lemma WeightedBelow(p: real, q: real, aa: real, bb: real, hi: real)
    requires p >= 0.0 && q >= 0.0 && aa <= hi && bb <= hi && p + q <= 1.0 && hi >= 0.0
    ensures p * aa + q * bb <= hi
  {
    NonnegTimes(p, hi - aa, p * (hi - aa));
    NonnegTimes(q, hi - bb, q * (hi - bb));
    NonnegTimes(1.0 - p - q, hi, (1.0 - p - q) * hi);
    assert p * (hi - aa) == p * hi - p * aa;
    assert q * (hi - bb) == q * hi - q * bb;
    assert (1.0 - p - q) * hi == hi - p * hi - q * hi;
  }

  lemma WeightedAbove(p: real, q: real, aa: real, bb: real, lo: real)
    requires p >= 0.0 && q >= 0.0 && lo <= aa && lo <= bb && p + q > 1.0 && lo > 0.0
    ensures p * aa + q * bb > lo
  {
    NonnegTimes(p, aa - lo, p * (aa - lo));
    NonnegTimes(q, bb - lo, q * (bb - lo));
    PosTimes(p + q - 1.0, lo, (p + q - 1.0) * lo);
    assert p * (aa - lo) == p * aa - p * lo;
    assert q * (bb - lo) == q * bb - q * lo;
    assert (p + q - 1.0) * lo == p * lo + q * lo - lo;
  }

  lemma Weighted(p: real, q: real, a: real, b: real, aa: real, bb: real, lo: real, hi: real)
    requires p >= 0.0 && q >= 0.0 && a >= 1.0 && b >= 1.0 && aa == a * a && bb == b * b
    requires hi == Max(a, b) * Max(a, b) && lo == Min(a, b) * Min(a, b)
    ensures p + q <= 1.0 ==> p * aa + q * bb <= hi
    ensures p * aa + q * bb <= lo ==> p + q <= 1.0
  {
    SquareMono(a, Max(a, b));
    SquareMono(b, Max(a, b));
    SquareMono(Min(a, b), a);
    SquareMono(Min(a, b), b);
    PosTimes(Min(a, b), Min(a, b), lo);
    if p + q <= 1.0 {
      WeightedBelow(p, q, aa, bb, hi);
    } else {
      WeightedAbove(p, q, aa, bb, lo);
    }
  }

  lemma AxesBound(u: real, v: real, a: real, b: real)
    requires a >= 1.0 && b >= 1.0
    ensures InEllipse(u, v, a, b) ==> u * u + v * v <= Max(a, b) * Max(a, b)
    ensures u * u + v * v <= Min(a, b) * Min(a, b) ==> InEllipse(u, v, a, b)
  {
    var x, y := u / a, v / b;
    assert x * a == u && y * b == v;
    ProductOfSquares(x, a, u);
    ProductOfSquares(y, b, v);
    Square(x, x * x);
    Square(y, y * y);
    Weighted(x * x, y * y, a, b, a * a, b * b, Min(a, b) * Min(a, b), Max(a, b) * Max(a, b));
  }

  lemma TurnedAxesBound(north: real, east: real, c: real, s: real, a: real, b: real, sq: real)
    requires c * c + s * s == 1.0 && a >= 1.0 && b >= 1.0 && sq == north * north + east * east
    ensures InTurnedEllipse(north, east, c, s, a, b) ==> sq <= Times(Max(a, b), Max(a, b))
    ensures sq <= Times(Min(a, b), Min(a, b)) ==> InTurnedEllipse(north, east, c, s, a, b)
  {
    var along, cross := Times(north, c) + Times(east, s), Times(-north, s) + Times(east, c);
    Rotation(c, s, north, east, along, cross);
    AxesBound(along, cross, a, b);
  }

  lemma WithinRadius(m: Math, north: real, east: real, r: real)
    requires m.Sound() && r >= 0.0
    ensures m.Hypot(north, east) <= r <==> north * north + east * east <= Times(r, r)
  {
    HypotWithin(m, north, east, r);
  }

  /** Two quotients' squares against one, with the divisions cleared. */
  lemma SquaresCleared(u: real, v: real, a: real, b: real, x: real, y: real)
    requires a >= 1.0 && b >= 1.0 && x * a == u && y * b == v
    ensures x * x + y * y <= 1.0 <==> u * b * (u * b) + v * a * (v * a) <= a * b * (a * b)
  {
    var k, q := a * b, x * x + y * y;
    PosTimes(a, b, k);
    PosTimes(k, k, k * k);
    assert u * b == x * k;
    assert v * a == y * k;
    assert u * b * (u * b) == x * x * (k * k);
    assert v * a * (v * a) == y * y * (k * k);
    assert u * b * (u * b) + v * a * (v * a) == q * (k * k);
    if q <= 1.0 {
      MulMono(q, 1.0, k * k);
    } else {
      MulStrict(1.0, q, k * k);
    }
  }

  lemma TurnedBack(u: real, v: real, c: real, s: real)
    requires c * c + s * s == 1.0
    ensures (u * c - v * s) * c + (u * s + v * c) * s == u
    ensures -(u * c - v * s) * s + (u * s + v * c) * c == v
  {
    assert (u * c - v * s) * c + (u * s + v * c) * s == u * (c * c + s * s);
    assert -(u * c - v * s) * s + (u * s + v * c) * c == v * (c * c + s * s);
  }

  /** A point u metres ahead of the estimate and v to its right is reached exactly when
      (u b)^2 + (v a)^2 is at most (a b)^2, with a the axis along the heading and b the one
      across it. */
  lemma EllipseExact(m: Math, p: Projected, u: real, v: real)
    requires m.Sound() && p.heading.Some? && p.along >= 1.0 && p.cross >= 1.0
    ensures var c, s, a, b := m.cos(p.heading.value), m.sin(p.heading.value), p.along, p.cross;
      Reaches(m, p, u * c - v * s, u * s + v * c) <==> u * b * (u * b) + v * a * (v * a) <= a * b * (a * b)
  {
    var c, s := m.cos(p.heading.value), m.sin(p.heading.value);
    Pythagoras(m, p.heading.value, c, s);
    TurnedBack(u, v, c, s);
    SquaresCleared(u, v, p.along, p.cross, u / p.along, v / p.cross);
  }

  /** The ellipse lies between the circles of its two axes. */
  lemma EllipseBetweenCircles(m: Math, p: Projected, north: real, east: real)
    requires m.Sound() && p.heading.Some? && p.along >= 1.0 && p.cross >= 1.0
    ensures Reaches(m, p, north, east) ==> m.Hypot(north, east) <= Max(p.along, p.cross)
    ensures m.Hypot(north, east) <= Min(p.along, p.cross) ==> Reaches(m, p, north, east)
  {
    var c, s := m.cos(p.heading.value), m.sin(p.heading.value);
    Pythagoras(m, p.heading.value, c, s);
    TurnedAxesBound(north, east, c, s, p.along, p.cross, north * north + east * east);
    WithinRadius(m, north, east, Max(p.along, p.cross));
    WithinRadius(m, north, east, Min(p.along, p.cross));
  }

  // ---------------------------------------------------------------- lead pursuit

  datatype Method = StaticContact | CollisionCourse | LeadAlongTrack

  /** What `compute_lead_pursuit_poi` is asked. */
  datatype Pursuit = Pursuit(
    contactLat: real,
    contactLon: real,
    heading: Option<real>,
    speed: real,
    ownLat: real,
    ownLon: real,
    ownSpeed: real,
    maxLead: real)

  datatype Waypoint = Waypoint(lat: real, lon: real, eta: real, how: Method, range: real)

  const SPEED_FLOOR := 0.000001

  /** The chase in the plane of the own platform. */
  function ChaseOf(m: Math, q: Pursuit): Chase
    requires q.heading.Some?
  {
    var r := EnuOffset(m, q.ownLat, q.ownLon, q.contactLat, q.contactLon);
    var h := q.heading.value;
    Chase(r.0, r.1, Times(q.speed, m.cos(h)), Times(q.speed, m.sin(h)), Max(q.ownSpeed, SPEED_FLOOR))
  }

  /** `compute_lead_pursuit_poi`; the great-circle distance is any function. */
  function LeadPursuit(m: Math, distance: (real, real, real, real) -> real, q: Pursuit): Waypoint {
    var range := distance(q.ownLat, q.ownLon, q.contactLat, q.contactLon);
    var own := Max(q.ownSpeed, SPEED_FLOOR);
    if q.heading.None? || q.speed <= TINY then
      Waypoint(q.contactLat, q.contactLon, range / own, StaticContact, range)
    else
      var eta := CollisionCourseEta(m, ChaseOf(m, q));
      if eta.Some? && eta.value <= q.maxLead then
        var p := Displace(m, q.contactLat, q.contactLon, q.heading.value, Times(q.speed, eta.value));
        Waypoint(p.0, p.1, eta.value, CollisionCourse, Times(own, eta.value))
      else
        var lead := Min(range / own, q.maxLead);
        var p := Displace(m, q.contactLat, q.contactLon, q.heading.value, Times(q.speed, lead));
        var there := distance(q.ownLat, q.ownLon, p.0, p.1);
        Waypoint(p.0, p.1, there / own, LeadAlongTrack, there)
  }

  lemma CollisionCourseIsSolved(m: Math, distance: (real, real, real, real) -> real, q: Pursuit)
    requires LeadPursuit(m, distance, q).how == CollisionCourse
    ensures q.heading.Some?
    ensures var poi := LeadPursuit(m, distance, q);
      && CollisionCourseEta(m, ChaseOf(m, q)) == Some(poi.eta)
      && poi.eta <= q.maxLead
      && (poi.lat, poi.lon) == Displace(m, q.contactLat, q.contactLon, q.heading.value, Times(q.speed, poi.eta))
      && poi.range == Times(ChaseOf(m, q).vo, poi.eta)
  {
  }

  /** By how much the squared distance from own start to a point `(north, east)` beyond
      the contact exceeds the square of own run. */
  function Miss(k: Chase, north: real, east: real, range: real): real {
    (k.rn + north) * (k.rn + north) + (k.re + east) * (k.re + east) - range * range
  }

  lemma MissIsResidual(k: Chase, speed: real, t: real, c: real, s: real, north: real, east: real, range: real)
    requires k.vn == Times(speed, c) && k.ve == Times(speed, s) && range == Times(k.vo, t)
    requires north == Times(Times(speed, t), c) && east == Times(Times(speed, t), s)
    ensures Miss(k, north, east, range) == k.Residual(t)
  {
    assert north == k.vn * t && east == k.ve * t;
  }

  /** The contact's run to a collision waypoint, in the contact's own plane. */
  function ContactRun(m: Math, q: Pursuit, poi: Waypoint): (real, real) {
    EnuOffset(m, q.contactLat, q.contactLon, poi.lat, poi.lon)
  }

  lemma RunToCollision(m: Math, distance: (real, real, real, real) -> real, q: Pursuit)
    requires m.Sound() && LonScale(m, q.contactLat) >= SCALE_FLOOR
    requires LeadPursuit(m, distance, q).how == CollisionCourse
    ensures q.heading.Some?
    ensures var poi, h := LeadPursuit(m, distance, q), q.heading.value;
      ContactRun(m, q, poi) ==
        (Times(Times(q.speed, poi.eta), m.cos(h)), Times(Times(q.speed, poi.eta), m.sin(h)))
  {
    CollisionCourseIsSolved(m, distance, q);
    var poi := LeadPursuit(m, distance, q);
    OffsetOfDisplaced(m, q.contactLat, q.contactLon, q.heading.value, Times(q.speed, poi.eta));
  }

  lemma HypotOfRun(m: Math, heading: real, d: real, x: real, y: real)
    requires m.Sound() && d >= 0.0 && x == Times(d, m.cos(heading)) && y == Times(d, m.sin(heading))
    ensures m.Hypot(x, y) == d
  {
    UnitVector(m, heading, d, x, y);
    Circle(m, x, y, d, d);
    HypotSquare(m, x, y);
    SquareMono(d, m.Hypot(x, y));
  }

  lemma TimesNonneg(x: real, y: real)
    requires x >= 0.0 && y >= 0.0
    ensures Times(x, y) >= 0.0
  {
  }

  lemma EtaNonneg(m: Math, k: Chase)
    requires m.Sound() && CollisionCourseEta(m, k).Some?
    ensures CollisionCourseEta(m, k).value >= 0.0
  {
    if k.C() >= 1.0 {
      SolverSound(m, k);
    }
  }

  /** The contact gets there: its run is exactly speed * eta long. */
  lemma ContactReachesWaypoint(m: Math, distance: (real, real, real, real) -> real, q: Pursuit)
    requires m.Sound() && LonScale(m, q.contactLat) >= SCALE_FLOOR
    requires LeadPursuit(m, distance, q).how == CollisionCourse
    ensures var poi := LeadPursuit(m, distance, q);
      var run := ContactRun(m, q, poi);
      m.Hypot(run.0, run.1) == Times(q.speed, poi.eta)
  {
    CollisionCourseIsSolved(m, distance, q);
    RunToCollision(m, distance, q);
    EtaNonneg(m, ChaseOf(m, q));
    var poi := LeadPursuit(m, distance, q);
    var run := ContactRun(m, q, poi);
    TimesNonneg(q.speed, poi.eta);
    HypotOfRun(m, q.heading.value, Times(q.speed, poi.eta), run.0, run.1);
  }

  /** So does the own platform, in the same time: it misses by less than the solver's cut
      allows, and not at all when the speeds differ. */
  lemma OwnReachesWaypoint(m: Math, distance: (real, real, real, real) -> real, q: Pursuit)
    requires m.Sound() && LonScale(m, q.contactLat) >= SCALE_FLOOR
    requires LeadPursuit(m, distance, q).how == CollisionCourse && q.heading.Some?
    requires ChaseOf(m, q).C() >= 1.0
    ensures var poi, k := LeadPursuit(m, distance, q), ChaseOf(m, q);
      var run := ContactRun(m, q, poi);
      && TINY < poi.eta <= q.maxLead
      && Abs(Miss(k, run.0, run.1, poi.range)) < TINY * poi.eta * poi.eta
      && (Abs(k.A()) >= TINY ==> Miss(k, run.0, run.1, poi.range) == 0.0)
  {
    CollisionCourseIsSolved(m, distance, q);
    RunToCollision(m, distance, q);
    var k, h := ChaseOf(m, q), q.heading.value;
    var poi := LeadPursuit(m, distance, q);
    var run := ContactRun(m, q, poi);
    MissIsResidual(k, q.speed, poi.eta, m.cos(h), m.sin(h), run.0, run.1, poi.range);
    SolverSound(m, k);
    if Abs(k.A()) >= TINY {
      SolverExact(m, k);
    }
  }

  /** With no heading or no speed the waypoint is the contact where it is, and that is the only
      time: the estimate is own time over the great-circle range. */
  lemma StaticContactExact(m: Math, distance: (real, real, real, real) -> real, q: Pursuit)
    ensures var poi, own := LeadPursuit(m, distance, q), Max(q.ownSpeed, 0.000001);
      && (poi.how == StaticContact <==> q.heading == None || q.speed <= 0.000000001)
      && (poi.how == StaticContact ==>
            && (poi.lat, poi.lon) == (q.contactLat, q.contactLon)
            && poi.range == distance(q.ownLat, q.ownLon, q.contactLat, q.contactLon)
            && Times(poi.eta, own) == poi.range)
  {
    var poi, own := LeadPursuit(m, distance, q), Max(q.ownSpeed, SPEED_FLOOR);
    if poi.how == StaticContact {
      OwnTime(poi.range, own, poi.eta);
    }
  }

  lemma OwnTime(range: real, own: real, eta: real)
    requires own > 0.0 && eta == range / own
    ensures Times(eta, own) == range
  {
  }

  lemma ShiftNowhere(lat: real, lon: real, scale: real)
    requires scale > 0.0
    ensures Shift(lat, lon, 0.0, 0.0, scale) == (lat, lon)
  {
  }

  lemma TimesZero(x: real, y: real)
    requires x == 0.0
    ensures Times(x, y) == 0.0 && Times(y, x) == 0.0
  {
  }

  /** A moving contact within a metre is where to go, at once. */
  lemma WithinAMetreIsThere(m: Math, distance: (real, real, real, real) -> real, q: Pursuit)
    requires q.heading.Some? && q.speed > TINY && q.maxLead >= 0.0
    requires var r := EnuOffset(m, q.ownLat, q.ownLon, q.contactLat, q.contactLon); r.0 * r.0 + r.1 * r.1 < 1.0
    ensures LeadPursuit(m, distance, q) == Waypoint(q.contactLat, q.contactLon, 0.0, CollisionCourse, 0.0)
  {
    var h, run := q.heading.value, Times(q.speed, 0.0);
    assert ChaseOf(m, q).C() < 1.0;
    TimesZero(0.0, q.speed);
    TimesZero(run, m.cos(h));
    TimesZero(run, m.sin(h));
    TimesZero(0.0, Max(q.ownSpeed, SPEED_FLOOR));
    ShiftNowhere(q.contactLat, q.contactLon, Max(LonScale(m, q.contactLat), SCALE_FLOOR));
  }

  /** The fallback: the contact's run to the waypoint is along its heading, as far as it gets
      in own time to where it is now or in the lead limit, and the estimate is own time to the
      waypoint. */
  lemma AlongTrackWithinLimit(m: Math, distance: (real, real, real, real) -> real, q: Pursuit)
    requires LonScale(m, q.contactLat) >= SCALE_FLOOR
    requires LeadPursuit(m, distance, q).how == LeadAlongTrack
    ensures q.heading.Some?
    ensures var poi, own, h := LeadPursuit(m, distance, q), Max(q.ownSpeed, 0.000001), q.heading.value;
      var lead := Min(distance(q.ownLat, q.ownLon, q.contactLat, q.contactLon) / own, q.maxLead);
      var run := ContactRun(m, q, poi);
      && run == (Times(Times(q.speed, lead), m.cos(h)), Times(Times(q.speed, lead), m.sin(h)))
      && (m.Sound() && lead >= 0.0 ==> m.Hypot(run.0, run.1) == Times(q.speed, lead))
      && poi.range == distance(q.ownLat, q.ownLon, poi.lat, poi.lon)
      && Times(poi.eta, own) == poi.range
  {
    var poi, own := LeadPursuit(m, distance, q), Max(q.ownSpeed, SPEED_FLOOR);
    var lead := Min(distance(q.ownLat, q.ownLon, q.contactLat, q.contactLon) / own, q.maxLead);
    OffsetOfDisplaced(m, q.contactLat, q.contactLon, q.heading.value, Times(q.speed, lead));
    OwnTime(poi.range, own, poi.eta);
    if m.Sound() && lead >= 0.0 {
      var run := ContactRun(m, q, poi);
      TimesNonneg(q.speed, lead);
      HypotOfRun(m, q.heading.value, Times(q.speed, lead), run.0, run.1);
    }
  }

  lemma ChaseSpeed(m: Math, q: Pursuit)
    requires m.Sound() && q.heading.Some?
    ensures var k := ChaseOf(m, q); k.vn * k.vn + k.ve * k.ve == q.speed * q.speed
  {
    var k, h := ChaseOf(m, q), q.heading.value;
    UnitVector(m, h, q.speed, k.vn, k.ve);
  }

  /** A faster platform meets the contact at one time only, and is sent to that collision
      point exactly when it is within the lead limit. */
  lemma FasterIsSentToCollision(m: Math, distance: (real, real, real, real) -> real, q: Pursuit) returns (t: real)
    requires m.Sound() && q.heading.Some? && q.speed > TINY && ChaseOf(m, q).C() >= 1.0
    requires var vo := ChaseOf(m, q).vo; vo * vo - q.speed * q.speed >= TINY && vo + q.speed < FAST
    ensures forall u :: u > 0.0 && ChaseOf(m, q).Meets(u) <==> u == t
    ensures LeadPursuit(m, distance, q).how == CollisionCourse <==> t <= q.maxLead
  {
    var k := ChaseOf(m, q);
    ChaseSpeed(m, q);
    Circle(m, k.vn, k.ve, q.speed, q.speed);
    FasterAlwaysMeets(m, k);
    t := CollisionCourseEta(m, k).value;
  }

  /** One that is no faster than an opening contact only ever leads it along its track. */
  lemma SlowerLeadsAlongTrack(m: Math, distance: (real, real, real, real) -> real, q: Pursuit)
    requires m.Sound() && q.heading.Some? && q.speed > TINY && ChaseOf(m, q).C() >= 1.0
    requires var k := ChaseOf(m, q); q.speed >= k.vo && k.rn * k.vn + k.re * k.ve >= 0.0
    ensures LeadPursuit(m, distance, q).how == LeadAlongTrack
  {
    var k := ChaseOf(m, q);
    ChaseSpeed(m, q);
    SquareMono(k.vo, q.speed);
    SlowerNeverMeets(m, k);
  }
}
