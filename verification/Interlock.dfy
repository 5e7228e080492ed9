/** `DeterministicInterlock`: the checks a proposal must pass before anyone is asked. */
module Interlock {
  import opened Json
  import opened Geofence
  import opened GateTypes

  datatype Zone = Zone(name: string, polygon: seq<Point>)

  datatype Poi = Poi(kind: Option<string>, name: string, center: Point, buffer: Option<real>)

  /** Everything `verify` reads besides the proposal and the active keys. The great
      circle distance and the text of a target/intent key are abstract. */
  datatype Rules = Rules(
    zones: seq<Zone>,
    maxSpeedKt: real,
    rejectNull: bool,
    pois: seq<Poi>,
    distance: (Point, Point) -> real,
    pairKey: (string, string, Point) -> string)

  datatype Reason =
    | NullCoordinates
    | SpeedLimit(speed: real, limit: real)
    | GeofenceViolation(zone: string)
    | CniFallout(poi: string)
    | DuplicateActiveTask
    | DuplicateTargetIntent

  /** `Crash` is the division by zero `point_in_polygon` can raise. */
  datatype Check = Pass | Reject(reason: Reason) | Crash

  const TERMINAL_INTENTS := {"TERMINAL_SAM_INTERCEPT", "OVERHEAD_KINETIC_INTERCEPT"}

  function DebrisFootprint(altitude: real): real {
    var r := altitude * 8.0 + 400.0;
    if r < 500.0 then 500.0 else r
  }

  predicate Dangerous(coa: Coa) {
    coa.draft || coa.intent in TERMINAL_INTENTS
  }

  predicate Civilian(poi: Poi) {
    poi.kind == None || poi.kind == Some("civilian_cni")
  }

  function Altitude(coa: Coa): real {
    if coa.altitude.Some? then coa.altitude.value else 71.0
  }

  /** The debris cone of a shot at the target reaches the point's buffer. */
  predicate DebrisReaches(rules: Rules, coa: Coa, poi: Poi) {
    var buffer := if poi.buffer.Some? then poi.buffer.value else 2500.0;
    rules.distance(coa.at, poi.center) <= buffer + DebrisFootprint(Altitude(coa))
  }

  // ---------------------------------------------------------------- specification

  /** First zone, in order, that holds the target or cannot be evaluated. */
  function ZoneCheck(zones: seq<Zone>, at: Point): Check {
    if zones == [] then Pass
    else match Contains(at, zones[0].polygon)
      case Inside => Reject(GeofenceViolation(zones[0].name))
      case ZeroDivisionError => Crash
      case Outside => ZoneCheck(zones[1..], at)
  }

  function CniCheck(rules: Rules, coa: Coa, pois: seq<Poi>): Check {
    if pois == [] then Pass
    else if Civilian(pois[0]) && DebrisReaches(rules, coa, pois[0]) then Reject(CniFallout(pois[0].name))
    else CniCheck(rules, coa, pois[1..])
  }

  /** The checks that do not depend on what is already active. */
  function StaticCheck(rules: Rules, coa: Coa): Check {
    if rules.rejectNull && coa.at.lat == 0.0 && coa.at.lon == 0.0 then Reject(NullCoordinates)
    else if coa.speedKt.Some? && coa.speedKt.value > rules.maxSpeedKt then
      Reject(SpeedLimit(coa.speedKt.value, rules.maxSpeedKt))
    else
      var zones := ZoneCheck(rules.zones, coa.at);
      if zones != Pass then zones
      else if Dangerous(coa) then CniCheck(rules, coa, rules.pois)
      else Pass
  }

  function PairKey(rules: Rules, coa: Coa): string {
    rules.pairKey(coa.target, coa.intent, coa.at)
  }

  function FullCheck(rules: Rules, active: set<string>, coa: Coa): Check {
    var s := StaticCheck(rules, coa);
    if s != Pass then s
    else if coa.id in active then Reject(DuplicateActiveTask)
    else if PairKey(rules, coa) in active then Reject(DuplicateTargetIntent)
    else Pass
  }

  /** What passing means, with no mention of the order of the checks: off the null point,
      within the speed limit, outside every zone, and for terminal fire a debris circle of
      max(500, 8 * altitude + 400) metres clear of every civilian point's buffer. */
  predicate Safe(rules: Rules, coa: Coa) {
    && !(rules.rejectNull && coa.at == Point(0.0, 0.0))
    && (coa.speedKt.Some? ==> coa.speedKt.value <= rules.maxSpeedKt)
    && (forall z :: z in rules.zones ==> Contains(coa.at, z.polygon) == Outside)
    && (coa.draft || coa.intent == "TERMINAL_SAM_INTERCEPT" || coa.intent == "OVERHEAD_KINETIC_INTERCEPT" ==>
          forall q :: q in rules.pois && (q.kind == None || q.kind == Some("civilian_cni")) ==>
            ClearOf(rules.distance(coa.at, q.center), q.buffer, coa.altitude))
  }

  /** Farther than the buffer (2500 m unless given) plus the debris radius at the altitude
      (71 m unless given). */
  predicate ClearOf(distance: real, buffer: Option<real>, altitude: Option<real>) {
    var h := if altitude == None then 71.0 else altitude.value;
    var b := if buffer == None then 2500.0 else buffer.value;
    distance > b + 500.0 && distance > b + 8.0 * h + 400.0
  }

  lemma ClearIsOutOfReach(rules: Rules, coa: Coa, q: Poi)
    ensures ClearOf(rules.distance(coa.at, q.center), q.buffer, coa.altitude) <==> !DebrisReaches(rules, coa, q)
  {
  }

  lemma {:induction false} ZoneCheckExact(zones: seq<Zone>, at: Point)
    ensures ZoneCheck(zones, at) == Pass <==> forall z :: z in zones ==> Contains(at, z.polygon) == Outside
  {
    if zones != [] {
      ZoneCheckExact(zones[1..], at);
      assert zones == [zones[0]] + zones[1..];
    }
  }

  lemma {:induction false} CniCheckExact(rules: Rules, coa: Coa, pois: seq<Poi>)
    ensures CniCheck(rules, coa, pois) == Pass <==>
            forall q :: q in pois && Civilian(q) ==> !DebrisReaches(rules, coa, q)
  {
    if pois != [] {
      CniCheckExact(rules, coa, pois[1..]);
      assert pois == [pois[0]] + pois[1..];
    }
  }

  lemma PassMeansSafe(rules: Rules, active: set<string>, coa: Coa)
    ensures StaticCheck(rules, coa) == Pass <==> Safe(rules, coa)
    ensures FullCheck(rules, active, coa) == Pass <==>
            Safe(rules, coa) && coa.id !in active && PairKey(rules, coa) !in active
  {
    ZoneCheckExact(rules.zones, coa.at);
    CniCheckExact(rules, coa, rules.pois);
    forall q: Poi
      ensures ClearOf(rules.distance(coa.at, q.center), q.buffer, coa.altitude) <==> !DebrisReaches(rules, coa, q)
    {
      ClearIsOutOfReach(rules, coa, q);
    }
  }

  /** The zone loop stops at the first zone that does not answer Outside, and blames it. */
  lemma {:induction false} FirstZone(zones: seq<Zone>, at: Point) returns (i: nat)
    ensures i <= |zones| && forall j :: 0 <= j < i ==> Contains(at, zones[j].polygon) == Outside
    ensures i < |zones| ==> Contains(at, zones[i].polygon) != Outside
    ensures ZoneCheck(zones, at) ==
      if i == |zones| then Pass
      else if Contains(at, zones[i].polygon) == Inside then Reject(GeofenceViolation(zones[i].name))
      else Crash
  {
    if zones == [] || Contains(at, zones[0].polygon) != Outside {
      i := 0;
    } else {
      var k := FirstZone(zones[1..], at);
      i := k + 1;
      assert forall j :: 1 <= j < i ==> zones[j] == zones[1..][j - 1];
    }
  }

  predicate Threatened(rules: Rules, coa: Coa, q: Poi) {
    (q.kind == None || q.kind == Some("civilian_cni")) &&
    !ClearOf(rules.distance(coa.at, q.center), q.buffer, coa.altitude)
  }

  /** The debris loop stops at the first civilian point that is not clear, and blames it. */
  lemma {:induction false} FirstPoi(rules: Rules, coa: Coa, pois: seq<Poi>) returns (i: nat)
    ensures i <= |pois| && forall j :: 0 <= j < i ==> !Threatened(rules, coa, pois[j])
    ensures i < |pois| ==> Threatened(rules, coa, pois[i])
    ensures CniCheck(rules, coa, pois) == if i == |pois| then Pass else Reject(CniFallout(pois[i].name))
  {
    if pois == [] {
      i := 0;
    } else {
      ClearIsOutOfReach(rules, coa, pois[0]);
      if Threatened(rules, coa, pois[0]) {
        i := 0;
      } else {
        var k := FirstPoi(rules, coa, pois[1..]);
        i := k + 1;
        assert forall j :: 1 <= j < i ==> pois[j] == pois[1..][j - 1];
      }
    }
  }

  /** Which answer `verify` gives: null point before speed, speed before zones, zones in order
      before civilian points in order, those before the two duplicate keys. */
  lemma AnswerExact(rules: Rules, active: set<string>, coa: Coa) returns (z: nat, q: nat)
    ensures z <= |rules.zones| && forall j :: 0 <= j < z ==> Contains(coa.at, rules.zones[j].polygon) == Outside
    ensures z < |rules.zones| ==> Contains(coa.at, rules.zones[z].polygon) != Outside
    ensures q <= |rules.pois| && forall j :: 0 <= j < q ==> !Threatened(rules, coa, rules.pois[j])
    ensures q < |rules.pois| ==> Threatened(rules, coa, rules.pois[q])
    ensures
      var terminal :=
        coa.draft || coa.intent == "TERMINAL_SAM_INTERCEPT" || coa.intent == "OVERHEAD_KINETIC_INTERCEPT";
      FullCheck(rules, active, coa) ==
        if rules.rejectNull && coa.at == Point(0.0, 0.0) then Reject(NullCoordinates)
        else if coa.speedKt.Some? && coa.speedKt.value > rules.maxSpeedKt then
          Reject(SpeedLimit(coa.speedKt.value, rules.maxSpeedKt))
        else if z < |rules.zones| then
          if Contains(coa.at, rules.zones[z].polygon) == Inside then Reject(GeofenceViolation(rules.zones[z].name))
          else Crash
        else if terminal && q < |rules.pois| then Reject(CniFallout(rules.pois[q].name))
        else if coa.id in active then Reject(DuplicateActiveTask)
        else if rules.pairKey(coa.target, coa.intent, coa.at) in active then Reject(DuplicateTargetIntent)
        else Pass
  {
    z := FirstZone(rules.zones, coa.at);
    q := FirstPoi(rules, coa, rules.pois);
  }

  // ---------------------------------------------------------------- the interlock

  class DeterministicInterlock {
    var rules: Rules
    var active: set<string>

    constructor (rules: Rules)
      ensures this.rules == rules && active == {}
    {
      this.rules := rules;
      active := {};
    }

    method SetCniPois(pois: seq<Poi>)
      modifies this`rules
      ensures rules == old(rules).(pois := pois)
    {
      rules := rules.(pois := pois);
    }

    method VerifyCniDebris(coa: Coa) returns (r: Check)
      ensures r == if Dangerous(coa) then CniCheck(rules, coa, rules.pois) else Pass
    {
      var dangerous := coa.draft || coa.intent in TERMINAL_INTENTS;
      if !dangerous || |rules.pois| == 0 {
        return Pass;
      }
      var footprint := DebrisFootprint(if coa.altitude.Some? then coa.altitude.value else 71.0);
      for i := 0 to |rules.pois|
        invariant CniCheck(rules, coa, rules.pois) == CniCheck(rules, coa, rules.pois[i..])
      {
        var poi := rules.pois[i];
        assert rules.pois[i..][1..] == rules.pois[i + 1..];
        if poi.kind != None && poi.kind != Some("civilian_cni") {
          continue;
        }
        var buffer := if poi.buffer.Some? then poi.buffer.value else 2500.0;
        if rules.distance(coa.at, poi.center) <= buffer + footprint {
          return Reject(CniFallout(poi.name));
        }
      }
      r := Pass;
    }

    method Verify(coa: Coa) returns (r: Check)
      ensures r == FullCheck(rules, active, coa)
    {
      if rules.rejectNull && coa.at.lat == 0.0 && coa.at.lon == 0.0 {
        return Reject(NullCoordinates);
      }
      if coa.speedKt.Some? && coa.speedKt.value > rules.maxSpeedKt {
        return Reject(SpeedLimit(coa.speedKt.value, rules.maxSpeedKt));
      }
      for i := 0 to |rules.zones|
        invariant ZoneCheck(rules.zones, coa.at) == ZoneCheck(rules.zones[i..], coa.at)
      {
        assert rules.zones[i..][1..] == rules.zones[i + 1..];
        var c := PointInPolygon(coa.at, rules.zones[i].polygon);
        if c == ZeroDivisionError {
          return Crash;
        }
        if c == Inside {
          return Reject(GeofenceViolation(rules.zones[i].name));
        }
      }
      r := VerifyCniDebris(coa);
      if r != Pass {
        return;
      }
      if coa.id in active {
        return Reject(DuplicateActiveTask);
      }
      var key := rules.pairKey(coa.target, coa.intent, coa.at);
      if key in active {
        return Reject(DuplicateTargetIntent);
      }
    }

    method RegisterActive(coa: Coa)
      modifies this`active
      ensures active == old(active) + {coa.id, PairKey(rules, coa)}
    {
      active := active + {coa.id};
      active := active + {rules.pairKey(coa.target, coa.intent, coa.at)};
    }

    method ClearActive()
      modifies this`active
      ensures active == {}
    {
      active := {};
    }
  }
}
