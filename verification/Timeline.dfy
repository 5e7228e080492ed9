/** `app/scenarios/temporal.py`: the events of a scenario laid on a 19-step clock. */
module Timeline {
  import opened Json

  const STEPS := 19

  /** Seconds before T-00 of steps 1 to 19. */
  const T_MINUS: seq<nat> := [60, 56, 52, 48, 45, 40, 36, 32, 28, 25, 20, 17, 15, 12, 10, 5, 3, 1, 0]

  datatype Phase = EarlyRecon | RadarOpticalLock | AmberContradiction | WarningTasking

  /** `_band_for` */
  function PhaseOf(step: nat): Phase {
    if step <= 5 then EarlyRecon
    else if step <= 10 then RadarOpticalLock
    else if step <= 15 then AmberContradiction
    else WarningTasking
  }

  datatype StreamStep = StreamStep(step: nat, tMinus: nat, phase: Phase, events: seq<Dict>)

  /** The step event j of n goes to. */
  function TargetStep(j: nat, n: nat): (step: nat)
    requires j < n
    ensures 1 <= step <= STEPS
  {
    var s := if n > 1 then 1 + j * 18 / (n - 1) else 10;
    var low := if s < 1 then 1 else s;
    if low > STEPS then STEPS else low
  }

  /** Time, in seconds, given to an event delivered on a step. */
  function StampAt(t0: int, step: nat): int
    requires 1 <= step <= STEPS
  {
    t0 - T_MINUS[step - 1]
  }

  function Restamped(iso: int -> string, t: int, event: Dict): Dict {
    event["observed_at" := Text(iso(t))]
  }

  /** The whole list restamped, each event for its own step. */
  function Schedule(iso: int -> string, t0: int, raw: seq<Dict>): seq<Dict> {
    seq(|raw|, j requires 0 <= j < |raw| => Restamped(iso, StampAt(t0, TargetStep(j, |raw|)), raw[j]))
  }

  /** What the scan of the first k events drops onto a step. */
  function Dropped(iso: int -> string, t0: int, raw: seq<Dict>, step: nat, k: nat): seq<Dict>
    requires 1 <= step <= STEPS && k <= |raw|
  {
    if k == 0 then []
    else
      var before := Dropped(iso, t0, raw, step, k - 1);
      if TargetStep(k - 1, |raw|) == step then before + [Restamped(iso, StampAt(t0, step), raw[k - 1])]
      else before
  }

  function Delivered(steps: seq<StreamStep>): seq<Dict> {
    if steps == [] then [] else Delivered(steps[..|steps| - 1]) + steps[|steps| - 1].events
  }

  // ---------------------------------------------------------------- the grid

  lemma QuotientBounds(x: nat, d: nat, q: nat)
    requires d > 0 && q == x / d
    ensures q * d <= x < q * d + d
  {
  }

  lemma MulNonneg(x: nat, y: nat)
    ensures x * y >= 0
  {
  }

  lemma ProductGap(q: nat, r: nat, d: nat)
    requires q > r
    ensures q * d >= r * d + d
  {
    var e := q - r - 1;
    MulNonneg(e, d);
    assert q == r + 1 + e;
    assert q * d == r * d + d + e * d;
  }

  lemma QuotientUnique(x: nat, d: nat, a: nat, b: nat)
    requires a * d <= x < a * d + d && b * d <= x < b * d + d
    ensures a == b
  {
    if a > b {
      ProductGap(a, b, d);
    } else if b > a {
      ProductGap(b, a, d);
    }
  }

  lemma ExactQuotient(m: nat, d: nat)
    requires d > 0
    ensures d * m / d == m
  {
    var q: nat := d * m / d;
    QuotientBounds(d * m, d, q);
    QuotientUnique(d * m, d, q, m);
  }

  lemma DivMono(x: nat, y: nat, d: nat)
    requires x <= y && d > 0
    ensures x / d <= y / d
  {
    var q, r := x / d, y / d;
    QuotientBounds(x, d, q);
    QuotientBounds(y, d, r);
    if q > r {
      ProductGap(q, r, d);
    }
  }

  lemma TargetMonotone(j: nat, k: nat, n: nat)
    requires j <= k < n
    ensures TargetStep(j, n) <= TargetStep(k, n)
  {
    if n > 1 {
      DivMono(j * 18, k * 18, n - 1);
    }
  }

  /** The first event opens the clock and the last one closes it. */
  lemma EndsOfTheClock(n: nat)
    requires n >= 2
    ensures TargetStep(0, n) == 1 && TargetStep(n - 1, n) == STEPS
  {
    ExactQuotient(18, n - 1);
  }

  /** An event's step is its place in the list, in eighteenths, rounded down; a single event
      goes to the tenth step. */
  lemma TargetIsProportional(j: nat, n: nat, step: nat)
    requires j < n
    ensures n == 1 ==> TargetStep(j, n) == 10
    ensures n > 1 && step >= 1 ==>
      (TargetStep(j, n) == step <==> (step - 1) * (n - 1) <= j * 18 < (step - 1) * (n - 1) + (n - 1))
  {
    if n > 1 && step >= 1 {
      var q := j * 18 / (n - 1);
      QuotientBounds(j * 18, n - 1, q);
      Within18(j, n - 1, q);
      if (step - 1) * (n - 1) <= j * 18 < (step - 1) * (n - 1) + (n - 1) {
        QuotientUnique(j * 18, n - 1, q, step - 1);
      }
    }
  }

  /** The bands are what the marks say: more than 40 seconds out, more than 20, more than 5. */
  lemma PhasesFollowTheMarks(step: nat)
    requires 1 <= step <= STEPS
    ensures var t := T_MINUS[step - 1];
      && (PhaseOf(step) == EarlyRecon <==> t > 40)
      && (PhaseOf(step) == RadarOpticalLock <==> 20 < t <= 40)
      && (PhaseOf(step) == AmberContradiction <==> 5 < t <= 20)
      && (PhaseOf(step) == WarningTasking <==> t <= 5)
  {
  }

  /** Times never run backwards along the list. */
  lemma StampsNeverDecrease(t0: int, j: nat, k: nat, n: nat)
    requires j <= k < n
    ensures StampAt(t0, TargetStep(j, n)) <= StampAt(t0, TargetStep(k, n)) <= t0
  {
    TargetMonotone(j, k, n);
    LaterStepsAreLater(TargetStep(j, n), TargetStep(k, n));
  }

  lemma {:induction false} LaterStepsAreLater(a: nat, b: nat)
    requires 1 <= a <= b <= STEPS
    ensures T_MINUS[a - 1] >= T_MINUS[b - 1]
    decreases b - a
  {
    if a < b {
      LaterStepsAreLater(a + 1, b);
      assert T_MINUS[a - 1] >= T_MINUS[a];
    }
  }

  /** How many of the first k events go to a step up to s. */
  function Cut(n: nat, s: nat, k: nat): (c: nat)
    requires k <= n
    ensures c <= k
  {
    if k == 0 then 0
    else Cut(n, s, k - 1) + (if TargetStep(k - 1, n) <= s then 1 else 0)
  }

  /** Those events are the first ones. */
  lemma {:induction false} CutSplits(n: nat, s: nat, k: nat, j: nat)
    requires j < k <= n
    ensures TargetStep(j, n) <= s <==> j < Cut(n, s, k)
  {
    if k > 1 {
      if j < k - 1 {
        CutSplits(n, s, k - 1, j);
        TargetMonotone(j, k - 1, n);
      }
      if TargetStep(k - 1, n) <= s {
        CutAll(n, s, k - 1);
      }
    }
  }

  lemma {:induction false} CutAll(n: nat, s: nat, k: nat)
    requires k < n && TargetStep(k, n) <= s
    ensures Cut(n, s, k) == k
  {
    if k > 0 {
      TargetMonotone(k - 1, k, n);
      CutAll(n, s, k - 1);
    }
  }

  lemma {:induction false} CutOrdered(n: nat, s: nat, k: nat)
    requires k <= n
    ensures Cut(n, s, k) <= Cut(n, s + 1, k)
  {
    if k > 0 {
      CutOrdered(n, s, k - 1);
    }
  }

  lemma {:induction false} CutStops(n: nat, s: nat, k: nat)
    requires k <= n
    ensures Cut(n, 0, k) == 0 && (s >= STEPS ==> Cut(n, s, k) == k)
  {
    if k > 0 {
      CutStops(n, s, k - 1);
    }
  }

  // ---------------------------------------------------------------- conservation

  lemma DroppedGrows(iso: int -> string, t0: int, raw: seq<Dict>, step: nat, k: nat)
    requires 1 <= step <= STEPS && 1 <= k <= |raw|
    ensures Dropped(iso, t0, raw, step, k) == Dropped(iso, t0, raw, step, k - 1) +
              (if TargetStep(k - 1, |raw|) == step then [Schedule(iso, t0, raw)[k - 1]] else [])
  {
  }

  /** The cuts around a step move past event k - 1 together, or only the later one does, or
      neither. */
  lemma CutsMove(n: nat, step: nat, k: nat)
    requires 1 <= step && 1 <= k <= n
    ensures var target, a, b := TargetStep(k - 1, n), Cut(n, step - 1, k - 1), Cut(n, step, k - 1);
      && a <= b
      && (target < step ==> a == b == k - 1 && Cut(n, step - 1, k) == Cut(n, step, k) == k)
      && (target == step ==> b == k - 1 && Cut(n, step - 1, k) == a && Cut(n, step, k) == k)
      && (target > step ==> Cut(n, step - 1, k) == a && Cut(n, step, k) == b)
  {
    CutOrdered(n, step - 1, k - 1);
    if TargetStep(k - 1, n) < step {
      CutAll(n, step - 1, k - 1);
    }
    if TargetStep(k - 1, n) <= step {
      CutAll(n, step, k - 1);
    }
  }

  /** A step's stretch of the list grows by one event when that event is its own. */
  lemma StretchGrows<T>(all: seq<T>, n: nat, step: nat, k: nat)
    requires 1 <= step && 1 <= k <= n == |all|
    ensures Cut(n, step - 1, k - 1) <= Cut(n, step, k - 1) && Cut(n, step - 1, k) <= Cut(n, step, k)
    ensures all[Cut(n, step - 1, k)..Cut(n, step, k)] == all[Cut(n, step - 1, k - 1)..Cut(n, step, k - 1)] +
              (if TargetStep(k - 1, n) == step then [all[k - 1]] else [])
  {
    CutsMove(n, step, k);
    var a, target := Cut(n, step - 1, k - 1), TargetStep(k - 1, n);
    if target < step {
      EmptySlices(all, k);
    } else if target == step {
      SliceGrows(all, a, k);
    }
  }

  /** What a step gets of the first k events is one stretch of the schedule. */
  lemma {:induction false} DroppedIsSlice(iso: int -> string, t0: int, raw: seq<Dict>, all: seq<Dict>, step: nat,
                                          k: nat)
    requires 1 <= step <= STEPS && k <= |raw| && all == Schedule(iso, t0, raw)
    ensures var n := |raw|;
      && Cut(n, step - 1, k) <= Cut(n, step, k)
      && Dropped(iso, t0, raw, step, k) == all[Cut(n, step - 1, k)..Cut(n, step, k)]
  {
    if k > 0 {
      DroppedIsSlice(iso, t0, raw, all, step, k - 1);
      DroppedGrows(iso, t0, raw, step, k);
      StretchGrows(all, |raw|, step, k);
    }
  }

  lemma EmptySlices<T>(s: seq<T>, k: nat)
    requires 1 <= k <= |s|
    ensures s[k - 1..k - 1] == s[k..k]
  {
  }

  lemma SliceGrows<T>(s: seq<T>, a: nat, k: nat)
    requires a < k <= |s|
    ensures s[a..k] == s[a..k - 1] + [s[k - 1]]
  {
  }

  lemma TwoSlices<T>(s: seq<T>, a: nat, b: nat)
    requires a <= b <= |s|
    ensures s[..b] == s[..a] + s[a..b]
  {
  }

  /** A clock whose steps hold what the scan of the whole list drops on them. */
  ghost predicate Filled(iso: int -> string, t0: int, raw: seq<Dict>, steps: seq<StreamStep>) {
    && |steps| <= STEPS
    && forall i :: 0 <= i < |steps| ==>
         steps[i] == StreamStep(i + 1, T_MINUS[i], PhaseOf(i + 1), Dropped(iso, t0, raw, i + 1, |raw|))
  }

  lemma DeliveredSnoc(front: seq<StreamStep>, last: StreamStep)
    ensures Delivered(front + [last]) == Delivered(front) + last.events
  {
    assert (front + [last])[..|front|] == front;
  }

  /** Each step holds the stretch of the list between two neighbouring cuts. */
  ghost predicate Sliced(all: seq<Dict>, n: nat, steps: seq<StreamStep>)
    requires |all| == n
  {
    forall i :: 0 <= i < |steps| ==> IsSlice(all, n, steps, i)
  }

  predicate IsSlice(all: seq<Dict>, n: nat, steps: seq<StreamStep>, i: nat)
    requires |all| == n && i < |steps|
  {
    Cut(n, i, n) <= Cut(n, i + 1, n) && steps[i].events == all[Cut(n, i, n)..Cut(n, i + 1, n)]
  }

  lemma StepsAreSliced(iso: int -> string, t0: int, raw: seq<Dict>, all: seq<Dict>, steps: seq<StreamStep>)
    requires Filled(iso, t0, raw, steps) && all == Schedule(iso, t0, raw)
    ensures Sliced(all, |raw|, steps)
  {
    forall i | 0 <= i < |steps|
      ensures IsSlice(all, |raw|, steps, i)
    {
      DroppedIsSlice(iso, t0, raw, all, i + 1, |raw|);
    }
  }

  lemma {:induction false} SlicesJoin(all: seq<Dict>, n: nat, steps: seq<StreamStep>)
    requires |all| == n && Sliced(all, n, steps)
    ensures Delivered(steps) == all[..Cut(n, |steps|, n)]
    decreases |steps|
  {
    if steps == [] {
      CutStops(n, 0, n);
    } else {
      var s := |steps| - 1;
      var front := steps[..s];
      assert IsSlice(all, n, steps, s);
      assert forall i :: 0 <= i < s ==> IsSlice(all, n, steps, i) ==> IsSlice(all, n, front, i);
      SlicesJoin(all, n, front);
      TwoSlices(all, Cut(n, s, n), Cut(n, s + 1, n));
      assert steps == front + [steps[s]];
      DeliveredSnoc(front, steps[s]);
    }
  }

  /** The schedule holds each event, with no other entry touched, stamped with its step's mark. */
  lemma ScheduleAt(iso: int -> string, t0: int, raw: seq<Dict>, j: nat)
    requires j < |raw|
    ensures var e := Schedule(iso, t0, raw)[j];
      && e - {"observed_at"} == raw[j] - {"observed_at"}
      && e.Keys == raw[j].Keys + {"observed_at"}
      && e["observed_at"] == Text(iso(t0 - T_MINUS[TargetStep(j, |raw|) - 1]))
  {
    var e := Schedule(iso, t0, raw)[j];
    assert e == raw[j]["observed_at" := Text(iso(t0 - T_MINUS[TargetStep(j, |raw|) - 1]))];
  }

  lemma StepsDeliverSchedule(iso: int -> string, t0: int, raw: seq<Dict>, steps: seq<StreamStep>)
    requires Filled(iso, t0, raw, steps) && |steps| == STEPS
    ensures Delivered(steps) == Schedule(iso, t0, raw)
  {
    StepsAreSliced(iso, t0, raw, Schedule(iso, t0, raw), steps);
    SlicesJoin(Schedule(iso, t0, raw), |raw|, steps);
    CutStops(|raw|, STEPS, |raw|);
  }

  /** Playing the 19 steps gives back the whole list, in order, restamped and nothing else. */
  lemma TimelineConserves(iso: int -> string, t0: int, raw: seq<Dict>, steps: seq<StreamStep>)
    requires Filled(iso, t0, raw, steps) && |steps| == STEPS
    ensures Delivered(steps) == Schedule(iso, t0, raw)
    ensures |Delivered(steps)| == |raw|
    ensures forall j :: 0 <= j < |raw| ==>
      && Delivered(steps)[j] - {"observed_at"} == raw[j] - {"observed_at"}
      && Delivered(steps)[j].Keys == raw[j].Keys + {"observed_at"}
      && Delivered(steps)[j]["observed_at"] == Text(iso(t0 - T_MINUS[TargetStep(j, |raw|) - 1]))
  {
    StepsDeliverSchedule(iso, t0, raw, steps);
    forall j | 0 <= j < |raw|
      ensures var e := Delivered(steps)[j];
        && e - {"observed_at"} == raw[j] - {"observed_at"}
        && e.Keys == raw[j].Keys + {"observed_at"}
        && e["observed_at"] == Text(iso(t0 - T_MINUS[TargetStep(j, |raw|) - 1]))
    {
      ScheduleAt(iso, t0, raw, j);
    }
  }

  /** With two events or more the first is the first of step 1, a minute before T-00. */
  lemma FirstOpens(iso: int -> string, t0: int, raw: seq<Dict>, steps: seq<StreamStep>)
    requires Filled(iso, t0, raw, steps) && |steps| == STEPS && |raw| >= 2
    ensures steps[0].events != [] && steps[0].events[0] == raw[0]["observed_at" := Text(iso(t0 - 60))]
  {
    var n := |raw|;
    EndsOfTheClock(n);
    DroppedIsSlice(iso, t0, raw, Schedule(iso, t0, raw), 1, n);
    CutStops(n, STEPS, n);
    CutSplits(n, 1, n, 0);
  }

  /** And the last is the last of step 19, at T-00. */
  lemma LastCloses(iso: int -> string, t0: int, raw: seq<Dict>, steps: seq<StreamStep>)
    requires Filled(iso, t0, raw, steps) && |steps| == STEPS && |raw| >= 2
    ensures var last := steps[STEPS - 1].events;
      last != [] && last[|last| - 1] == raw[|raw| - 1]["observed_at" := Text(iso(t0))]
  {
    var n := |raw|;
    EndsOfTheClock(n);
    DroppedIsSlice(iso, t0, raw, Schedule(iso, t0, raw), STEPS, n);
    CutStops(n, STEPS, n);
    CutSplits(n, STEPS - 1, n, n - 1);
  }

  lemma NeighbouringSteps(j: nat, n: nat)
    requires j + 1 < n
    ensures n <= STEPS ==> TargetStep(j, n) < TargetStep(j + 1, n)
    ensures n >= STEPS ==> TargetStep(j + 1, n) <= TargetStep(j, n) + 1
  {
    var d := n - 1;
    var q, p := j * 18 / d, (j + 1) * 18 / d;
    QuotientBounds(j * 18, d, q);
    QuotientBounds((j + 1) * 18, d, p);
    NeighboursDiffer(j, d, q, p);
    Within18(j, d, q);
    Within18(j + 1, d, p);
  }

  /** Up to 19 events go to different steps. */
  lemma {:induction false} TargetsDiffer(j: nat, k: nat, n: nat)
    requires j < k < n <= STEPS
    ensures TargetStep(j, n) < TargetStep(k, n)
  {
    NeighbouringSteps(k - 1, n);
    if j < k - 1 {
      TargetsDiffer(j, k - 1, n);
    }
  }

  /** From 19 on every step up to that of event k is some event's. */
  lemma {:induction false} StepIsReached(s: nat, k: nat, n: nat) returns (j: nat)
    requires STEPS <= n && k < n && 1 <= s <= TargetStep(k, n)
    ensures j <= k && TargetStep(j, n) == s
  {
    if s == TargetStep(k, n) {
      j := k;
    } else {
      EndsOfTheClock(n);
      NeighbouringSteps(k - 1, n);
      j := StepIsReached(s, k - 1, n);
    }
  }

  lemma {:induction false} DropsOwn(iso: int -> string, t0: int, raw: seq<Dict>, step: nat, k: nat, j: nat)
    requires 1 <= step <= STEPS && j < k <= |raw| && TargetStep(j, |raw|) == step
    ensures Dropped(iso, t0, raw, step, k) != []
  {
    if j < k - 1 {
      DropsOwn(iso, t0, raw, step, k - 1, j);
    }
  }

  lemma {:induction false} DropsNothingElse(iso: int -> string, t0: int, raw: seq<Dict>, step: nat, k: nat)
    requires 1 <= step <= STEPS && k <= |raw|
    requires forall j :: 0 <= j < k ==> TargetStep(j, |raw|) != step
    ensures Dropped(iso, t0, raw, step, k) == []
  {
    if k > 0 {
      DropsNothingElse(iso, t0, raw, step, k - 1);
    }
  }

  lemma {:induction false} DropsOneAtMost(iso: int -> string, t0: int, raw: seq<Dict>, step: nat, k: nat)
    requires 1 <= step <= STEPS && k <= |raw| <= STEPS
    ensures |Dropped(iso, t0, raw, step, k)| <= 1
  {
    if k > 0 {
      if TargetStep(k - 1, |raw|) == step {
        forall j | 0 <= j < k - 1
          ensures TargetStep(j, |raw|) != step
        {
          TargetsDiffer(j, k - 1, |raw|);
        }
        DropsNothingElse(iso, t0, raw, step, k - 1);
      } else {
        DropsOneAtMost(iso, t0, raw, step, k - 1);
      }
    }
  }

  /** Up to 19 events no step holds two; from 19 on no step is empty. */
  lemma EvenlySpread(iso: int -> string, t0: int, raw: seq<Dict>, steps: seq<StreamStep>)
    requires Filled(iso, t0, raw, steps) && |steps| == STEPS
    ensures |raw| <= STEPS ==> forall i :: 0 <= i < STEPS ==> |steps[i].events| <= 1
    ensures |raw| >= STEPS ==> forall i :: 0 <= i < STEPS ==> |steps[i].events| >= 1
  {
    var n := |raw|;
    forall i | 0 <= i < STEPS
      ensures n <= STEPS ==> |steps[i].events| <= 1
      ensures n >= STEPS ==> |steps[i].events| >= 1
    {
      if n <= STEPS {
        DropsOneAtMost(iso, t0, raw, i + 1, n);
      }
      if n >= STEPS {
        EndsOfTheClock(n);
        var j := StepIsReached(i + 1, n - 1, n);
        DropsOwn(iso, t0, raw, i + 1, n, j);
      }
    }
  }

  lemma Within18(j: nat, d: nat, q: nat)
    requires j <= d && q * d <= j * 18 && d > 0
    ensures q <= 18
  {
    if q > 18 {
      ProductGap(q, 18, d);
    }
  }

  lemma NeighboursDiffer(j: nat, d: nat, q: nat, p: nat)
    requires q * d <= j * 18 < q * d + d && p * d <= j * 18 + 18 < p * d + d
    ensures d <= 18 ==> q < p
    ensures d >= 18 ==> p <= q + 1
  {
    if q > p {
      ProductGap(q, p, d);
    }
    if p > q + 1 {
      ProductGap(p, q + 1, d);
      assert (q + 1) * d == q * d + d;
    }
  }

  /** `_spread_scenario_events` */
  method SpreadScenarioEvents(iso: int -> string, t0: int, raw: seq<Dict>) returns (steps: seq<StreamStep>)
    ensures Filled(iso, t0, raw, steps) && |steps| == STEPS
    ensures Delivered(steps) == Schedule(iso, t0, raw)
  {
    steps := [];
    for i := 0 to STEPS
      invariant |steps| == i && Filled(iso, t0, raw, steps)
    {
      var tMinus := T_MINUS[i];
      var events: seq<Dict> := [];
      for j := 0 to |raw|
        invariant events == Dropped(iso, t0, raw, i + 1, j)
      {
        if TargetStep(j, |raw|) == i + 1 {
          events := events + [Restamped(iso, t0 - tMinus, raw[j])];
        }
      }
      steps := steps + [StreamStep(i + 1, tMinus, PhaseOf(i + 1), events)];
    }
    StepsDeliverSchedule(iso, t0, raw, steps);
  }
}
