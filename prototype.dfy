/**
  The older JavaScript renderer, fractal.js: its `simulate` with a capture
  pre-check, 1000 dampened steps, an axis-aligned box test against every
  attractor during a step, and an exit when the particle is far away or nearly
  at rest; then, per pixel, the nearest attractor by squared distance (seeded
  with `Infinity`) and two overrides, "stable" to class 4 and "far" to class 5.

  The attractor list is a parameter: the source perturbs the four listed
  positions by random amounts once at start-up, so only their number is fixed.
*/
module Prototype {
  import opened Field

  const Steps: nat := 1000
  const StepSize: real := 0.01 / 2.0
  const Dampening: real := 0.9999
  const CaptureRadius: real := 0.1
  const NearBox: real := 0.02
  const MaxDistance: real := 2000.0
  const MinSpeed: real := 0.0001
  /** The classification override compares a squared distance with this. */
  const FarSquared: real := 2000.0

  /** The attractors as listed, before the random perturbation. */
  const ListedAttractors: seq<Attractor> := [
    Attractor(-1.0, -1.0, 1.0), Attractor(1.0, -1.0, 1.0),
    Attractor(-1.0, 1.0, 1.0), Attractor(1.0, 1.0, 1.0)
  ]

  const Colours: seq<string> := ["red", "green", "blue", "yellow", "white", "black"]

  /** What `simulate` returns: a point, flagged `stable` only on the last line. */
  datatype Outcome = Outcome(at: Point, stable: bool)

  /**
    Which rule ended a run: the pre-check, the box test during step `step`,
    the far-or-slow exit after step `step`, or all steps completed.
  */
  datatype Exit =
    | Captured(index: nat, at: Point)
    | Near(index: nat, step: nat, at: Point)
    | Left(step: nat, at: Point)
    | Stable(at: Point)

  function ToOutcome(e: Exit): Outcome {
    Outcome(e.at, e.Stable?)
  }

  /** Both coordinates of `p` lie within 0.02 of the attractor's: a square, not a disc. */
  predicate InBox(p: Point, a: Attractor) {
    Abs(p.x - a.x) < NearBox && Abs(p.y - a.y) < NearBox
  }

  /** The first attractor, in list order, whose box contains `p`. */
  function FirstInBox(attractors: seq<Attractor>, p: Point): (r: Option<nat>)
    ensures r.Some? ==> r.value < |attractors| && InBox(p, attractors[r.value])
    ensures r.Some? ==> forall j :: 0 <= j < r.value ==> !InBox(p, attractors[j])
    ensures r.None? <==> forall j :: 0 <= j < |attractors| ==> !InBox(p, attractors[j])
    decreases |attractors|
  {
    if |attractors| == 0 then None
    else if InBox(p, attractors[0]) then Some(0)
    else match FirstInBox(attractors[1..], p)
      case None => None
      case Some(k) => Some(k + 1)
  }

  /** The exit test after a step: farther than 2000 from the origin, or slower than 0.0001. */
  predicate Leaves(s: Particle, dist: Metric) {
    dist(s.pos, Origin) > MaxDistance || dist(s.vel, Origin) < MinSpeed
  }

  /** The steps from `t` on, starting from `s`. */
  function Integrate(attractors: seq<Attractor>, s: Particle, t: nat, force: ForceLaw, dist: Metric): (r: Exit)
    ensures !r.Captured?
    ensures r.Near? ==> r.index < |attractors| && r.at == Position(attractors[r.index]) && t <= r.step < Steps
    ensures r.Left? ==> t <= r.step < Steps
    decreases Steps - t
  {
    if t >= Steps then Stable(s.pos)
    else match FirstInBox(attractors, s.pos)
      case Some(k) => Near(k, t, Position(attractors[k]))
      case None =>
        var next := Step(attractors, s, force, StepSize, Dampening);
        if Leaves(next, dist) then Left(t, next.pos)
        else Integrate(attractors, next, t + 1, force, dist)
  }

  /** A whole run from `start`, at rest. */
  function Run(attractors: seq<Attractor>, start: Point, force: ForceLaw, dist: Metric): (r: Exit)
    ensures r.Captured? <==> exists j :: 0 <= j < |attractors| && dist(start, Position(attractors[j])) < CaptureRadius
    ensures r.Captured? ==>
      && r.index < |attractors|
      && r.at == Position(attractors[r.index])
      && dist(start, Position(attractors[r.index])) < CaptureRadius
      && forall j :: 0 <= j < r.index ==> !(dist(start, Position(attractors[j])) < CaptureRadius)
    ensures r.Near? ==> r.index < |attractors| && r.at == Position(attractors[r.index]) && r.step < Steps
    ensures r.Left? ==> r.step < Steps
  {
    match FirstWithin(attractors, start, dist, CaptureRadius)
    case Some(k) => Captured(k, Position(attractors[k]))
    case None => Integrate(attractors, Particle(start, Origin), 0, force, dist)
  }

  /** Step `s` ends neither in a box capture nor in the far-or-slow exit. */
  ghost predicate Quiet(attractors: seq<Attractor>, s: Particle, force: ForceLaw, dist: Metric) {
    && FirstInBox(attractors, s.pos).None?
    && !Leaves(Step(attractors, s, force, StepSize, Dampening), dist)
  }

  /** The first `m` steps from `s` are all quiet. */
  ghost predicate QuietFor(attractors: seq<Attractor>, s: Particle, m: nat, force: ForceLaw, dist: Metric) {
    forall n :: 0 <= n < m ==>
      Quiet(attractors, Trajectory(attractors, s, n, force, StepSize, Dampening), force, dist)
  }

  lemma QuietForShift(attractors: seq<Attractor>, s: Particle, m: nat, force: ForceLaw, dist: Metric)
    ensures QuietFor(attractors, s, m + 1, force, dist) <==>
      && Quiet(attractors, s, force, dist)
      && QuietFor(attractors, Step(attractors, s, force, StepSize, Dampening), m, force, dist)
  {
    var next := Step(attractors, s, force, StepSize, Dampening);
    assert Trajectory(attractors, s, 0, force, StepSize, Dampening) == s;
    if QuietFor(attractors, s, m + 1, force, dist) {
      forall n | 0 <= n < m
        ensures Quiet(attractors, Trajectory(attractors, next, n, force, StepSize, Dampening), force, dist)
      {
        assert Trajectory(attractors, s, n + 1, force, StepSize, Dampening)
            == Trajectory(attractors, next, n, force, StepSize, Dampening);
        assert Quiet(attractors, Trajectory(attractors, s, n + 1, force, StepSize, Dampening), force, dist);
      }
    }
    if Quiet(attractors, s, force, dist) && QuietFor(attractors, next, m, force, dist) {
      forall n | 0 <= n < m + 1
        ensures Quiet(attractors, Trajectory(attractors, s, n, force, StepSize, Dampening), force, dist)
      {
        if n > 0 {
          assert Trajectory(attractors, s, n, force, StepSize, Dampening)
              == Trajectory(attractors, next, n - 1, force, StepSize, Dampening);
          assert Quiet(attractors, Trajectory(attractors, next, n - 1, force, StepSize, Dampening), force, dist);
        }
      }
    }
  }

  /** A quiet step hands the run on to the next step; any other step ends it early. */
  lemma IntegrateStep(attractors: seq<Attractor>, s: Particle, t: nat, force: ForceLaw, dist: Metric)
    requires t < Steps
    ensures Quiet(attractors, s, force, dist) ==>
      Integrate(attractors, s, t, force, dist) == Integrate(attractors, Step(attractors, s, force, StepSize, Dampening), t + 1, force, dist)
    ensures !Quiet(attractors, s, force, dist) ==> !Integrate(attractors, s, t, force, dist).Stable?
  {
  }

  /** The remaining steps all complete exactly when each of them is quiet. */
  lemma {:induction false} IntegrateStable(attractors: seq<Attractor>, s: Particle, t: nat, force: ForceLaw, dist: Metric)
    requires t <= Steps
    ensures Integrate(attractors, s, t, force, dist).Stable? <==> QuietFor(attractors, s, Steps - t, force, dist)
    ensures Integrate(attractors, s, t, force, dist).Stable? ==>
      Integrate(attractors, s, t, force, dist).at == Trajectory(attractors, s, Steps - t, force, StepSize, Dampening).pos
    decreases Steps - t
  {
    if t < Steps {
      var next := Step(attractors, s, force, StepSize, Dampening);
      QuietForShift(attractors, s, Steps - t - 1, force, dist);
      IntegrateStep(attractors, s, t, force, dist);
      if Quiet(attractors, s, force, dist) {
        IntegrateStable(attractors, next, t + 1, force, dist);
      }
    }
  }

  /**
    `simulate` flags its result stable exactly when the start is not captured
    and all 1000 steps pass without a box capture or the far-or-slow exit; the
    point is then the one reached after step 1000. Every early return, the
    far-or-slow one included, leaves the flag off.
  */
  lemma StableMeansAllStepsRan(attractors: seq<Attractor>, start: Point, force: ForceLaw, dist: Metric)
    ensures ToOutcome(Run(attractors, start, force, dist)).stable <==>
      && FirstWithin(attractors, start, dist, CaptureRadius).None?
      && QuietFor(attractors, Particle(start, Origin), Steps, force, dist)
    ensures ToOutcome(Run(attractors, start, force, dist)).stable ==>
      Run(attractors, start, force, dist).at ==
        Trajectory(attractors, Particle(start, Origin), Steps, force, StepSize, Dampening).pos
  {
    IntegrateStable(attractors, Particle(start, Origin), 0, force, dist);
  }

  /**
    The run from `s`, taken to be the state at step `t`, ended early as `r`
    says, at step `r.step`: the `r.step - t` steps before it are quiet, and at
    the position then reached either the first box containing it is attractor
    `r.index`'s, or no box contains it and the state after that step is far or
    slow, its position being the point returned.
  */
  ghost predicate DecidedAt(attractors: seq<Attractor>, s: Particle, t: nat, r: Exit, force: ForceLaw, dist: Metric) {
    && (r.Near? || r.Left?)
    && t <= r.step
    && var p := Trajectory(attractors, s, r.step - t, force, StepSize, Dampening);
    && QuietFor(attractors, s, r.step - t, force, dist)
    && (r.Near? ==> FirstInBox(attractors, p.pos) == Some(r.index))
    && (r.Left? ==>
          && FirstInBox(attractors, p.pos).None?
          && Leaves(Step(attractors, p, force, StepSize, Dampening), dist)
          && r.at == Step(attractors, p, force, StepSize, Dampening).pos)
  }

  /** A quiet step in front of a run decided from step `t + 1` gives one decided from step `t`. */
  lemma DecidedAtShift(attractors: seq<Attractor>, s: Particle, t: nat, r: Exit, force: ForceLaw, dist: Metric)
    requires Quiet(attractors, s, force, dist)
    requires DecidedAt(attractors, Step(attractors, s, force, StepSize, Dampening), t + 1, r, force, dist)
    ensures DecidedAt(attractors, s, t, r, force, dist)
  {
    var n := r.step - t - 1;
    QuietForShift(attractors, s, n, force, dist);
    assert Trajectory(attractors, s, n + 1, force, StepSize, Dampening)
        == Trajectory(attractors, Step(attractors, s, force, StepSize, Dampening), n, force, StepSize, Dampening);
  }

  /**
    Every early end of the step loop from step `t` on, a box capture or the far-or-slow exit, is decided as
    `DecidedAt` says.
  */
  lemma {:induction false} IntegrateEarly(attractors: seq<Attractor>, s: Particle, t: nat, force: ForceLaw, dist: Metric, r: Exit)
    requires t <= Steps
    requires r == Integrate(attractors, s, t, force, dist)
    ensures (r.Near? || r.Left?) ==> DecidedAt(attractors, s, t, r, force, dist)
    decreases Steps - t
  {
    if t < Steps {
      IntegrateStep(attractors, s, t, force, dist);
      if Quiet(attractors, s, force, dist) {
        var next := Step(attractors, s, force, StepSize, Dampening);
        IntegrateEarly(attractors, next, t + 1, force, dist, r);
        if r.Near? || r.Left? {
          DecidedAtShift(attractors, s, t, r, force, dist);
        }
      } else if r.Near? || r.Left? {
        assert r.step == t;
        assert Trajectory(attractors, s, 0, force, StepSize, Dampening) == s;
      }
    }
  }

  /**
    The same for a whole run: a box capture or the far-or-slow exit at step `n` follows a start that was not
    captured by the pre-check and `n` quiet steps from rest at the start.
  */
  lemma RunEarly(attractors: seq<Attractor>, start: Point, force: ForceLaw, dist: Metric, r: Exit)
    requires r == Run(attractors, start, force, dist)
    ensures (r.Near? || r.Left?) ==>
        && FirstWithin(attractors, start, dist, CaptureRadius).None?
        && DecidedAt(attractors, Particle(start, Origin), 0, r, force, dist)
  {
    if r.Near? || r.Left? {
      RunIntegrates(attractors, start, force, dist, r);
      IntegrateEarly(attractors, Particle(start, Origin), 0, force, dist, r);
    }
  }

  /** A run that is not captured by the pre-check is the step loop from rest at the start. */
  lemma RunIntegrates(attractors: seq<Attractor>, start: Point, force: ForceLaw, dist: Metric, r: Exit)
    requires r == Run(attractors, start, force, dist) && !r.Captured?
    ensures FirstWithin(attractors, start, dist, CaptureRadius).None?
    ensures r == Integrate(attractors, Particle(start, Origin), 0, force, dist)
  {
  }

  /**
    The box test is not the disc of the same radius: a point 0.019 off in both
    coordinates is inside the box although its Euclidean distance exceeds 0.02.
  */
  lemma BoxIsNotDisc()
    ensures InBox(Point(0.019, 0.019), Attractor(0.0, 0.0, 1.0))
    ensures 0.019 * 0.019 + 0.019 * 0.019 > NearBox * NearBox
  {
  }

  /** A step whose position is in the box of attractor `k`, and of none before it, ends there. */
  lemma IntegrateNear(attractors: seq<Attractor>, s: Particle, t: nat, k: nat, force: ForceLaw, dist: Metric)
    requires t < Steps && k < |attractors|
    requires InBox(s.pos, attractors[k])
    requires forall j :: 0 <= j < k ==> !InBox(s.pos, attractors[j])
    ensures Integrate(attractors, s, t, force, dist) == Near(k, t, Position(attractors[k]))
  {
  }

  /** A step whose position is in no box either leaves or goes on to the next step. */
  lemma IntegrateMoves(attractors: seq<Attractor>, s: Particle, t: nat, force: ForceLaw, dist: Metric)
    requires t < Steps
    requires forall j :: 0 <= j < |attractors| ==> !InBox(s.pos, attractors[j])
    ensures var next := Step(attractors, s, force, StepSize, Dampening);
      Integrate(attractors, s, t, force, dist) ==
        if Leaves(next, dist) then Left(t, next.pos)
        else Integrate(attractors, next, t + 1, force, dist)
  {
  }

  /** The inner loop of one step: each attractor adds its force, then its box is tested. */
  method Sweep(attractors: seq<Attractor>, pos: Point, vel0: Point, force: ForceLaw) returns (vel: Point, near: Option<nat>)
    ensures near == FirstInBox(attractors, pos)
    ensures near.None? ==> vel == Kick(attractors, |attractors|, pos, vel0, force, StepSize)
  {
    vel := vel0;
    for k := 0 to |attractors|
      invariant vel == Kick(attractors, k, pos, vel0, force, StepSize)
      invariant forall j :: 0 <= j < k ==> !InBox(pos, attractors[j])
    {
      vel := Accelerate(vel, force(attractors[k], pos), StepSize);
      if Abs(pos.x - attractors[k].x) < NearBox && Abs(pos.y - attractors[k].y) < NearBox {
        return vel, Some(k);
      }
    }
    near := None;
  }

  /**
    One pass of the step loop up to the exit test: the sweep, then dampening and
    the position update when no box captured the particle.
  */
  method Advance(attractors: seq<Attractor>, pos0: Point, vel0: Point, force: ForceLaw)
    returns (pos: Point, vel: Point, near: Option<nat>)
    ensures near == FirstInBox(attractors, pos0)
    ensures near.None? ==> Particle(pos, vel) == Step(attractors, Particle(pos0, vel0), force, StepSize, Dampening)
  {
    pos := pos0;
    vel, near := Sweep(attractors, pos0, vel0, force);
    if near.None? {
      vel := Dampen(vel, Dampening);
      pos := Move(pos, vel, StepSize);
    }
  }

  /**
    The step loop of `simulate` from rest at `start`: up to 1000 passes, each
    ending the run on a box capture or on the far-or-slow exit.
  */
  method StepLoop(attractors: seq<Attractor>, start: Point, force: ForceLaw, dist: Metric) returns (out: Outcome)
    ensures out == ToOutcome(Integrate(attractors, Particle(start, Origin), 0, force, dist))
  {
    ghost var goal := Integrate(attractors, Particle(start, Origin), 0, force, dist);
    var pos := start;
    var vel := Point(0.0, 0.0);
    for t := 0 to Steps
      invariant Integrate(attractors, Particle(pos, vel), t, force, dist) == goal
    {
      ghost var s := Particle(pos, vel);
      var near: Option<nat>;
      pos, vel, near := Advance(attractors, pos, vel, force);
      if near.Some? {
        IntegrateNear(attractors, s, t, near.value, force, dist);
        return Outcome(Position(attractors[near.value]), false);
      }
      IntegrateMoves(attractors, s, t, force, dist);
      if dist(pos, Origin) > MaxDistance || dist(vel, Origin) < MinSpeed {
        assert goal == Left(t, pos);
        return Outcome(pos, false);
      }
    }
    assert goal == Stable(pos);
    return Outcome(pos, true);
  }

  /** `simulate` of fractal.js; `x, y` and `vx, vy` are `pos` and `vel`. */
  method Simulate(attractors: seq<Attractor>, x: real, y: real, force: ForceLaw, dist: Metric) returns (out: Outcome)
    ensures out == ToOutcome(Run(attractors, Point(x, y), force, dist))
  {
    var pos := Point(x, y);
    for k := 0 to |attractors|
      invariant forall j :: 0 <= j < k ==> !(dist(pos, Position(attractors[j])) < CaptureRadius)
    {
      if dist(pos, Position(attractors[k])) < CaptureRadius {
        return Outcome(Position(attractors[k]), false);
      }
    }
    out := StepLoop(attractors, pos, force, dist);
  }

  /** JavaScript's `Infinity` seed and the finite distances that replace it. */
  datatype Extended = Infinity | Finite(value: real)

  function SquaredDistance(p: Point, a: Attractor): real {
    var dx := p.x - a.x;
    var dy := p.y - a.y;
    dx * dx + dy * dy
  }

  function SquaredDistances(attractors: seq<Attractor>, p: Point): seq<real> {
    seq(|attractors|, k requires 0 <= k < |attractors| => SquaredDistance(p, attractors[k]))
  }

  /** A squared distance is never negative, and it is zero at the attractor itself. */
  lemma SquaredDistanceZero(p: Point, a: Attractor)
    ensures SquaredDistance(p, a) >= 0.0
    ensures p == Position(a) ==> SquaredDistance(p, a) == 0.0
  {
    SquarePositive(p.x - a.x);
    SquarePositive(p.y - a.y);
  }

  lemma SquarePositive(r: real)
    ensures r * r >= 0.0
  {
  }

  /**
    A run that returns an attractor's exact position (either capture) is
    classified as that attractor, provided every earlier attractor is at a
    positive squared distance from it: its own squared distance 0 is then the
    strict minimum so far.
  */
  lemma AtAttractorNearest(attractors: seq<Attractor>, k: nat)
    requires k < |attractors|
    requires forall j :: 0 <= j < k ==> SquaredDistance(Position(attractors[k]), attractors[j]) > 0.0
    ensures IsArgMin(SquaredDistances(attractors, Position(attractors[k])), k)
  {
    var p := Position(attractors[k]);
    var ds := SquaredDistances(attractors, p);
    SquaredDistanceZero(p, attractors[k]);
    forall j | 0 <= j < |attractors|
      ensures ds[k] <= ds[j] && (j < k ==> ds[k] < ds[j])
    {
      SquaredDistanceZero(p, attractors[j]);
    }
  }

  /**
    The box contains the disc of the same radius: a point whose squared distance
    is below 0.02 * 0.02 passes the box test (`BoxIsNotDisc` shows the converse fails).
  */
  lemma DiscInsideBox(p: Point, a: Attractor)
    ensures SquaredDistance(p, a) < NearBox * NearBox ==> InBox(p, a)
  {
    var dx := p.x - a.x;
    var dy := p.y - a.y;
    SquarePositive(dx);
    SquarePositive(dy);
    SquareGrows(dx, NearBox);
    SquareGrows(dy, NearBox);
  }

  lemma SquareGrows(r: real, b: real)
    requires b >= 0.0
    ensures Abs(r) >= b ==> r * r >= b * b
  {
    var m := Abs(r);
    assert r * r == m * m;
    if m >= b {
      assert m * m >= b * m;
      assert b * m >= b * b;
    }
  }

  /** The nearest-attractor loop of the pixel loop, seeded with index 0 and `Infinity`. */
  method NearestAttractor(attractors: seq<Attractor>, p: Point) returns (index: nat, distance: Extended)
    ensures |attractors| == 0 ==> index == 0 && distance == Infinity
    ensures |attractors| > 0 ==>
      && IsArgMin(SquaredDistances(attractors, p), index)
      && distance == Finite(SquaredDistance(p, attractors[index]))
  {
    ghost var ds := SquaredDistances(attractors, p);
    index := 0;
    distance := Infinity;
    for k := 0 to |attractors|
      invariant k == 0 ==> index == 0 && distance == Infinity
      invariant k > 0 ==> IsArgMin(ds[..k], index) && distance == Finite(ds[index])
    {
      var d := SquaredDistance(p, attractors[k]);
      assert ds[..k + 1][..k] == ds[..k];
      assert ds[..k + 1][k] == d;
      if distance.Infinity? || d < distance.value {
        distance := Finite(d);
        index := k;
      }
    }
    assert ds[..|attractors|] == ds;
  }

  /** Every entry of `ds` exceeds 2000, vacuously so when `ds` is empty. */
  ghost predicate AllFar(ds: seq<real>) {
    forall k :: 0 <= k < |ds| ==> ds[k] > FarSquared
  }

  /** The minimum exceeds 2000 exactly when every entry does. */
  lemma MinimumFar(ds: seq<real>, k: nat)
    requires IsArgMin(ds, k)
    ensures ds[k] > FarSquared <==> AllFar(ds)
  {
  }

  /**
    The class of a pixel from its `simulate` outcome: 5 when even the nearest
    attractor is farther than 2000 in squared distance (also when there is no
    attractor); otherwise 4 for a stable outcome and the nearest attractor for
    any other.
  */
  ghost predicate IsClass(attractors: seq<Attractor>, out: Outcome, index: nat) {
    var ds := SquaredDistances(attractors, out.at);
    && (AllFar(ds) ==> index == 5)
    && (!AllFar(ds) && out.stable ==> index == 4)
    && (!AllFar(ds) && !out.stable ==> IsArgMin(ds, index))
  }

  /** The rule names one class per outcome. */
  lemma ClassUnique(attractors: seq<Attractor>, out: Outcome, i1: nat, i2: nat)
    requires IsClass(attractors, out, i1) && IsClass(attractors, out, i2)
    ensures i1 == i2
  {
    var ds := SquaredDistances(attractors, out.at);
    if !AllFar(ds) && !out.stable {
      ArgMinUnique(ds, i1, i2);
    }
  }

  /**
    The nearest-attractor loop followed by the two overrides, the far one last;
    the class indexes the colour table whenever there are no more attractors
    than colours.
  */
  method Classify(attractors: seq<Attractor>, out: Outcome) returns (index: nat)
    ensures IsClass(attractors, out, index)
    ensures |attractors| <= |Colours| ==> index < |Colours|
  {
    ghost var ds := SquaredDistances(attractors, out.at);
    var distance;
    index, distance := NearestAttractor(attractors, out.at);
    var far := distance.Infinity? || distance.value > FarSquared;
    if |attractors| > 0 {
      MinimumFar(ds, index);
      assert far <==> AllFar(ds);
    } else {
      assert far && AllFar(ds);
    }
    if out.stable {
      index := 4;
    }
    if far {
      index := 5;
    }
  }

  /** The colour name for a class; an index past the table is JavaScript's `undefined`. */
  function ColourName(index: nat): (c: Option<string>)
    ensures c.Some? <==> index < |Colours|
  {
    if index < |Colours| then Some(Colours[index]) else None
  }

  /**
    The body of the pixel loop of fractal.js: simulate from the pixel's start
    point, classify, look the colour up. With the four attractors of the source
    (or fewer) every class is at most 5 and has a colour.
  */
  method ShadePixel(attractors: seq<Attractor>, x: real, y: real, force: ForceLaw, dist: Metric)
    returns (index: nat, colour: Option<string>)
    ensures IsClass(attractors, ToOutcome(Run(attractors, Point(x, y), force, dist)), index)
    ensures colour == ColourName(index)
    ensures |attractors| <= |ListedAttractors| ==> index <= 5 && colour.Some?
  {
    var out := Simulate(attractors, x, y, force, dist);
    index := Classify(attractors, out);
    colour := if index < |Colours| then Some(Colours[index]) else None;
  }
}
