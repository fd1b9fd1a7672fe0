/**
  The early-exit structure of `simulate` in src/main.rs: a capture pre-check at
  the start point, then at most 3000 fixed-size steps, each of which applies
  every attractor's force to the velocity in list order (checking after each
  one whether the particle sits within 0.02 of that attractor), dampens the
  velocity, moves the particle and stops once it is farther than 1500 from the
  origin.

  The force law and the distance are parameters (`ForceLaw`, `Metric`); the
  velocity and position updates are the source's own additions and products.
*/
module Integrator {
  import opened Field

  const Steps: nat := 3000
  const StepSize: real := 0.01
  const Dampening: real := 1.0
  const CaptureRadius: real := 0.1
  const NearRadius: real := 0.02
  const EscapeRadius: real := 1500.0

  /**
    Which rule ended a run, and the point it returned: a capture by the
    pre-check, a capture during step `step`, an escape during step `step`, or
    the step budget running out.
  */
  datatype Exit =
    | Captured(index: nat, at: Point)
    | Near(index: nat, step: nat, at: Point)
    | Escaped(step: nat, at: Point)
    | Exhausted(at: Point)

  /** The steps from `t` on, starting from `s`. */
  function Integrate(attractors: seq<Attractor>, s: Particle, t: nat, force: ForceLaw, dist: Metric): (r: Exit)
    ensures !r.Captured?
    ensures r.Near? ==> r.index < |attractors| && r.at == Position(attractors[r.index]) && t <= r.step < Steps
    ensures r.Escaped? ==> t <= r.step < Steps && dist(r.at, Origin) > EscapeRadius
    decreases Steps - t
  {
    if t >= Steps then Exhausted(s.pos)
    else match FirstWithin(attractors, s.pos, dist, NearRadius)
      case Some(k) => Near(k, t, Position(attractors[k]))
      case None =>
        var next := Step(attractors, s, force, StepSize, Dampening);
        if dist(next.pos, Origin) > EscapeRadius then Escaped(t, next.pos)
        else Integrate(attractors, next, t + 1, force, dist)
  }

  /** Whether a whole run from `start` (at rest) is captured by the pre-check or integrated. */
  function Run(attractors: seq<Attractor>, start: Point, force: ForceLaw, dist: Metric): (r: Exit)
    ensures r.Captured? <==> exists j :: 0 <= j < |attractors| && dist(start, Position(attractors[j])) < CaptureRadius
    ensures r.Captured? ==>
      && r.index < |attractors|
      && r.at == Position(attractors[r.index])
      && dist(start, Position(attractors[r.index])) < CaptureRadius
      && forall j :: 0 <= j < r.index ==> !(dist(start, Position(attractors[j])) < CaptureRadius)
    ensures r.Near? ==> r.index < |attractors| && r.at == Position(attractors[r.index]) && r.step < Steps
    ensures r.Escaped? ==> r.step < Steps && dist(r.at, Origin) > EscapeRadius
  {
    match FirstWithin(attractors, start, dist, CaptureRadius)
    case Some(k) => Captured(k, Position(attractors[k]))
    case None => Integrate(attractors, Particle(start, Origin), 0, force, dist)
  }

  /** Step `s` neither ends in a capture nor in an escape. */
  ghost predicate Quiet(attractors: seq<Attractor>, s: Particle, force: ForceLaw, dist: Metric) {
    && FirstWithin(attractors, s.pos, dist, NearRadius).None?
    && !(dist(Step(attractors, s, force, StepSize, Dampening).pos, Origin) > EscapeRadius)
  }

  /** The first `m` steps from `s` are all quiet. */
  ghost predicate QuietFor(attractors: seq<Attractor>, s: Particle, m: nat, force: ForceLaw, dist: Metric) {
    forall n :: 0 <= n < m ==> Quiet(attractors, Trajectory(attractors, s, n, force, StepSize, Dampening), force, dist)
  }

  lemma QuietForShift(attractors: seq<Attractor>, s: Particle, m: nat, force: ForceLaw, dist: Metric)
    ensures QuietFor(attractors, s, m + 1, force, dist) <==>
      Quiet(attractors, s, force, dist) && QuietFor(attractors, Step(attractors, s, force, StepSize, Dampening), m, force, dist)
  {
    var next := Step(attractors, s, force, StepSize, Dampening);
    assert Trajectory(attractors, s, 0, force, StepSize, Dampening) == s;
    forall n | 0 <= n < m
      ensures Trajectory(attractors, s, n + 1, force, StepSize, Dampening) == Trajectory(attractors, next, n, force, StepSize, Dampening)
    {
    }
    if QuietFor(attractors, s, m + 1, force, dist) {
      forall n | 0 <= n < m
        ensures Quiet(attractors, Trajectory(attractors, next, n, force, StepSize, Dampening), force, dist)
      {
        assert Quiet(attractors, Trajectory(attractors, s, n + 1, force, StepSize, Dampening), force, dist);
      }
    }
    if Quiet(attractors, s, force, dist) && QuietFor(attractors, next, m, force, dist) {
      forall n | 0 <= n < m + 1
        ensures Quiet(attractors, Trajectory(attractors, s, n, force, StepSize, Dampening), force, dist)
      {
        if n > 0 {
          assert Trajectory(attractors, s, n, force, StepSize, Dampening) == Trajectory(attractors, next, n - 1, force, StepSize, Dampening);
          assert Quiet(attractors, Trajectory(attractors, next, n - 1, force, StepSize, Dampening), force, dist);
        }
      }
    }
  }

  /** A quiet step hands the run on to the next step; any other step ends it early. */
  lemma IntegrateStep(attractors: seq<Attractor>, s: Particle, t: nat, force: ForceLaw, dist: Metric)
    requires t < Steps
    ensures Quiet(attractors, s, force, dist) ==>
      Integrate(attractors, s, t, force, dist) == Integrate(attractors, Step(attractors, s, force, StepSize, Dampening), t + 1, force, dist)
    ensures !Quiet(attractors, s, force, dist) ==> !Integrate(attractors, s, t, force, dist).Exhausted?
  {
  }

  /**
    The remaining steps run out exactly when every one of them is quiet, and
    then the point returned is the one reached after the last step.
  */
  lemma {:induction false} IntegrateExhausted(attractors: seq<Attractor>, s: Particle, t: nat, force: ForceLaw, dist: Metric)
    requires t <= Steps
    ensures Integrate(attractors, s, t, force, dist).Exhausted? <==> QuietFor(attractors, s, Steps - t, force, dist)
    ensures Integrate(attractors, s, t, force, dist).Exhausted? ==>
      Integrate(attractors, s, t, force, dist).at == Trajectory(attractors, s, Steps - t, force, StepSize, Dampening).pos
    decreases Steps - t
  {
    if t < Steps {
      var next := Step(attractors, s, force, StepSize, Dampening);
      QuietForShift(attractors, s, Steps - t - 1, force, dist);
      IntegrateStep(attractors, s, t, force, dist);
      if Quiet(attractors, s, force, dist) {
        IntegrateExhausted(attractors, next, t + 1, force, dist);
      }
    }
  }

  /**
    A run ends with the budget exhausted exactly when the start is not captured
    and none of the 3000 steps comes within 0.02 of an attractor or leaves the
    radius 1500; it then returns the position reached after step 3000.
  */
  lemma RunExhausted(attractors: seq<Attractor>, start: Point, force: ForceLaw, dist: Metric)
    ensures Run(attractors, start, force, dist).Exhausted? <==>
      && FirstWithin(attractors, start, dist, CaptureRadius).None?
      && QuietFor(attractors, Particle(start, Origin), Steps, force, dist)
    ensures Run(attractors, start, force, dist).Exhausted? ==>
      Run(attractors, start, force, dist).at == Trajectory(attractors, Particle(start, Origin), Steps, force, StepSize, Dampening).pos
  {
    IntegrateExhausted(attractors, Particle(start, Origin), 0, force, dist);
  }

  /**
    The run from `s`, taken to be the state at step `t`, ended early as `r`
    says, at step `r.step`: the `r.step - t` steps before it are quiet, and at
    the position then reached either the first attractor within 0.02 is
    `r.index`, or none is and the position after that step, farther than 1500
    from the origin, is the point returned.
  */
  ghost predicate DecidedAt(attractors: seq<Attractor>, s: Particle, t: nat, r: Exit, force: ForceLaw, dist: Metric) {
    && (r.Near? || r.Escaped?)
    && t <= r.step
    && var p := Trajectory(attractors, s, r.step - t, force, StepSize, Dampening);
    && QuietFor(attractors, s, r.step - t, force, dist)
    && (r.Near? ==> FirstWithin(attractors, p.pos, dist, NearRadius) == Some(r.index))
    && (r.Escaped? ==>
          && FirstWithin(attractors, p.pos, dist, NearRadius).None?
          && r.at == Step(attractors, p, force, StepSize, Dampening).pos
          && dist(r.at, Origin) > EscapeRadius)
  }

  /** A quiet step in front of a run decided from step `t + 1` gives one decided from step `t`. */
  lemma DecidedAtShift(attractors: seq<Attractor>, s: Particle, t: nat, r: Exit, force: ForceLaw, dist: Metric)
    requires Quiet(attractors, s, force, dist)
    requires DecidedAt(attractors, Step(attractors, s, force, StepSize, Dampening), t + 1, r, force, dist)
    ensures DecidedAt(attractors, s, t, r, force, dist)
  {
    var n := r.step - t - 1;
    QuietForShift(attractors, s, n, force, dist);
    assert Trajectory(attractors, s, n + 1, force, StepSize, Dampening)
        == Trajectory(attractors, Step(attractors, s, force, StepSize, Dampening), n, force, StepSize, Dampening);
  }

  /**
    Every early end of the step loop from step `t` on, an in-loop capture or an escape, is decided as
    `DecidedAt` says.
  */
  lemma {:induction false} IntegrateEarly(attractors: seq<Attractor>, s: Particle, t: nat, force: ForceLaw, dist: Metric, r: Exit)
    requires t <= Steps
    requires r == Integrate(attractors, s, t, force, dist)
    ensures (r.Near? || r.Escaped?) ==> DecidedAt(attractors, s, t, r, force, dist)
    decreases Steps - t
  {
    if t < Steps {
      IntegrateStep(attractors, s, t, force, dist);
      if Quiet(attractors, s, force, dist) {
        var next := Step(attractors, s, force, StepSize, Dampening);
        IntegrateEarly(attractors, next, t + 1, force, dist, r);
        if r.Near? || r.Escaped? {
          DecidedAtShift(attractors, s, t, r, force, dist);
        }
      } else if r.Near? || r.Escaped? {
        assert r.step == t;
        assert Trajectory(attractors, s, 0, force, StepSize, Dampening) == s;
      }
    }
  }

  /**
    The same for a whole run: an in-loop capture or an escape at step `n` follows a start that was not
    captured by the pre-check and `n` quiet steps from rest at the start.
  */
  lemma RunEarly(attractors: seq<Attractor>, start: Point, force: ForceLaw, dist: Metric, r: Exit)
    requires r == Run(attractors, start, force, dist)
    ensures (r.Near? || r.Escaped?) ==>
        && FirstWithin(attractors, start, dist, CaptureRadius).None?
        && DecidedAt(attractors, Particle(start, Origin), 0, r, force, dist)
  {
    if r.Near? || r.Escaped? {
      RunIntegrates(attractors, start, force, dist, r);
      IntegrateEarly(attractors, Particle(start, Origin), 0, force, dist, r);
    }
  }

  /** A run that is not captured by the pre-check is the step loop from rest at the start. */
  lemma RunIntegrates(attractors: seq<Attractor>, start: Point, force: ForceLaw, dist: Metric, r: Exit)
    requires r == Run(attractors, start, force, dist) && !r.Captured?
    ensures FirstWithin(attractors, start, dist, CaptureRadius).None?
    ensures r == Integrate(attractors, Particle(start, Origin), 0, force, dist)
  {
  }

  /**
    The pre-check takes the first attractor in list order within 0.1, even when
    a later one is nearer to the start.
  */
  lemma CaptureIsFirstNotNearest(attractors: seq<Attractor>, start: Point, force: ForceLaw, dist: Metric)
    requires |attractors| >= 2
    requires dist(start, Position(attractors[0])) < CaptureRadius
    requires dist(start, Position(attractors[1])) < dist(start, Position(attractors[0]))
    ensures Run(attractors, start, force, dist) == Captured(0, Position(attractors[0]))
  {
  }

  /** A step whose position lies within 0.02 of attractor `k`, and of none before it, ends there. */
  lemma IntegrateNear(attractors: seq<Attractor>, s: Particle, t: nat, k: nat, force: ForceLaw, dist: Metric)
    requires t < Steps && k < |attractors|
    requires dist(s.pos, Position(attractors[k])) < NearRadius
    requires forall j :: 0 <= j < k ==> !(dist(s.pos, Position(attractors[j])) < NearRadius)
    ensures Integrate(attractors, s, t, force, dist) == Near(k, t, Position(attractors[k]))
  {
  }

  /** A step whose position is near no attractor either escapes or goes on to the next step. */
  lemma IntegrateMoves(attractors: seq<Attractor>, s: Particle, t: nat, force: ForceLaw, dist: Metric)
    requires t < Steps
    requires forall j :: 0 <= j < |attractors| ==> !(dist(s.pos, Position(attractors[j])) < NearRadius)
    ensures var next := Step(attractors, s, force, StepSize, Dampening);
      Integrate(attractors, s, t, force, dist) ==
        if dist(next.pos, Origin) > EscapeRadius then Escaped(t, next.pos)
        else Integrate(attractors, next, t + 1, force, dist)
  {
  }

  /**
    The inner loop of one step of `simulate`: each attractor in turn adds its
    force to the velocity, then the particle is checked against that attractor.
    `near` is the attractor that stopped the sweep, if any.
  */
  method Sweep(attractors: seq<Attractor>, pos: Point, vel0: Point, force: ForceLaw, dist: Metric)
    returns (vel: Point, near: Option<nat>)
    ensures near == FirstWithin(attractors, pos, dist, NearRadius)
    ensures near.None? ==> vel == Kick(attractors, |attractors|, pos, vel0, force, StepSize)
  {
    vel := vel0;
    for k := 0 to |attractors|
      invariant vel == Kick(attractors, k, pos, vel0, force, StepSize)
      invariant forall j :: 0 <= j < k ==> !(dist(pos, Position(attractors[j])) < NearRadius)
    {
      vel := Accelerate(vel, force(attractors[k], pos), StepSize);
      if dist(pos, Position(attractors[k])) < NearRadius {
        return vel, Some(k);
      }
    }
    near := None;
  }

  /**
    One pass of the step loop up to the escape test: the sweep, then dampening
    and the position update when no attractor stopped it.
  */
  method Advance(attractors: seq<Attractor>, pos0: Point, vel0: Point, force: ForceLaw, dist: Metric)
    returns (pos: Point, vel: Point, near: Option<nat>)
    ensures near == FirstWithin(attractors, pos0, dist, NearRadius)
    ensures near.None? ==> Particle(pos, vel) == Step(attractors, Particle(pos0, vel0), force, StepSize, Dampening)
  {
    pos := pos0;
    vel, near := Sweep(attractors, pos0, vel0, force, dist);
    if near.None? {
      vel := Dampen(vel, Dampening);
      pos := Move(pos, vel, StepSize);
    }
  }

  /**
    The step loop of `simulate` from rest at `start`: up to 3000 passes, each
    ending the run on an in-loop capture or an escape.
  */
  method StepLoop(attractors: seq<Attractor>, start: Point, force: ForceLaw, dist: Metric) returns (r: Point)
    ensures r == Integrate(attractors, Particle(start, Origin), 0, force, dist).at
  {
    ghost var goal := Integrate(attractors, Particle(start, Origin), 0, force, dist);
    var pos := start;
    var vel := Point(0.0, 0.0);
    for t := 0 to Steps
      invariant Integrate(attractors, Particle(pos, vel), t, force, dist) == goal
    {
      ghost var s := Particle(pos, vel);
      var near: Option<nat>;
      pos, vel, near := Advance(attractors, pos, vel, force, dist);
      if near.Some? {
        IntegrateNear(attractors, s, t, near.value, force, dist);
        return Position(attractors[near.value]);
      }
      IntegrateMoves(attractors, s, t, force, dist);
      if dist(pos, Origin) > EscapeRadius {
        assert goal == Escaped(t, pos);
        return pos;
      }
    }
    assert goal == Exhausted(pos);
    return pos;
  }

  /**
    `simulate` of src/main.rs: the pre-check loop, then the step loop with its
    inner sweep. The pairs `x, y` and `vx, vy` of the source are `pos` and `vel`.
  */
  method Simulate(attractors: seq<Attractor>, x: real, y: real, force: ForceLaw, dist: Metric) returns (r: Point)
    ensures r == Run(attractors, Point(x, y), force, dist).at
  {
    var pos := Point(x, y);
    for k := 0 to |attractors|
      invariant forall j :: 0 <= j < k ==> !(dist(pos, Position(attractors[j])) < CaptureRadius)
    {
      if dist(pos, Position(attractors[k])) < CaptureRadius {
        return Position(attractors[k]);
      }
    }
    r := StepLoop(attractors, pos, force, dist);
  }
}
