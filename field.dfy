/**
  The values both renderers share: attractors and points in simulation space,
  the abstract force law and distance, and the two search rules (first attractor
  within a radius; lowest index of the minimum) that the simulator and the
  classifier are built from.

  Floating-point numbers are modelled as reals. Euclidean distance needs a
  square root, so it is not computed: a `Metric` is a parameter standing for it,
  and every place that takes a distance passes its arguments in the order the
  source computes the difference (`x - a.x` is `dist(p, Position(a))`,
  `a.x - x` is `dist(Position(a), p)`).
*/
module Field {

  datatype Option<T> = None | Some(value: T)

  /** A position or a velocity in simulation space. */
  datatype Point = Point(x: real, y: real)

  /** A fixed point mass; its place in the attractor list is its class index. */
  datatype Attractor = Attractor(x: real, y: real, mass: real)

  const Origin: Point := Point(0.0, 0.0)

  function Position(a: Attractor): Point {
    Point(a.x, a.y)
  }

  /** Euclidean distance between two points, left uninterpreted. */
  type Metric = (Point, Point) -> real

  /** The force one attractor exerts on a particle at a point, left uninterpreted. */
  type ForceLaw = (Attractor, Point) -> Point

  function Abs(r: real): real {
    if r < 0.0 then -r else r
  }

  /**
    The first attractor, in list order, lying strictly closer than `radius` to `p`:
    the loop "for attractor in attractors: if dist < radius return" of both
    simulators. It is the first one found, not the nearest one.
  */
  function FirstWithin(attractors: seq<Attractor>, p: Point, dist: Metric, radius: real): (r: Option<nat>)
    ensures r.Some? ==> r.value < |attractors| && dist(p, Position(attractors[r.value])) < radius
    ensures r.Some? ==> forall j :: 0 <= j < r.value ==> !(dist(p, Position(attractors[j])) < radius)
    ensures r.None? <==> forall j :: 0 <= j < |attractors| ==> !(dist(p, Position(attractors[j])) < radius)
    decreases |attractors|
  {
    if |attractors| == 0 then None
    else if dist(p, Position(attractors[0])) < radius then Some(0)
    else match FirstWithin(attractors[1..], p, dist, radius)
      case None => None
      case Some(k) => Some(k + 1)
  }

  /** `v += f * h`, component by component. */
  function Accelerate(v: Point, f: Point, h: real): Point {
    Point(v.x + f.x * h, v.y + f.y * h)
  }

  /** `v *= d`, component by component. */
  function Dampen(v: Point, d: real): Point {
    Point(v.x * d, v.y * d)
  }

  /** `p += v * h`, component by component. */
  function Move(p: Point, v: Point, h: real): Point {
    Point(p.x + v.x * h, p.y + v.y * h)
  }

  /**
    The velocity after the first `n` per-attractor updates of one step, applied
    in list order: `v += force(a, pos) * h` for each attractor `a`, all at the
    same position `pos`.
  */
  function Kick(attractors: seq<Attractor>, n: nat, pos: Point, v: Point, force: ForceLaw, h: real): Point
    requires n <= |attractors|
    decreases n
  {
    if n == 0 then v
    else Accelerate(Kick(attractors, n - 1, pos, v, force, h), force(attractors[n - 1], pos), h)
  }

  /** Position and velocity of the test particle. */
  datatype Particle = Particle(pos: Point, vel: Point)

  /**
    One full integration step with step size `h` and dampening factor `d`: all
    force contributions, dampening, then the position update.
  */
  function Step(attractors: seq<Attractor>, s: Particle, force: ForceLaw, h: real, d: real): Particle {
    var v := Dampen(Kick(attractors, |attractors|, s.pos, s.vel, force, h), d);
    Particle(Move(s.pos, v, h), v)
  }

  /** The particle after `n` steps with no exit check. */
  function Trajectory(attractors: seq<Attractor>, s: Particle, n: nat, force: ForceLaw, h: real, d: real): Particle
    decreases n
  {
    if n == 0 then s else Trajectory(attractors, Step(attractors, s, force, h, d), n - 1, force, h, d)
  }

  /** The sum of the forces of the first `n` attractors on a particle at `pos`. */
  function TotalForce(attractors: seq<Attractor>, n: nat, pos: Point, force: ForceLaw): Point
    requires n <= |attractors|
    decreases n
  {
    if n == 0 then Origin
    else
      var rest := TotalForce(attractors, n - 1, pos, force);
      var f := force(attractors[n - 1], pos);
      Point(rest.x + f.x, rest.y + f.y)
  }

  /**
    In exact arithmetic the per-attractor updates of one step add up to a
    single update by the total force: the velocity gains `h` times the sum.
  */
  lemma {:induction false} KickIsTotalForce(attractors: seq<Attractor>, n: nat, pos: Point, v: Point, force: ForceLaw, h: real)
    requires n <= |attractors|
    ensures Kick(attractors, n, pos, v, force, h) == Accelerate(v, TotalForce(attractors, n, pos, force), h)
    decreases n
  {
    if n > 0 {
      KickIsTotalForce(attractors, n - 1, pos, v, force, h);
      var rest := TotalForce(attractors, n - 1, pos, force);
      var f := force(attractors[n - 1], pos);
      assert (v.x + rest.x * h) + f.x * h == v.x + (rest.x + f.x) * h;
      assert (v.y + rest.y * h) + f.y * h == v.y + (rest.y + f.y) * h;
    }
  }

  /**
    One step is semi-implicit Euler: the new velocity is the old one plus `h`
    times the total force, scaled by `d`; the position then moves by `h` times
    the new velocity, not the old one.
  */
  lemma StepIsEuler(attractors: seq<Attractor>, s: Particle, force: ForceLaw, h: real, d: real)
    ensures var r := Step(attractors, s, force, h, d);
      && r.vel == Dampen(Accelerate(s.vel, TotalForce(attractors, |attractors|, s.pos, force), h), d)
      && r.pos == Move(s.pos, r.vel, h)
  {
    KickIsTotalForce(attractors, |attractors|, s.pos, s.vel, force, h);
  }

  /** `k` is the lowest index at which `ds` takes its minimum. */
  ghost predicate IsArgMin(ds: seq<real>, k: int) {
    && 0 <= k < |ds|
    && (forall j :: 0 <= j < |ds| ==> ds[k] <= ds[j])
    && (forall j :: 0 <= j < k ==> ds[k] < ds[j])
  }

  /** The lowest minimising index is unique, so a classifier is determined by it. */
  lemma ArgMinUnique(ds: seq<real>, k1: int, k2: int)
    requires IsArgMin(ds, k1) && IsArgMin(ds, k2)
    ensures k1 == k2
  {
    assert ds[k1] == ds[k2];
  }
}
