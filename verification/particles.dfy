/**
  Particles of the plexus background: points drifting inside a cube whose
  velocity components flip sign once a coordinate has left the cube.

  Positions and velocities are idealised as reals: the single-precision
  storage of the animation is not modelled.
 */
module Particles {

  /** A point or a displacement in space. */
  datatype Vec3 = Vec3(x: real, y: real, z: real)

  /** The three coordinate axes, so that per-axis facts are stated once. */
  datatype Axis = X | Y | Z

  function Coord(v: Vec3, a: Axis): real
  {
    match a
    case X => v.x
    case Y => v.y
    case Z => v.z
  }

  function Add(u: Vec3, v: Vec3): (w: Vec3)
    ensures forall a :: Coord(w, a) == Coord(u, a) + Coord(v, a)
  {
    Vec3(u.x + v.x, u.y + v.y, u.z + v.z)
  }

  function Abs(c: real): (r: real)
    ensures r >= 0.0 && (r == c || r == -c)
  {
    if c < 0.0 then -c else c
  }

  /** Edge length of the cube the particles are spawned in (`r`). */
  const Side: real := 450.0

  /** Half the edge length: the cube is [-Half, Half] on every axis. */
  const Half: real := Side / 2.0

  /** Largest velocity component the spawner hands out. */
  const MaxSpeed: real := 0.3

  /**
    One particle: its position, its velocity and the number of line
    segments it has been given in the current frame.
   */
  datatype Particle = Particle(pos: Vec3, vel: Vec3, numConnections: int)

  /** Two particles that sit at the same place and move the same way. */
  predicate SameMotion(p: Particle, q: Particle)
  {
    p.pos == q.pos && p.vel == q.vel
  }

  /** A coordinate strictly outside the cube; the faces themselves are inside. */
  predicate Outside(c: real)
  {
    c < -Half || c > Half
  }

  /** The velocity component kept after a move that landed on coordinate `c`. */
  function Reflect(c: real, v: real): real
  {
    if Outside(c) then -v else v
  }

  /**
    One particle's move for one frame: the position takes one step of the
    velocity, and every axis on which the new position is outside the cube
    has its velocity component negated. The position itself is not clamped.
   */
  function Advance(p: Particle): (q: Particle)
    ensures q.pos == Add(p.pos, p.vel)
    ensures forall a :: Outside(Coord(q.pos, a)) ==> Coord(q.vel, a) == -Coord(p.vel, a)
    ensures forall a :: !Outside(Coord(q.pos, a)) ==> Coord(q.vel, a) == Coord(p.vel, a)
    ensures forall a :: Abs(Coord(q.vel, a)) == Abs(Coord(p.vel, a))
    ensures q.numConnections == p.numConnections
  {
    var pos := Add(p.pos, p.vel);
    Particle(pos, Vec3(Reflect(pos.x, p.vel.x), Reflect(pos.y, p.vel.y), Reflect(pos.z, p.vel.z)),
             p.numConnections)
  }

  /** Start of a frame: every connection counter goes back to zero. */
  function Reset(ps: seq<Particle>): (r: seq<Particle>)
    ensures |r| == |ps|
    ensures forall k :: 0 <= k < |r| ==> r[k].numConnections == 0 && SameMotion(r[k], ps[k])
  {
    seq(|ps|, k requires 0 <= k < |ps| => ps[k].(numConnections := 0))
  }

  /** Sum of all connection counters. */
  function SumCounts(ps: seq<Particle>): int
  {
    if ps == [] then 0 else SumCounts(ps[..|ps| - 1]) + ps[|ps| - 1].numConnections
  }

  /** Replacing one particle changes the sum by the change of its counter alone. */
  lemma {:induction false} SumCountsUpdate(ps: seq<Particle>, k: nat, p: Particle)
    requires k < |ps|
    ensures SumCounts(ps[k := p]) == SumCounts(ps) - ps[k].numConnections + p.numConnections
    decreases |ps|
  {
    var n := |ps| - 1;
    var qs := ps[k := p];
    if k == n {
      assert qs[..n] == ps[..n];
    } else {
      assert qs[..n] == ps[..n][k := p];
      SumCountsUpdate(ps[..n], k, p);
    }
  }

  /** Counters that are all zero sum to zero. */
  lemma {:induction false} SumCountsZero(ps: seq<Particle>)
    requires forall k :: 0 <= k < |ps| ==> ps[k].numConnections == 0
    ensures SumCounts(ps) == 0
    decreases |ps|
  {
    if ps != [] {
      SumCountsZero(ps[..|ps| - 1]);
    }
  }

  /** How the spawner places a particle: inside the cube, with a small velocity. */
  predicate Spawned(p: Particle)
  {
    forall a :: -Half <= Coord(p.pos, a) <= Half && Abs(Coord(p.vel, a)) <= MaxSpeed
  }

  /**
    One axis of a particle that is at most one step of its own speed outside
    the cube, and heading back inward whenever it is outside.
   */
  predicate AxisContained(c: real, v: real)
  {
    && Abs(v) <= MaxSpeed
    && -Half - Abs(v) <= c <= Half + Abs(v)
    && (c > Half ==> v < 0.0)
    && (c < -Half ==> v > 0.0)
  }

  predicate Contained(p: Particle)
  {
    forall a :: AxisContained(Coord(p.pos, a), Coord(p.vel, a))
  }

  lemma SpawnedIsContained(p: Particle)
    requires Spawned(p)
    ensures Contained(p)
  {
    forall a ensures AxisContained(Coord(p.pos, a), Coord(p.vel, a)) {
      assert -Half <= Coord(p.pos, a) <= Half;
    }
  }

  /** One frame's move keeps one axis contained. */
  lemma AxisStep(c: real, v: real)
    requires AxisContained(c, v)
    ensures AxisContained(c + v, Reflect(c + v, v))
  {
  }

  /**
    The reflection invariant: a contained particle stays contained after its
    move, so a coordinate never strays more than one step of its speed past
    a face, and points back inward whenever it is past one.
   */
  lemma AdvanceKeepsContained(p: Particle)
    requires Contained(p)
    ensures Contained(Advance(p))
  {
    var q := Advance(p);
    forall a ensures AxisContained(Coord(q.pos, a), Coord(q.vel, a)) {
      AxisStep(Coord(p.pos, a), Coord(p.vel, a));
      assert Coord(q.pos, a) == Coord(p.pos, a) + Coord(p.vel, a);
      assert Coord(q.vel, a) == Reflect(Coord(q.pos, a), Coord(p.vel, a));
    }
  }

  /**
    The correction comes one frame late: a particle spawned on the lower
    face and moving outward at full speed (the draw where every random
    number is 0) ends the frame outside the cube, with its velocity turned.
   */
  lemma OvershootOneFrame()
    ensures var p := Particle(Vec3(-Half, 0.0, 0.0), Vec3(-MaxSpeed, 0.0, 0.0), 0);
            var q := Advance(p);
            Spawned(p) && q.pos.x == -Half - MaxSpeed && Outside(q.pos.x) && q.vel.x == MaxSpeed
  {
    var p := Particle(Vec3(-Half, 0.0, 0.0), Vec3(-MaxSpeed, 0.0, 0.0), 0);
    assert forall a :: -Half <= Coord(p.pos, a) <= Half && Abs(Coord(p.vel, a)) <= MaxSpeed;
  }

  /** Landing exactly on a face does not turn the velocity: the test is strict. */
  lemma FaceDoesNotReflect(p: Particle, a: Axis)
    requires Coord(Advance(p).pos, a) == Half || Coord(Advance(p).pos, a) == -Half
    ensures Coord(Advance(p).vel, a) == Coord(p.vel, a)
  {
  }
}
