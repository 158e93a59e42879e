/**
  The animated background as a whole: the particles, the segments drawn in
  the last frame, the recorded pointer offset and the group's rotation,
  driven by a stream of pointer events and animation frames.
 */
module Scene {
  import opened Particles
  import opened Edges
  import opened Connectivity
  import opened Orbit

  datatype Background = Background(particles: seq<Particle>, lines: seq<Edge>, pointer: Pointer, rotation: Rotation)

  /** What the running background reacts to: a pointer move over a window of the given size, or a frame. */
  datatype Event =
    | PointerMove(clientX: real, clientY: real, width: real, height: real)
    | Frame

  /** Every segment the pass emits joins two particles closer than the connection distance. */
  lemma PassLinesNear(ps0: seq<Particle>)
    ensures forall t :: 0 <= t < |Pass(ps0).edges| ==> Near(Pass(ps0).edges[t].a, Pass(ps0).edges[t].b)
  {
    forall t | 0 <= t < |Pass(ps0).edges|
      ensures Near(Pass(ps0).edges[t].a, Pass(ps0).edges[t].b)
    {
      PassSegment(ps0, t);
    }
  }

  /**
    One animation frame: the group eases towards the rotation the pointer
    aims for, every particle takes its step, and the segments are rebuilt.
    The pointer is left as it was.
   */
  function Tick(s: Background): (r: Background)
    ensures r.pointer == s.pointer
    ensures Target(s.pointer).x - r.rotation.x == Retain * (Target(s.pointer).x - s.rotation.x)
    ensures Target(s.pointer).y - r.rotation.y == Retain * (Target(s.pointer).y - s.rotation.y)
    ensures |r.particles| == |s.particles|
    ensures forall k :: 0 <= k < |s.particles| ==> SameMotion(r.particles[k], Advance(s.particles[k]))
    ensures forall t :: 0 <= t < |r.lines| ==> Near(r.lines[t].a, r.lines[t].b)
    ensures |r.lines| <= Pairs(|s.particles|)
  {
    var pass := Pass(s.particles);
    PassMoves(s.particles);
    PassLinesNear(s.particles);
    Background(pass.ps, pass.edges, s.pointer, Smooth(s.rotation, s.pointer))
  }

  /**
    Reacting to one event. Only a pointer move changes the pointer; only a
    frame changes the rotation, the particles or the lines.
   */
  function Handle(s: Background, e: Event): (r: Background)
    ensures |r.particles| == |s.particles|
    ensures e.Frame? ==> r.pointer == s.pointer
    ensures e.PointerMove? ==> r.rotation == s.rotation && r.particles == s.particles && r.lines == s.lines
  {
    match e
    case PointerMove(cx, cy, w, h) => s.(pointer := PointerAt(cx, cy, w, h))
    case Frame => Tick(s)
  }

  /** Reacting to a stream of events in order. */
  function Replay(s: Background, evs: seq<Event>): (r: Background)
    ensures |r.particles| == |s.particles|
    decreases |evs|
  {
    if evs == [] then s else Replay(Handle(s, evs[0]), evs[1..])
  }

  /** Only the last of two pointer moves matters, and no frame sees the first. */
  lemma LastPointerMoveWins(s: Background, a: Event, b: Event)
    requires a.PointerMove? && b.PointerMove?
    ensures Handle(Handle(s, a), b) == Handle(s, b)
  {
  }

  /**
    A pointer move records the new offset and touches nothing else: rotation,
    particles and lines stay as they were, and only the aim changes, which
    the next frames ease towards.
   */
  lemma PointerMoveKeepsRotation(s: Background, e: Event)
    requires e.PointerMove?
    ensures Handle(s, e).pointer == PointerAt(e.clientX, e.clientY, e.width, e.height)
    ensures Handle(s, e).rotation == s.rotation
    ensures Handle(s, e).particles == s.particles
    ensures Handle(s, e).lines == s.lines
    ensures Target(Handle(s, e).pointer) == Target(PointerAt(e.clientX, e.clientY, e.width, e.height))
  {
  }

  predicate AllContained(ps: seq<Particle>)
  {
    forall k :: 0 <= k < |ps| ==> Contained(ps[k])
  }

  /** Particles as the spawner places them satisfy the reflection invariant. */
  lemma SpawnedAreContained(ps: seq<Particle>)
    requires forall k :: 0 <= k < |ps| ==> Spawned(ps[k])
    ensures AllContained(ps)
  {
    forall k | 0 <= k < |ps|
      ensures Contained(ps[k])
    {
      SpawnedIsContained(ps[k]);
    }
  }

  /** A frame keeps the reflection invariant of every particle. */
  lemma TickKeepsContained(s: Background)
    requires AllContained(s.particles)
    ensures AllContained(Tick(s).particles)
  {
    var r := Tick(s);
    forall k | 0 <= k < |r.particles|
      ensures Contained(r.particles[k])
    {
      AdvanceKeepsContained(s.particles[k]);
      assert SameMotion(r.particles[k], Advance(s.particles[k]));
    }
  }

  /**
    The reflection invariant holds over any stream of events: no particle
    ever strays more than one step of its speed outside the cube, and one
    that is outside is heading back.
   */
  lemma {:induction false} ReplayKeepsContained(s: Background, evs: seq<Event>)
    requires AllContained(s.particles)
    ensures AllContained(Replay(s, evs).particles)
    decreases |evs|
  {
    if evs != [] {
      var next := Handle(s, evs[0]);
      if evs[0].Frame? {
        TickKeepsContained(s);
      }
      ReplayKeepsContained(next, evs[1..]);
    }
  }

  function Frames(n: nat): (evs: seq<Event>)
    ensures |evs| == n
    ensures forall t :: 0 <= t < n ==> evs[t] == Frame
  {
    seq(n, _ => Frame)
  }

  /** With the pointer held still, `n` frames ease each axis `n` times towards the same aim. */
  lemma {:induction false} SettledPointer(s: Background, n: nat)
    ensures Replay(s, Frames(n)).pointer == s.pointer
    ensures Replay(s, Frames(n)).rotation
         == Rotation(EaseN(s.rotation.x, Target(s.pointer).x, n), EaseN(s.rotation.y, Target(s.pointer).y, n))
    decreases n
  {
    if n > 0 {
      var next := Tick(s);
      assert Frames(n)[0] == Frame;
      assert Frames(n)[1..] == Frames(n - 1);
      assert next.rotation == Rotation(EaseAxis(s.rotation.x, Target(s.pointer).x), EaseAxis(s.rotation.y, Target(s.pointer).y));
      SettledPointer(next, n - 1);
    }
  }

  /**
    With the pointer held still, the rotation settles on the aim: after `n`
    frames each axis is at most 19 / (19 + n) of its starting distance away.
   */
  lemma RotationSettles(s: Background, n: nat)
    ensures WithinRate(s.rotation.x, Target(s.pointer).x, Replay(s, Frames(n)).rotation.x, n)
    ensures WithinRate(s.rotation.y, Target(s.pointer).y, Replay(s, Frames(n)).rotation.y, n)
  {
    SettledPointer(s, n);
    EaseNConverges(s.rotation.x, Target(s.pointer).x, n);
    EaseNConverges(s.rotation.y, Target(s.pointer).y, n);
  }
}
