/**
  The per-frame connectivity pass of the plexus: counters are reset, then
  particle `i` is moved and, unless it already holds `MaxConnections`
  segments, paired with every later particle `j` in ascending order; a pair
  closer than `ConnectionDist` becomes a segment when `j` still holds fewer
  than `MaxConnections` segments.

  `Visit`, `Row`, `Sweep` and `Pass` are the functional reference of that
  pass. `Inv` describes the state at every point of it, and `PassDecides`
  characterizes the emitted segments without reference to the loop.
 */
module Connectivity {
  import opened Particles
  import opened Edges

  /** Segments are drawn between particles strictly closer than this. */
  const ConnectionDist: real := 75.0

  /** Fan-out cap on the number of segments at one particle. */
  const MaxConnections: nat := 3

  /** Squared Euclidean distance; comparing it with the squared threshold replaces the square root. */
  function DistSq(u: Vec3, v: Vec3): (d: real)
    ensures d >= 0.0
  {
    var dx := u.x - v.x;
    var dy := u.y - v.y;
    var dz := u.z - v.z;
    assert dx * dx >= 0.0 && dy * dy >= 0.0 && dz * dz >= 0.0;
    dx * dx + dy * dy + dz * dz
  }

  predicate Near(u: Vec3, v: Vec3)
  {
    DistSq(u, v) < ConnectionDist * ConnectionDist
  }

  /** Number of unordered pairs of `n` particles, n(n - 1)/2. */
  function Pairs(n: nat): nat
  {
    if n == 0 then 0 else Pairs(n - 1) + (n - 1)
  }

  lemma {:induction false} PairsClosedForm(n: nat)
    ensures 2 * Pairs(n) == n * (n - 1)
  {
    if n > 0 {
      PairsClosedForm(n - 1);
      assert n * (n - 1) == (n - 1) * (n - 2) + 2 * (n - 1);
    }
  }

  /** The particles as the pass has left them so far, and the segments emitted so far. */
  datatype PassState = PassState(ps: seq<Particle>, edges: seq<Edge>)

  /** Accept the pair (i, j): both counters go up and the segment is emitted with the current positions. */
  function Connect(s: PassState, i: nat, j: nat): (r: PassState)
    requires i < j < |s.ps|
    ensures |r.ps| == |s.ps|
    ensures r.edges == s.edges + [Edge(i, j, s.ps[i].pos, s.ps[j].pos)]
    ensures forall k :: 0 <= k < |s.ps| ==> SameMotion(r.ps[k], s.ps[k])
    ensures forall k :: 0 <= k < |s.ps| ==>
              r.ps[k].numConnections == s.ps[k].numConnections + (if k == i || k == j then 1 else 0)
  {
    var pi := s.ps[i];
    var pj := s.ps[j];
    PassState(s.ps[i := pi.(numConnections := pi.numConnections + 1)]
                  [j := pj.(numConnections := pj.numConnections + 1)],
              s.edges + [Edge(i, j, pi.pos, pj.pos)])
  }

  /** One step of the inner loop: the pair (i, j) is skipped, rejected or accepted. */
  function Visit(s: PassState, i: nat, j: nat): (r: PassState)
    requires i < j < |s.ps|
    ensures |r.ps| == |s.ps|
    ensures forall k :: 0 <= k < |s.ps| ==> SameMotion(r.ps[k], s.ps[k])
    ensures forall k :: 0 <= k < |s.ps| ==> s.ps[k].numConnections <= r.ps[k].numConnections
    ensures r.edges == s.edges || r.edges == s.edges + [Edge(i, j, s.ps[i].pos, s.ps[j].pos)]
  {
    if s.ps[j].numConnections >= MaxConnections then s
    else if Near(s.ps[i].pos, s.ps[j].pos) then Connect(s, i, j)
    else s
  }

  /** The inner loop: the pairs (i, j), (i, j + 1), ..., (i, n - 1) in turn. */
  function Row(s: PassState, i: nat, j: nat): (r: PassState)
    requires i < j <= |s.ps|
    ensures |r.ps| == |s.ps|
    ensures |s.edges| <= |r.edges| <= |s.edges| + (|s.ps| - j)
    ensures r.edges[..|s.edges|] == s.edges
    ensures forall k :: 0 <= k < |s.ps| ==> SameMotion(r.ps[k], s.ps[k])
    ensures forall k :: 0 <= k < |s.ps| ==> s.ps[k].numConnections <= r.ps[k].numConnections
    decreases |s.ps| - j
  {
    if j == |s.ps| then s else Row(Visit(s, i, j), i, j + 1)
  }

  /** The state after particle `i` has taken its step. */
  function Move(s: PassState, i: nat): (r: PassState)
    requires i < |s.ps|
  {
    s.(ps := s.ps[i := Advance(s.ps[i])])
  }

  /**
    Particle `i`'s turn of the outer loop: it moves, then runs its row
    unless its counter has already reached the cap.
   */
  function Turn(s: PassState, i: nat): (r: PassState)
    requires i < |s.ps|
    ensures |r.ps| == |s.ps|
    ensures |s.edges| <= |r.edges| <= |s.edges| + (|s.ps| - i - 1)
    ensures r.edges[..|s.edges|] == s.edges
  {
    var moved := Move(s, i);
    if moved.ps[i].numConnections >= MaxConnections then moved else Row(moved, i, i + 1)
  }

  /** The outer loop from particle `i` on. */
  function Sweep(s: PassState, i: nat): (r: PassState)
    requires i <= |s.ps|
    ensures |r.ps| == |s.ps|
    ensures |s.edges| <= |r.edges|
    ensures |r.edges| <= |s.edges| + Pairs(|s.ps| - i)
    ensures r.edges[..|s.edges|] == s.edges
    decreases |s.ps| - i
  {
    if i == |s.ps| then s
    else
      var next := Turn(s, i);
      var r := Sweep(next, i + 1);
      assert r.edges[..|s.edges|] == next.edges[..|next.edges|][..|s.edges|];
      r
  }

  /**
    One frame's connectivity pass over the particles: reset every counter,
    then sweep. At most one segment per pair is emitted.
   */
  function Pass(ps: seq<Particle>): (r: PassState)
    ensures |r.ps| == |ps|
    ensures |r.edges| <= Pairs(|ps|)
  {
    Sweep(PassState(Reset(ps), []), 0)
  }

  // ---------------------------------------------------------------------------
  // The state at every point of the pass
  // ---------------------------------------------------------------------------

  /** The motion of particle `k` once the first `adv` particles have moved. */
  function MotionAt(ps0: seq<Particle>, adv: nat, k: nat): Particle
    requires k < |ps0|
  {
    if k < adv then Advance(ps0[k]) else ps0[k]
  }

  /** Particle `x`, once moved, is close enough to particle `y` as it was before the frame. */
  predicate InReach(ps0: seq<Particle>, x: nat, y: nat)
    requires x < |ps0| && y < |ps0|
  {
    Near(Advance(ps0[x]).pos, ps0[y].pos)
  }

  /** The pair (x, y) comes before the pair (i, j) in the order of evaluation. */
  predicate PairBefore(x: nat, y: nat, i: nat, j: nat)
  {
    x < i || (x == i && y < j)
  }

  /**
    Whether the pass accepts the pair (x, y), x < y, stated without the
    loop: the counter of `x` at the start of its row is its number of
    segments as a second end, the counter of `y` when the pair is evaluated
    is its number of segments coming from rows before `x`, and the distance
    is measured from the moved `x` to the not yet moved `y`.
   */
  predicate Accept(ps0: seq<Particle>, es: seq<Edge>, x: nat, y: nat)
    requires x < |ps0| && y < |ps0|
  {
    && InDegree(es, x) < MaxConnections
    && InDegreeBefore(es, y, x) < MaxConnections
    && InReach(ps0, x, y)
  }

  ghost predicate Moved(ps0: seq<Particle>, ps: seq<Particle>, adv: nat)
  {
    |ps| == |ps0| && forall k :: 0 <= k < |ps0| ==> SameMotion(ps[k], MotionAt(ps0, adv, k))
  }

  ghost predicate Counted(s: PassState)
  {
    && (forall k :: 0 <= k < |s.ps| ==> s.ps[k].numConnections == Degree(s.edges, k))
    && SumCounts(s.ps) == 2 * |s.edges|
  }

  /** Every emitted segment is a pair evaluated before (i, j), written with moved `i` and unmoved `j`. */
  ghost predicate Emitted(ps0: seq<Particle>, es: seq<Edge>, i: nat, j: nat)
  {
    && Sorted(es)
    && forall t :: 0 <= t < |es| ==>
         && es[t].i < es[t].j < |ps0|
         && PairBefore(es[t].i, es[t].j, i, j)
         && es[t].a == Advance(ps0[es[t].i]).pos
         && es[t].b == ps0[es[t].j].pos
  }

  ghost predicate Decided(ps0: seq<Particle>, es: seq<Edge>, i: nat, j: nat)
  {
    forall x: nat, y: nat :: x < y < |ps0| && PairBefore(x, y, i, j) ==>
      (HasEdge(es, x, y) <==> Accept(ps0, es, x, y))
  }

  /** The shape the cap actually has: as a second end at most the cap, and no row once the cap is reached. */
  ghost predicate CapShape(es: seq<Edge>, n: nat)
  {
    forall k: nat :: k < n ==>
      && InDegree(es, k) <= MaxConnections
      && (OutDegree(es, k) > 0 ==> InDegree(es, k) < MaxConnections)
  }

  /**
    The state of the pass once the first `adv` particles have moved and
    every pair before (i, j) has been evaluated.
   */
  ghost predicate Inv(ps0: seq<Particle>, s: PassState, adv: nat, i: nat, j: nat)
  {
    && Moved(ps0, s.ps, adv)
    && Counted(s)
    && Emitted(ps0, s.edges, i, j)
    && Decided(ps0, s.edges, i, j)
    && CapShape(s.edges, |ps0|)
  }

  lemma InitInv(ps0: seq<Particle>)
    ensures Inv(ps0, PassState(Reset(ps0), []), 0, 0, 1)
  {
    var s := PassState(Reset(ps0), []);
    SumCountsZero(s.ps);
  }

  /** Before its row, particle `i` starts no segment, so its counter is its number of segments as a second end. */
  lemma RowStartCount(ps0: seq<Particle>, s: PassState, adv: nat, i: nat)
    requires i < |ps0|
    requires Inv(ps0, s, adv, i, i + 1)
    ensures OutDegree(s.edges, i) == 0
    ensures s.ps[i].numConnections == InDegree(s.edges, i)
  {
    NoOutDegree(s.edges, i);
  }

  lemma MoveStep(ps0: seq<Particle>, s: PassState, i: nat)
    requires i < |ps0|
    requires Inv(ps0, s, i, i, i + 1)
    ensures Inv(ps0, Move(s, i), i + 1, i, i + 1)
    ensures Move(s, i).ps[i].numConnections == InDegree(s.edges, i)
  {
    var m := Move(s, i);
    SumCountsUpdate(s.ps, i, Advance(s.ps[i]));
    RowStartCount(ps0, s, i, i);
    assert SameMotion(m.ps[i], MotionAt(ps0, i + 1, i));
  }

  /** A row skipped because its particle already holds the cap decides all of that row's pairs. */
  lemma SkipRowStep(ps0: seq<Particle>, s: PassState, i: nat)
    requires i < |ps0|
    requires Inv(ps0, s, i + 1, i, i + 1)
    requires InDegree(s.edges, i) >= MaxConnections
    ensures Inv(ps0, s, i + 1, i + 1, i + 2)
  {
    var es := s.edges;
    forall x: nat, y: nat | x < y < |ps0| && PairBefore(x, y, i + 1, i + 2)
      ensures HasEdge(es, x, y) <==> Accept(ps0, es, x, y)
    {
    }
  }

  /** Counter of `j` when (i, j) is evaluated, and the pair is not yet emitted. */
  lemma VisitFacts(ps0: seq<Particle>, s: PassState, i: nat, j: nat)
    requires i < j < |ps0|
    requires Inv(ps0, s, i + 1, i, j)
    ensures s.ps[j].numConnections == InDegreeBefore(s.edges, j, i)
    ensures InDegree(s.edges, j) == InDegreeBefore(s.edges, j, i)
    ensures OutDegree(s.edges, j) == 0
    ensures !HasEdge(s.edges, i, j)
    ensures s.ps[i].pos == Advance(ps0[i]).pos && s.ps[j].pos == ps0[j].pos
  {
    var es := s.edges;
    NoOutDegree(es, j);
    InDegreeBeforeAll(es, j, i);
    assert SameMotion(s.ps[i], MotionAt(ps0, i + 1, i));
    assert SameMotion(s.ps[j], MotionAt(ps0, i + 1, j));
  }

  /** A rejected pair: nothing changes and the pair is decided. */
  lemma RejectStep(ps0: seq<Particle>, s: PassState, i: nat, j: nat)
    requires i < j < |ps0|
    requires Inv(ps0, s, i + 1, i, j)
    requires !Accept(ps0, s.edges, i, j)
    ensures Inv(ps0, s, i + 1, i, j + 1)
  {
    VisitFacts(ps0, s, i, j);
  }

  lemma ConnectCounted(s: PassState, i: nat, j: nat)
    requires i < j < |s.ps|
    requires Counted(s)
    ensures Counted(Connect(s, i, j))
  {
    var es := s.edges;
    var r := Connect(s, i, j);
    var e := Edge(i, j, s.ps[i].pos, s.ps[j].pos);
    forall k | 0 <= k < |s.ps|
      ensures r.ps[k].numConnections == Degree(r.edges, k)
    {
      AppendCounts(es, e, k, 0);
    }
    var pi := s.ps[i];
    var pj := s.ps[j];
    var mid := s.ps[i := pi.(numConnections := pi.numConnections + 1)];
    SumCountsUpdate(s.ps, i, pi.(numConnections := pi.numConnections + 1));
    SumCountsUpdate(mid, j, pj.(numConnections := pj.numConnections + 1));
  }

  lemma ConnectEmitted(ps0: seq<Particle>, es: seq<Edge>, e: Edge, i: nat, j: nat)
    requires i < j < |ps0|
    requires Emitted(ps0, es, i, j)
    requires e == Edge(i, j, Advance(ps0[i]).pos, ps0[j].pos)
    ensures Emitted(ps0, es + [e], i, j + 1)
  {
    AppendSorted(es, e);
  }

  lemma ConnectDecided(ps0: seq<Particle>, es: seq<Edge>, e: Edge, i: nat, j: nat)
    requires i < j < |ps0|
    requires e.i == i && e.j == j
    requires Decided(ps0, es, i, j)
    requires !HasEdge(es, i, j)
    requires Accept(ps0, es, i, j)
    ensures Decided(ps0, es + [e], i, j + 1)
  {
    forall x: nat, y: nat | x < y < |ps0| && PairBefore(x, y, i, j + 1)
      ensures HasEdge(es + [e], x, y) <==> Accept(ps0, es + [e], x, y)
    {
      AppendHasEdge(es, e, x, y);
      AppendCounts(es, e, x, x);
      AppendCounts(es, e, y, x);
    }
  }

  lemma ConnectCapShape(es: seq<Edge>, e: Edge, n: nat, i: nat, j: nat)
    requires i < j < n
    requires e.i == i && e.j == j
    requires CapShape(es, n)
    requires InDegree(es, i) < MaxConnections
    requires InDegree(es, j) < MaxConnections
    requires OutDegree(es, j) == 0
    ensures CapShape(es + [e], n)
  {
    forall k: nat | k < n
      ensures InDegree(es + [e], k) <= MaxConnections
      ensures OutDegree(es + [e], k) > 0 ==> InDegree(es + [e], k) < MaxConnections
    {
      AppendCounts(es, e, k, 0);
    }
  }

  /** An accepted pair: the segment is emitted and the pair is decided. */
  lemma ConnectStep(ps0: seq<Particle>, s: PassState, i: nat, j: nat)
    requires i < j < |ps0|
    requires Inv(ps0, s, i + 1, i, j)
    requires Accept(ps0, s.edges, i, j)
    ensures Inv(ps0, Connect(s, i, j), i + 1, i, j + 1)
    ensures InDegree(Connect(s, i, j).edges, i) == InDegree(s.edges, i)
  {
    VisitFacts(ps0, s, i, j);
    var es := s.edges;
    var r := Connect(s, i, j);
    var e := Edge(i, j, s.ps[i].pos, s.ps[j].pos);
    ConnectCounted(s, i, j);
    ConnectEmitted(ps0, es, e, i, j);
    ConnectDecided(ps0, es, e, i, j);
    ConnectCapShape(es, e, |ps0|, i, j);
    AppendCounts(es, e, i, 0);
    assert Moved(ps0, r.ps, i + 1);
  }

  lemma VisitStep(ps0: seq<Particle>, s: PassState, i: nat, j: nat)
    requires i < j < |ps0|
    requires Inv(ps0, s, i + 1, i, j)
    requires InDegree(s.edges, i) < MaxConnections
    ensures Inv(ps0, Visit(s, i, j), i + 1, i, j + 1)
    ensures InDegree(Visit(s, i, j).edges, i) == InDegree(s.edges, i)
  {
    VisitFacts(ps0, s, i, j);
    if Accept(ps0, s.edges, i, j) {
      ConnectStep(ps0, s, i, j);
    } else {
      RejectStep(ps0, s, i, j);
    }
  }

  lemma {:induction false} RowInv(ps0: seq<Particle>, s: PassState, i: nat, j: nat, r: PassState)
    requires i < j <= |ps0|
    requires Inv(ps0, s, i + 1, i, j)
    requires InDegree(s.edges, i) < MaxConnections
    requires r == Row(s, i, j)
    ensures Inv(ps0, r, i + 1, i, |ps0|)
    decreases |ps0| - j
  {
    if j < |ps0| {
      VisitStep(ps0, s, i, j);
      RowInv(ps0, Visit(s, i, j), i, j + 1, r);
    }
  }

  /** A finished row: the pairs before (i, n) are exactly those before (i + 1, i + 2). */
  lemma RowEnd(ps0: seq<Particle>, s: PassState, i: nat)
    requires i < |ps0|
    requires Inv(ps0, s, i + 1, i, |ps0|)
    ensures Inv(ps0, s, i + 1, i + 1, i + 2)
  {
  }

  lemma TurnSkipInv(ps0: seq<Particle>, s: PassState, i: nat)
    requires i < |ps0|
    requires Inv(ps0, s, i, i, i + 1)
    requires Move(s, i).ps[i].numConnections >= MaxConnections
    ensures Inv(ps0, Turn(s, i), i + 1, i + 1, i + 2)
  {
    MoveStep(ps0, s, i);
    SkipRowStep(ps0, Move(s, i), i);
  }

  lemma TurnRowInv(ps0: seq<Particle>, s: PassState, i: nat)
    requires i < |ps0|
    requires Inv(ps0, s, i, i, i + 1)
    requires Move(s, i).ps[i].numConnections < MaxConnections
    ensures Inv(ps0, Turn(s, i), i + 1, i + 1, i + 2)
  {
    var moved := Move(s, i);
    MoveStep(ps0, s, i);
    RowInv(ps0, moved, i, i + 1, Row(moved, i, i + 1));
    RowEnd(ps0, Row(moved, i, i + 1), i);
  }

  lemma TurnInv(ps0: seq<Particle>, s: PassState, i: nat)
    requires i < |ps0|
    requires Inv(ps0, s, i, i, i + 1)
    ensures Inv(ps0, Turn(s, i), i + 1, i + 1, i + 2)
  {
    if Move(s, i).ps[i].numConnections >= MaxConnections {
      TurnSkipInv(ps0, s, i);
    } else {
      TurnRowInv(ps0, s, i);
    }
  }

  lemma {:induction false} SweepInv(ps0: seq<Particle>, s: PassState, i: nat, r: PassState)
    requires i <= |ps0|
    requires Inv(ps0, s, i, i, i + 1)
    requires r == Sweep(s, i)
    ensures Inv(ps0, r, |ps0|, |ps0|, |ps0| + 1)
    decreases |ps0| - i
  {
    if i < |ps0| {
      TurnInv(ps0, s, i);
      SweepInv(ps0, Turn(s, i), i + 1, r);
    }
  }

  /** The state after the whole pass. */
  lemma PassInv(ps0: seq<Particle>)
    ensures Inv(ps0, Pass(ps0), |ps0|, |ps0|, |ps0| + 1)
  {
    InitInv(ps0);
    SweepInv(ps0, PassState(Reset(ps0), []), 0, Pass(ps0));
  }

  // ---------------------------------------------------------------------------
  // What the pass guarantees
  // ---------------------------------------------------------------------------

  /** Every particle has taken exactly one step of its own velocity, with reflection. */
  lemma PassMoves(ps0: seq<Particle>)
    ensures |Pass(ps0).ps| == |ps0|
    ensures forall k :: 0 <= k < |ps0| ==> SameMotion(Pass(ps0).ps[k], Advance(ps0[k]))
    ensures forall k :: 0 <= k < |ps0| ==> Pass(ps0).ps[k].pos == Add(ps0[k].pos, ps0[k].vel)
  {
    PassInv(ps0);
    assert forall k :: 0 <= k < |ps0| ==> MotionAt(ps0, |ps0|, k) == Advance(ps0[k]);
  }

  /** Particle `k`'s counter ends as the number of segment ends at `k`. */
  lemma PassCount(ps0: seq<Particle>, k: nat)
    requires k < |ps0|
    ensures Pass(ps0).ps[k].numConnections == Degree(Pass(ps0).edges, k)
  {
    PassInv(ps0);
  }

  /**
    Each counter ends as the number of segment ends at its particle, so the
    counters add up to twice the number of segments.
   */
  lemma PassCounts(ps0: seq<Particle>)
    ensures forall k :: 0 <= k < |ps0| ==> Pass(ps0).ps[k].numConnections == Degree(Pass(ps0).edges, k)
    ensures SumCounts(Pass(ps0).ps) == 2 * |Pass(ps0).edges|
  {
    PassInv(ps0);
  }

  /**
    Segment `t` joins a lower to a higher particle that are closer than the
    threshold, and is written with the lower particle's moved position and
    the higher particle's position from before the frame.
   */
  lemma PassSegment(ps0: seq<Particle>, t: nat)
    requires t < |Pass(ps0).edges|
    ensures var e := Pass(ps0).edges[t];
            && e.i < e.j < |ps0|
            && e.a == Advance(ps0[e.i]).pos
            && e.b == ps0[e.j].pos
            && InReach(ps0, e.i, e.j)
            && Near(e.a, e.b)
  {
    PassInv(ps0);
    var es := Pass(ps0).edges;
    assert HasEdge(es, es[t].i, es[t].j);
  }

  /** The segments come in the order in which the pairs are evaluated. */
  lemma PassSorted(ps0: seq<Particle>)
    ensures Sorted(Pass(ps0).edges)
  {
    PassInv(ps0);
  }

  /** The pair (x, y) becomes a segment exactly when it passes the acceptance test. */
  lemma PassPair(ps0: seq<Particle>, x: nat, y: nat)
    requires x < y < |ps0|
    ensures HasEdge(Pass(ps0).edges, x, y) <==> Accept(ps0, Pass(ps0).edges, x, y)
  {
    PassInv(ps0);
  }

  /** Exactly the pairs that pass the acceptance test become segments. */
  lemma PassDecides(ps0: seq<Particle>)
    ensures forall x: nat, y: nat :: x < y < |ps0| ==>
              (HasEdge(Pass(ps0).edges, x, y) <==> Accept(ps0, Pass(ps0).edges, x, y))
  {
    PassInv(ps0);
  }

  /**
    Where the cap holds: segments gained as a second end never take a
    counter above the cap, and a particle that reaches the cap before its
    own row gains nothing more and ends exactly at the cap.
   */
  lemma PassCapShape(ps0: seq<Particle>, k: nat)
    requires k < |ps0|
    ensures InDegree(Pass(ps0).edges, k) <= MaxConnections
    ensures InDegree(Pass(ps0).edges, k) >= MaxConnections ==>
              OutDegree(Pass(ps0).edges, k) == 0 && Pass(ps0).ps[k].numConnections == MaxConnections
  {
    PassInv(ps0);
  }

  /** No counter exceeds the number of other particles. */
  lemma PassCountBound(ps0: seq<Particle>, k: nat)
    requires k < |ps0|
    ensures Pass(ps0).ps[k].numConnections <= |ps0| - 1
  {
    PassInv(ps0);
    var es := Pass(ps0).edges;
    InDegreeBound(es, k, k);
    OutDegreeBound(es, k, |ps0|);
  }

  lemma {:induction false} InDegreeBeforeNone(es: seq<Edge>, k: nat, x: nat)
    requires forall t :: 0 <= t < |es| && es[t].j == k ==> es[t].i >= x
    ensures InDegreeBefore(es, k, x) == 0
    decreases |es|
  {
    if es != [] {
      InDegreeBeforeNone(es[..|es| - 1], k, x);
    }
  }

  /**
    The cap is not a global bound: particle 0 is never a second end, so its
    row accepts every later particle within reach, however many there are.
   */
  lemma {:induction false} FirstRowUncapped(ps0: seq<Particle>, m: nat)
    requires m <= |ps0|
    requires forall y: nat :: 0 < y < m ==> InReach(ps0, 0, y)
    ensures InDegree(Pass(ps0).edges, 0) == 0
    ensures forall y: nat :: 0 < y < |ps0| && InReach(ps0, 0, y) ==> HasEdge(Pass(ps0).edges, 0, y)
    ensures m > 0 ==> Pass(ps0).ps[0].numConnections >= m - 1
  {
    var es := Pass(ps0).edges;
    forall t | 0 <= t < |es|
      ensures es[t].i < es[t].j
    {
      PassSegment(ps0, t);
    }
    NoInDegree(es, 0);
    forall y: nat | 0 < y < |ps0| && InReach(ps0, 0, y)
      ensures HasEdge(es, 0, y)
    {
      InDegreeBeforeNone(es, y, 0);
      PassPair(ps0, 0, y);
    }
    if m > 0 {
      PassSorted(ps0);
      OutDegreeAtLeast(es, 0, m);
      PassCount(ps0, 0);
    }
  }

  /** Particle 0 at the centre of a cross of four neighbours 70 apart, nobody moving. */
  function Cross(): seq<Particle>
  {
    var still := Vec3(0.0, 0.0, 0.0);
    [ Particle(still, still, 0),
      Particle(Vec3(70.0, 0.0, 0.0), still, 0),
      Particle(Vec3(-70.0, 0.0, 0.0), still, 0),
      Particle(Vec3(0.0, 70.0, 0.0), still, 0),
      Particle(Vec3(0.0, -70.0, 0.0), still, 0) ]
  }

  /** A concrete frame in which particle 0 ends with four segments, one more than the cap. */
  lemma RowCanExceedCap(ps0: seq<Particle>)
    requires ps0 == Cross()
    ensures Pass(ps0).ps[0].numConnections == 4 > MaxConnections
  {
    var o := Vec3(0.0, 0.0, 0.0);
    assert Advance(ps0[0]).pos == o;
    assert ps0[1].pos == Vec3(70.0, 0.0, 0.0);
    assert ps0[2].pos == Vec3(-70.0, 0.0, 0.0);
    assert ps0[3].pos == Vec3(0.0, 70.0, 0.0);
    assert ps0[4].pos == Vec3(0.0, -70.0, 0.0);
    assert DistSq(o, Vec3(70.0, 0.0, 0.0)) == 4900.0;
    assert DistSq(o, Vec3(-70.0, 0.0, 0.0)) == 4900.0;
    assert DistSq(o, Vec3(0.0, 70.0, 0.0)) == 4900.0;
    assert DistSq(o, Vec3(0.0, -70.0, 0.0)) == 4900.0;
    FirstRowUncapped(ps0, 5);
    PassCountBound(ps0, 0);
  }

  /**
    When exactly one pair is close enough, the frame has exactly that one
    segment, its two particles have one connection each and all others none.
   */
  lemma LonePair(ps0: seq<Particle>, x: nat, y: nat)
    requires x < y < |ps0|
    requires InReach(ps0, x, y)
    requires forall u: nat, v: nat :: u < v < |ps0| && InReach(ps0, u, v) ==> u == x && v == y
    ensures Pass(ps0).edges == [Edge(x, y, Advance(ps0[x]).pos, ps0[y].pos)]
    ensures forall k :: 0 <= k < |ps0| ==>
              Pass(ps0).ps[k].numConnections == (if k == x || k == y then 1 else 0)
  {
    var es := Pass(ps0).edges;
    forall t | 0 <= t < |es|
      ensures es[t].i == x && es[t].j == y
    {
      PassSegment(ps0, t);
    }
    NoInDegree(es, x);
    InDegreeBeforeNone(es, y, x);
    PassPair(ps0, x, y);
    assert HasEdge(es, x, y);
    PassSorted(ps0);
    PassSegment(ps0, 0);
    assert es == [es[0]];
    assert es[..|es| - 1] == [];
    forall k | 0 <= k < |ps0|
      ensures Pass(ps0).ps[k].numConnections == (if k == x || k == y then 1 else 0)
    {
      PassCount(ps0, k);
      assert InDegree(es, k) == InDegree([], k) + (if y == k then 1 else 0);
      assert OutDegree(es, k) == OutDegree([], k) + (if x == k then 1 else 0);
    }
  }
}
