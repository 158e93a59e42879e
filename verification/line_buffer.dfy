/**
  The connectivity pass as the animation runs it, step by step: the
  particle sequence and a preallocated line buffer of 3·n·n slots are
  passed along and updated, segment coordinates are written into the
  buffer, and the number of vertices to draw is reported.

  The buffer is a sequence of reals; its single-precision storage is not
  modelled. Slots beyond this frame's writes keep whatever the previous
  frame left there, which is why the draw count matters.
 */
module LineBuffer {
  import opened Particles
  import opened Edges
  import opened Connectivity

  /** Writes the six coordinates of a segment from slot `at` on; no other slot changes. */
  method PutSegment(buf: seq<real>, at: nat, e: Edge) returns (r: seq<real>)
    requires at + 6 <= |buf|
    ensures |r| == |buf|
    ensures r[..at] == buf[..at]
    ensures r[at..at + 6] == Segment(e)
    ensures r[at + 6..] == buf[at + 6..]
  {
    r := buf[at := e.a.x][at + 1 := e.a.y][at + 2 := e.a.z]
            [at + 3 := e.b.x][at + 4 := e.b.y][at + 5 := e.b.z];
  }

  /** Every counter back to zero, particle by particle. */
  method ClearCounters(particles: seq<Particle>) returns (ps: seq<Particle>)
    ensures ps == Reset(particles)
  {
    ps := particles;
    var k := 0;
    while k < |particles|
      invariant k <= |particles| && |ps| == |particles|
      invariant forall q :: 0 <= q < k ==> ps[q] == particles[q].(numConnections := 0)
      invariant forall q :: k <= q < |ps| ==> ps[q] == particles[q]
    {
      ps := ps[k := ps[k].(numConnections := 0)];
      k := k + 1;
    }
  }

  /**
    The buffer holds the coordinates of `edges` in its first `vertexpos`
    slots and the contents of `orig` everywhere after them.
   */
  ghost predicate Filled(buffer: seq<real>, vertexpos: nat, edges: seq<Edge>, orig: seq<real>)
  {
    && vertexpos == 6 * |edges|
    && |buffer| == |orig|
    && vertexpos <= |buffer|
    && buffer[..vertexpos] == Flatten(edges)
    && buffer[vertexpos..] == orig[vertexpos..]
  }

  /** Six more slots written after the filled ones extend the filling by one segment. */
  lemma FilledAppend(before: seq<real>, after: seq<real>, orig: seq<real>, vp: nat, es: seq<Edge>, e: Edge)
    requires Filled(before, vp, es, orig) && vp + 6 <= |before|
    requires |after| == |before|
    requires after[..vp] == before[..vp] && after[vp..vp + 6] == Segment(e) && after[vp + 6..] == before[vp + 6..]
    ensures Filled(after, vp + 6, es + [e], orig)
  {
    AppendCounts(es, e, 0, 0);
    assert after[..vp + 6] == after[..vp] + after[vp..vp + 6];
    assert before[vp + 6..] == before[vp..][6..];
    assert orig[vp + 6..] == orig[vp..][6..];
  }

  /** An accepted pair: both counters go up and the segment's six coordinates are appended. */
  method Link(ps0: seq<Particle>, i: nat, j: nat, buf0: seq<real>, vp0: nat,
              ghost es0: seq<Edge>, ghost orig: seq<real>)
    returns (ps: seq<Particle>, buffer: seq<real>, vertexpos: nat, ghost edges: seq<Edge>)
    requires i < j < |ps0|
    requires Filled(buf0, vp0, es0, orig) && vp0 + 6 <= |buf0|
    ensures ps == Connect(PassState(ps0, es0), i, j).ps
    ensures vertexpos == vp0 + 6 && |buffer| == |buf0|
    ensures PassState(ps, edges) == Connect(PassState(ps0, es0), i, j)
    ensures Filled(buffer, vertexpos, edges, orig)
  {
    var e := Edge(i, j, ps0[i].pos, ps0[j].pos);
    ps := ps0[i := ps0[i].(numConnections := ps0[i].numConnections + 1)];
    ps := ps[j := ps[j].(numConnections := ps[j].numConnections + 1)];
    buffer := PutSegment(buf0, vp0, e);
    FilledAppend(buf0, buffer, orig, vp0, es0, e);
    vertexpos := vp0 + 6;
    edges := es0 + [e];
  }

  /**
    One pair of particle `i`'s row: linked when `j` still has room and the
    two are within reach of each other, skipped otherwise.
   */
  method Consider(ps0: seq<Particle>, i: nat, j: nat, buf0: seq<real>, vp0: nat,
                  ghost es0: seq<Edge>, ghost orig: seq<real>)
    returns (ps: seq<Particle>, buffer: seq<real>, vertexpos: nat, ghost edges: seq<Edge>)
    requires i < j < |ps0|
    requires Filled(buf0, vp0, es0, orig)
    requires 6 * |Visit(PassState(ps0, es0), i, j).edges| <= |buf0|
    ensures ps == Visit(PassState(ps0, es0), i, j).ps
    ensures vertexpos == 6 * |Visit(PassState(ps0, es0), i, j).edges|
    ensures PassState(ps, edges) == Visit(PassState(ps0, es0), i, j)
    ensures Filled(buffer, vertexpos, edges, orig)
  {
    if ps0[j].numConnections < MaxConnections && Near(ps0[i].pos, ps0[j].pos) {
      ps, buffer, vertexpos, edges := Link(ps0, i, j, buf0, vp0, es0, orig);
    } else {
      ps, buffer, vertexpos, edges := ps0, buf0, vp0, es0;
    }
  }

  /** Particle `i`'s row, taken up at pair (i, j), ends in state `goal`. */
  ghost predicate RowLeadsTo(s: PassState, i: nat, j: nat, goal: PassState)
  {
    i < j <= |s.ps| && Row(s, i, j) == goal
  }

  /** Visiting pair (i, j) leaves the rest of the row's outcome unchanged. */
  lemma RowStep(s: PassState, next: PassState, i: nat, j: nat, goal: PassState)
    requires j < |s.ps|
    requires RowLeadsTo(s, i, j, goal)
    requires next == Visit(s, i, j)
    ensures RowLeadsTo(next, i, j + 1, goal)
  {
  }

  /** The first visit of a row emits no more segments than the whole row. */
  lemma RowFirst(s: PassState, i: nat, j: nat)
    requires i < j < |s.ps|
    ensures |Visit(s, i, j).edges| <= |Row(s, i, j).edges|
  {
  }

  /**
    Particle `i`'s row from pair (i, j) on: each accepted pair is appended
    to the buffer at `vertexpos`.
   */
  method ScanRow(ps0: seq<Particle>, i: nat, j: nat, buf0: seq<real>, vp0: nat,
                 ghost es0: seq<Edge>, ghost orig: seq<real>, ghost goal: PassState)
    returns (ps: seq<Particle>, buffer: seq<real>, vertexpos: nat, ghost edges: seq<Edge>)
    requires RowLeadsTo(PassState(ps0, es0), i, j, goal)
    requires Filled(buf0, vp0, es0, orig)
    requires 6 * |goal.edges| <= |orig|
    ensures ps == goal.ps
    ensures vertexpos == 6 * |goal.edges| <= |buffer|
    ensures buffer[..vertexpos] == Flatten(goal.edges)
    ensures PassState(ps, edges) == goal
    ensures Filled(buffer, vertexpos, edges, orig)
    decreases |ps0| - j
  {
    if j == |ps0| {
      RowDone(PassState(ps0, es0), i, j, goal);
      return ps0, buf0, vp0, es0;
    }
    ghost var cur := PassState(ps0, es0);
    RowFirst(cur, i, j);
    ps, buffer, vertexpos, edges := Consider(ps0, i, j, buf0, vp0, es0, orig);
    RowStep(cur, PassState(ps, edges), i, j, goal);
    ps, buffer, vertexpos, edges := ScanRow(ps, i, j + 1, buffer, vertexpos, edges, orig, goal);
  }

  lemma RowDone(s: PassState, i: nat, j: nat, goal: PassState)
    requires j == |s.ps|
    requires RowLeadsTo(s, i, j, goal)
    ensures goal == s
  {
  }

  /** Particle `i`'s turn: it moves, then runs its row unless its counter is already at the cap. */
  method TakeTurn(ps0: seq<Particle>, i: nat, buf0: seq<real>, vp0: nat,
                  ghost es0: seq<Edge>, ghost orig: seq<real>, ghost goal: PassState)
    returns (ps: seq<Particle>, buffer: seq<real>, vertexpos: nat, ghost edges: seq<Edge>)
    requires i < |ps0|
    requires Turn(PassState(ps0, es0), i) == goal
    requires Filled(buf0, vp0, es0, orig)
    requires 6 * |goal.edges| <= |orig|
    ensures ps == goal.ps
    ensures vertexpos == 6 * |goal.edges| <= |buffer|
    ensures buffer[..vertexpos] == Flatten(goal.edges)
    ensures PassState(ps, edges) == goal
    ensures Filled(buffer, vertexpos, edges, orig)
  {
    ps := ps0[i := Advance(ps0[i])];
    assert PassState(ps, es0) == Move(PassState(ps0, es0), i);
    if ps[i].numConnections < MaxConnections {
      ps, buffer, vertexpos, edges := ScanRow(ps, i, i + 1, buf0, vp0, es0, orig, goal);
    } else {
      buffer, vertexpos, edges := buf0, vp0, es0;
    }
  }

  /** Taking turn `i` leaves the rest of the sweep's outcome unchanged. */
  lemma SweepStep(s: PassState, next: PassState, i: nat, goal: PassState)
    requires i < |s.ps|
    requires Sweep(s, i) == goal
    requires next == Turn(s, i)
    ensures |next.ps| == |s.ps|
    ensures Sweep(next, i + 1) == goal
    ensures |next.edges| <= |goal.edges|
  {
  }

  /** The outer loop: every particle takes its turn, in index order. */
  method SweepAll(ps0: seq<Particle>, buf0: seq<real>, ghost orig: seq<real>)
    returns (ps: seq<Particle>, buffer: seq<real>, vertexpos: nat, ghost edges: seq<Edge>)
    requires Filled(buf0, 0, [], orig)
    requires 6 * |Sweep(PassState(ps0, []), 0).edges| <= |buf0|
    ensures ps == Sweep(PassState(ps0, []), 0).ps
    ensures vertexpos == 6 * |Sweep(PassState(ps0, []), 0).edges| <= |buffer|
    ensures buffer[..vertexpos] == Flatten(Sweep(PassState(ps0, []), 0).edges)
    ensures PassState(ps, edges) == Sweep(PassState(ps0, []), 0)
    ensures Filled(buffer, vertexpos, edges, orig)
  {
    ps, buffer, vertexpos, edges := ps0, buf0, 0, [];
    ghost var goal := Sweep(PassState(ps0, []), 0);
    var i := 0;
    while i < |ps0|
      invariant i <= |ps0| == |ps|
      invariant Sweep(PassState(ps, edges), i) == goal
      invariant Filled(buffer, vertexpos, edges, orig)
    {
      ghost var cur := PassState(ps, edges);
      ghost var next := Turn(cur, i);
      SweepStep(cur, next, i, goal);
      ps, buffer, vertexpos, edges := TakeTurn(ps, i, buffer, vertexpos, edges, orig, next);
      i := i + 1;
    }
    SweepDone(PassState(ps, edges), i);
  }

  lemma SweepDone(s: PassState, i: nat)
    requires i == |s.ps|
    ensures Sweep(s, i) == s
  {
  }

  /** The frame's segments fill at most 3n(n - 1) of the 3n·n buffer slots. */
  lemma BufferFits(ps0: seq<Particle>)
    ensures 6 * |Pass(ps0).edges| <= 3 * |ps0| * (|ps0| - 1) <= 3 * |ps0| * |ps0|
  {
    var n := |ps0|;
    PairsClosedForm(n);
    assert 3 * n * (n - 1) == 3 * (n * (n - 1));
    assert 3 * n * n == 3 * (n * n);
    if n > 0 {
      assert n * n == n * (n - 1) + n;
    }
  }

  /**
    One frame of the plexus. The particles end as the functional pass
    leaves them; the first `vertexpos` buffer slots hold the frame's
    segments in emission order, six coordinates each; the slots after them
    are untouched; and the draw count covers exactly the written vertices.
   */
  method PlexusFrame(particles: seq<Particle>, linePositions: seq<real>)
    returns (ps: seq<Particle>, buffer: seq<real>, vertexpos: nat, drawCount: nat)
    requires |linePositions| == 3 * |particles| * |particles|
    ensures ps == Pass(particles).ps
    ensures vertexpos == 6 * |Pass(particles).edges|
    ensures |buffer| == |linePositions|
    ensures vertexpos <= |buffer|
    ensures buffer[..vertexpos] == Flatten(Pass(particles).edges)
    ensures buffer[vertexpos..] == linePositions[vertexpos..]
    ensures 3 * drawCount == vertexpos
    ensures drawCount == 2 * |Pass(particles).edges|
  {
    ps := ClearCounters(particles);
    BufferFits(particles);
    ghost var edges;
    ps, buffer, vertexpos, edges := SweepAll(ps, linePositions, linePositions);
    assert vertexpos / 3 == 2 * |edges| by {
      assert vertexpos == 3 * (2 * |edges|);
    }
    drawCount := vertexpos / 3;
  }
}
