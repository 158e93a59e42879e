/**
  Line segments of one frame. A segment joins particle `i` to particle `j`
  and records the coordinates written for its two ends; the list of
  segments is kept in the order in which the segments were emitted.
 */
module Edges {
  import opened Particles

  datatype Edge = Edge(i: nat, j: nat, a: Vec3, b: Vec3)

  /** Number of segments whose second end is particle `k`. */
  function InDegree(es: seq<Edge>, k: nat): nat
  {
    if es == [] then 0
    else InDegree(es[..|es| - 1], k) + (if es[|es| - 1].j == k then 1 else 0)
  }

  /** Number of segments whose first end is particle `k`. */
  function OutDegree(es: seq<Edge>, k: nat): nat
  {
    if es == [] then 0
    else OutDegree(es[..|es| - 1], k) + (if es[|es| - 1].i == k then 1 else 0)
  }

  /** Number of segment ends at particle `k`. */
  function Degree(es: seq<Edge>, k: nat): nat
  {
    InDegree(es, k) + OutDegree(es, k)
  }

  /** Number of segments ending at `k` whose first end is below `x`. */
  function InDegreeBefore(es: seq<Edge>, k: nat, x: nat): nat
  {
    if es == [] then 0
    else InDegreeBefore(es[..|es| - 1], k, x) + (if es[|es| - 1].j == k && es[|es| - 1].i < x then 1 else 0)
  }

  predicate HasEdge(es: seq<Edge>, x: nat, y: nat)
  {
    exists t :: 0 <= t < |es| && es[t].i == x && es[t].j == y
  }

  /** Lexicographic order on the (first end, second end) pairs. */
  predicate LexLess(e: Edge, f: Edge)
  {
    e.i < f.i || (e.i == f.i && e.j < f.j)
  }

  /** Pairs strictly increasing in the lexicographic order. */
  predicate Sorted(es: seq<Edge>)
  {
    forall p, q :: 0 <= p < q < |es| ==> LexLess(es[p], es[q])
  }

  /** The six coordinates a segment occupies in the line buffer. */
  function Segment(e: Edge): (r: seq<real>)
    ensures |r| == 6
  {
    [e.a.x, e.a.y, e.a.z, e.b.x, e.b.y, e.b.z]
  }

  /** The coordinates of a list of segments, laid end to end. */
  function Flatten(es: seq<Edge>): (r: seq<real>)
    ensures |r| == 6 * |es|
  {
    if es == [] then [] else Flatten(es[..|es| - 1]) + Segment(es[|es| - 1])
  }

  /** What one more segment does to every count. */
  lemma AppendCounts(es: seq<Edge>, e: Edge, k: nat, x: nat)
    ensures InDegree(es + [e], k) == InDegree(es, k) + (if e.j == k then 1 else 0)
    ensures OutDegree(es + [e], k) == OutDegree(es, k) + (if e.i == k then 1 else 0)
    ensures InDegreeBefore(es + [e], k, x) == InDegreeBefore(es, k, x) + (if e.j == k && e.i < x then 1 else 0)
    ensures Flatten(es + [e]) == Flatten(es) + Segment(e)
  {
    assert (es + [e])[..|es|] == es;
  }

  lemma AppendHasEdge(es: seq<Edge>, e: Edge, x: nat, y: nat)
    ensures HasEdge(es + [e], x, y) <==> HasEdge(es, x, y) || (e.i == x && e.j == y)
  {
    var es' := es + [e];
    if HasEdge(es, x, y) {
      var t :| 0 <= t < |es| && es[t].i == x && es[t].j == y;
      assert es'[t] == es[t];
    }
    if e.i == x && e.j == y {
      assert es'[|es|] == e;
    }
    if HasEdge(es', x, y) {
      var t :| 0 <= t < |es'| && es'[t].i == x && es'[t].j == y;
      if t < |es| {
        assert es[t] == es'[t];
      }
    }
  }

  /** A segment greater than every segment of a sorted list keeps it sorted. */
  lemma AppendSorted(es: seq<Edge>, e: Edge)
    requires Sorted(es)
    requires forall t :: 0 <= t < |es| ==> LexLess(es[t], e)
    ensures Sorted(es + [e])
  {
  }

  lemma {:induction false} NoInDegree(es: seq<Edge>, k: nat)
    requires forall t :: 0 <= t < |es| ==> es[t].j != k
    ensures InDegree(es, k) == 0
    decreases |es|
  {
    if es != [] {
      NoInDegree(es[..|es| - 1], k);
    }
  }

  lemma {:induction false} NoOutDegree(es: seq<Edge>, k: nat)
    requires forall t :: 0 <= t < |es| ==> es[t].i != k
    ensures OutDegree(es, k) == 0
    decreases |es|
  {
    if es != [] {
      NoOutDegree(es[..|es| - 1], k);
    }
  }

  /** When every segment ending at `k` starts below `x`, the bounded count is the whole count. */
  lemma {:induction false} InDegreeBeforeAll(es: seq<Edge>, k: nat, x: nat)
    requires forall t :: 0 <= t < |es| && es[t].j == k ==> es[t].i < x
    ensures InDegreeBefore(es, k, x) == InDegree(es, k)
    decreases |es|
  {
    if es != [] {
      InDegreeBeforeAll(es[..|es| - 1], k, x);
    }
  }

  /**
    In a sorted list, the segments ending at `k` have pairwise different
    first ends, so if those first ends are all below `m` there are at most `m`.
   */
  lemma {:induction false} InDegreeBound(es: seq<Edge>, k: nat, m: nat)
    requires Sorted(es)
    requires forall t :: 0 <= t < |es| && es[t].j == k ==> es[t].i < m
    ensures InDegree(es, k) <= m
    decreases |es|
  {
    if es != [] {
      var n := |es| - 1;
      var last := es[n];
      if last.j == k {
        forall t | 0 <= t < n && es[..n][t].j == k
          ensures es[..n][t].i < last.i
        {
          assert LexLess(es[t], es[n]);
        }
        InDegreeBound(es[..n], k, last.i);
      } else {
        InDegreeBound(es[..n], k, m);
      }
    }
  }

  /**
    In a sorted list of segments whose first end is below their second end,
    the segments starting at `k` go to pairwise different particles above
    `k`, so if those all lie below `m` there are at most `m - k - 1`.
   */
  lemma {:induction false} OutDegreeBound(es: seq<Edge>, k: nat, m: nat)
    requires Sorted(es)
    requires k < m
    requires forall t :: 0 <= t < |es| ==> es[t].i < es[t].j
    requires forall t :: 0 <= t < |es| && es[t].i == k ==> es[t].j < m
    ensures OutDegree(es, k) <= m - k - 1
    decreases |es|
  {
    if es != [] {
      var n := |es| - 1;
      var last := es[n];
      if last.i == k {
        forall t | 0 <= t < n && es[..n][t].i == k
          ensures es[..n][t].j < last.j
        {
          assert LexLess(es[t], es[n]);
        }
        OutDegreeBound(es[..n], k, last.j);
      } else {
        OutDegreeBound(es[..n], k, m);
      }
    }
  }

  /** A pair present in a list but not as its last segment is present in the rest. */
  lemma DropLast(es: seq<Edge>, x: nat, y: nat)
    requires HasEdge(es, x, y)
    requires !(es[|es| - 1].i == x && es[|es| - 1].j == y)
    ensures HasEdge(es[..|es| - 1], x, y)
  {
    var t :| 0 <= t < |es| && es[t].i == x && es[t].j == y;
    assert es[..|es| - 1][t] == es[t];
  }

  /** The last segment of a sorted list is at least every pair the list holds. */
  lemma LastIsLargest(es: seq<Edge>, x: nat, y: nat)
    requires Sorted(es)
    requires HasEdge(es, x, y)
    ensures es[|es| - 1].i > x || (es[|es| - 1].i == x && es[|es| - 1].j >= y)
  {
    var t :| 0 <= t < |es| && es[t].i == x && es[t].j == y;
    if t < |es| - 1 {
      assert LexLess(es[t], es[|es| - 1]);
    }
  }

  /**
    In a sorted list of segments whose first end is below their second end,
    if every pair (k, y) with k < y < m is present then at least
    `m - k - 1` segments start at `k`.
   */
  lemma {:induction false} OutDegreeAtLeast(es: seq<Edge>, k: nat, m: nat)
    requires Sorted(es)
    requires forall y :: k < y < m ==> HasEdge(es, k, y)
    ensures OutDegree(es, k) >= m - k - 1
    decreases |es|
  {
    if m <= k + 1 {
      return;
    }
    assert HasEdge(es, k, k + 1);
    var n := |es| - 1;
    var last := es[n];
    var pre := es[..n];
    if last.i == k {
      // The last segment is (k, y) for some y >= m - 1; the pairs below y are in the rest.
      assert HasEdge(es, k, m - 1);
      LastIsLargest(es, k, m - 1);
      var m' := if last.j < m then last.j else m;
      forall y | k < y < m'
        ensures HasEdge(pre, k, y)
      {
        DropLast(es, k, y);
      }
      OutDegreeAtLeast(pre, k, m');
    } else {
      forall y | k < y < m
        ensures HasEdge(pre, k, y)
      {
        DropLast(es, k, y);
      }
      OutDegreeAtLeast(pre, k, m);
    }
  }

  /** Segment `t` of a list occupies buffer slots `6t` to `6t + 5`. */
  lemma {:induction false} SegmentAt(es: seq<Edge>, t: nat)
    requires t < |es|
    ensures Flatten(es)[6 * t .. 6 * t + 6] == Segment(es[t])
    decreases |es|
  {
    var n := |es| - 1;
    if t < n {
      SegmentAt(es[..n], t);
      assert Flatten(es)[..6 * n] == Flatten(es[..n]);
    }
  }
}
