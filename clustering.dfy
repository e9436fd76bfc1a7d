/**
 * Density clustering of admitted spot centroids with DBSCAN's min_samples = 1.
 *
 * With min_samples = 1 every point is a core point, so DBSCAN's clusters are exactly the
 * connected components of the graph joining centroids at distance at most eps, and no point
 * is noise. The labels below are computed by a closure fixpoint; a cluster is labelled by the
 * lowest index among its members, which orders clusters as DBSCAN numbers them (in order of
 * their lowest-index point).
 */
module Clustering {
  import opened Geometry

  /** Points i and j both exist and lie at most eps apart (DBSCAN's neighbourhood test). */
  predicate Near(pts: seq<Point>, eps: real, i: nat, j: nat)
  {
    i < |pts| && j < |pts| && WithinDistance(pts[i], pts[j], eps)
  }

  /** A non-empty sequence of point indices in which consecutive indices are neighbours. */
  ghost predicate IsChain(pts: seq<Point>, eps: real, path: seq<nat>)
  {
    && |path| > 0
    && (forall k :: 0 <= k < |path| ==> path[k] < |pts|)
    && (forall k :: 0 <= k < |path| - 1 ==> Near(pts, eps, path[k], path[k + 1]))
  }

  /** Single-linkage reachability: a chain of neighbours leads from point i to point j. */
  ghost predicate Linked(pts: seq<Point>, eps: real, i: nat, j: nat)
  {
    exists path :: IsChain(pts, eps, path) && path[0] == i && path[|path| - 1] == j
  }

  lemma LinkedReflexive(pts: seq<Point>, eps: real, i: nat)
    requires i < |pts|
    ensures Linked(pts, eps, i, i)
  {
    assert IsChain(pts, eps, [i]);
  }

  lemma LinkedStep(pts: seq<Point>, eps: real, i: nat, k: nat, j: nat)
    requires Linked(pts, eps, i, k) && Near(pts, eps, k, j)
    ensures Linked(pts, eps, i, j)
  {
    var path :| IsChain(pts, eps, path) && path[0] == i && path[|path| - 1] == k;
    var longer := path + [j];
    forall m | 0 <= m < |longer| - 1
      ensures Near(pts, eps, longer[m], longer[m + 1])
    {
      if m < |path| - 1 {
        assert longer[m] == path[m] && longer[m + 1] == path[m + 1];
      }
    }
    assert IsChain(pts, eps, longer);
  }

  lemma LinkedSymmetric(pts: seq<Point>, eps: real, i: nat, j: nat)
    requires Linked(pts, eps, i, j)
    ensures Linked(pts, eps, j, i)
  {
    var path :| IsChain(pts, eps, path) && path[0] == i && path[|path| - 1] == j;
    var n := |path|;
    var back := seq(n, m requires 0 <= m < n => path[n - 1 - m]);
    forall m | 0 <= m < n - 1
      ensures Near(pts, eps, back[m], back[m + 1])
    {
      assert Near(pts, eps, path[n - 2 - m], path[n - 1 - m]);
      WithinDistanceSymmetric(pts[path[n - 2 - m]], pts[path[n - 1 - m]], eps);
    }
    assert IsChain(pts, eps, back);
  }

  lemma LinkedTransitive(pts: seq<Point>, eps: real, i: nat, k: nat, j: nat)
    requires Linked(pts, eps, i, k) && Linked(pts, eps, k, j)
    ensures Linked(pts, eps, i, j)
  {
    var p :| IsChain(pts, eps, p) && p[0] == i && p[|p| - 1] == k;
    var q :| IsChain(pts, eps, q) && q[0] == k && q[|q| - 1] == j;
    var joined := p + q[1..];
    forall m | 0 <= m < |joined| - 1
      ensures Near(pts, eps, joined[m], joined[m + 1])
    {
      if m < |p| - 1 {
        assert joined[m] == p[m] && joined[m + 1] == p[m + 1];
      } else {
        assert joined[m] == q[m - |p| + 1] && joined[m + 1] == q[m - |p| + 2];
      }
    }
    assert IsChain(pts, eps, joined);
  }

  /** Every member of r is an index of a point. */
  predicate InRange(r: set<nat>, n: nat)
  {
    forall k :: k in r ==> k < n
  }

  lemma CardInRange(r: set<nat>, n: nat)
    requires InRange(r, n)
    ensures |r| <= n
  {
    if n == 0 {
      assert r == {};
    } else {
      CardInRange(r - {n - 1}, n - 1);
    }
  }

  lemma CardProperSubset(a: set<nat>, b: set<nat>)
    requires a < b
    ensures |a| < |b|
  {
    assert b == a + (b - a);
    assert a !! (b - a);
    assert b - a != {};
  }

  /** r together with every neighbour of a member of r. */
  function Expand(pts: seq<Point>, eps: real, r: set<nat>): set<nat>
  {
    r + set k, j | k in r && 0 <= j < |pts| && Near(pts, eps, k, j) :: j
  }

  /** The least superset of r that is closed under taking neighbours. */
  function Closure(pts: seq<Point>, eps: real, r: set<nat>): (c: set<nat>)
    requires InRange(r, |pts|)
    ensures InRange(c, |pts|) && r <= c
    decreases |pts| - |r|
  {
    var r' := Expand(pts, eps, r);
    if r' == r then r
    else
      CardInRange(r', |pts|);
      CardProperSubset(r, r');
      Closure(pts, eps, r')
  }

  /** The smallest member of s that is at least j; i is a member that bounds the search. */
  function FirstIn(s: set<nat>, j: nat, i: nat): (m: nat)
    requires j <= i && i in s
    ensures m in s && j <= m <= i
    ensures forall k :: j <= k < m ==> k !in s
    decreases i - j
  {
    if j in s then j else FirstIn(s, j + 1, i)
  }

  /** DBSCAN's label for point i, normalised to the lowest index in i's cluster. */
  function Representative(pts: seq<Point>, eps: real, i: nat): nat
    requires i < |pts|
  {
    FirstIn(Closure(pts, eps, {i}), 0, i)
  }

  /** `DBSCAN(eps, min_samples=1).fit(pts).labels_`, up to the numbering of the clusters. */
  function DensityLabels(pts: seq<Point>, eps: real): (labels: seq<nat>)
    ensures |labels| == |pts|
    ensures forall i :: 0 <= i < |pts| ==> labels[i] <= i
  {
    seq(|pts|, i requires 0 <= i < |pts| => Representative(pts, eps, i))
  }

  /** `np.arange(n)`: the labels of the fallback in which every point is its own cluster. */
  function SingletonLabels(n: nat): (labels: seq<nat>)
  {
    seq(n, i => i)
  }

  lemma ClosureIsClosed(pts: seq<Point>, eps: real, r: set<nat>)
    requires InRange(r, |pts|)
    ensures Expand(pts, eps, Closure(pts, eps, r)) == Closure(pts, eps, r)
    decreases |pts| - |r|
  {
    var r' := Expand(pts, eps, r);
    if r' != r {
      CardInRange(r', |pts|);
      CardProperSubset(r, r');
      ClosureIsClosed(pts, eps, r');
    }
  }

  lemma ClosureSound(pts: seq<Point>, eps: real, i: nat, r: set<nat>)
    requires InRange(r, |pts|)
    requires forall k :: k in r ==> Linked(pts, eps, i, k)
    ensures forall k :: k in Closure(pts, eps, r) ==> Linked(pts, eps, i, k)
    decreases |pts| - |r|
  {
    var r' := Expand(pts, eps, r);
    if r' != r {
      forall j | j in r'
        ensures Linked(pts, eps, i, j)
      {
        if j !in r {
          var k :| k in r && 0 <= j < |pts| && Near(pts, eps, k, j);
          LinkedStep(pts, eps, i, k, j);
        }
      }
      CardInRange(r', |pts|);
      CardProperSubset(r, r');
      ClosureSound(pts, eps, i, r');
    }
  }

  lemma ChainStaysInClosed(pts: seq<Point>, eps: real, c: set<nat>, path: seq<nat>, m: nat)
    requires Expand(pts, eps, c) == c
    requires IsChain(pts, eps, path) && path[0] in c && m < |path|
    ensures path[m] in c
  {
    if m > 0 {
      ChainStaysInClosed(pts, eps, c, path, m - 1);
      assert Near(pts, eps, path[m - 1], path[m]);
      assert path[m] in Expand(pts, eps, c);
    }
  }

  /** The closure of {i} is exactly the set of points linked to i. */
  lemma ClosureIsComponent(pts: seq<Point>, eps: real, i: nat, k: nat)
    requires i < |pts|
    ensures k in Closure(pts, eps, {i}) <==> k < |pts| && Linked(pts, eps, i, k)
  {
    var c := Closure(pts, eps, {i});
    LinkedReflexive(pts, eps, i);
    ClosureSound(pts, eps, i, {i});
    if k < |pts| && Linked(pts, eps, i, k) {
      ClosureIsClosed(pts, eps, {i});
      var path :| IsChain(pts, eps, path) && path[0] == i && path[|path| - 1] == k;
      ChainStaysInClosed(pts, eps, c, path, |path| - 1);
    }
  }

  /**
   * Two centroids get the same DBSCAN label exactly when a chain of centroids, each within eps
   * of the next, joins them: the labels partition the points into single-linkage components.
   */
  lemma DensityLabelsAreComponents(pts: seq<Point>, eps: real, i: nat, j: nat)
    requires i < |pts| && j < |pts|
    ensures DensityLabels(pts, eps)[i] == DensityLabels(pts, eps)[j] <==> Linked(pts, eps, i, j)
  {
    var ci, cj := Closure(pts, eps, {i}), Closure(pts, eps, {j});
    var labels := DensityLabels(pts, eps);
    if Linked(pts, eps, i, j) {
      LinkedSymmetric(pts, eps, i, j);
      forall k: nat ensures k in ci <==> k in cj {
        ClosureIsComponent(pts, eps, i, k);
        ClosureIsComponent(pts, eps, j, k);
        if k < |pts| && Linked(pts, eps, i, k) {
          LinkedTransitive(pts, eps, j, i, k);
        }
        if k < |pts| && Linked(pts, eps, j, k) {
          LinkedTransitive(pts, eps, i, j, k);
        }
      }
      assert ci == cj;
      assert labels[i] == FirstIn(ci, 0, i) && labels[j] == FirstIn(cj, 0, j);
    }
    if labels[i] == labels[j] {
      var m := labels[i];
      assert m in ci && m in cj;
      ClosureIsComponent(pts, eps, i, m);
      ClosureIsComponent(pts, eps, j, m);
      LinkedSymmetric(pts, eps, j, m);
      LinkedTransitive(pts, eps, i, m, j);
    }
  }

  /** Every point is linked to its label, so a label names a member of the point's own cluster. */
  lemma DensityLabelIsMember(pts: seq<Point>, eps: real, i: nat)
    requires i < |pts|
    ensures DensityLabels(pts, eps)[i] < |pts|
    ensures DensityLabels(pts, eps)[DensityLabels(pts, eps)[i]] == DensityLabels(pts, eps)[i]
  {
    var m := DensityLabels(pts, eps)[i];
    assert m in Closure(pts, eps, {i});
    ClosureIsComponent(pts, eps, i, m);
    LinkedSymmetric(pts, eps, i, m);
    DensityLabelsAreComponents(pts, eps, m, i);
  }
}
