/**
 * The spot detector's filtering and grouping stage (`find_spots_and_boxes`).
 *
 * The blur, adaptive threshold, dilation, erosion and connected-component labelling are
 * OpenCV calls; their output is the input here: one `Region` per label, with index 0 the
 * background. The detector keeps the regions whose area and centroid pass the admission
 * filter, clusters the kept centroids (DBSCAN with min_samples = 1, or every spot on its own
 * when scikit-learn cannot be imported) and reports, per cluster, the union of the member
 * boxes and the mean of the member centroids.
 */
module SpotDetection {
  import opened Wrappers
  import opened Geometry
  import opened Clustering
  import opened Sequences

  /** One labelled connected component: pixel area, centroid and bounding box. */
  datatype Region = Region(area: int, centroid: Point, box: Box)

  /** Which clustering runs: DBSCAN when scikit-learn imports, else the singleton fallback. */
  datatype Grouping = Density | Singletons

  /** DBSCAN's parameter validation rejects a radius eps that is not positive. */
  datatype DetectError = NonPositiveEps

  /** The detector's tunable arguments together with the disk geometry. */
  datatype Params = Params(
    sunRadius: int,
    sunCenter: Point,
    maxArea: int,
    minArea: int,
    maxDistanceRatio: real,
    minDistanceBetweenClusters: real)

  /** The defaults of the signature: areas 1000..5000, ratio 0.9 and a clustering radius of 20. */
  function DefaultParams(sunRadius: int, sunCenter: Point): (p: Params)
    ensures p.minArea == 1000 && p.maxArea == 5000
    ensures p.maxDistanceRatio == 0.9 && p.minDistanceBetweenClusters == 20.0
  {
    Params(sunRadius, sunCenter, 5000, 1000, 0.9, 20.0)
  }

  /** The farthest a kept centroid may lie from the disk centre. */
  function DistanceLimit(p: Params): real
  {
    p.maxDistanceRatio * p.sunRadius as real
  }

  /** The admission filter: area strictly inside the bounds, centroid within the limit. */
  predicate Admitted(r: Region, p: Params)
  {
    && p.minArea < r.area < p.maxArea
    && WithinDistance(r.centroid, p.sunCenter, DistanceLimit(p))
  }

  /** The admitted regions among labels 1 .. hi - 1, in label order. */
  function AdmittedBelow(regions: seq<Region>, hi: nat, p: Params): seq<Region>
    requires hi <= |regions|
  {
    if hi <= 1 then []
    else AdmittedBelow(regions, hi - 1, p) + (if Admitted(regions[hi - 1], p) then [regions[hi - 1]] else [])
  }

  /** The regions kept by the filter loop, in label order; label 0 is never looked at. */
  function Candidates(regions: seq<Region>, p: Params): seq<Region>
  {
    AdmittedBelow(regions, |regions|, p)
  }

  function BoxesOf(rs: seq<Region>): (bs: seq<Box>)
    ensures |bs| == |rs| && forall k :: 0 <= k < |rs| ==> bs[k] == rs[k].box
  {
    seq(|rs|, k requires 0 <= k < |rs| => rs[k].box)
  }

  function CentroidsOf(rs: seq<Region>): (cs: seq<Point>)
    ensures |cs| == |rs| && forall k :: 0 <= k < |rs| ==> cs[k] == rs[k].centroid
  {
    seq(|rs|, k requires 0 <= k < |rs| => rs[k].centroid)
  }

  // ----- np.unique and np.where over cluster labels -----

  /** Every label is an index of a point, as for both clusterings. */
  predicate LabelsInRange(labels: seq<nat>)
  {
    forall i :: 0 <= i < |labels| ==> labels[i] < |labels|
  }

  /** The distinct labels below c, in increasing order. */
  function UniqueBelow(labels: seq<nat>, c: nat): (u: seq<nat>)
    ensures forall x :: x in u <==> x < c && x in labels
    ensures forall a, b :: 0 <= a < b < |u| ==> u[a] < u[b]
  {
    if c == 0 then []
    else
      var prev := UniqueBelow(labels, c - 1);
      assert forall a :: 0 <= a < |prev| ==> prev[a] in prev && prev[a] < c - 1;
      prev + (if c - 1 in labels then [c - 1] else [])
  }

  /** `np.unique(cluster_labels)`: the distinct labels, sorted. */
  function UniqueLabels(labels: seq<nat>): (u: seq<nat>)
    requires LabelsInRange(labels)
    ensures forall x :: x in u <==> x in labels
    ensures forall a, b :: 0 <= a < b < |u| ==> u[a] < u[b]
  {
    UniqueBelow(labels, |labels|)
  }

  /** The indices below hi whose label is c, in increasing order. */
  function MembersBelow(labels: seq<nat>, c: nat, hi: nat): (m: seq<nat>)
    requires hi <= |labels|
    ensures forall i: nat :: i in m <==> i < hi && labels[i] == c
    ensures forall a, b :: 0 <= a < b < |m| ==> m[a] < m[b]
    ensures forall a :: 0 <= a < |m| ==> m[a] < hi
  {
    if hi == 0 then []
    else MembersBelow(labels, c, hi - 1) + (if labels[hi - 1] == c then [hi - 1] else [])
  }

  /** `np.where(cluster_labels == c)[0]`. */
  function Members(labels: seq<nat>, c: nat): (m: seq<nat>)
    ensures forall i: nat :: i in m <==> i < |labels| && labels[i] == c
    ensures forall a, b :: 0 <= a < b < |m| ==> m[a] < m[b]
    ensures forall a :: 0 <= a < |m| ==> m[a] < |labels|
  {
    MembersBelow(labels, c, |labels|)
  }

  /** The groups: the member indices of each distinct label, labels in increasing order. */
  function Groups(labels: seq<nat>): (gs: seq<seq<nat>>)
    requires LabelsInRange(labels)
    ensures |gs| == |UniqueLabels(labels)|
    ensures forall g :: 0 <= g < |gs| ==> gs[g] == Members(labels, UniqueLabels(labels)[g])
  {
    var u := UniqueLabels(labels);
    seq(|u|, g requires 0 <= g < |u| => Members(labels, u[g]))
  }

  // ----- the union box and the mean centroid -----

  function Lefts(bs: seq<Box>): seq<int> { seq(|bs|, k requires 0 <= k < |bs| => bs[k].x) }
  function Tops(bs: seq<Box>): seq<int> { seq(|bs|, k requires 0 <= k < |bs| => bs[k].y) }
  function Rights(bs: seq<Box>): seq<int> { seq(|bs|, k requires 0 <= k < |bs| => bs[k].Right()) }
  function Bottoms(bs: seq<Box>): seq<int> { seq(|bs|, k requires 0 <= k < |bs| => bs[k].Bottom()) }

  /** The smallest box holding every box of bs: min left/top edges, max right/bottom edges. */
  function UnionBox(bs: seq<Box>): Box
    requires |bs| > 0
  {
    var xMin := MinOf(Lefts(bs));
    var yMin := MinOf(Tops(bs));
    var xMax := MaxOf(Rights(bs));
    var yMax := MaxOf(Bottoms(bs));
    Box(xMin, yMin, xMax - xMin, yMax - yMin)
  }

  function SumX(ps: seq<Point>): real
  {
    if ps == [] then 0.0 else SumX(ps[..|ps| - 1]) + ps[|ps| - 1].x
  }

  function SumY(ps: seq<Point>): real
  {
    if ps == [] then 0.0 else SumY(ps[..|ps| - 1]) + ps[|ps| - 1].y
  }

  /** `np.mean(points, axis=0)`. */
  function Mean(ps: seq<Point>): Point
    requires |ps| > 0
  {
    Point(SumX(ps) / |ps| as real, SumY(ps) / |ps| as real)
  }

  lemma MembersOfLabelNonEmpty(labels: seq<nat>, c: nat)
    requires c in labels
    ensures |Members(labels, c)| > 0
  {
    var i :| 0 <= i < |labels| && labels[i] == c;
    assert i in Members(labels, c);
  }

  /** The union box of the members of cluster c. */
  function ClusterBox(boxes: seq<Box>, labels: seq<nat>, c: nat): Box
    requires |boxes| == |labels| && c in labels
  {
    MembersOfLabelNonEmpty(labels, c);
    UnionBox(Pick(boxes, Members(labels, c)))
  }

  /** The mean centroid of the members of cluster c. */
  function ClusterCentroid(cents: seq<Point>, labels: seq<nat>, c: nat): Point
    requires |cents| == |labels| && c in labels
  {
    MembersOfLabelNonEmpty(labels, c);
    Mean(Pick(cents, Members(labels, c)))
  }

  function GroupBoxes(boxes: seq<Box>, labels: seq<nat>): seq<Box>
    requires |boxes| == |labels| && LabelsInRange(labels)
  {
    var u := UniqueLabels(labels);
    seq(|u|, g requires 0 <= g < |u| => ClusterBox(boxes, labels, u[g]))
  }

  function GroupCentroids(cents: seq<Point>, labels: seq<nat>): seq<Point>
    requires |cents| == |labels| && LabelsInRange(labels)
  {
    var u := UniqueLabels(labels);
    seq(|u|, g requires 0 <= g < |u| => ClusterCentroid(cents, labels, u[g]))
  }

  /** The labels the chosen clustering gives the kept centroids. */
  function ClusterLabels(cents: seq<Point>, eps: real, grouping: Grouping): (labels: seq<nat>)
    ensures |labels| == |cents| && LabelsInRange(labels)
  {
    match grouping
    case Density => DensityLabels(cents, eps)
    case Singletons => SingletonLabels(|cents|)
  }

  /** What `find_spots_and_boxes` returns: (grouped boxes, grouped centroids), or DBSCAN's error. */
  function Detect(regions: seq<Region>, p: Params, grouping: Grouping): Result<(seq<Box>, seq<Point>), DetectError>
  {
    var cands := Candidates(regions, p);
    if cands == [] then Success(([], []))
    else if grouping == Density && p.minDistanceBetweenClusters <= 0.0 then Failure(NonPositiveEps)
    else
      var labels := ClusterLabels(CentroidsOf(cands), p.minDistanceBetweenClusters, grouping);
      Success((GroupBoxes(BoxesOf(cands), labels), GroupCentroids(CentroidsOf(cands), labels)))
  }

  /** The filter loop: the boxes and centroids of the admitted regions, in label order. */
  method FilterRegions(regions: seq<Region>, p: Params) returns (boxes: seq<Box>, cents: seq<Point>)
    ensures boxes == BoxesOf(Candidates(regions, p))
    ensures cents == CentroidsOf(Candidates(regions, p))
  {
    boxes, cents := [], [];
    if |regions| > 0 {
      for lbl := 1 to |regions|
        invariant boxes == BoxesOf(AdmittedBelow(regions, lbl, p))
        invariant cents == CentroidsOf(AdmittedBelow(regions, lbl, p))
      {
        var region := regions[lbl];
        if !(p.minArea < region.area < p.maxArea) {
          continue;
        }
        if !WithinDistance(region.centroid, p.sunCenter, DistanceLimit(p)) {
          continue;
        }
        boxes := boxes + [region.box];
        cents := cents + [region.centroid];
      }
    }
  }

  /** The per-cluster loop: one union box and one mean centroid per distinct label. */
  method GroupSpots(boxes: seq<Box>, cents: seq<Point>, labels: seq<nat>)
    returns (groupedBoxes: seq<Box>, groupedCentroids: seq<Point>)
    requires |boxes| == |labels| == |cents| && LabelsInRange(labels)
    ensures groupedBoxes == GroupBoxes(boxes, labels)
    ensures groupedCentroids == GroupCentroids(cents, labels)
  {
    var unique := UniqueLabels(labels);
    ghost var gb, gc := GroupBoxes(boxes, labels), GroupCentroids(cents, labels);
    groupedBoxes, groupedCentroids := [], [];
    for g := 0 to |unique|
      invariant groupedBoxes == gb[..g]
      invariant groupedCentroids == gc[..g]
    {
      var cluster := unique[g];
      var indices := Members(labels, cluster);
      MembersOfLabelNonEmpty(labels, cluster);
      var clusterBoxes := Pick(boxes, indices);
      var clusterCentroids := Pick(cents, indices);
      assert UnionBox(clusterBoxes) == gb[g];
      assert Mean(clusterCentroids) == gc[g];
      assert gb[..g + 1] == gb[..g] + [gb[g]];
      assert gc[..g + 1] == gc[..g] + [gc[g]];
      groupedBoxes := groupedBoxes + [UnionBox(clusterBoxes)];
      groupedCentroids := groupedCentroids + [Mean(clusterCentroids)];
    }
    assert gb[..|unique|] == gb;
    assert gc[..|unique|] == gc;
  }

  /** `find_spots_and_boxes` after the OpenCV preprocessing. */
  method FindSpotsAndBoxes(regions: seq<Region>, p: Params, grouping: Grouping)
    returns (r: Result<(seq<Box>, seq<Point>), DetectError>)
    ensures r == Detect(regions, p, grouping)
  {
    var filteredBoxes, filteredCentroids := FilterRegions(regions, p);
    if filteredBoxes == [] {
      return Success(([], []));
    }
    if grouping == Density && p.minDistanceBetweenClusters <= 0.0 {
      return Failure(NonPositiveEps);
    }
    var labels := ClusterLabels(filteredCentroids, p.minDistanceBetweenClusters, grouping);
    var groupedBoxes, groupedCentroids := GroupSpots(filteredBoxes, filteredCentroids, labels);
    return Success((groupedBoxes, groupedCentroids));
  }

  // ----- properties of the filter -----

  lemma {:induction false} AdmittedBelowExact(regions: seq<Region>, hi: nat, p: Params, c: Region)
    requires hi <= |regions|
    ensures c in AdmittedBelow(regions, hi, p) <==>
              exists l :: 1 <= l < hi && regions[l] == c && Admitted(c, p)
  {
    if hi > 1 {
      AdmittedBelowExact(regions, hi - 1, p, c);
    }
  }

  /**
   * A region is kept exactly when it is a non-background label that passes the filter:
   * its area strictly between the bounds and its centroid within the distance limit.
   */
  lemma CandidatesExact(regions: seq<Region>, p: Params, c: Region)
    ensures c in Candidates(regions, p) <==>
              exists l :: 1 <= l < |regions| && regions[l] == c && Admitted(c, p)
    ensures c in Candidates(regions, p) ==>
              p.minArea < c.area < p.maxArea && WithinDistance(c.centroid, p.sunCenter, DistanceLimit(p))
  {
    AdmittedBelowExact(regions, |regions|, p, c);
  }

  lemma {:induction false} AdmittedBelowIgnoresBackground(regions: seq<Region>, hi: nat, p: Params, background: Region)
    requires 0 < |regions| && hi <= |regions|
    ensures AdmittedBelow(regions[0 := background], hi, p) == AdmittedBelow(regions, hi, p)
  {
    if hi > 1 {
      AdmittedBelowIgnoresBackground(regions, hi - 1, p, background);
    }
  }

  /** Label 0 is the background: whatever its statistics, the kept regions are the same. */
  lemma CandidatesIgnoreBackground(regions: seq<Region>, p: Params, background: Region)
    requires 0 < |regions|
    ensures Candidates(regions[0 := background], p) == Candidates(regions, p)
  {
    AdmittedBelowIgnoresBackground(regions, |regions|, p, background);
  }

  /**
   * The filter in terms of the true Euclidean distance d of the centroid from the disk centre:
   * both area bounds are exclusive, and a centroid exactly at the limit is kept.
   */
  lemma AdmissionByDistance(r: Region, p: Params, d: real)
    requires 0.0 <= d && d * d == SqDist(r.centroid, p.sunCenter)
    ensures Admitted(r, p) <==> p.minArea < r.area < p.maxArea && d <= DistanceLimit(p)
  {
    WithinDistanceIsNorm(r.centroid, p.sunCenter, DistanceLimit(p), d);
  }

  // ----- properties of the grouping -----

  /** Every kept spot lies in exactly one group, and no group is empty. */
  lemma GroupsPartition(labels: seq<nat>, i: nat)
    requires LabelsInRange(labels) && i < |labels|
    ensures exists g :: 0 <= g < |Groups(labels)| && i in Groups(labels)[g]
    ensures forall g1, g2 ::
              (0 <= g1 < |Groups(labels)| && 0 <= g2 < |Groups(labels)| &&
               i in Groups(labels)[g1] && i in Groups(labels)[g2]) ==> g1 == g2
    ensures forall g :: 0 <= g < |Groups(labels)| ==> |Groups(labels)[g]| > 0
  {
    var u := UniqueLabels(labels);
    var gs := Groups(labels);
    assert labels[i] in u;
    var g :| 0 <= g < |u| && u[g] == labels[i];
    assert i in gs[g];
    forall g1, g2 | 0 <= g1 < |gs| && 0 <= g2 < |gs| && i in gs[g1] && i in gs[g2]
      ensures g1 == g2
    {
      assert u[g1] == labels[i] == u[g2];
    }
    forall g | 0 <= g < |gs|
      ensures |gs[g]| > 0
    {
      assert u[g] in u;
      MembersOfLabelNonEmpty(labels, u[g]);
    }
  }

  /**
   * Under DBSCAN with min_samples = 1, the group holding spot i holds exactly the spots linked
   * to i by a chain of centroids each at most eps from the next.
   */
  lemma DensityGroupsAreComponents(cents: seq<Point>, eps: real, g: nat, i: nat, j: nat)
    requires g < |Groups(DensityLabels(cents, eps))|
    requires i in Groups(DensityLabels(cents, eps))[g] && j < |cents|
    ensures j in Groups(DensityLabels(cents, eps))[g] <==> Linked(cents, eps, i, j)
  {
    var labels := DensityLabels(cents, eps);
    assert i < |cents|;
    DensityLabelsAreComponents(cents, eps, i, j);
  }

  /** outer contains inner: no edge of inner lies outside outer. */
  predicate Contains(outer: Box, inner: Box)
  {
    outer.x <= inner.x && outer.y <= inner.y && inner.Right() <= outer.Right() && inner.Bottom() <= outer.Bottom()
  }

  /**
   * The union box contains every member box, and each of its four edges is an edge of some
   * member (left and top are member minima, right and bottom member maxima).
   */
  lemma UnionBoxTight(bs: seq<Box>)
    requires |bs| > 0
    ensures forall k :: 0 <= k < |bs| ==> Contains(UnionBox(bs), bs[k])
    ensures exists k :: 0 <= k < |bs| && bs[k].x == UnionBox(bs).x
    ensures exists k :: 0 <= k < |bs| && bs[k].y == UnionBox(bs).y
    ensures exists k :: 0 <= k < |bs| && bs[k].Right() == UnionBox(bs).Right()
    ensures exists k :: 0 <= k < |bs| && bs[k].Bottom() == UnionBox(bs).Bottom()
  {
    var u := UnionBox(bs);
    forall k | 0 <= k < |bs|
      ensures Contains(u, bs[k])
    {
      assert Lefts(bs)[k] == bs[k].x && Tops(bs)[k] == bs[k].y;
      assert Rights(bs)[k] == bs[k].Right() && Bottoms(bs)[k] == bs[k].Bottom();
    }
    var a :| 0 <= a < |bs| && Lefts(bs)[a] == u.x;
    var b :| 0 <= b < |bs| && Tops(bs)[b] == u.y;
    var c :| 0 <= c < |bs| && Rights(bs)[c] == u.Right();
    var d :| 0 <= d < |bs| && Bottoms(bs)[d] == u.Bottom();
  }

  lemma {:induction false} SumXBounds(ps: seq<Point>, lo: real, hi: real)
    requires forall k :: 0 <= k < |ps| ==> lo <= ps[k].x <= hi
    ensures |ps| as real * lo <= SumX(ps) <= |ps| as real * hi
  {
    if ps != [] {
      SumXBounds(ps[..|ps| - 1], lo, hi);
    }
  }

  lemma {:induction false} SumYBounds(ps: seq<Point>, lo: real, hi: real)
    requires forall k :: 0 <= k < |ps| ==> lo <= ps[k].y <= hi
    ensures |ps| as real * lo <= SumY(ps) <= |ps| as real * hi
  {
    if ps != [] {
      SumYBounds(ps[..|ps| - 1], lo, hi);
    }
  }

  lemma DivBounds(s: real, n: real, lo: real, hi: real)
    requires 0.0 < n && n * lo <= s <= n * hi
    ensures lo <= s / n <= hi
  {
    var q := s / n;
    assert (q - lo) * n == s - n * lo;
    assert (hi - q) * n == n * hi - s;
  }

  /** The mean centroid lies within any axis-aligned rectangle that holds all member centroids. */
  lemma MeanWithinBounds(ps: seq<Point>, lo: Point, hi: Point)
    requires |ps| > 0
    requires forall k :: 0 <= k < |ps| ==> lo.x <= ps[k].x <= hi.x && lo.y <= ps[k].y <= hi.y
    ensures lo.x <= Mean(ps).x <= hi.x && lo.y <= Mean(ps).y <= hi.y
  {
    SumXBounds(ps, lo.x, hi.x);
    SumYBounds(ps, lo.y, hi.y);
    DivBounds(SumX(ps), |ps| as real, lo.x, hi.x);
    DivBounds(SumY(ps), |ps| as real, lo.y, hi.y);
  }

  /**
   * What a successful detection reports: as many boxes as centroids, one per group of the
   * chosen clustering; each box is the union of its members' boxes and each centroid the mean
   * of its members' centroids.
   */
  lemma DetectReportsGroups(regions: seq<Region>, p: Params, grouping: Grouping, g: nat)
    requires Detect(regions, p, grouping).Success?
    requires Candidates(regions, p) != []
    requires g < |Detect(regions, p, grouping).value.0|
    ensures var (bs, cs) := Detect(regions, p, grouping).value;
            var cands := Candidates(regions, p);
            var members := Groups(ClusterLabels(CentroidsOf(cands), p.minDistanceBetweenClusters, grouping))[g];
            && |bs| == |cs| == |Groups(ClusterLabels(CentroidsOf(cands), p.minDistanceBetweenClusters, grouping))|
            && |members| > 0
            && (forall k :: k in members ==> k < |cands| && Contains(bs[g], cands[k].box))
            && bs[g] == UnionBox(Pick(BoxesOf(cands), members))
            && cs[g] == Mean(Pick(CentroidsOf(cands), members))
  {
    var cands := Candidates(regions, p);
    var labels := ClusterLabels(CentroidsOf(cands), p.minDistanceBetweenClusters, grouping);
    var u := UniqueLabels(labels);
    var members := Groups(labels)[g];
    assert u[g] in u;
    MembersOfLabelNonEmpty(labels, u[g]);
    var picked := Pick(BoxesOf(cands), members);
    UnionBoxTight(picked);
    forall k | k in members
      ensures k < |cands| && Contains(GroupBoxes(BoxesOf(cands), labels)[g], cands[k].box)
    {
      var a :| 0 <= a < |members| && members[a] == k;
      assert picked[a] == cands[k].box;
    }
  }

  lemma {:induction false} UniqueBelowOfSingletons(n: nat, c: nat)
    requires c <= n
    ensures UniqueBelow(SingletonLabels(n), c) == seq(c, i => i)
  {
    if c > 0 {
      UniqueBelowOfSingletons(n, c - 1);
      assert SingletonLabels(n)[c - 1] == c - 1;
    }
  }

  lemma {:induction false} MembersBelowOfSingletons(n: nat, c: nat, hi: nat)
    requires c < n && hi <= n
    ensures MembersBelow(SingletonLabels(n), c, hi) == if c < hi then [c] else []
  {
    if hi > 0 {
      var labels := SingletonLabels(n);
      MembersBelowOfSingletons(n, c, hi - 1);
      var prev := MembersBelow(labels, c, hi - 1);
      assert labels[hi - 1] == hi - 1;
      if hi - 1 == c {
        assert prev == [];
        assert MembersBelow(labels, c, hi) == prev + [hi - 1];
      } else {
        assert MembersBelow(labels, c, hi) == prev + [];
      }
    }
  }

  /** A single box is its own union. */
  lemma UnionBoxOfOne(b: Box)
    ensures UnionBox([b]) == b
  {
    assert Lefts([b]) == [b.x] && Tops([b]) == [b.y];
    assert Rights([b]) == [b.Right()] && Bottoms([b]) == [b.Bottom()];
  }

  /** A single centroid is its own mean. */
  lemma MeanOfOne(c: Point)
    ensures Mean([c]) == c
  {
    assert [c][..0] == [];
    assert SumX([c]) == SumX([c][..0]) + c.x && SumY([c]) == SumY([c][..0]) + c.y;
  }

  lemma SingletonGroup(boxes: seq<Box>, cents: seq<Point>, g: nat)
    requires |boxes| == |cents| && g < |boxes|
    ensures SingletonLabels(|boxes|)[g] == g
    ensures ClusterBox(boxes, SingletonLabels(|boxes|), g) == boxes[g]
    ensures ClusterCentroid(cents, SingletonLabels(|boxes|), g) == cents[g]
  {
    var labels := SingletonLabels(|boxes|);
    assert labels[g] == g;
    MembersBelowOfSingletons(|boxes|, g, |boxes|);
    assert Pick(boxes, [g]) == [boxes[g]];
    assert Pick(cents, [g]) == [cents[g]];
    UnionBoxOfOne(boxes[g]);
    MeanOfOne(cents[g]);
  }

  /**
   * The ImportError fallback makes every kept spot its own cluster, so the detector returns
   * the filtered boxes and centroids unchanged and in label order.
   */
  lemma FallbackKeepsSpots(regions: seq<Region>, p: Params)
    ensures Detect(regions, p, Singletons) ==
              Success((BoxesOf(Candidates(regions, p)), CentroidsOf(Candidates(regions, p))))
  {
    var cands := Candidates(regions, p);
    if cands != [] {
      var n := |cands|;
      var labels := SingletonLabels(n);
      UniqueBelowOfSingletons(n, n);
      var bs, cs := GroupBoxes(BoxesOf(cands), labels), GroupCentroids(CentroidsOf(cands), labels);
      assert |UniqueLabels(labels)| == n;
      forall g | 0 <= g < n
        ensures bs[g] == BoxesOf(cands)[g] && cs[g] == CentroidsOf(cands)[g]
      {
        SingletonGroup(BoxesOf(cands), CentroidsOf(cands), g);
      }
      assert bs == BoxesOf(cands) && cs == CentroidsOf(cands);
      assert ClusterLabels(CentroidsOf(cands), p.minDistanceBetweenClusters, Singletons) == labels;
    }
  }

  /**
   * With the default clustering radius of 20 the detector never fails, and it always returns
   * as many centroids as boxes.
   */
  lemma DefaultDetectSucceeds(regions: seq<Region>, sunRadius: int, sunCenter: Point, grouping: Grouping)
    ensures Detect(regions, DefaultParams(sunRadius, sunCenter), grouping).Success?
    ensures var (bs, cs) := Detect(regions, DefaultParams(sunRadius, sunCenter), grouping).value; |bs| == |cs|
  {
  }

  /** The detector reports no spot exactly when no region passes the admission filter. */
  lemma DetectEmptyIffNoCandidates(regions: seq<Region>, p: Params, grouping: Grouping)
    requires Detect(regions, p, grouping).Success?
    ensures Detect(regions, p, grouping).value.0 == [] <==> Candidates(regions, p) == []
    ensures Detect(regions, p, grouping).value.1 == [] <==> Candidates(regions, p) == []
  {
    var cands := Candidates(regions, p);
    if cands != [] {
      var labels := ClusterLabels(CentroidsOf(cands), p.minDistanceBetweenClusters, grouping);
      GroupsPartition(labels, 0);
      assert |UniqueLabels(labels)| > 0;
    }
  }
}
