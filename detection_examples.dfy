/**
 * Scenes for the detector, with the labelling step's output written out: spots on a
 * 300 x 300 image, the disk centred at (150, 150) with radius 150, areas 1000 .. 5000,
 * ratio 0.9 and a clustering radius of 100. The first two are the scenes of the detector's
 * own tests; the third shows two separate regions merged by the clustering.
 */
module DetectionExamples {
  import opened Wrappers
  import opened Geometry
  import opened Clustering
  import opened Sequences
  import opened SpotDetection

  function TestParams(): Params
  {
    Params(150, Point(150.0, 150.0), 5000, 1000, 0.9, 100.0)
  }

  /** A filled disk of radius 20 centred at (cx, cy), as connected-component statistics. */
  function DiskSpot(cx: int, cy: int): Region
  {
    Region(1257, Point(cx as real, cy as real), Box(cx - 20, cy - 20, 41, 41))
  }

  /** The background component, label 0. */
  function Background(): Region
  {
    Region(87486, Point(150.0, 150.0), Box(0, 0, 300, 300))
  }

  lemma BothSpotsAdmitted(a: Region, b: Region)
    requires Admitted(a, TestParams()) && Admitted(b, TestParams())
    ensures Candidates([Background(), a, b], TestParams()) == [a, b]
  {
    var regions := [Background(), a, b];
    assert AdmittedBelow(regions, 1, TestParams()) == [];
    assert AdmittedBelow(regions, 2, TestParams()) == [a];
  }

  lemma DistantSpotsUnlinked(cents: seq<Point>)
    requires cents == [Point(100.0, 100.0), Point(200.0, 200.0)]
    ensures DensityLabels(cents, 100.0) == [0, 1]
  {
    var eps := 100.0;
    assert !Near(cents, eps, 0, 1);
    assert Expand(cents, eps, {0}) == {0};
    forall path | IsChain(cents, eps, path) && path[0] == 0
      ensures path[|path| - 1] != 1
    {
      ChainStaysInClosed(cents, eps, {0}, path, |path| - 1);
    }
    DensityLabelsAreComponents(cents, eps, 0, 1);
  }

  /** When DBSCAN leaves every spot in a cluster of its own, the filtered spots come out unchanged. */
  lemma UnlinkedSpotsKept(regions: seq<Region>, p: Params)
    requires Candidates(regions, p) != [] && 0.0 < p.minDistanceBetweenClusters
    requires DensityLabels(CentroidsOf(Candidates(regions, p)), p.minDistanceBetweenClusters) ==
             SingletonLabels(|Candidates(regions, p)|)
    ensures Detect(regions, p, Density) ==
              Success((BoxesOf(Candidates(regions, p)), CentroidsOf(Candidates(regions, p))))
  {
    FallbackKeepsSpots(regions, p);
  }

  /** Spots 100 * sqrt 2 apart, farther than the radius, stay two groups at their own centres. */
  lemma DistantSpotsStaySeparate()
    ensures Detect([Background(), DiskSpot(100, 100), DiskSpot(200, 200)], TestParams(), Density) ==
              Success(([Box(80, 80, 41, 41), Box(180, 180, 41, 41)], [Point(100.0, 100.0), Point(200.0, 200.0)]))
  {
    var a, b := DiskSpot(100, 100), DiskSpot(200, 200);
    var regions := [Background(), a, b];
    assert Admitted(a, TestParams()) && Admitted(b, TestParams());
    BothSpotsAdmitted(a, b);
    var cents := [a.centroid, b.centroid];
    assert CentroidsOf([a, b]) == cents;
    assert BoxesOf([a, b]) == [a.box, b.box];
    DistantSpotsUnlinked(cents);
    assert [0, 1] == SingletonLabels(2);
    UnlinkedSpotsKept(regions, TestParams());
  }

  /**
   * Two filled disks of radius 20 at (100, 100) and (110, 110) overlap, so the labelling step
   * sees one region: the union of the disks, about 1811 pixels, centred at (105, 105), with
   * the box from (80, 80) to (130, 130).
   */
  function OverlappingDisks(): Region
  {
    Region(1811, Point(105.0, 105.0), Box(80, 80, 51, 51))
  }

  /** The overlapping disks are reported as one group, centred at (105, 105). */
  lemma OverlappingDisksFormOneGroup()
    ensures Detect([Background(), OverlappingDisks()], TestParams(), Density) ==
              Success(([Box(80, 80, 51, 51)], [Point(105.0, 105.0)]))
  {
    var r := OverlappingDisks();
    var regions := [Background(), r];
    assert Admitted(r, TestParams());
    assert AdmittedBelow(regions, 1, TestParams()) == [];
    assert Candidates(regions, TestParams()) == [r];
    assert CentroidsOf([r]) == [r.centroid];
    assert BoxesOf([r]) == [r.box];
    assert DensityLabels([r.centroid], 100.0) == SingletonLabels(1);
    UnlinkedSpotsKept(regions, TestParams());
  }

  lemma SharedLabelIsUnique()
    ensures UniqueLabels([0, 0]) == [0]
  {
    var labels: seq<nat> := [0, 0];
    assert 1 !in labels;
    assert UniqueBelow(labels, 1) == [0];
  }

  lemma SharedLabelMembers()
    ensures Members([0, 0], 0) == [0, 1]
  {
    var labels: seq<nat> := [0, 0];
    assert MembersBelow(labels, 0, 1) == [0];
  }

  /** Two spots sharing label 0 form one group: the union of both boxes. */
  lemma SharedBox(xs: seq<Box>)
    requires |xs| == 2
    ensures ClusterBox(xs, [0, 0], 0) == UnionBox(xs)
  {
    SharedLabelMembers();
    assert Pick(xs, [0, 1]) == xs;
  }

  lemma OneBoxOfTwo(b0: Box, b1: Box)
    ensures GroupBoxes([b0, b1], [0, 0]) == [UnionBox([b0, b1])]
  {
    var labels: seq<nat> := [0, 0];
    SharedLabelIsUnique();
    SharedBox([b0, b1]);
    var groups := GroupBoxes([b0, b1], labels);
    assert groups[0] == ClusterBox([b0, b1], labels, 0);
  }



  /** Two spots sharing label 0 form one group: the mean of both centroids. */
  lemma SharedCentroid(xs: seq<Point>)
    requires |xs| == 2
    ensures ClusterCentroid(xs, [0, 0], 0) == Mean(xs)
  {
    SharedLabelMembers();
    assert Pick(xs, [0, 1]) == xs;
  }

  lemma OneCentroidOfTwo(c0: Point, c1: Point)
    ensures GroupCentroids([c0, c1], [0, 0]) == [Mean([c0, c1])]
  {
    var labels: seq<nat> := [0, 0];
    SharedLabelIsUnique();
    SharedCentroid([c0, c1]);
    var groups := GroupCentroids([c0, c1], labels);
    assert groups[0] == ClusterCentroid([c0, c1], labels, 0);
  }



  lemma CloseSpotsLinked(cents: seq<Point>)
    requires cents == [Point(100.0, 100.0), Point(130.0, 130.0)]
    ensures DensityLabels(cents, 100.0) == [0, 0]
  {
    var eps := 100.0;
    assert Near(cents, eps, 0, 1);
    LinkedReflexive(cents, eps, 0);
    LinkedStep(cents, eps, 0, 0, 1);
    DensityLabelsAreComponents(cents, eps, 0, 1);
  }

  /**
   * Disks of radius 20 at (100, 100) and (130, 130) do not touch, so they are two regions, but
   * their centroids lie 30 * sqrt 2 apart, within the radius: one group, centred at the
   * midpoint (115, 115), whose box spans both disks.
   */
  lemma NearbySpotsMerge()
    ensures Detect([Background(), DiskSpot(100, 100), DiskSpot(130, 130)], TestParams(), Density) ==
              Success(([Box(80, 80, 71, 71)], [Point(115.0, 115.0)]))
  {
    var a, b := DiskSpot(100, 100), DiskSpot(130, 130);
    assert Admitted(a, TestParams()) && Admitted(b, TestParams());
    BothSpotsAdmitted(a, b);
    var cents := [a.centroid, b.centroid];
    assert CentroidsOf([a, b]) == cents;
    assert BoxesOf([a, b]) == [a.box, b.box];
    CloseSpotsLinked(cents);
    OneBoxOfTwo(a.box, b.box);
    OneCentroidOfTwo(a.centroid, b.centroid);
    assert cents[..1] == [a.centroid];
    assert SumX(cents[..1]) == 100.0 && SumY(cents[..1]) == 100.0;
    assert SumX(cents) == 230.0 && SumY(cents) == 230.0;
    assert Lefts([a.box, b.box]) == [80, 110];
    assert Tops([a.box, b.box]) == [80, 110];
    assert Rights([a.box, b.box]) == [121, 151];
    assert Bottoms([a.box, b.box]) == [121, 151];
  }
}
