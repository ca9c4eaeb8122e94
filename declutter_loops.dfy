/**
 * The loops of the recompute as the engine runs them: the candidate list is
 * built by appending, and the candidates' claim flags, held in an array, are
 * flipped in place by the reuse pass and the greedy pass. Each method is proved equal
 * to the matching function of Declutter, applied to the code as written.
 */
module DeclutterLoops {
  import opened Wrappers
  import opened Geometry
  import opened Labels
  import opened Declutter

  /** Culls the store to its unoccluded, on-screen labels, appending one candidate per label. */
  method CollectPoints(labels: seq<Label>, scene: Scene) returns (points: seq<ScreenPoint>)
    ensures points == Candidates(labels, scene)
  {
    points := [];
    var i := 0;
    while i < |labels|
      invariant 0 <= i <= |labels|
      invariant points == Candidates(labels[..i], scene)
    {
      assert labels[..i + 1][..i] == labels[..i];
      var lab := labels[i];
      if scene.isPointVisible(lab.position) {
        var coord := scene.labelScreenPosition(lab);
        if OnScreen(coord, scene) {
          points := points + [ScreenPoint(i, coord.value)];
        }
      }
      i := i + 1;
    }
    assert labels[..i] == labels;
  }

  /** The claim flags of a recompute's candidates, all clear. */
  method NewFlags(n: nat) returns (clustered: array<bool>)
    ensures fresh(clustered) && clustered[..] == Unclaimed(n)
  {
    clustered := new bool[n](_ => false);
  }

  /**
   * The inner loop of a reuse step: claims every unclaimed neighbour, counting
   * them and collecting their labels.
   */
  method ClaimNeighbors(cands: seq<ScreenPoint>, clustered: array<bool>, neighbors: seq<nat>)
    returns (numPoints: nat, ids: seq<nat>, ghost claimed: seq<nat>)
    requires clustered.Length == |cands| && InRange(neighbors, |cands|)
    modifies clustered
    ensures (clustered[..], claimed) == Claim(old(clustered[..]), neighbors)
    ensures InRange(claimed, |cands|)
    ensures numPoints == |claimed| && ids == LabelIds(cands, claimed)
  {
    ghost var before := clustered[..];
    numPoints, ids, claimed := 0, [], [];
    var j := 0;
    while j < |neighbors|
      invariant 0 <= j <= |neighbors|
      invariant (clustered[..], claimed) == Claim(before, neighbors[..j])
      invariant InRange(claimed, |cands|)
      invariant numPoints == |claimed| && ids == LabelIds(cands, claimed)
    {
      assert neighbors[..j + 1][..j] == neighbors[..j];
      var k := neighbors[j];
      if !clustered[k] {
        clustered[k] := true;
        numPoints := numPoints + 1;
        ids := ids + [cands[k].labelIndex];
        claimed := claimed + [k];
      }
      j := j + 1;
    }
    assert neighbors[..j] == neighbors;
  }

  /**
   * The reuse pass: for each previous cluster that is unoccluded and on
   * screen, claims the unclaimed points within its radius; with more than
   * one, keeps the cluster and emits a marker of them at its position.
   */
  method ReusePass(labels: seq<Label>, cands: seq<ScreenPoint>, coords: seq<Vec2>, scene: Scene,
                   clustered: array<bool>, previous: seq<Cluster>)
    returns (render: seq<RenderEntry>, kept: seq<Cluster>, ghost dropped: nat)
    requires WithinInRange(scene) && coords == Coords(cands) && clustered.Length == |cands|
    modifies clustered
    ensures var s := Reuse(labels, cands, scene, AsWritten, PassState(old(clustered[..]), [], [], 0), previous);
            clustered[..] == s.flags && render == s.render && kept == s.clusters && dropped == s.dropped
  {
    ghost var start := PassState(clustered[..], [], [], 0);
    render, kept, dropped := [], [], 0;
    var i := 0;
    while i < |previous|
      invariant 0 <= i <= |previous|
      invariant PassState(clustered[..], render, kept, dropped) == Reuse(labels, cands, scene, AsWritten, start, previous[..i])
    {
      assert previous[..i + 1][..i] == previous[..i];
      ghost var st := PassState(clustered[..], render, kept, dropped);
      var cluster := previous[i];
      if scene.isPointVisible(cluster.position) {
        var coord := scene.clusterScreenPosition(cluster.position);
        if OnScreen(coord, scene) {
          var neighbors := scene.within(coords, coord.value.x, coord.value.y, cluster.radius);
          var numPoints, ids, claimed := ClaimNeighbors(cands, clustered, neighbors);
          if numPoints > 1 {
            kept := kept + [cluster];
            render := render + [Marker(numPoints, cluster.position, ids)];
          } else {
            dropped := dropped + numPoints;
          }
        }
      }
      assert PassState(clustered[..], render, kept, dropped) == ReuseStep(labels, cands, scene, AsWritten, st, cluster);
      i := i + 1;
    }
    assert previous[..i] == previous;
  }

  /**
   * One neighbour of the inner loop of a greedy step: if still unclaimed,
   * claims it, adds its label's position to the running sum, unites its box
   * into the seed's box, and collects its label.
   */
  method AbsorbNeighbor(labels: seq<Label>, cands: seq<ScreenPoint>, pixelRange: real,
                        clustered: array<bool>, k: nat,
                        numPoints0: nat, clusterPosition0: Vec3, bbox0: Rect, ids0: seq<nat>, ghost claimed0: seq<nat>)
    returns (numPoints: nat, clusterPosition: Vec3, bbox: Rect, ids: seq<nat>, ghost claimed: seq<nat>)
    requires Measured(labels, cands)
    requires clustered.Length == |cands| && k < |cands|
    modifies clustered
    ensures Gathering(clustered[..], claimed, numPoints, clusterPosition, bbox, ids)
            == GatherStep(labels, cands, pixelRange,
                          Gathering(old(clustered[..]), claimed0, numPoints0, clusterPosition0, bbox0, ids0), k)
  {
    numPoints, clusterPosition, bbox, ids, claimed := numPoints0, clusterPosition0, bbox0, ids0, claimed0;
    if !clustered[k] {
      clustered[k] := true;
      var p := cands[k];
      var neighborLabel := labels[p.labelIndex];
      clusterPosition := Add(clusterPosition, neighborLabel.position);
      var neighborBox := GetLabelBoundingBox(neighborLabel, p.coord, pixelRange);
      bbox := Union(bbox, neighborBox);
      numPoints := numPoints + 1;
      ids := ids + [p.labelIndex];
      claimed := claimed + [k];
    }
  }

  /** The inner loop of a greedy step: visits the neighbours in query order. */
  method AbsorbNeighbors(labels: seq<Label>, cands: seq<ScreenPoint>, pixelRange: real,
                         clustered: array<bool>, neighbors: seq<nat>, seedPosition: Vec3, seedBox: Rect)
    returns (numPoints: nat, clusterPosition: Vec3, bbox: Rect, ids: seq<nat>, ghost claimed: seq<nat>)
    requires Measured(labels, cands)
    requires clustered.Length == |cands| && InRange(neighbors, |cands|)
    modifies clustered
    ensures Gathering(clustered[..], claimed, numPoints, clusterPosition, bbox, ids)
            == Gather(labels, cands, pixelRange, old(clustered[..]), neighbors, seedPosition, seedBox)
  {
    ghost var before := clustered[..];
    numPoints, clusterPosition, bbox, ids, claimed := 1, seedPosition, seedBox, [], [];
    var j := 0;
    while j < |neighbors|
      invariant 0 <= j <= |neighbors|
      invariant Gathering(clustered[..], claimed, numPoints, clusterPosition, bbox, ids)
                == Gather(labels, cands, pixelRange, before, neighbors[..j], seedPosition, seedBox)
    {
      assert neighbors[..j + 1][..j] == neighbors[..j];
      numPoints, clusterPosition, bbox, ids, claimed :=
        AbsorbNeighbor(labels, cands, pixelRange, clustered, neighbors[j], numPoints, clusterPosition, bbox, ids, claimed);
      j := j + 1;
    }
    assert neighbors[..j] == neighbors;
  }

  /**
   * One visit of the greedy pass: an unclaimed candidate claims itself and its
   * unclaimed neighbours within its box's width of the box's corner; alone it
   * is shown as a copy of its label, otherwise as a marker at the mean
   * position, and a new cluster is kept.
   */
  method GreedyVisit(labels: seq<Label>, cands: seq<ScreenPoint>, coords: seq<Vec2>, scene: Scene,
                     pixelRange: real, clustered: array<bool>, i: nat,
                     render0: seq<RenderEntry>, kept0: seq<Cluster>, ghost dropped: nat)
    returns (render: seq<RenderEntry>, kept: seq<Cluster>)
    requires Setting(labels, cands, scene)
    requires coords == Coords(cands) && clustered.Length == |cands| && i < |cands|
    modifies clustered
    ensures PassState(clustered[..], render, kept, dropped)
            == GreedyStep(labels, cands, scene, pixelRange, AsWritten, PassState(old(clustered[..]), render0, kept0, dropped), i)
  {
    ghost var st := PassState(clustered[..], render0, kept0, dropped);
    render, kept := render0, kept0;
    if clustered[i] {
      return;
    }
    clustered[i] := true;
    var point := cands[i];
    var lab := labels[point.labelIndex];
    var bbox := GetLabelBoundingBox(lab, point.coord, pixelRange);
    var neighbors := scene.within(coords, bbox.x, bbox.y, bbox.width);
    ghost var seeded := clustered[..];
    var numPoints, clusterPosition, grown, ids, claimed :=
      AbsorbNeighbors(labels, cands, pixelRange, clustered, neighbors, lab.position, bbox);
    GatherIsClaim(labels, cands, pixelRange, seeded, neighbors, lab.position, bbox);
    if numPoints == 1 {
      render := render + [Copy(CloneLabel(lab, AsWritten))];
    } else {
      var position := Scale(clusterPosition, 1.0 / (numPoints as real));
      render := render + [Marker(numPoints, position, ids)];
      kept := kept + [Cluster(position, Max(grown.width, grown.height) * 0.5)];
      assert Marker(numPoints, position, ids) == GreedyMarker(labels, cands, pixelRange, AsWritten, i, claimed);
      assert Cluster(position, Max(grown.width, grown.height) * 0.5) == GreedyCluster(labels, cands, pixelRange, i, claimed);
    }
    assert PassState(clustered[..], render, kept, dropped) == Absorb(labels, cands, pixelRange, AsWritten, st, i, neighbors);
  }

  /** The greedy pass: visits every candidate in store order. */
  method GreedyPass(labels: seq<Label>, cands: seq<ScreenPoint>, coords: seq<Vec2>, scene: Scene,
                    pixelRange: real, clustered: array<bool>,
                    render0: seq<RenderEntry>, kept0: seq<Cluster>, ghost dropped: nat)
    returns (render: seq<RenderEntry>, kept: seq<Cluster>)
    requires Setting(labels, cands, scene)
    requires coords == Coords(cands) && clustered.Length == |cands|
    modifies clustered
    ensures var s := Greedy(labels, cands, scene, pixelRange, AsWritten,
                            PassState(old(clustered[..]), render0, kept0, dropped), |cands|);
            clustered[..] == s.flags && render == s.render && kept == s.clusters
  {
    ghost var start := PassState(clustered[..], render0, kept0, dropped);
    render, kept := render0, kept0;
    var i := 0;
    while i < clustered.Length
      invariant 0 <= i <= clustered.Length == |cands|
      invariant PassState(clustered[..], render, kept, dropped)
                == Greedy(labels, cands, scene, pixelRange, AsWritten, start, i)
    {
      render, kept := GreedyVisit(labels, cands, coords, scene, pixelRange, clustered, i, render, kept, dropped);
      i := i + 1;
    }
  }

  /**
   * One recompute over the store, once it has not returned early: collect
   * the candidates, clear their flags, run the reuse pass when the camera has
   * not gone up, then the greedy pass. The entries and kept clusters are
   * those of the recompute as written.
   */
  method RecomputePasses(store: seq<Label>, pixelRange: real, previous: seq<Cluster>,
                         previousHeight: Option<real>, scene: Scene)
    returns (render: seq<RenderEntry>, kept: seq<Cluster>)
    requires Ready(store, scene)
    ensures var r := Recompute(store, pixelRange, previous, previousHeight, scene, AsWritten);
            render == r.render && kept == r.clusters
  {
    var cands := CollectPoints(store, scene);
    var coords := Coords(cands);
    var clustered := NewFlags(|cands|);
    render, kept := [], [];
    ghost var dropped: nat := 0;
    if ReuseRuns(scene.cameraHeight, previousHeight) {
      render, kept, dropped := ReusePass(store, cands, coords, scene, clustered, previous);
    }
    render, kept := GreedyPass(store, cands, coords, scene, pixelRange, clustered, render, kept, dropped);
  }
}
