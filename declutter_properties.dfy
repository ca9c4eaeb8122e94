/**
 * What one recompute produces: every candidate accounted for, kept clusters
 * paired with multi-point markers, the reuse pass gated on the camera height,
 * marker membership, centroids and radii.
 */
module DeclutterProperties {
  import opened Wrappers
  import opened Geometry
  import opened Labels
  import opened Declutter

  // ---------------------------------------------------------------- accounting

  /** When every point is claimed, the claimed count is the number of points. */
  lemma {:induction false} AllClaimedCount(flags: seq<bool>)
    requires forall k | 0 <= k < |flags| :: flags[k]
    decreases |flags|
    ensures ClaimedCount(flags) == |flags|
  {
    if flags != [] {
      AllClaimedCount(flags[..|flags| - 1]);
    }
  }

  /** Before any pass, nothing is claimed, emitted or kept. */
  lemma {:induction false} StartConsistent(labels: seq<Label>, scene: Scene)
    ensures Consistent(PassState(Unclaimed(|Candidates(labels, scene)|), [], [], 0), Candidates(labels, scene))
  {
    NoneClaimedCount(Unclaimed(|Candidates(labels, scene)|));
  }

  /** When no point is claimed, the claimed count is zero. */
  lemma {:induction false} NoneClaimedCount(flags: seq<bool>)
    requires forall k | 0 <= k < |flags| :: !flags[k]
    decreases |flags|
    ensures ClaimedCount(flags) == 0
  {
    if flags != [] {
      NoneClaimedCount(flags[..|flags| - 1]);
    }
  }

  /**
   * Coverage. After a recompute every candidate is claimed, and the entries
   * stand for all of them except those claimed by a reuse step that emitted
   * nothing: a copy for one point, a marker for `count` points. Without the
   * reuse pass, or with the corrected reuse step, nothing is dropped. Every
   * kept cluster pairs with a marker of more than one point at its position.
   */
  lemma RecomputeAccounting(labels: seq<Label>, pixelRange: real, previous: seq<Cluster>,
                            previousHeight: Option<real>, scene: Scene, v: Variant)
    requires Ready(labels, scene)
    ensures var out := Recompute(labels, pixelRange, previous, previousHeight, scene, v);
            var n := |Candidates(labels, scene)|;
            && |out.flags| == n
            && (forall k | 0 <= k < n :: out.flags[k])
            && Tally(out.render) + out.dropped == n
            && (v == Corrected ==> Tally(out.render) == n)
            && (!ReuseRuns(scene.cameraHeight, previousHeight) ==> Tally(out.render) == n)
            && Paired(out.render, out.clusters)
  {
    var cands := Candidates(labels, scene);
    var start := PassState(Unclaimed(|cands|), [], [], 0);
    StartConsistent(labels, scene);
    var mid := AfterReuse(labels, scene, previous, previousHeight, v);
    if ReuseRuns(scene.cameraHeight, previousHeight) {
      ReusePreserves(labels, cands, scene, v, start, previous);
    }
    assert Consistent(mid, cands);
    assert v == Corrected || !ReuseRuns(scene.cameraHeight, previousHeight) ==> mid.dropped == 0;
    var out := Greedy(labels, cands, scene, pixelRange, v, mid, |cands|);
    GreedyClaims(labels, cands, scene, pixelRange, v, mid, |cands|);
    GreedyKeeps(labels, cands, scene, pixelRange, v, mid, |cands|);
    GreedyCounted(labels, cands, scene, pixelRange, v, mid, |cands|);
    GreedyPaired(labels, cands, scene, pixelRange, v, mid, |cands|);
    AllClaimedCount(out.flags);
  }

  // ---------------------------------------------------------------- hidden labels

  /** The label projection does not look at whether a label is shown. */
  ghost predicate ProjectionIgnoresShow(scene: Scene) {
    forall lab: Label :: scene.labelScreenPosition(lab.(show := false)) == scene.labelScreenPosition(lab)
  }

  /**
   * Hiding a label, as removing its entity does, leaves the candidates of a
   * recompute as they were: the hidden label is still clustered, and still
   * counted in markers.
   */
  lemma {:induction false} HiddenLabelStillCandidate(labels: seq<Label>, scene: Scene, k: nat)
    requires k < |labels| && ProjectionIgnoresShow(scene)
    ensures Candidates(labels[k := labels[k].(show := false)], scene) == Candidates(labels, scene)
  {
    var hidden := labels[k := labels[k].(show := false)];
    var n := |labels| - 1;
    assert hidden[n].position == labels[n].position;
    assert scene.labelScreenPosition(hidden[n]) == scene.labelScreenPosition(labels[n]);
    if k == n {
      assert hidden[..n] == labels[..n];
    } else {
      assert hidden[..n] == labels[..n][k := labels[k].(show := false)];
      HiddenLabelStillCandidate(labels[..n], scene, k);
    }
  }

  // ---------------------------------------------------------------- reuse gating

  /**
   * When the camera has gone up, or there is no previous height (the first
   * recompute after construction), the previous clusters play no part.
   */
  lemma ReuseSkippedWhenRising(labels: seq<Label>, pixelRange: real, previous: seq<Cluster>,
                               previousHeight: Option<real>, scene: Scene, v: Variant)
    requires Ready(labels, scene)
    requires previousHeight.None? || scene.cameraHeight > previousHeight.value
    ensures Recompute(labels, pixelRange, previous, previousHeight, scene, v)
            == Recompute(labels, pixelRange, [], previousHeight, scene, v)
    ensures AfterReuse(labels, scene, previous, previousHeight, v)
            == PassState(Unclaimed(|Candidates(labels, scene)|), [], [], 0)
  {
  }

  /**
   * A visible previous cluster whose radius holds exactly one unclaimed point
   * `k`: as written, the step claims `k` and emits nothing, so `k` is shown
   * neither by this step nor, being claimed, by the greedy pass; corrected,
   * the step leaves everything as it was and `k` is left to the greedy pass.
   */
  lemma ReuseLosesLonePoint(labels: seq<Label>, cands: seq<ScreenPoint>, scene: Scene,
                            st: PassState, c: Cluster, k: nat)
    requires WithinInRange(scene) && |st.flags| == |cands|
    requires scene.isPointVisible(c.position) && OnScreen(scene.clusterScreenPosition(c.position), scene)
    requires var coord := scene.clusterScreenPosition(c.position).value;
             Claim(st.flags, scene.within(Coords(cands), coord.x, coord.y, c.radius)).1 == [k]
    ensures var r := ReuseStep(labels, cands, scene, AsWritten, st, c);
            && k < |cands| && !st.flags[k] && r.flags[k]
            && r.render == st.render && r.clusters == st.clusters && r.dropped == st.dropped + 1
    ensures ReuseStep(labels, cands, scene, Corrected, st, c) == st
  {
    var coord := scene.clusterScreenPosition(c.position).value;
    ClaimMarks(st.flags, scene.within(Coords(cands), coord.x, coord.y, c.radius));
    assert k in [k];
  }

  /**
   * The clusters the reuse pass keeps come first, each one of the previous
   * clusters, unchanged; the greedy pass only appends.
   */
  lemma ReusedClustersUnchanged(labels: seq<Label>, pixelRange: real, previous: seq<Cluster>,
                                previousHeight: Option<real>, scene: Scene, v: Variant)
    requires Ready(labels, scene)
    ensures var mid := AfterReuse(labels, scene, previous, previousHeight, v);
            var out := Recompute(labels, pixelRange, previous, previousHeight, scene, v);
            && |mid.clusters| <= |out.clusters|
            && out.clusters[..|mid.clusters|] == mid.clusters
            && (forall j | 0 <= j < |mid.clusters| :: out.clusters[j] in previous)
            && (!ReuseRuns(scene.cameraHeight, previousHeight) ==> mid.clusters == [])
  {
    var cands := Candidates(labels, scene);
    var mid := AfterReuse(labels, scene, previous, previousHeight, v);
    var out := Recompute(labels, pixelRange, previous, previousHeight, scene, v);
    if ReuseRuns(scene.cameraHeight, previousHeight) {
      ReusePreserves(labels, cands, scene, v, PassState(Unclaimed(|cands|), [], [], 0), previous);
    }
    GreedyKeeps(labels, cands, scene, pixelRange, v, mid, |cands|);
    assert forall j | 0 <= j < |mid.clusters| :: out.clusters[j] == mid.clusters[j];
  }

  // ---------------------------------------------------------------- greedy markers

  /** Candidates are in strictly increasing store order, so their labels are distinct. */
  predicate StoreOrdered(cands: seq<ScreenPoint>) {
    forall k1, k2 | 0 <= k1 < k2 < |cands| :: cands[k1].labelIndex < cands[k2].labelIndex
  }

  lemma SeedNotAbsorbed(cands: seq<ScreenPoint>, i: nat, claimed: seq<nat>)
    requires StoreOrdered(cands) && i < |cands| && InRange(claimed, |cands|) && i !in claimed
    ensures cands[i].labelIndex !in LabelIds(cands, claimed)
  {
  }

  /**
   * As written, a greedy marker of `count` points carries only the absorbed
   * neighbours' labels: `count - 1` ids, the seed's label not among them.
   */
  lemma GreedyIdsOmitSeed(labels: seq<Label>, cands: seq<ScreenPoint>, pixelRange: real, i: nat, claimed: seq<nat>)
    requires Fits(labels, cands) && StoreOrdered(cands)
    requires i < |cands| && InRange(claimed, |cands|) && claimed != [] && i !in claimed
    ensures var e := GreedyMarker(labels, cands, pixelRange, AsWritten, i, claimed);
            e.count == |e.ids| + 1 && cands[i].labelIndex !in e.ids
  {
    SeedNotAbsorbed(cands, i, claimed);
  }

  /** Corrected, a greedy marker carries the seed's label and the absorbed ones: one id per point. */
  lemma CorrectedGreedyIdsComplete(labels: seq<Label>, cands: seq<ScreenPoint>, pixelRange: real, i: nat, claimed: seq<nat>)
    requires Fits(labels, cands) && StoreOrdered(cands)
    requires i < |cands| && InRange(claimed, |cands|) && claimed != [] && i !in claimed
    ensures var e := GreedyMarker(labels, cands, pixelRange, Corrected, i, claimed);
            && e.count == |e.ids|
            && e.ids == [cands[i].labelIndex] + LabelIds(cands, claimed)
            && cands[i].labelIndex !in e.ids[1..]
  {
    SeedNotAbsorbed(cands, i, claimed);
    var e := GreedyMarker(labels, cands, pixelRange, Corrected, i, claimed);
    assert e.ids[1..] == LabelIds(cands, claimed);
  }

  // ---------------------------------------------------------------- centroid

  const Origin := Vec3(0.0, 0.0, 0.0)

  /** The sum of the positions of the labels `ids`, first to last. */
  function SumOf(labels: seq<Label>, ids: seq<nat>): Vec3
    requires InRange(ids, |labels|)
    decreases |ids|
  {
    if ids == [] then Origin else Add(labels[ids[0]].position, SumOf(labels, ids[1..]))
  }

  /** The arithmetic mean of the positions of the labels `ids`. */
  function Mean(labels: seq<Label>, ids: seq<nat>): Vec3
    requires InRange(ids, |labels|) && ids != []
  {
    Scale(SumOf(labels, ids), 1.0 / (|ids| as real))
  }

  lemma {:induction false} SumOfSnoc(labels: seq<Label>, ids: seq<nat>, last: nat)
    requires InRange(ids, |labels|) && last < |labels|
    ensures InRange(ids + [last], |labels|)
    ensures SumOf(labels, ids + [last]) == Add(SumOf(labels, ids), labels[last].position)
  {
    if ids != [] {
      assert (ids + [last])[1..] == ids[1..] + [last];
      SumOfSnoc(labels, ids[1..], last);
    }
  }

  /** The running sum from `start` is `start` plus the sum of the labels' positions. */
  lemma {:induction false} AccumulateIsSum(start: Vec3, labels: seq<Label>, ids: seq<nat>)
    requires InRange(ids, |labels|)
    ensures Accumulate(start, labels, ids) == Add(start, SumOf(labels, ids))
  {
    if ids != [] {
      var init := ids[..|ids| - 1];
      AccumulateIsSum(start, labels, init);
      SumOfSnoc(labels, init, ids[|ids| - 1]);
      assert init + [ids[|ids| - 1]] == ids;
    }
  }

  /**
   * A greedy cluster sits at the arithmetic mean of the positions of the
   * seed's label and every absorbed label.
   */
  lemma CentroidIsMean(labels: seq<Label>, cands: seq<ScreenPoint>, i: nat, claimed: seq<nat>)
    requires Fits(labels, cands) && i < |cands| && InRange(claimed, |cands|)
    ensures var members := [cands[i].labelIndex] + LabelIds(cands, claimed);
            InRange(members, |labels|) && GreedyCentroid(labels, cands, i, claimed) == Mean(labels, members)
  {
    var seed := cands[i].labelIndex;
    var ids := LabelIds(cands, claimed);
    var members := [seed] + ids;
    assert InRange(ids, |labels|);
    AccumulateIsSum(labels[seed].position, labels, ids);
    assert members[1..] == ids;
  }

  // ---------------------------------------------------------------- radius

  lemma EnclosedExtent(outer: Rect, inner: Rect)
    requires Encloses(outer, inner)
    ensures inner.width <= outer.width && inner.height <= outer.height
  {
  }

  /**
   * A new greedy cluster's radius is at least half the width and half the
   * height of the seed's box and of every absorbed point's box.
   */
  lemma ClusterRadiusCoversMembers(labels: seq<Label>, cands: seq<ScreenPoint>, pixelRange: real,
                                   i: nat, claimed: seq<nat>, k: nat)
    requires Measured(labels, cands) && i < |cands| && InRange(claimed, |cands|)
    requires k == i || k in claimed
    ensures k < |cands|
    ensures var c := GreedyCluster(labels, cands, pixelRange, i, claimed);
            var b := LabelBoundingBox(labels[cands[k].labelIndex], cands[k].coord, pixelRange);
            b.width <= 2.0 * c.radius && b.height <= 2.0 * c.radius
  {
    if k != i {
      var j :| 0 <= j < |claimed| && claimed[j] == k;
    }
    var box := LabelBoundingBox(labels[cands[i].labelIndex], cands[i].coord, pixelRange);
    var grown := GrownBox(labels, cands, pixelRange, box, claimed);
    var b := LabelBoundingBox(labels[cands[k].labelIndex], cands[k].coord, pixelRange);
    GrownBoxEncloses(labels, cands, pixelRange, box, claimed);
    assert Encloses(grown, b);
    EnclosedExtent(grown, b);
  }
}
