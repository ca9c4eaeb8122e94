/**
 * The recompute run on every camera change, as functions over values:
 * candidate selection, the reuse pass over the previous frame's clusters and
 * the greedy merge pass. The imperative passes of DeclutterLoops are proved
 * equal to these functions; the lemmas here state what a recompute produces.
 */
module Declutter {
  import opened Wrappers
  import opened Geometry
  import opened Labels

  /**
   * What one recompute reads from the scene. The occluder, the two screen
   * projections and the spatial index query are external and are given as
   * functions: `within(coords, x, y, r)` lists indices into `coords` of the
   * points within `r` of (x, y).
   */
  datatype Scene = Scene(
    cameraHeight: real,
    drawingBufferWidth: real,
    drawingBufferHeight: real,
    isPointVisible: Vec3 -> bool,
    labelScreenPosition: Label -> Option<Vec2>,
    clusterScreenPosition: Vec3 -> Option<Vec2>,
    within: (seq<Vec2>, real, real, real) -> seq<nat>)

  /** The spatial index only answers with indices of the points it was built over. */
  ghost predicate WithinInRange(scene: Scene) {
    forall coords: seq<Vec2>, x: real, y: real, radius: real, j: int
      | 0 <= j < |scene.within(coords, x, y, radius)| :: scene.within(coords, x, y, radius)[j] < |coords|
  }

  /** A projection that is defined and inside the drawing buffer. */
  predicate OnScreen(coord: Option<Vec2>, scene: Scene) {
    && coord.Some?
    && 0.0 <= coord.value.x <= scene.drawingBufferWidth
    && 0.0 <= coord.value.y <= scene.drawingBufferHeight
  }

  /** A label takes part in a recompute when it is unoccluded and projects on screen. */
  predicate Accepted(lab: Label, scene: Scene) {
    scene.isPointVisible(lab.position) && OnScreen(scene.labelScreenPosition(lab), scene)
  }

  /**
   * A candidate of one recompute: the store index of its label and its screen
   * position. Its claim flag is kept apart, in the flags the passes thread.
   */
  datatype ScreenPoint = ScreenPoint(labelIndex: nat, coord: Vec2)

  /** A cluster kept for the next recompute: world position and screen radius. */
  datatype Cluster = Cluster(position: Vec3, radius: real)

  /**
   * An entry of the render collection: a copy of a label shown on its own, or
   * a marker whose text is `count`, at `position`, carrying the store indices
   * of the labels in `ids`.
   */
  datatype RenderEntry =
    | Copy(options: LabelOptions)
    | Marker(count: nat, position: Vec3, ids: seq<nat>)

  /**
   * The state the passes thread through: one claim flag per candidate, the
   * render entries and new clusters so far, and the number of points claimed
   * by a reuse step that emitted nothing.
   */
  datatype PassState = PassState(flags: seq<bool>, render: seq<RenderEntry>, clusters: seq<Cluster>, dropped: nat)

  // ---------------------------------------------------------------- candidates

  /** The accepted labels of the store, in store order, at their projections. */
  function Candidates(labels: seq<Label>, scene: Scene): (r: seq<ScreenPoint>)
    decreases |labels|
    ensures forall k | 0 <= k < |r| ::
              && r[k].labelIndex < |labels|
              && Accepted(labels[r[k].labelIndex], scene)
              && scene.labelScreenPosition(labels[r[k].labelIndex]) == Some(r[k].coord)
    ensures forall k1, k2 | 0 <= k1 < k2 < |r| :: r[k1].labelIndex < r[k2].labelIndex
  {
    if labels == [] then []
    else
      var n := |labels| - 1;
      var init := labels[..n];
      assert forall i | 0 <= i < n :: init[i] == labels[i];
      var rest := Candidates(init, scene);
      if Accepted(labels[n], scene) then
        rest + [ScreenPoint(n, scene.labelScreenPosition(labels[n]).value)]
      else rest
  }

  /** Every accepted label of the store is a candidate. */
  lemma {:induction false} CandidatesComplete(labels: seq<Label>, scene: Scene, i: nat)
    requires i < |labels| && Accepted(labels[i], scene)
    ensures exists k | 0 <= k < |Candidates(labels, scene)| :: Candidates(labels, scene)[k].labelIndex == i
  {
    var n := |labels| - 1;
    var init := labels[..n];
    assert forall j | 0 <= j < n :: init[j] == labels[j];
    var r := Candidates(labels, scene);
    if i == n {
      assert r[|r| - 1].labelIndex == i;
    } else {
      CandidatesComplete(init, scene, i);
      var k :| 0 <= k < |Candidates(init, scene)| && Candidates(init, scene)[k].labelIndex == i;
      assert r[k] == Candidates(init, scene)[k];
    }
  }

  /** The screen positions the spatial index is built over. */
  function Coords(pts: seq<ScreenPoint>): (r: seq<Vec2>)
    ensures |r| == |pts|
  {
    seq(|pts|, k requires 0 <= k < |pts| => pts[k].coord)
  }

  /** Every candidate refers to a label of the store. */
  predicate Fits(labels: seq<Label>, cands: seq<ScreenPoint>) {
    forall k | 0 <= k < |cands| :: cands[k].labelIndex < |labels|
  }

  /**
   * Every candidate refers to a label of the store with a finite bounding
   * box: the labels whose boxes a recompute computes.
   */
  predicate Measured(labels: seq<Label>, cands: seq<ScreenPoint>) {
    Fits(labels, cands) && forall k | 0 <= k < |cands| :: Measurable(labels[cands[k].labelIndex])
  }

  predicate InRange(indices: seq<nat>, n: nat) {
    forall j | 0 <= j < |indices| :: indices[j] < n
  }

  // ---------------------------------------------------------------- claiming

  /** No candidate claimed: the flags a recompute starts from. */
  function Unclaimed(n: nat): (flags: seq<bool>)
    ensures |flags| == n && forall k | 0 <= k < n :: !flags[k]
  {
    seq(n, _ => false)
  }

  /** How many points are claimed. */
  function ClaimedCount(flags: seq<bool>): nat
    decreases |flags|
  {
    if flags == [] then 0
    else ClaimedCount(flags[..|flags| - 1]) + (if flags[|flags| - 1] then 1 else 0)
  }

  /** Every flag set in `before` is still set in `after`: the step between them only claims. */
  predicate OnlyClaims(before: seq<bool>, after: seq<bool>) {
    |after| == |before| && forall k | 0 <= k < |before| && before[k] :: after[k]
  }

  /** Claiming an unclaimed point adds exactly one to the claimed points. */
  lemma {:induction false} ClaimOne(flags: seq<bool>, k: nat)
    requires k < |flags| && !flags[k]
    decreases |flags|
    ensures ClaimedCount(flags[k := true]) == ClaimedCount(flags) + 1
  {
    var n := |flags| - 1;
    if k < n {
      assert flags[k := true][..n] == flags[..n][k := true];
      ClaimOne(flags[..n], k);
    } else {
      assert flags[k := true][..n] == flags[..n];
    }
  }

  /**
   * Walks the neighbours in query order and claims each one still unclaimed;
   * returns the new flags and the newly claimed indices in claim order. A
   * point is claimed only while its flag is false, so it is counted once.
   */
  function Claim(flags: seq<bool>, neighbors: seq<nat>): (r: (seq<bool>, seq<nat>))
    requires InRange(neighbors, |flags|)
    decreases |neighbors|
    ensures |r.0| == |flags| && InRange(r.1, |flags|)
  {
    if neighbors == [] then (flags, [])
    else
      var prior := Claim(flags, neighbors[..|neighbors| - 1]);
      var k := neighbors[|neighbors| - 1];
      if prior.0[k] then prior
      else (prior.0[k := true], prior.1 + [k])
  }

  /**
   * A claim flags exactly the points it records, each of them unclaimed
   * before, leaves every neighbour flagged, and grows the claimed count by
   * the number recorded.
   */
  lemma {:induction false} ClaimMarks(flags: seq<bool>, neighbors: seq<nat>)
    requires InRange(neighbors, |flags|)
    decreases |neighbors|
    ensures forall k | 0 <= k < |flags| :: Claim(flags, neighbors).0[k] == (flags[k] || k in Claim(flags, neighbors).1)
    ensures forall k | k in Claim(flags, neighbors).1 :: k < |flags| && !flags[k]
    ensures forall k | k in neighbors :: Claim(flags, neighbors).0[k]
    ensures ClaimedCount(Claim(flags, neighbors).0) == ClaimedCount(flags) + |Claim(flags, neighbors).1|
  {
    if neighbors != [] {
      var init := neighbors[..|neighbors| - 1];
      var k := neighbors[|neighbors| - 1];
      assert forall j | j in neighbors :: j in init || j == k;
      ClaimMarks(flags, init);
      var prior := Claim(flags, init);
      if !prior.0[k] {
        ClaimOne(prior.0, k);
      }
    }
  }

  /** The store indices of the labels of the given candidates. */
  function LabelIds(cands: seq<ScreenPoint>, claimed: seq<nat>): (ids: seq<nat>)
    requires InRange(claimed, |cands|)
    ensures |ids| == |claimed|
  {
    seq(|claimed|, j requires 0 <= j < |claimed| => cands[claimed[j]].labelIndex)
  }

  /** `start` plus the positions of the labels `ids`, added in order. */
  function Accumulate(start: Vec3, labels: seq<Label>, ids: seq<nat>): Vec3
    requires InRange(ids, |labels|)
    decreases |ids|
  {
    if ids == [] then start
    else
      Add(Accumulate(start, labels, ids[..|ids| - 1]), labels[ids[|ids| - 1]].position)
  }

  /** The seed's box grown, one union at a time, by the box of each claimed point. */
  function GrownBox(labels: seq<Label>, cands: seq<ScreenPoint>, pixelRange: real, box: Rect, claimed: seq<nat>): Rect
    requires Measured(labels, cands) && InRange(claimed, |cands|)
    decreases |claimed|
  {
    if claimed == [] then box
    else
      var k := claimed[|claimed| - 1];
      Union(GrownBox(labels, cands, pixelRange, box, claimed[..|claimed| - 1]),
            LabelBoundingBox(labels[cands[k].labelIndex], cands[k].coord, pixelRange))
  }

  /** The grown box covers the seed's box and every claimed point's box. */
  lemma {:induction false} GrownBoxEncloses(labels: seq<Label>, cands: seq<ScreenPoint>, pixelRange: real,
                                            box: Rect, claimed: seq<nat>)
    requires Measured(labels, cands) && InRange(claimed, |cands|)
    ensures Encloses(GrownBox(labels, cands, pixelRange, box, claimed), box)
    ensures forall k | k in claimed ::
              Encloses(GrownBox(labels, cands, pixelRange, box, claimed),
                       LabelBoundingBox(labels[cands[k].labelIndex], cands[k].coord, pixelRange))
  {
    if claimed != [] {
      var init := claimed[..|claimed| - 1];
      GrownBoxEncloses(labels, cands, pixelRange, box, init);
      assert forall j | j in claimed :: j in init || j == claimed[|claimed| - 1];
    }
  }

  /** One more neighbour: claimed and recorded when still unclaimed, skipped otherwise. */
  lemma ClaimSnoc(flags: seq<bool>, neighbors: seq<nat>, k: nat)
    requires InRange(neighbors, |flags|) && k < |flags|
    ensures InRange(neighbors + [k], |flags|)
    ensures var prior := Claim(flags, neighbors);
            Claim(flags, neighbors + [k]) == if prior.0[k] then prior else (prior.0[k := true], prior.1 + [k])
  {
    assert (neighbors + [k])[..|neighbors|] == neighbors;
  }

  /** One more claimed point: its label joins the ids, the sum and the box. */
  lemma AbsorbSnoc(labels: seq<Label>, cands: seq<ScreenPoint>, pixelRange: real,
                   start: Vec3, box: Rect, claimed: seq<nat>, k: nat)
    requires Measured(labels, cands) && InRange(claimed, |cands|) && k < |cands|
    ensures InRange(claimed + [k], |cands|) && InRange(LabelIds(cands, claimed), |labels|)
    ensures LabelIds(cands, claimed + [k]) == LabelIds(cands, claimed) + [cands[k].labelIndex]
    ensures Accumulate(start, labels, LabelIds(cands, claimed + [k]))
            == Add(Accumulate(start, labels, LabelIds(cands, claimed)), labels[cands[k].labelIndex].position)
    ensures GrownBox(labels, cands, pixelRange, box, claimed + [k])
            == Union(GrownBox(labels, cands, pixelRange, box, claimed),
                     LabelBoundingBox(labels[cands[k].labelIndex], cands[k].coord, pixelRange))
  {
    var ids := LabelIds(cands, claimed);
    assert LabelIds(cands, claimed + [k]) == ids + [cands[k].labelIndex];
    assert (ids + [cands[k].labelIndex])[..|ids|] == ids;
    assert (claimed + [k])[..|claimed|] == claimed;
  }

  /** What the inner loop of a greedy step has gathered so far. */
  datatype Gathering = Gathering(flags: seq<bool>, claimed: seq<nat>, numPoints: nat,
                                 position: Vec3, box: Rect, ids: seq<nat>)

  /**
   * One neighbour of the greedy inner loop: if still unclaimed, it is
   * claimed, counted, its label's position added to the running sum, its
   * box united into the seed's box and its label collected.
   */
  function GatherStep(labels: seq<Label>, cands: seq<ScreenPoint>, pixelRange: real, g: Gathering, k: nat): (r: Gathering)
    requires Measured(labels, cands)
    requires |g.flags| == |cands| && k < |cands|
    ensures |r.flags| == |cands|
  {
    if g.flags[k] then g
    else
      var p := cands[k];
      var lab := labels[p.labelIndex];
      Gathering(g.flags[k := true], g.claimed + [k], g.numPoints + 1,
                Add(g.position, lab.position), Union(g.box, LabelBoundingBox(lab, p.coord, pixelRange)),
                g.ids + [p.labelIndex])
  }

  /** The inner loop of a greedy step over all the neighbours, in query order. */
  function Gather(labels: seq<Label>, cands: seq<ScreenPoint>, pixelRange: real, flags: seq<bool>,
                  neighbors: seq<nat>, seedPosition: Vec3, seedBox: Rect): (g: Gathering)
    requires Measured(labels, cands)
    requires |flags| == |cands| && InRange(neighbors, |cands|)
    decreases |neighbors|
    ensures |g.flags| == |cands|
  {
    if neighbors == [] then Gathering(flags, [], 1, seedPosition, seedBox, [])
    else
      GatherStep(labels, cands, pixelRange,
                 Gather(labels, cands, pixelRange, flags, neighbors[..|neighbors| - 1], seedPosition, seedBox),
                 neighbors[|neighbors| - 1])
  }

  /**
   * The greedy inner loop claims exactly what a claim of the same neighbours
   * claims, and what it gathers is the count, the labels, the running sum
   * and the grown box of the claimed points.
   */
  lemma {:induction false} GatherIsClaim(labels: seq<Label>, cands: seq<ScreenPoint>, pixelRange: real,
                                         flags: seq<bool>, neighbors: seq<nat>, seedPosition: Vec3, seedBox: Rect)
    requires Measured(labels, cands)
    requires |flags| == |cands| && InRange(neighbors, |cands|)
    ensures var g := Gather(labels, cands, pixelRange, flags, neighbors, seedPosition, seedBox);
            && (g.flags, g.claimed) == Claim(flags, neighbors)
            && InRange(g.claimed, |cands|) && InRange(g.ids, |labels|)
            && g.numPoints == |g.claimed| + 1
            && g.ids == LabelIds(cands, g.claimed)
            && g.position == Accumulate(seedPosition, labels, g.ids)
            && g.box == GrownBox(labels, cands, pixelRange, seedBox, g.claimed)
    decreases |neighbors|
  {
    if neighbors != [] {
      var init := neighbors[..|neighbors| - 1];
      var k := neighbors[|neighbors| - 1];
      assert neighbors == init + [k];
      GatherIsClaim(labels, cands, pixelRange, flags, init, seedPosition, seedBox);
      ClaimSnoc(flags, init, k);
      var g := Gather(labels, cands, pixelRange, flags, init, seedPosition, seedBox);
      if !g.flags[k] {
        AbsorbSnoc(labels, cands, pixelRange, seedPosition, seedBox, g.claimed, k);
      }
    }
  }

  // ---------------------------------------------------------------- accounting

  /** How many candidate points an entry stands for: one for a copy, its count for a marker. */
  function Weight(e: RenderEntry): nat {
    match e
    case Copy(_) => 1
    case Marker(n, _, _) => n
  }

  function Tally(render: seq<RenderEntry>): nat
    decreases |render|
  {
    if render == [] then 0 else Tally(render[..|render| - 1]) + Weight(render[|render| - 1])
  }

  lemma AppendEntry(render: seq<RenderEntry>, e: RenderEntry)
    ensures Tally(render + [e]) == Tally(render) + Weight(e)
  {
    assert (render + [e])[..|render|] == render;
  }

  /**
   * The render entries and the kept clusters pair up in order: a copy has no
   * cluster, and each marker stands for more than one point and sits at its
   * cluster's position.
   */
  predicate Paired(render: seq<RenderEntry>, clusters: seq<Cluster>)
    decreases |render|
  {
    if render == [] then clusters == []
    else
      match render[|render| - 1]
      case Copy(_) => Paired(render[..|render| - 1], clusters)
      case Marker(count, position, _) =>
        && clusters != []
        && count > 1 && position == clusters[|clusters| - 1].position
        && Paired(render[..|render| - 1], clusters[..|clusters| - 1])
  }

  /**
   * The pass invariant: one flag per candidate, every claimed point is
   * accounted for by a render entry or as dropped, and kept clusters pair
   * with markers.
   */
  predicate Consistent(st: PassState, cands: seq<ScreenPoint>) {
    && |st.flags| == |cands|
    && Counted(st)
    && Paired(st.render, st.clusters)
  }

  /** The claimed points are the ones the entries stand for, plus the dropped ones. */
  predicate Counted(st: PassState) {
    ClaimedCount(st.flags) == Tally(st.render) + st.dropped
  }

  /** Appending a copy keeps the pairing. */
  lemma PairedCopy(render: seq<RenderEntry>, clusters: seq<Cluster>, o: LabelOptions)
    requires Paired(render, clusters)
    ensures Paired(render + [Copy(o)], clusters)
  {
    assert (render + [Copy(o)])[..|render|] == render;
  }

  /** Appending a marker of more than one point and its cluster keeps the pairing. */
  lemma PairedExtend(render: seq<RenderEntry>, clusters: seq<Cluster>, e: RenderEntry, c: Cluster)
    requires Paired(render, clusters)
    requires e.Marker? && e.count > 1 && e.position == c.position
    ensures Paired(render + [e], clusters + [c])
  {
    assert (render + [e])[..|render|] == render;
    assert (clusters + [c])[..|clusters|] == clusters;
  }

  // ---------------------------------------------------------------- reuse pass

  /** The reuse pass runs only when the camera has not gone up; never after an undefined height. */
  predicate ReuseRuns(currentHeight: real, previousHeight: Option<real>) {
    previousHeight.Some? && currentHeight <= previousHeight.value
  }

  /**
   * One previous cluster: if its position is unoccluded and on screen, claim
   * the unclaimed points within its radius; with more than one, keep it
   * unchanged and emit a marker of all of them at its position.
   */
  function ReuseStep(labels: seq<Label>, cands: seq<ScreenPoint>, scene: Scene, v: Variant,
                     st: PassState, c: Cluster): (r: PassState)
    requires WithinInRange(scene) && |st.flags| == |cands|
    ensures |r.flags| == |cands|
  {
    var coord := scene.clusterScreenPosition(c.position);
    if !scene.isPointVisible(c.position) || !OnScreen(coord, scene) then st
    else
      var neighbors := scene.within(Coords(cands), coord.value.x, coord.value.y, c.radius);
      var (pts, claimed) := Claim(st.flags, neighbors);
      if |claimed| > 1 then
        PassState(pts, st.render + [Marker(|claimed|, c.position, LabelIds(cands, claimed))],
                  st.clusters + [c], st.dropped)
      else if v == AsWritten then
        PassState(pts, st.render, st.clusters, st.dropped + |claimed|)
      else st
  }

  /**
   * A reuse step only claims, keeps the accounting, drops nothing when
   * corrected, and either emits nothing or keeps its cluster and emits one
   * marker there whose ids list all of its points.
   */
  lemma ReuseStepPreserves(labels: seq<Label>, cands: seq<ScreenPoint>, scene: Scene, v: Variant,
                           st: PassState, c: Cluster)
    requires WithinInRange(scene) && |st.flags| == |cands|
    ensures var r := ReuseStep(labels, cands, scene, v, st, c);
            && OnlyClaims(st.flags, r.flags)
            && (Consistent(st, cands) ==> Consistent(r, cands))
            && (v == Corrected ==> r.dropped == st.dropped)
            && (|| (r.render == st.render && r.clusters == st.clusters)
                || (&& r.clusters == st.clusters + [c]
                    && |r.render| == |st.render| + 1
                    && r.render[..|st.render|] == st.render
                    && r.render[|st.render|].Marker?
                    && r.render[|st.render|].count == |r.render[|st.render|].ids| > 1
                    && r.render[|st.render|].position == c.position))
  {
    var coord := scene.clusterScreenPosition(c.position);
    if scene.isPointVisible(c.position) && OnScreen(coord, scene) {
      var neighbors := scene.within(Coords(cands), coord.value.x, coord.value.y, c.radius);
      var (pts, claimed) := Claim(st.flags, neighbors);
      ClaimMarks(st.flags, neighbors);
      if |claimed| > 1 {
        var e := Marker(|claimed|, c.position, LabelIds(cands, claimed));
        if Consistent(st, cands) {
          PairedExtend(st.render, st.clusters, e, c);
        }
        AppendEntry(st.render, e);
        assert (st.render + [e])[..|st.render|] == st.render;
      }
    }
  }

  /** The reuse pass over the previous clusters, in order. */
  function Reuse(labels: seq<Label>, cands: seq<ScreenPoint>, scene: Scene, v: Variant,
                 st: PassState, previous: seq<Cluster>): (r: PassState)
    requires WithinInRange(scene) && |st.flags| == |cands|
    decreases |previous|
    ensures |r.flags| == |cands|
  {
    if previous == [] then st
    else ReuseStep(labels, cands, scene, v, Reuse(labels, cands, scene, v, st, previous[..|previous| - 1]),
                   previous[|previous| - 1])
  }

  /**
   * The reuse pass only claims, keeps the accounting, drops nothing when
   * corrected, and keeps the clusters it started with, appending only
   * previous clusters.
   */
  lemma {:induction false} ReusePreserves(labels: seq<Label>, cands: seq<ScreenPoint>, scene: Scene, v: Variant,
                                          st: PassState, previous: seq<Cluster>)
    requires WithinInRange(scene) && |st.flags| == |cands|
    decreases |previous|
    ensures var r := Reuse(labels, cands, scene, v, st, previous);
            && OnlyClaims(st.flags, r.flags)
            && (Consistent(st, cands) ==> Consistent(r, cands))
            && (v == Corrected ==> r.dropped == st.dropped)
            && |st.clusters| <= |r.clusters| && r.clusters[..|st.clusters|] == st.clusters
            && (forall j | |st.clusters| <= j < |r.clusters| :: r.clusters[j] in previous)
  {
    if previous != [] {
      var init := previous[..|previous| - 1];
      var mid := Reuse(labels, cands, scene, v, st, init);
      ReusePreserves(labels, cands, scene, v, st, init);
      ReuseStepPreserves(labels, cands, scene, v, mid, previous[|previous| - 1]);
      assert forall c | c in init :: c in previous;
    }
  }

  // ---------------------------------------------------------------- greedy pass

  /** Candidates drawn from the store with measurable labels, and an index that answers in range. */
  ghost predicate Setting(labels: seq<Label>, cands: seq<ScreenPoint>, scene: Scene) {
    Measured(labels, cands) && WithinInRange(scene)
  }

  /**
   * Candidate `i`, if still unclaimed: claim it, query the index from its
   * box's corner with the box's width as radius, and claim every unclaimed
   * neighbour. Alone, it is shown as a copy of its label; otherwise a marker
   * at the mean position is emitted and a new cluster kept whose radius is
   * half the larger extent of the grown box.
   */
  function GreedyStep(labels: seq<Label>, cands: seq<ScreenPoint>, scene: Scene, pixelRange: real,
                      v: Variant, st: PassState, i: nat): (r: PassState)
    requires Setting(labels, cands, scene)
    requires |st.flags| == |cands| && i < |cands|
    ensures |r.flags| == |cands|
  {
    if st.flags[i] then st
    else
      var box := LabelBoundingBox(labels[cands[i].labelIndex], cands[i].coord, pixelRange);
      var neighbors := scene.within(Coords(cands), box.x, box.y, box.width);
      Absorb(labels, cands, pixelRange, v, st, i, neighbors)
  }

  /**
   * The rest of a greedy step once the index has answered: claim the seed,
   * then every unclaimed neighbour, and emit a copy or a marker and cluster.
   */
  function Absorb(labels: seq<Label>, cands: seq<ScreenPoint>, pixelRange: real, v: Variant,
                  st: PassState, i: nat, neighbors: seq<nat>): (r: PassState)
    requires Measured(labels, cands)
    requires |st.flags| == |cands| && i < |cands| && !st.flags[i]
    requires InRange(neighbors, |cands|)
    ensures |r.flags| == |cands|
  {
    var lab := labels[cands[i].labelIndex];
    var (pts, claimed) := Claim(st.flags[i := true], neighbors);
    if claimed == [] then
      PassState(pts, st.render + [Copy(CloneLabel(lab, v))], st.clusters, st.dropped)
    else
      PassState(pts, st.render + [GreedyMarker(labels, cands, pixelRange, v, i, claimed)],
                st.clusters + [GreedyCluster(labels, cands, pixelRange, i, claimed)], st.dropped)
  }

  /** A greedy step that absorbs claims the seed and its neighbours, and only claims. */
  lemma AbsorbClaims(labels: seq<Label>, cands: seq<ScreenPoint>, pixelRange: real, v: Variant,
                     st: PassState, i: nat, neighbors: seq<nat>)
    requires Measured(labels, cands)
    requires |st.flags| == |cands| && i < |cands| && !st.flags[i]
    requires InRange(neighbors, |cands|)
    ensures OnlyClaims(st.flags, Absorb(labels, cands, pixelRange, v, st, i, neighbors).flags)
    ensures Absorb(labels, cands, pixelRange, v, st, i, neighbors).flags[i]
  {
    var seeded := st.flags[i := true];
    assert Absorb(labels, cands, pixelRange, v, st, i, neighbors).flags == Claim(seeded, neighbors).0;
    ClaimMarks(seeded, neighbors);
  }

  /** A greedy step that absorbs drops nothing and only appends clusters. */
  lemma AbsorbKeeps(labels: seq<Label>, cands: seq<ScreenPoint>, pixelRange: real, v: Variant,
                    st: PassState, i: nat, neighbors: seq<nat>)
    requires Measured(labels, cands)
    requires |st.flags| == |cands| && i < |cands| && !st.flags[i]
    requires InRange(neighbors, |cands|)
    ensures var r := Absorb(labels, cands, pixelRange, v, st, i, neighbors);
            r.dropped == st.dropped && st.clusters <= r.clusters
  {
    var r := Absorb(labels, cands, pixelRange, v, st, i, neighbors);
    if Claim(st.flags[i := true], neighbors).1 != [] {
      var c := GreedyCluster(labels, cands, pixelRange, i, Claim(st.flags[i := true], neighbors).1);
      assert r.clusters == st.clusters + [c];
      assert (st.clusters + [c])[..|st.clusters|] == st.clusters;
    }
  }

  /** A greedy step that absorbs claims one point more than its neighbours' claim records. */
  lemma AbsorbCount(labels: seq<Label>, cands: seq<ScreenPoint>, pixelRange: real, v: Variant,
                    st: PassState, i: nat, neighbors: seq<nat>)
    requires Measured(labels, cands)
    requires |st.flags| == |cands| && i < |cands| && !st.flags[i]
    requires InRange(neighbors, |cands|)
    ensures ClaimedCount(Absorb(labels, cands, pixelRange, v, st, i, neighbors).flags)
            == ClaimedCount(st.flags) + 1 + |Claim(st.flags[i := true], neighbors).1|
  {
    ClaimOne(st.flags, i);
    ClaimMarks(st.flags[i := true], neighbors);
  }

  /** A greedy step that absorbs keeps the count: its entry stands for every point it claims. */
  lemma AbsorbCounted(labels: seq<Label>, cands: seq<ScreenPoint>, pixelRange: real, v: Variant,
                      st: PassState, i: nat, neighbors: seq<nat>)
    requires Measured(labels, cands)
    requires |st.flags| == |cands| && i < |cands| && !st.flags[i]
    requires InRange(neighbors, |cands|)
    requires Counted(st)
    ensures Counted(Absorb(labels, cands, pixelRange, v, st, i, neighbors))
  {
    var lab := labels[cands[i].labelIndex];
    var claimed := Claim(st.flags[i := true], neighbors).1;
    var r := Absorb(labels, cands, pixelRange, v, st, i, neighbors);
    AbsorbCount(labels, cands, pixelRange, v, st, i, neighbors);
    if claimed == [] {
      AppendEntry(st.render, Copy(CloneLabel(lab, v)));
      assert r.render == st.render + [Copy(CloneLabel(lab, v))];
    } else {
      var e := GreedyMarker(labels, cands, pixelRange, v, i, claimed);
      assert r.render == st.render + [e];
      AppendEntry(st.render, e);
    }
  }

  /** A greedy step that absorbs pairs its new cluster, if any, with its marker. */
  lemma AbsorbPaired(labels: seq<Label>, cands: seq<ScreenPoint>, pixelRange: real, v: Variant,
                     st: PassState, i: nat, neighbors: seq<nat>)
    requires Measured(labels, cands)
    requires |st.flags| == |cands| && i < |cands| && !st.flags[i]
    requires InRange(neighbors, |cands|)
    requires Paired(st.render, st.clusters)
    ensures var r := Absorb(labels, cands, pixelRange, v, st, i, neighbors);
            Paired(r.render, r.clusters)
  {
    var lab := labels[cands[i].labelIndex];
    var claimed := Claim(st.flags[i := true], neighbors).1;
    var r := Absorb(labels, cands, pixelRange, v, st, i, neighbors);
    if claimed == [] {
      PairedCopy(st.render, st.clusters, CloneLabel(lab, v));
      assert r.render == st.render + [Copy(CloneLabel(lab, v))] && r.clusters == st.clusters;
    } else {
      var e := GreedyMarker(labels, cands, pixelRange, v, i, claimed);
      var c := GreedyCluster(labels, cands, pixelRange, i, claimed);
      assert r.render == st.render + [e] && r.clusters == st.clusters + [c];
      PairedExtend(st.render, st.clusters, e, c);
    }
  }

  /** The centroid of a greedy cluster: seed position plus absorbed positions, over the member count. */
  function GreedyCentroid(labels: seq<Label>, cands: seq<ScreenPoint>, i: nat, claimed: seq<nat>): Vec3
    requires Fits(labels, cands) && i < |cands| && InRange(claimed, |cands|)
  {
    var ids := LabelIds(cands, claimed);
    var n := |claimed| + 1;
    assert InRange(ids, |labels|);
    Scale(Accumulate(labels[cands[i].labelIndex].position, labels, ids), 1.0 / (n as real))
  }

  /** The marker a greedy seed emits with its claimed neighbours. */
  function GreedyMarker(labels: seq<Label>, cands: seq<ScreenPoint>, pixelRange: real, v: Variant,
                        i: nat, claimed: seq<nat>): (e: RenderEntry)
    requires Fits(labels, cands) && i < |cands| && InRange(claimed, |cands|) && claimed != []
    ensures e.Marker? && e.count > 1 && e.position == GreedyCentroid(labels, cands, i, claimed)
  {
    var ids := LabelIds(cands, claimed);
    Marker(|claimed| + 1, GreedyCentroid(labels, cands, i, claimed),
           if v == AsWritten then ids else [cands[i].labelIndex] + ids)
  }

  /** The cluster a greedy seed keeps: at the centroid, radius half the grown box's larger extent. */
  function GreedyCluster(labels: seq<Label>, cands: seq<ScreenPoint>, pixelRange: real,
                         i: nat, claimed: seq<nat>): (c: Cluster)
    requires Measured(labels, cands) && i < |cands| && InRange(claimed, |cands|)
    ensures c.position == GreedyCentroid(labels, cands, i, claimed)
  {
    var box := LabelBoundingBox(labels[cands[i].labelIndex], cands[i].coord, pixelRange);
    var grown := GrownBox(labels, cands, pixelRange, box, claimed);
    Cluster(GreedyCentroid(labels, cands, i, claimed), Max(grown.width, grown.height) * 0.5)
  }

  /** The greedy pass over the first `n` candidates, in store order. */
  function Greedy(labels: seq<Label>, cands: seq<ScreenPoint>, scene: Scene, pixelRange: real,
                  v: Variant, st: PassState, n: nat): (r: PassState)
    requires Setting(labels, cands, scene)
    requires |st.flags| == |cands| && n <= |cands|
    decreases n
    ensures |r.flags| == |cands|
  {
    if n == 0 then st
    else GreedyStep(labels, cands, scene, pixelRange, v, Greedy(labels, cands, scene, pixelRange, v, st, n - 1), n - 1)
  }

  /** A greedy step leaves candidate `i` claimed and only claims. */
  lemma GreedyStepClaims(labels: seq<Label>, cands: seq<ScreenPoint>, scene: Scene, pixelRange: real,
                         v: Variant, st: PassState, i: nat)
    requires Setting(labels, cands, scene)
    requires |st.flags| == |cands| && i < |cands|
    ensures var r := GreedyStep(labels, cands, scene, pixelRange, v, st, i);
            && OnlyClaims(st.flags, r.flags)
            && r.flags[i]
  {
    if !st.flags[i] {
      var box := LabelBoundingBox(labels[cands[i].labelIndex], cands[i].coord, pixelRange);
      var neighbors := scene.within(Coords(cands), box.x, box.y, box.width);
      AbsorbClaims(labels, cands, pixelRange, v, st, i, neighbors);
    }
  }

  /** A greedy step drops nothing and only appends clusters. */
  lemma GreedyStepKeeps(labels: seq<Label>, cands: seq<ScreenPoint>, scene: Scene, pixelRange: real,
                        v: Variant, st: PassState, i: nat)
    requires Setting(labels, cands, scene)
    requires |st.flags| == |cands| && i < |cands|
    ensures var r := GreedyStep(labels, cands, scene, pixelRange, v, st, i);
            r.dropped == st.dropped && st.clusters <= r.clusters
  {
    if !st.flags[i] {
      var box := LabelBoundingBox(labels[cands[i].labelIndex], cands[i].coord, pixelRange);
      var neighbors := scene.within(Coords(cands), box.x, box.y, box.width);
      AbsorbKeeps(labels, cands, pixelRange, v, st, i, neighbors);
    }
  }

  /** A greedy step keeps the count. */
  lemma GreedyStepCounted(labels: seq<Label>, cands: seq<ScreenPoint>, scene: Scene, pixelRange: real,
                          v: Variant, st: PassState, i: nat)
    requires Setting(labels, cands, scene)
    requires |st.flags| == |cands| && i < |cands|
    requires Counted(st)
    ensures Counted(GreedyStep(labels, cands, scene, pixelRange, v, st, i))
  {
    if !st.flags[i] {
      var box := LabelBoundingBox(labels[cands[i].labelIndex], cands[i].coord, pixelRange);
      var neighbors := scene.within(Coords(cands), box.x, box.y, box.width);
      AbsorbCounted(labels, cands, pixelRange, v, st, i, neighbors);
    }
  }

  /** A greedy step keeps the pairing. */
  lemma GreedyStepPaired(labels: seq<Label>, cands: seq<ScreenPoint>, scene: Scene, pixelRange: real,
                         v: Variant, st: PassState, i: nat)
    requires Setting(labels, cands, scene)
    requires |st.flags| == |cands| && i < |cands|
    requires Paired(st.render, st.clusters)
    ensures var r := GreedyStep(labels, cands, scene, pixelRange, v, st, i);
            Paired(r.render, r.clusters)
  {
    if !st.flags[i] {
      var box := LabelBoundingBox(labels[cands[i].labelIndex], cands[i].coord, pixelRange);
      var neighbors := scene.within(Coords(cands), box.x, box.y, box.width);
      AbsorbPaired(labels, cands, pixelRange, v, st, i, neighbors);
    }
  }

  /** The greedy pass over one more candidate claims it and only claims. */
  lemma GreedyExtendClaims(labels: seq<Label>, cands: seq<ScreenPoint>, scene: Scene, pixelRange: real,
                           v: Variant, st: PassState, n: nat)
    requires Setting(labels, cands, scene)
    requires |st.flags| == |cands| && 0 < n <= |cands|
    ensures OnlyClaims(Greedy(labels, cands, scene, pixelRange, v, st, n - 1).flags,
                       Greedy(labels, cands, scene, pixelRange, v, st, n).flags)
    ensures Greedy(labels, cands, scene, pixelRange, v, st, n).flags[n - 1]
  {
    GreedyStepClaims(labels, cands, scene, pixelRange, v, Greedy(labels, cands, scene, pixelRange, v, st, n - 1), n - 1);
  }

  /** The greedy pass over one more candidate drops nothing and only appends clusters. */
  lemma GreedyExtendKeeps(labels: seq<Label>, cands: seq<ScreenPoint>, scene: Scene, pixelRange: real,
                          v: Variant, st: PassState, n: nat)
    requires Setting(labels, cands, scene)
    requires |st.flags| == |cands| && 0 < n <= |cands|
    ensures var mid := Greedy(labels, cands, scene, pixelRange, v, st, n - 1);
            var r := Greedy(labels, cands, scene, pixelRange, v, st, n);
            r.dropped == mid.dropped && mid.clusters <= r.clusters
  {
    GreedyStepKeeps(labels, cands, scene, pixelRange, v, Greedy(labels, cands, scene, pixelRange, v, st, n - 1), n - 1);
  }

  /** The greedy pass over one more candidate keeps the count. */
  lemma GreedyExtendCounted(labels: seq<Label>, cands: seq<ScreenPoint>, scene: Scene, pixelRange: real,
                            v: Variant, st: PassState, n: nat)
    requires Setting(labels, cands, scene)
    requires |st.flags| == |cands| && 0 < n <= |cands|
    requires Counted(Greedy(labels, cands, scene, pixelRange, v, st, n - 1))
    ensures Counted(Greedy(labels, cands, scene, pixelRange, v, st, n))
  {
    GreedyStepCounted(labels, cands, scene, pixelRange, v, Greedy(labels, cands, scene, pixelRange, v, st, n - 1), n - 1);
  }

  /** The greedy pass over one more candidate keeps the pairing. */
  lemma GreedyExtendPaired(labels: seq<Label>, cands: seq<ScreenPoint>, scene: Scene, pixelRange: real,
                           v: Variant, st: PassState, n: nat)
    requires Setting(labels, cands, scene)
    requires |st.flags| == |cands| && 0 < n <= |cands|
    requires var mid := Greedy(labels, cands, scene, pixelRange, v, st, n - 1);
             Paired(mid.render, mid.clusters)
    ensures var r := Greedy(labels, cands, scene, pixelRange, v, st, n);
            Paired(r.render, r.clusters)
  {
    GreedyStepPaired(labels, cands, scene, pixelRange, v, Greedy(labels, cands, scene, pixelRange, v, st, n - 1), n - 1);
  }

  /** The greedy pass over the first `n` candidates leaves each of them claimed, and only claims. */
  lemma {:induction false} GreedyClaims(labels: seq<Label>, cands: seq<ScreenPoint>, scene: Scene, pixelRange: real,
                                        v: Variant, st: PassState, n: nat)
    requires Setting(labels, cands, scene)
    requires |st.flags| == |cands| && n <= |cands|
    decreases n
    ensures OnlyClaims(st.flags, Greedy(labels, cands, scene, pixelRange, v, st, n).flags)
    ensures forall k | 0 <= k < n :: Greedy(labels, cands, scene, pixelRange, v, st, n).flags[k]
  {
    if n > 0 {
      var mid := Greedy(labels, cands, scene, pixelRange, v, st, n - 1);
      var r := Greedy(labels, cands, scene, pixelRange, v, st, n);
      GreedyClaims(labels, cands, scene, pixelRange, v, st, n - 1);
      GreedyExtendClaims(labels, cands, scene, pixelRange, v, st, n);
      ClaimsChain(st.flags, mid.flags, r.flags, n);
    }
  }

  /** Two rounds of claims, the second claiming point `n - 1`, extend a claimed prefix by one. */
  lemma ClaimsChain(a: seq<bool>, b: seq<bool>, c: seq<bool>, n: nat)
    requires OnlyClaims(a, b) && OnlyClaims(b, c) && 0 < n <= |c| && c[n - 1]
    requires forall k | 0 <= k < n - 1 :: b[k]
    ensures OnlyClaims(a, c)
    ensures forall k | 0 <= k < n :: c[k]
  {
    forall k | 0 <= k < n
      ensures c[k]
    {
      if k < n - 1 {
        assert b[k];
      }
    }
  }

  /** The greedy pass drops nothing and only appends clusters. */
  lemma {:induction false} GreedyKeeps(labels: seq<Label>, cands: seq<ScreenPoint>, scene: Scene, pixelRange: real,
                                       v: Variant, st: PassState, n: nat)
    requires Setting(labels, cands, scene)
    requires |st.flags| == |cands| && n <= |cands|
    decreases n
    ensures var r := Greedy(labels, cands, scene, pixelRange, v, st, n);
            r.dropped == st.dropped && st.clusters <= r.clusters
  {
    if n > 0 {
      var mid := Greedy(labels, cands, scene, pixelRange, v, st, n - 1);
      var r := Greedy(labels, cands, scene, pixelRange, v, st, n);
      GreedyKeeps(labels, cands, scene, pixelRange, v, st, n - 1);
      GreedyExtendKeeps(labels, cands, scene, pixelRange, v, st, n);

    }
  }

  /** The greedy pass keeps the count. */
  lemma {:induction false} GreedyCounted(labels: seq<Label>, cands: seq<ScreenPoint>, scene: Scene, pixelRange: real,
                                         v: Variant, st: PassState, n: nat)
    requires Setting(labels, cands, scene)
    requires |st.flags| == |cands| && n <= |cands|
    requires Counted(st)
    decreases n
    ensures Counted(Greedy(labels, cands, scene, pixelRange, v, st, n))
  {
    if n > 0 {
      GreedyCounted(labels, cands, scene, pixelRange, v, st, n - 1);
      GreedyExtendCounted(labels, cands, scene, pixelRange, v, st, n);
    }
  }

  /** The greedy pass keeps the pairing. */
  lemma {:induction false} GreedyPaired(labels: seq<Label>, cands: seq<ScreenPoint>, scene: Scene, pixelRange: real,
                                        v: Variant, st: PassState, n: nat)
    requires Setting(labels, cands, scene)
    requires |st.flags| == |cands| && n <= |cands|
    requires Paired(st.render, st.clusters)
    decreases n
    ensures var r := Greedy(labels, cands, scene, pixelRange, v, st, n);
            Paired(r.render, r.clusters)
  {
    if n > 0 {
      GreedyPaired(labels, cands, scene, pixelRange, v, st, n - 1);
      GreedyExtendPaired(labels, cands, scene, pixelRange, v, st, n);
    }
  }

  // ---------------------------------------------------------------- recompute

  /**
   * An index that answers in range, and a finite box for every label that
   * is a candidate; the store's other labels are never measured.
   */
  ghost predicate Ready(labels: seq<Label>, scene: Scene) {
    WithinInRange(scene) && Measured(labels, Candidates(labels, scene))
  }

  /** The reuse pass's result, or the start state when it does not run. */
  function AfterReuse(labels: seq<Label>, scene: Scene, previous: seq<Cluster>, previousHeight: Option<real>,
                      v: Variant): (r: PassState)
    requires WithinInRange(scene)
  {
    var cands := Candidates(labels, scene);
    var start := PassState(Unclaimed(|cands|), [], [], 0);
    if ReuseRuns(scene.cameraHeight, previousHeight) then Reuse(labels, cands, scene, v, start, previous)
    else start
  }

  /** One full recompute: candidates, then the reuse pass if it runs, then the greedy pass. */
  function Recompute(labels: seq<Label>, pixelRange: real, previous: seq<Cluster>, previousHeight: Option<real>,
                     scene: Scene, v: Variant): PassState
    requires Ready(labels, scene)
  {
    var cands := Candidates(labels, scene);
    Greedy(labels, cands, scene, pixelRange, v, AfterReuse(labels, scene, previous, previousHeight, v), |cands|)
  }
}
