/**
 * The entity cluster object: the label store the data source's entities draw
 * their labels from, the render collection the last recompute produced, and
 * what the next recompute needs from the last one (its clusters and the
 * camera height).
 */
module EntityClusters {
  import opened Wrappers
  import opened Geometry
  import opened Labels
  import opened Declutter
  import opened DeclutterLoops

  /** An entity of the data source; only its identity matters here. */
  type EntityId = nat

  /** The collection an update hands the frame to. */
  datatype Drawn = NothingDrawn | StoreDrawn | RenderDrawn

  /** The pixel range used when none is given. */
  const DefaultPixelRange: real := 5.0

  /** A camera change smaller than this leaves the clustering as it is. */
  const MinimumAmount: real := 0.05

  /** A recompute that returns at once: a small camera change, or no label store yet. */
  predicate SkipsRecompute(amount: Option<real>, labels: Option<seq<Label>>) {
    (amount.Some? && amount.value < MinimumAmount) || labels.None?
  }

  /** The render collection a recompute leaves: none when it emitted no entry. */
  function RenderOf(entries: seq<RenderEntry>): (r: Option<seq<RenderEntry>>)
    ensures r.None? <==> entries == []
    ensures r.Some? ==> r.value == entries
  {
    if |entries| == 0 then None else Some(entries)
  }

  class EntityCluster {
    var pixelRange: real
    /** The label store, created by the first label request. */
    var labels: Option<seq<Label>>
    /** The render collection of the last recompute, if it emitted anything. */
    var render: Option<seq<RenderEntry>>
    var previousClusters: seq<Cluster>
    var previousHeight: Option<real>
    /** Each entity's label: the store index recorded on the entity. */
    var labelIndex: map<EntityId, nat>

    /**
     * Every recorded index names a label of the store (and none is recorded
     * before the store exists), no two entities share a label, and a render
     * collection is never empty.
     */
    ghost predicate Valid()
      reads this
    {
      && (labels.None? ==> labelIndex == map[])
      && (labels.Some? ==> forall e | e in labelIndex :: labelIndex[e] < |labels.value|)
      && (forall e1, e2 | e1 in labelIndex && e2 in labelIndex && e1 != e2 :: labelIndex[e1] != labelIndex[e2])
      && (render.Some? ==> render.value != [])
    }

    /** A new entity cluster: no store, no render collection, no previous clusters or height. */
    constructor (pixelRangeOption: Option<real>)
      ensures Valid()
      ensures pixelRange == (if pixelRangeOption.Some? then pixelRangeOption.value else DefaultPixelRange)
      ensures labels.None? && render.None? && labelIndex == map[]
      ensures previousClusters == [] && previousHeight.None?
    {
      pixelRange := if pixelRangeOption.Some? then pixelRangeOption.value else DefaultPixelRange;
      labels := None;
      render := None;
      previousClusters := [];
      previousHeight := None;
      labelIndex := map[];
    }

    /**
     * The label of entity `e`, as its store index: the recorded one if the
     * store exists and the entity has one; otherwise a new default label is
     * appended (creating the store if need be) and recorded for `e`. Either
     * way, afterwards `e`'s recorded label is the one returned, so asking
     * again returns the same label.
     */
    method GetLabel(e: EntityId) returns (index: nat)
      requires Valid()
      modifies this
      ensures Valid()
      ensures labels.Some? && index < |labels.value|
      ensures e in labelIndex && labelIndex[e] == index
      ensures old(labels.Some? && e in labelIndex) ==>
                labels == old(labels) && labelIndex == old(labelIndex) && index == old(labelIndex[e])
      ensures !old(labels.Some? && e in labelIndex) ==>
                && labels.value == (if old(labels).Some? then old(labels).value else []) + [DefaultLabel]
                && index == |labels.value| - 1
                && labelIndex == old(labelIndex)[e := index]
      ensures render == old(render) && pixelRange == old(pixelRange)
      ensures previousClusters == old(previousClusters) && previousHeight == old(previousHeight)
    {
      if labels.Some? && e in labelIndex {
        return labelIndex[e];
      }
      if labels.None? {
        labels := Some([]);
      }
      labels := Some(labels.value + [DefaultLabel]);
      index := |labels.value| - 1;
      labelIndex := labelIndex[e := index];
    }

    /**
     * What a caller does through the label it was given: the store's own
     * label at `index` becomes `lab`, and nothing else changes.
     */
    method EditLabel(index: nat, lab: Label)
      requires Valid() && labels.Some? && index < |labels.value|
      modifies this
      ensures Valid()
      ensures labels == Some(old(labels).value[index := lab])
      ensures labelIndex == old(labelIndex) && render == old(render) && pixelRange == old(pixelRange)
      ensures previousClusters == old(previousClusters) && previousHeight == old(previousHeight)
    {
      labels := Some(labels.value[index := lab]);
    }

    /**
     * Hides entity `e`'s label, if the store exists and `e` has one; the label
     * stays in the store, at the same index, with every other attribute.
     */
    method Remove(e: EntityId)
      requires Valid()
      modifies this
      ensures Valid()
      ensures labels.Some? <==> old(labels).Some?
      ensures !old(labels.Some? && e in labelIndex) ==> labels == old(labels)
      ensures old(labels.Some? && e in labelIndex) ==>
                var k := old(labelIndex[e]);
                labels.value == old(labels).value[k := old(labels).value[k].(show := false)]
      ensures labelIndex == old(labelIndex) && render == old(render) && pixelRange == old(pixelRange)
      ensures previousClusters == old(previousClusters) && previousHeight == old(previousHeight)
    {
      if labels.None? || e !in labelIndex {
        return;
      }
      var k := labelIndex[e];
      var store := labels.value;
      labels := Some(store[k := store[k].(show := false)]);
    }

    /**
     * The collection a frame draws: nothing before the store exists, the
     * store itself while no recompute has emitted anything, the render
     * collection otherwise. A render collection that is drawn is never empty.
     */
    method Update() returns (drawn: Drawn)
      requires Valid()
      ensures drawn == NothingDrawn <==> labels.None?
      ensures drawn == StoreDrawn <==> labels.Some? && render.None?
      ensures drawn == RenderDrawn ==> render.Some? && render.value != []
    {
      if labels.None? {
        return NothingDrawn;
      }
      if render.None? {
        drawn := StoreDrawn;
      } else {
        drawn := RenderDrawn;
      }
    }

    /**
     * The recompute run on a camera change of size `amount` (None when the
     * change has no size). Unless it returns at once, the render collection,
     * the clusters kept for next time and the camera height become those of
     * the recompute over the store, as written; the store and the entities'
     * labels are untouched either way.
     */
    method Recompute(amount: Option<real>, scene: Scene)
      requires Valid()
      requires !SkipsRecompute(amount, labels) ==> Ready(labels.value, scene)
      modifies this
      ensures Valid()
      ensures labels == old(labels) && labelIndex == old(labelIndex) && pixelRange == old(pixelRange)
      ensures SkipsRecompute(amount, old(labels)) ==>
                render == old(render) && previousClusters == old(previousClusters) && previousHeight == old(previousHeight)
      ensures !SkipsRecompute(amount, old(labels)) ==>
                var out := Declutter.Recompute(old(labels).value, pixelRange, old(previousClusters),
                                               old(previousHeight), scene, AsWritten);
                && render == RenderOf(out.render)
                && previousClusters == out.clusters
                && previousHeight == Some(scene.cameraHeight)
    {
      if amount.Some? && amount.value < MinimumAmount {
        return;
      }
      if labels.None? {
        return;
      }
      var out, kept := RecomputePasses(labels.value, pixelRange, previousClusters, previousHeight, scene);
      render := RenderOf(out);
      previousClusters := kept;
      previousHeight := Some(scene.cameraHeight);
    }
  }
}
