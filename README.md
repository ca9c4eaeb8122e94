# Entity label clustering, modelled in Dafny

This project models the label declutter engine of `Source/DataSources/EntityCluster.js`:

- An `EntityCluster` owns a label store from which the data source's entities take their labels.
- On every camera change, it recomputes which labels are shown on their own and which are merged into count markers.
- A recompute has three stages:
  - **Candidates.** It keeps the unoccluded labels whose screen projection falls inside the drawing buffer, in store order.
  - **Reuse pass.** When the camera has not gone up since the last recompute, it reuses the previous recompute's clusters. Each one that is still visible claims the unclaimed candidates within its radius. With more than one point, the cluster is kept and a marker is emitted at its position.
  - **Greedy pass.** Every still-unclaimed candidate, in store order, claims the unclaimed candidates near its label's screen box (widened by the pixel range). Alone, it is shown as a copy of its label. Otherwise a marker with the member count is emitted at the members' mean position, and a new cluster is kept whose radius is half the larger extent of the grown box.

Files:

| file | contents |
|---|---|
| `wrappers.dfy` | `Option` |
| `geometry.dfy` | vectors, rectangles and the rectangle union |
| `labels.dfy` | labels, the label copy, the screen bounding box (function and glyph loop) |
| `declutter.dfy` | the recompute as functions over values, and its pass invariants |
| `declutter_loops.dfy` | the recompute's loops, flipping the claim flags held in an array; each is proved equal to its function |
| `declutter_properties.dfy` | what a recompute produces: accounting, reuse gating, marker ids, centroid, radius |
| `entity_cluster.dfy` | the `EntityCluster` class: constructor, `GetLabel`, `Remove`, `Update` and the `Recompute` method the camera listener runs |

The engine's behaviour differs from its evident intent in three places: see "## Findings". Each function concerned takes a `Variant`:
- `AsWritten` follows the code, and the class uses it.
- `Corrected` is the intended behaviour.

The accounting, gating and geometry lemmas are proved for both variants.

Real numbers stand in for the engine's floating-point numbers.

The occluder, the two screen projections and the spatial index's `within` query are external. They are the function-valued fields of a `Scene`. The only assumption made about `within` is that it answers with indices of the points it was built over.

## Model

The functions that only compute a pass or a step (`Claim`, `Gather`, `ReuseStep`, `Reuse`, `GreedyStep`, `Absorb`, `Greedy`, `Recompute`) are stated through the lemmas about them and the loops proved equal to them, which are listed here.

| member | source | states |
|---|---|---|
| Labels.GetLabelBoundingBox | Source/DataSources/EntityCluster.js:42-84 | The glyph loop computes exactly `LabelBoundingBox`. It sums the billboard widths and keeps a running maximum height that starts at minus infinity; glyphs without a billboard are skipped. |
| Labels.MaxHeightIsMaximum | Source/DataSources/EntityCluster.js:45-58 | The running height stays at minus infinity exactly when no glyph has a billboard. Otherwise it is at least every billboard's height and equal to one of them. |
| Labels.AnchorPlacement | Source/DataSources/EntityCluster.js:60-83 | The box's extent, less half the pixel range, is the scaled glyph run. With the corner moved back by the pixel range, the anchor lies on the right edge, middle or left edge (RIGHT/CENTER/LEFT) and on the top edge, middle or bottom edge (TOP/CENTER/BOTTOM). |
| Labels.CorrectedCloneRoundTrip | Source/DataSources/EntityCluster.js:86-106 | Corrected, a label created from a label's copy, given the same glyphs, is that label: every attribute is carried over. |
| Labels.CloneDropsStyle | Source/DataSources/EntityCluster.js:94 | As written, the copy has no style, so the label created from it has the default style FILL. It equals the original exactly when the original's style is FILL, and agrees with it on every other attribute. |
| Geometry.Union | Source/DataSources/EntityCluster.js:246 | The union encloses both boxes, and each of its sides lies on a side of one of them. |
| Declutter.Candidates | Source/DataSources/EntityCluster.js:149-165 | Every candidate refers to a store label that is unoccluded, projects to a defined point inside the drawing buffer, and carries that projection. Candidates are in strictly increasing store order. |
| Declutter.CandidatesComplete | Source/DataSources/EntityCluster.js:149-165 | Every unoccluded, on-screen label of the store is a candidate. |
| Declutter.Unclaimed | Source/DataSources/EntityCluster.js:160-164 | Every candidate starts unclaimed, with one flag per candidate. |
| Declutter.ClaimOne | Source/DataSources/EntityCluster.js:201 | Claiming an unclaimed point adds exactly one to the number of claimed points. |
| Declutter.ClaimMarks | Source/DataSources/EntityCluster.js:197-205 | A claim sets exactly the flags it records, and each recorded point was unclaimed before. Every neighbour ends up claimed, and the claimed count grows by the number recorded, so no point is counted twice. |
| Declutter.GrownBoxEncloses | Source/DataSources/EntityCluster.js:229-246 | The grown box encloses the seed's box and the box of every absorbed point. |
| Declutter.ClaimSnoc | Source/DataSources/EntityCluster.js:197-205 | Proof step of `Declutter.GatherIsClaim`. One more neighbour is claimed and recorded when unclaimed, and skipped otherwise. |
| Declutter.AbsorbSnoc | Source/DataSources/EntityCluster.js:243-249 | Proof step of `Declutter.GatherIsClaim`. One more absorbed point adds its label to the ids, its position to the sum and its box to the grown box. |
| Declutter.GatherIsClaim | Source/DataSources/EntityCluster.js:234-251 | The greedy inner loop claims exactly what a claim of the same neighbours claims. The count is one more than the points claimed, and the ids are their labels. The position is the seed's position plus their positions, and the box is the seed's box grown by theirs. |
| Declutter.AppendEntry | Source/DataSources/EntityCluster.js:253-262 | Proof step of `Declutter.AbsorbCounted` and `Declutter.ReuseStepPreserves`. An entry appended to the render collection adds its weight (1 for a copy, the count for a marker) to the points the collection stands for. |
| Declutter.PairedCopy | Source/DataSources/EntityCluster.js:253-254 | Proof step of `Declutter.AbsorbPaired`. Emitting a copy keeps every kept cluster paired with its marker. |
| Declutter.PairedExtend | Source/DataSources/EntityCluster.js:208-214 | Proof step of `Declutter.AbsorbPaired` and `Declutter.ReuseStepPreserves`. Keeping a cluster together with a marker of more than one point at its position keeps the pairing. |
| Declutter.ReuseStepPreserves | Source/DataSources/EntityCluster.js:180-215 | A reuse step only claims and keeps the accounting. Corrected, it drops nothing. It either leaves render and clusters as they were, or keeps the cluster unchanged and emits one marker at its position whose ids list all its points, more than one. |
| Declutter.ReusePreserves | Source/DataSources/EntityCluster.js:178-216 | The reuse pass only claims and keeps the accounting, and drops nothing when corrected. It keeps the clusters it started with, and every cluster it appends is one of the previous clusters. |
| Declutter.AbsorbClaims | Source/DataSources/EntityCluster.js:226-251 | Proof step of `Declutter.GreedyStepClaims`. Visiting an unclaimed seed claims it and otherwise only claims. |
| Declutter.AbsorbKeeps | Source/DataSources/EntityCluster.js:253-267 | Proof step of `Declutter.GreedyStepKeeps`. Visiting an unclaimed seed drops nothing and only appends clusters. |
| Declutter.AbsorbCount | Source/DataSources/EntityCluster.js:226-251 | Proof step of `Declutter.GreedyStepCounted`. Visiting an unclaimed seed claims the seed plus exactly the neighbours it records. |
| Declutter.AbsorbCounted | Source/DataSources/EntityCluster.js:253-262 | Proof step of `Declutter.GreedyStepCounted`. Visiting an unclaimed seed keeps the count: its copy or marker stands for every point it claims. |
| Declutter.AbsorbPaired | Source/DataSources/EntityCluster.js:253-267 | Proof step of `Declutter.GreedyStepPaired`. Visiting an unclaimed seed keeps the pairing between kept clusters and markers. |
| Declutter.GreedyStepClaims | Source/DataSources/EntityCluster.js:221-226 | Proof step of `Declutter.GreedyExtendClaims`. After a greedy visit of candidate `i`, `i` is claimed, and the visit only claims. |
| Declutter.GreedyStepKeeps | Source/DataSources/EntityCluster.js:220-267 | Proof step of `Declutter.GreedyExtendKeeps`. A greedy visit drops nothing and only appends clusters. |
| Declutter.GreedyStepCounted | Source/DataSources/EntityCluster.js:220-267 | Proof step of `Declutter.GreedyExtendCounted`. A greedy visit keeps the count. |
| Declutter.GreedyStepPaired | Source/DataSources/EntityCluster.js:220-267 | Proof step of `Declutter.GreedyExtendPaired`. A greedy visit keeps the pairing. |
| Declutter.GreedyExtendClaims | Source/DataSources/EntityCluster.js:220-267 | Proof step of `Declutter.GreedyClaims`. Visiting one more candidate claims it and only claims. |
| Declutter.GreedyExtendKeeps | Source/DataSources/EntityCluster.js:220-267 | Proof step of `Declutter.GreedyKeeps`. Visiting one more candidate drops nothing and only appends clusters. |
| Declutter.GreedyExtendCounted | Source/DataSources/EntityCluster.js:220-267 | Proof step of `Declutter.GreedyCounted`. Visiting one more candidate keeps the count. |
| Declutter.GreedyExtendPaired | Source/DataSources/EntityCluster.js:220-267 | Proof step of `Declutter.GreedyPaired`. Visiting one more candidate keeps the pairing. |
| Declutter.GreedyClaims | Source/DataSources/EntityCluster.js:219-268 | After the greedy pass every candidate it visited is claimed, and the pass only claims. |
| Declutter.GreedyKeeps | Source/DataSources/EntityCluster.js:219-268 | The greedy pass drops nothing and keeps the clusters it started with as a prefix. |
| Declutter.GreedyCounted | Source/DataSources/EntityCluster.js:219-268 | The greedy pass keeps the count. |
| Declutter.GreedyPaired | Source/DataSources/EntityCluster.js:219-268 | The greedy pass keeps the pairing. |
| DeclutterLoops.CollectPoints | Source/DataSources/EntityCluster.js:145-165 | The culling loop, appending one point per accepted label, builds exactly `Candidates`. |
| DeclutterLoops.NewFlags | Source/DataSources/EntityCluster.js:160-164 | The claim flags start all false, one per candidate. |
| DeclutterLoops.ClaimNeighbors | Source/DataSources/EntityCluster.js:193-205 | The reuse inner loop leaves the flags that `Claim` gives. It counts the claimed points and collects their labels. |
| DeclutterLoops.ReusePass | Source/DataSources/EntityCluster.js:178-216 | The reuse loop leaves the flags, render entries and kept clusters that the `Reuse` function gives for the code as written. |
| DeclutterLoops.AbsorbNeighbor | Source/DataSources/EntityCluster.js:239-250 | One neighbour of the greedy inner loop updates flags, count, sum, box and ids as `GatherStep` does. |
| DeclutterLoops.AbsorbNeighbors | Source/DataSources/EntityCluster.js:233-251 | The greedy inner loop ends in the state `Gather` gives. |
| DeclutterLoops.GreedyVisit | Source/DataSources/EntityCluster.js:221-267 | One visit of the greedy loop leaves flags, render entries and kept clusters as `GreedyStep` gives for the code as written. |
| DeclutterLoops.GreedyPass | Source/DataSources/EntityCluster.js:219-268 | The greedy loop leaves flags, render entries and kept clusters as `Greedy` gives over all candidates. |
| DeclutterLoops.RecomputePasses | Source/DataSources/EntityCluster.js:126-268 | Collecting the candidates, clearing their flags, running the reuse pass only when the camera has not gone up, then the greedy pass, gives exactly the entries and kept clusters of the as-written recompute. Only the candidates' labels need a finite box. |
| DeclutterProperties.AllClaimedCount | Source/DataSources/EntityCluster.js:219-268 | When every flag is set, the claimed count is the number of candidates. |
| DeclutterProperties.NoneClaimedCount | Source/DataSources/EntityCluster.js:160-164 | When no flag is set, the claimed count is zero. |
| DeclutterProperties.StartConsistent | Source/DataSources/EntityCluster.js:126-165 | Before the passes nothing is claimed, emitted, kept or dropped, and the accounting holds. |
| DeclutterProperties.RecomputeAccounting | Source/DataSources/EntityCluster.js:108-279 | After a recompute every candidate is claimed. The entries' weights plus the points dropped by reuse steps sum to the number of candidates. Nothing is dropped when corrected or when the reuse pass does not run. Every kept cluster pairs with a marker of more than one point at its position. |
| DeclutterProperties.HiddenLabelStillCandidate | Source/DataSources/EntityCluster.js:310-317 | Hiding a label, as `remove` does, leaves the recompute's candidates unchanged, given a projection that ignores `show`: the hidden label is still clustered. |
| DeclutterProperties.ReuseSkippedWhenRising | Source/DataSources/EntityCluster.js:178 | With no previous height, or a camera that has gone up, the previous clusters play no part: the recompute equals one without them. |
| DeclutterProperties.ReuseLosesLonePoint | Source/DataSources/EntityCluster.js:197-215 | As written, a visible previous cluster with exactly one unclaimed point in range claims it and emits nothing. Corrected, the step changes nothing. |
| DeclutterProperties.ReusedClustersUnchanged | Source/DataSources/EntityCluster.js:178-268 | The kept clusters start with the reuse pass's clusters, each one of the previous clusters unchanged. There are none when the reuse pass does not run. |
| DeclutterProperties.SeedNotAbsorbed | Source/DataSources/EntityCluster.js:220-250 | The seed's label is not among the labels of its absorbed neighbours. |
| DeclutterProperties.GreedyIdsOmitSeed | Source/DataSources/EntityCluster.js:234-261 | As written, a greedy marker of `count` points carries `count - 1` ids, and the seed's label is not among them. |
| DeclutterProperties.CorrectedGreedyIdsComplete | Source/DataSources/EntityCluster.js:234-261 | Corrected, a greedy marker carries one id per member: the seed's label first, then the absorbed labels. |
| DeclutterProperties.SumOfSnoc | Source/DataSources/EntityCluster.js:245 | Proof step of `DeclutterProperties.AccumulateIsSum`. Adding one more label's position extends the position sum by it. |
| DeclutterProperties.AccumulateIsSum | Source/DataSources/EntityCluster.js:234-249 | The running sum is the start position plus the sum of the absorbed labels' positions. |
| DeclutterProperties.CentroidIsMean | Source/DataSources/EntityCluster.js:234-256 | A greedy cluster sits at the arithmetic mean of the positions of its seed's label and every absorbed label. |
| DeclutterProperties.EnclosedExtent | Source/DataSources/EntityCluster.js:246 | Proof step of `DeclutterProperties.ClusterRadiusCoversMembers`. A box enclosed by another is no wider and no taller. |
| DeclutterProperties.ClusterRadiusCoversMembers | Source/DataSources/EntityCluster.js:263-266 | A new cluster's radius is at least half the width and half the height of the box of each of its members. |
| EntityClusters.RenderOf | Source/DataSources/EntityCluster.js:270-275 | A recompute that emitted nothing leaves no render collection. Otherwise the collection holds exactly the emitted entries. |
| EntityClusters.EntityCluster.constructor | Source/DataSources/EntityCluster.js:281-292 | A new entity cluster has the given pixel range (default 5), no store, no render collection, no previous clusters and no previous height. |
| EntityClusters.EntityCluster.GetLabel | Source/DataSources/EntityCluster.js:294-308 | If the store exists and the entity has a label, that label is returned and nothing changes. Otherwise a default label is appended to the store (created if needed), recorded for the entity and returned. Either way, the entity's recorded label is the one returned, and no two entities share a label. |
| EntityClusters.EntityCluster.EditLabel | Source/DataSources/EntityCluster.js:294-308 | Writing through the label `GetLabel` returned replaces that store label and nothing else. |
| EntityClusters.EntityCluster.Remove | Source/DataSources/EntityCluster.js:310-317 | Without a store or a label for the entity, nothing changes. Otherwise exactly that label is hidden and stays in the store at its index. |
| EntityClusters.EntityCluster.Update | Source/DataSources/EntityCluster.js:319-329 | A frame draws nothing without a store, the store while there is no render collection, and otherwise the render collection, which is never empty. |
| EntityClusters.EntityCluster.Recompute | Source/DataSources/EntityCluster.js:108-279 | A change below 0.05, or a missing store, changes nothing. Otherwise render collection, kept clusters and height become those of the as-written recompute over the store. The store and the entities' labels never change. Only the candidates' labels need a finite box. |

## Left out

- The camera-changed listener and its removal, `destroy` and `isDestroyed` are left out. The constructor's registration of the recompute is not modelled: the caller invokes `EntityCluster.Recompute`.
- Per-frame drawing: `Update` returns which collection a frame draws instead of calling its `update`.
- The occluder, label and cluster screen projections, and the k-d tree's `within` query are external. They are given as functions of a `Scene`, and the model does not capture their geometry (the Euclidean radius query in particular).
- Label layout is external to this model. Glyphs are part of a label value, and `LabelFromOptions` takes the glyphs the new label lays out into.
- Callers change labels through the object `getLabel` returns. `EntityCluster.EditLabel` stands for that write-through; the label store's own API (LabelCollection.js) is not part of this model.
- Floating-point arithmetic is modelled with real numbers: no rounding, overflow, NaN or infinities.
- DeclutterProperties.HiddenLabelStillCandidate: assumes the label projection ignores `show`; the projection itself is not part of this model.
- Declutter.Recompute, DeclutterLoops.RecomputePasses, EntityClusters.EntityCluster.Recompute, Labels.GetLabelBoundingBox: require every label whose box is computed, that is every candidate's label (one that is unoccluded and on screen), to have at least one billboard glyph. Labels that are not candidates are never measured and may have none. A glyph-less label (empty text) has a box height of minus infinity in the engine, and infinite box coordinates have no real-number model.
- Entries carry store indices rather than label objects. A marker's `id` list is a list of store indices.
- The previous clusters the reuse pass visits are the ones the last recompute kept. A cluster is a value, so its identity is not modelled.
- Repeatability under an unchanged camera (the same partition on a second recompute) is not proved. It depends on the reuse pass reproducing clusters through the external index.

## Findings

| source | as written | input that shows it | evidently intended | confidence | as-written member | corrected member |
|---|---|---|---|---|---|---|
| Source/DataSources/EntityCluster.js:197-215 | A previous cluster claims its neighbours before it checks their number. With exactly one point, that point is marked clustered but no marker or copy is emitted, so it is not shown at all in this recompute. | Camera not risen; a visible previous cluster whose radius holds exactly one unclaimed candidate | A reuse step with at most one point claims nothing and leaves the point to the greedy pass; every candidate is shown | not executed | DeclutterProperties.ReuseLosesLonePoint | DeclutterProperties.RecomputeAccounting |
| Source/DataSources/EntityCluster.js:234-261 | A greedy marker's `id` list holds only the absorbed neighbours' labels: `count - 1` ids, without the seed's label. | Two candidates whose boxes overlap: the marker says 2 and lists one label | The marker lists all `count` member labels, the seed's first | not executed | DeclutterProperties.GreedyIdsOmitSeed | DeclutterProperties.CorrectedGreedyIdsComplete |
| Source/DataSources/EntityCluster.js:94 | The copy's style is read from `label.outlineStyle`. Every other attribute is read under its own name, and a label's style is `label.style`, so the copy has no style and a label shown on its own takes the default style. | A label with style OUTLINE and no neighbour is shown with style FILL | The copy carries `label.style` | not executed | Labels.CloneDropsStyle | Labels.CorrectedCloneRoundTrip |
