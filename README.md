# diagramap_3d: point projection and point store

This project models the logic core of `main.js` in diagramap_3d, an editor
that places Peircean "semiotic sign" points inside a triangular prism shown
with three.js. It covers two things.

- **Projection** (`projection.dfy`, module `Projection`). `valuesToPosition`
  turns a point's values into a position. The three intensities (icono,
  indice, simbolo) are divided by their sum. The `|| 1` turns a zero sum into
  1. The resulting weights combine the three attractor positions into x and
  y. The sign type picks the z plane: "Legisign" gives 150, "Qualisign"
  gives -150, and anything else gives 0. The attractors are a parameter.
  `PrismAnchors(h)` builds the triangle of `setupPrismVisuals`: the points
  at 150, 30 and 270 degrees on the circle of radius 200. `h` stands for
  200 * cos 30 degrees, which is irrational; all other coordinates are exact.
- **Point store** (`store.dfy`, module `Store`). This is the module-level
  `points` array and the `selectedPoint` reference, changed by `addPoint`,
  `deletePoint`, `selectPoint` and the data half of `onControlsChange`.
  - The class `PointStore` holds the state and implements the four
    operations as methods.
  - Each method is specified by a function on the abstract `State`
    (`AfterAdd`, `AfterDelete`, `AfterSelect`, `AfterControls`).
  - Lemmas on those functions prove what the operations promise and that
    they keep the store invariant `Inv`. `Inv` says: ids are unique; the
    selection is null or a stored id; exactly the selected point shows the
    selected material; every mesh's position and geometry match its values.
  - A mesh is a record of its position, its geometry (one of the three in
    `geometries`, or `None` for a logic outside the three the select
    offers), whether it was turned so a cone points up, and its material.
    The material is either the clone of the default material a point is
    created with, the shared default material, or the shared selected
    material.
- **Names** (`names.dfy`). This is the name check of `addPoint`. It models
  JavaScript's `String.prototype.trim` over ECMAScript's whitespace and
  line-terminator characters. `wrappers.dfy` holds the `Option` type.

Behaviour of `main.js` worth noting:
- It computes no per-point colour.
- Selecting the already selected point is a no-op, not a toggle.
- There is no `update(id, …)` that can fail with NotFound. `onControlsChange`
  edits only the selected point, and does nothing when nothing is selected.
- `onControlsChange` never re-orients the mesh. A point whose logic becomes
  "Dicent" through the controls keeps its old rotation.

## Model

| member | source | states |
|---|---|---|
| Projection.PrismAnchorsGeometry | main.js:78-81 | with h = 200·cos 30°, the three attractors lie on the circle of radius planeSize/2 in z = 0, the triangle is equilateral, and its centroid is the origin |
| Projection.PrismAnchors | main.js:78-81 | the attractor triangle lies in z = 0, icono and indice mirror each other across x = 0 at the same height, simbolo sits on the y axis at -radius, and the y coordinates sum to 0 |
| Projection.Divisor | main.js:228 | the divisor of the normalisation is never zero (`|| 1`) |
| Projection.BarycentricWeights | main.js:228-231 | with non-negative intensities every weight is non-negative, and with all intensities 0 every weight is 0 |
| Projection.ZOffset | main.js:241-243 | z is 150 iff the type is "Legisign", -150 iff "Qualisign", 0 iff neither |
| Projection.ValuesToPosition | main.js:225-246 | the position's z is the sign type's plane, and with non-negative intensities summing to 0 the position lies on the z axis (x = y = 0) |
| Projection.PositionZ | main.js:241-245 | the position's z is 150 / -150 / 0 exactly for Legisign / Qualisign / other types, and depends neither on the anchors nor on the intensities |
| Projection.WeightsSumToOne | main.js:228-231 | whenever the intensities do not sum to 0, the three weights sum to 1 |
| Projection.ConvexWeights | main.js:228-231 | non-negative intensities with a positive sum give non-negative weights summing to 1 |
| Projection.ZeroSumPosition | main.js:228-238 | all-zero intensities: the divisor is 1, every weight is 0, and the position is (0, 0, z) for any anchors |
| Projection.OnlyIconoOnAnchor | main.js:228-238 | a point whose only nonzero intensity is icono has the icono attractor's x and y |
| Projection.OnlyIndiceOnAnchor | main.js:228-238 | a point whose only nonzero intensity is indice has the indice attractor's x and y |
| Projection.OnlySimboloOnAnchor | main.js:228-238 | a point whose only nonzero intensity is simbolo has the simbolo attractor's x and y |
| Projection.ScaleInvariant | main.js:225-245 | multiplying all three intensities by k > 0 changes neither the weights nor the position |
| Projection.WithinAnchorBounds | main.js:228-238 | for non-negative intensities with a positive sum, x and y lie between the smallest and largest attractor coordinate |
| Projection.PlaceWithinBounds | main.js:237-238 | a convex combination of the attractors lies within their bounds in x and y |
| Projection.ZeroSumIsCentroid | main.js:78-81 | on the prism's triangle, the all-zero point coincides with the point of three equal positive intensities (the centroid) |
| Names.TrimStart | main.js:121 | the result is a suffix of the input; everything dropped is whitespace; it does not start with whitespace |
| Names.TrimEnd | main.js:121 | the result is a prefix of the input; everything dropped is whitespace; it does not end with whitespace |
| Names.Trim | main.js:121 | `trim()` gives a piece of the name with only whitespace before and after it, and that piece neither starts nor ends with whitespace |
| Names.TrimEmptyIffBlank | main.js:121 | `trim()` gives "" exactly when every character is whitespace or a line terminator |
| Names.IsRejectedName | main.js:121 | the guard refuses null and the empty name, and accepts every name whose first character is not whitespace |
| Names.RejectedNameIffBlank | main.js:120-121 | addPoint refuses a name exactly when it is null or made only of whitespace (the empty name included) |
| Store.GeometryFor | main.js:12-16 | the `geometries` lookup gives the sphere, cone and octahedron exactly for Rheme, Dicent and Argument; other logic values are outside the modelled domain and map to `None` |
| Store.NewPoint | main.js:131-136 | the new point carries the given id, name and values, its mesh is in sync with them, it shows its own default material (not selected), and it is turned cone-up exactly for "Dicent" |
| Store.Edited | main.js:196-208 | the edited point keeps its id, name, material and rotation, takes the new values, and its mesh is in sync with them |
| Store.FindIndex | main.js:146 | `findIndex` on the id: -1 exactly when no stored point has the id, otherwise the first index holding it |
| Store.Without | main.js:152 | the remaining points are exactly the stored points whose id differs |
| Store.AfterSelect | main.js:158-161 | the selection becomes id; the counter, the length, each point's id and values stay; the point with that id shows the selected material |
| Store.AfterAdd | main.js:119-143 | a refused name leaves the store unchanged; otherwise one point is appended with the counter's id and the given values, the counter advances, and that point is selected and shows the selected material |
| Store.AfterDelete | main.js:145-156 | an unknown id leaves the store unchanged; otherwise the stored ids lose exactly that id, and the selection is no longer it; an unrelated selection and the counter stay |
| Store.AfterControls | main.js:196-209 | the selection, the counter and the length stay, and every point that changes is the selected one, edited with the new values |
| Store.SpliceIsWithout | main.js:146-152 | with unique ids, splicing out index k removes exactly the point with that index's id and keeps the order of the rest |
| Store.SpliceUnique | main.js:152 | splicing out one point keeps ids unique |
| Store.SelectSteps | main.js:159-161 | the two material assignments of selectPoint, made on the previous selection's record and then on the new one's, give the point-wise reselection |
| Store.SelectEffect | main.js:158-161 | after selectPoint(id): the selection is id; only materials change; exactly the point with id shows the selected material; the previous selection reverts to the default material; other points are untouched |
| Store.SelectPreservesInv | main.js:158-161 | selectPoint keeps the store invariant |
| Store.SelectIdempotent | main.js:158-161 | selecting the already selected point changes nothing (no toggle) |
| Store.AtMostOneHighlighted | main.js:158-161 | under the invariant, at most one point shows the selected material |
| Store.AddEffect | main.js:119-143 | a null/empty/blank name changes nothing; otherwise exactly one point is appended with a fresh id, its values and the projected position, and becomes the selection with the selected material; earlier points are unchanged except that the previous selection reverts to the default material |
| Store.PushPreservesInv | main.js:131-139 | pushing the newly built point keeps the invariant and makes its id stored |
| Store.AddPreservesInv | main.js:119-143 | addPoint keeps the store invariant |
| Store.DeleteEffect | main.js:145-156 | an unknown id changes nothing; a known id removes exactly that point, keeps the others in order, and nulls the selection exactly when that point was selected |
| Store.DeletePreservesInv | main.js:145-156 | deletePoint keeps the store invariant |
| Store.ControlsEffect | main.js:190-210 | with no selection nothing changes; otherwise only the selected point changes: its values become the inputs, its position is their projection, its geometry is the new logic's and is replaced exactly when it differed; material, rotation and the selection stay |
| Store.ControlsPreservesInv | main.js:196-209 | onControlsChange keeps the store invariant, so no mesh is left stale |
| Store.ControlsUnchangedValues | main.js:196-209 | onControlsChange with the selected point's own values leaves the store unchanged |
| Store.PointStore.constructor | main.js:7-8 | the store starts with no points and no selection |
| Store.PointStore.AddPoint | main.js:119-143 | the new state is `AfterAdd` of the old one, and the invariant holds |
| Store.PointStore.DeletePoint | main.js:145-156 | the new state is `AfterDelete` of the old one, and the invariant holds |
| Store.PointStore.SelectPoint | main.js:158-163 | the new state is `AfterSelect` of the old one, and the invariant holds |
| Store.PointStore.OnControlsChange | main.js:190-210 | the new state is `AfterControls` of the old one, and the invariant holds |

## Left out

- three.js scene setup, camera, renderer, orbit controls, lights, grid planes, attractor meshes, the animation loop and resize handling (main.js:49-73, 84-116, 219-223): rendering I/O with no logic.
- DOM work: `updatePointList`, `updateUIFromPoint`, the slider labels of `onControlsChange` and the `ui` lookups (main.js:26-43, 166-194). `prompt` and the slider and select values become method parameters.
- `parseInt` of the slider strings: intensities are Dafny integers. A slider that yields NaN (which `|| 1` would also turn into 1) is not modelled.
- Event wiring (main.js:213-217), including the `ui.scrollects` typo that stops the selects from firing `onControlsChange`. `OnControlsChange` takes all five values as parameters, whatever event would call it.
- IEEE floating point, `Math.cos`/`Math.sin` and `degToRad`: positions are `real`. The coordinate 200·cos 30° is the parameter `h` of `PrismAnchors`.
- `geometry.dispose()` and `material.dispose()` (main.js:150-151, 206): GPU resource calls. These calls dispose geometries and materials that other meshes share; the model does not track disposal.
- `generateUUID`: ids come from a counter `nextId`, which makes freshness provable.
- Store.PointStore.SelectPoint: requires the id of a stored point. main.js takes any point object, but its callers (addPoint and the list items) pass only stored ones.
- Store.PointStore: `selectedPoint` is a reference to an object inside `points`. The model keeps the selected id instead; ids are unique, so that id names exactly one record. The methods locate the selected record with `FindIndex`. Aliasing between the reference and the array element is not modelled.
- Logic values other than "Rheme", "Dicent" and "Argument" are outside the modelled domain: the select offers only these three. For another string, `geometries[logic]` in main.js:131 and 205 would be an object-literal lookup that can return an inherited `Object.prototype` member, and `new THREE.Mesh(undefined, …)` would use three.js's default geometry. `GeometryFor` maps every such string to `None` and does not model either behaviour.
- Colour: `main.js` computes no per-point colour; the only colours are fixed material colours. Nothing is modelled for it.
