# anyblend, modelled in Dafny

anyblend is a helper library for scripting Blender. This project models the
self-contained logic beneath its Blender calls, with the host types replaced
by plain Dafny data:

- the polygon table (`cls_polygons.py`): prefix sums of polygon counts, index
  lookup, weight filtering, sampling from a cumulative distribution and
  simplex weights;
- the random surface-point samplers (`points.py`): argument validation, the
  accept/reject loops with their shrinking candidate list, and the result
  maps;
- oriented bounding boxes (`cls_boundbox.py`): construction dispatch, move,
  offset, the point-inside and separating-side tests, intersection and the
  object relation;
- the instance container (`cls_instances.py`) and its random selection and
  name uniquing;
- scene-tree traversals (`collection.py`, `object.py`): pre-order searches,
  listings, hierarchy names, vertex weights, hiding and the delta-mode
  selection;
- the grid mesh index builder (`mesh/surf.py`);
- the rigid-body parameter mirror (`cls_rigidbody_object_pars.py`);
- the animation-handler registry (`anim/util.py`);
- node-graph construction: the Horner polynomial group
  (`node/grp/polynomial.py`), socket provisioning and node-type replacement
  (`node/shader/utils.py`), node lookups and node-group de-duplication
  (`util/node.py`);
- layout: node placement (`node/align.py`) and the object grid of
  `SpreadObjectsIn2D` (`tools.py`);
- compute-device selection (`app/prefs.py`) and matrix conversion
  (`util/convert.py`).

A Python `raise` becomes `Err(message)`, with the source's message text. The
source's state changes become classes with `modifies` clauses; its pure code
becomes functions and lemmas.

Each source file has its own Dafny module, with one exception:
`node/shader/utils.py` is split into `ShaderUtils` (socket provisioning) and
`ShaderReplace` (node-type replacement). Some modules stand for no source
file:
- `Wrappers` holds `Option` and `Result`;
- `Vectors` holds three-vectors over `real`;
- `Strings` holds the string helpers;
- `NodeTree` is the shared model of Blender's node trees and blend data
  (nodes, sockets, links, node groups, materials) that the node modules
  work on.

Random draws, the SVD, `sqrt`, normalisation, ray casts and other Blender
evaluations are parameters of the model. They are given either as functions
or as finite oracle sequences. Reals are mathematical reals: there is no
floating-point rounding, NaN or infinity.

## Model

| member | source | states |
|---|---|---|
| BoundBox.EvalBoundingBox | src/anyblend/cls_boundbox.py:100-125 | the box has eight corners, its size is aMax - aMin, its frame is the given rows, each half size is half the size and the radius squared is the sum of the squared half sizes |
| BoundBox.EvaluatedBoxContainsCorners | src/anyblend/cls_boundbox.py:100-125 | a box built from an orthonormal frame with aMin <= aMax holds its own eight corners under the point test with border 0 |
| BoundBox.InitObjectList | src/anyblend/cls_boundbox.py:48-59 | construction succeeds exactly when one of an object and an object list is given, and builds from `[objX]` or from the list |
| BoundBox.Moved | src/anyblend/cls_boundbox.py:342-347 | the centre and every corner are shifted by the delta; frame, size, half size and radius are kept |
| BoundBox.CBoundingBox.FromBox | src/anyblend/cls_boundbox.py:105-125 | the new box object holds exactly the computed fields |
| BoundBox.CBoundingBox.Move | src/anyblend/cls_boundbox.py:342-347 | the object's fields become those of the moved box |
| BoundBox.CBoundingBox.GetDelta | src/anyblend/cls_boundbox.py:352-362 | fails exactly when the relative position does not have three entries; otherwise returns the sum of rel_i * size_i * base_i |
| BoundBox.PartialDeltaFull | src/anyblend/cls_boundbox.py:357-360 | the loop's running sum over the three axes is the delta |
| BoundBox.DeltaAlongAxis | src/anyblend/cls_boundbox.py:352-362 | over an orthonormal frame the delta, measured along axis i, is rel_i times the box's size along i |
| BoundBox.CBoundingBox.IsAnyPointInside | src/anyblend/cls_boundbox.py:423-434 | true exactly when some point is within half size plus border along every frame axis |
| BoundBox.CBoundingBox.AllPointsInside | src/anyblend/cls_boundbox.py:439-450 | true exactly when every point passes that point test |
| BoundBox.PointInsideMoved | src/anyblend/cls_boundbox.py:423-450 | moving the box and the point by the same delta does not change the point test |
| BoundBox.CBoundingBox.AllPointsToOneSideOfBoundBox | src/anyblend/cls_boundbox.py:455-467 | true exactly when, along some frame axis, all points lie beyond the upper face or all beyond the lower face |
| BoundBox.OneSideMoved | src/anyblend/cls_boundbox.py:455-467 | moving the box and the points by the same delta does not change the one-side test |
| BoundBox.CBoundingBox.TestIntersect | src/anyblend/cls_boundbox.py:472-492 | false when the enclosing spheres are apart or one box's corners all lie beyond one face of the other; true otherwise |
| BoundBox.TestIntersectSymmetric | src/anyblend/cls_boundbox.py:472-492 | the intersection test gives the same answer with its two boxes swapped |
| BoundBox.TestIntersectMoved | src/anyblend/cls_boundbox.py:472-492 | moving both boxes by the same delta does not change the intersection test |
| BoundBox.CBoundingBox.Intersects | src/anyblend/cls_boundbox.py:497-498 | the same answer as the intersection test of the two boxes |
| BoundBox.CBoundingBox.IsInside | src/anyblend/cls_boundbox.py:503-504 | true exactly when every corner of this box is inside the other box |
| BoundBox.CBoundingBox.IsOutside | src/anyblend/cls_boundbox.py:509-510 | true exactly when no corner of this box is inside the other box |
| BoundBox.MaxAbsProj | src/anyblend/cls_boundbox.py:527-528 | the largest absolute local coordinate along an axis bounds every vertex's and is reached by one of them |
| BoundBox.EvalObjectRelation | src/anyblend/cls_boundbox.py:515-545 | a non-mesh object or an empty vertex array raises; INSIDE exactly when every vertex is within half size plus border on every axis; OUTSIDE exactly when on every axis some vertex is beyond it |
| BoundBox.RelationInsideIffAllInside | src/anyblend/cls_boundbox.py:515-547 | a mesh object with vertices is classified INSIDE exactly when every vertex passes the point test of `AllPointsInside` |
| BoundBox.RelationOutsideIffEveryAxisExceeded | src/anyblend/cls_boundbox.py:515-547 | a mesh object with vertices is classified OUTSIDE exactly when, along every axis, some vertex lies beyond half size plus border |
| Tools.Max3 | src/anyblend/tools.py:44 | the maximum is one of the three values and no value exceeds it |
| Tools.RandomColor | src/anyblend/tools.py:42-45 | raises exactly when the largest draw is 0 (division by zero); otherwise returns three components |
| Tools.Round3Range | src/anyblend/tools.py:45 | rounding to three decimals keeps a value in [0, 1] there and keeps 1 at 1 |
| Tools.Round3Monotone | src/anyblend/tools.py:45 | rounding to three decimals keeps the order of two values |
| Tools.ColorComponent | src/anyblend/tools.py:45 | a draw divided by the largest draw and rounded lies in [0, 1], keeps the order of the draws, and is 1 for the largest |
| Tools.RandomColorProperties | src/anyblend/tools.py:42-45 | with draws in [0, 1] the colour raises exactly when all draws are 0; otherwise every component is in [0, 1], the components keep the order of the draws, and the largest draw's component is 1 |
| Tools.Directions | src/anyblend/tools.py:67-86 | a direction list fails with the source's message exactly when it does not hold three lists of three numbers; no list gives the default row, column and level directions (1,0,0), (1,1,0), (0,0,1); otherwise entry i becomes direction i |
| Tools.ReadDirections | src/anyblend/tools.py:74-86 | the loop that replaces the defaults one entry at a time returns the same directions, or the same error |
| Tools.Normalized | src/anyblend/tools.py:88 | every direction is replaced by its normalised form, in order |
| Tools.Origin | src/anyblend/tools.py:117-125 | an offset that is a list must hold three numbers and is then the origin; anything else gives the zero origin; a list of another length fails with the offset message |
| Tools.RowLists | src/anyblend/tools.py:90-97 | row i's objects are the recursive listing of child collection i of the top collection |
| Tools.MaxCount | src/anyblend/tools.py:92-98 | the largest row length: no row is longer, some row has it, and it is 0 without rows |
| Tools.MaxOf | src/anyblend/tools.py:108 | the maximum of a non-empty list is in the list and no entry exceeds it |
| Tools.MinOf | src/anyblend/tools.py:108 | the minimum of a non-empty list is in the list and no entry is below it |
| Tools.Extent | src/anyblend/tools.py:107-108 | an object's extent along a direction, max minus min of its corners' projections, is never negative |
| Tools.ObjectSize | src/anyblend/tools.py:104-109 | the loop over the three directions yields the object's extent along each |
| Tools.MaxSize | src/anyblend/tools.py:93-111 | the largest size along each direction is not negative, bounds the size of every object, and is either 0 (no object) or reached by some object |
| Tools.LargestConcat | src/anyblend/tools.py:111 | the running maximum over two stretches of objects is the running maximum over the second, started from the first's |
| Tools.MeasureRow | src/anyblend/tools.py:101-112 | the inner loop widens the running maximum by the size of every object of the row |
| Tools.WidenedConcat | src/anyblend/tools.py:95-113 | widening over a row after the earlier rows gives the largest size over all of them |
| Tools.MeasureRows | src/anyblend/tools.py:90-113 | the first loop returns every row's listing, the longest row's length, and the largest size over all listed objects |
| Tools.SpacingCovers | src/anyblend/tools.py:115 | with gaps that are not negative, the spacing along each direction is at least every measured object's size |
| Tools.ObjectsFitCells | src/anyblend/tools.py:111-115 | hence no listed object is larger than a cell along any direction |
| Tools.ColumnCountFits | src/anyblend/tools.py:127-131 | the column count is positive whenever some row has an object; without a positive given count every row fits in one level |
| Tools.CellsDistinct | src/anyblend/tools.py:160-162 | the column `k mod C` is below C, the first C objects sit in level 0 at their own column, and two objects of a row with the same column and level are the same object |
| Tools.StepNext | src/anyblend/tools.py:135-166 | the next cell along a direction is one spacing further along it |
| Tools.NeighbourRows | src/anyblend/tools.py:135 | neighbouring rows are one row spacing apart along the row direction |
| Tools.NeighbourColumns | src/anyblend/tools.py:166 | neighbouring columns are one column spacing apart along the column direction |
| Tools.NeighbourLevels | src/anyblend/tools.py:166 | neighbouring levels are one level spacing apart along the level direction |
| Tools.Plan | src/anyblend/tools.py:62-131 | a computed grid has a direction and a spacing per axis, one row listing per row name, and a positive column count when any row has objects |
| Tools.PlanErrors | src/anyblend/tools.py:62-131 | the call raises exactly for a missing top collection, bad directions, a relative delta with fewer than three entries, or a bad offset, with the first applicable message; a grid holds the rows in order with their listings and the normalised directions |
| Tools.Zip | src/anyblend/tools.py:160-167 | the writes of a row send its k-th object to its k-th location |
| Tools.RowLocations | src/anyblend/tools.py:160-166 | one location per object of the row |
| Tools.Spacing | src/anyblend/tools.py:115 | the spacing of each direction is the largest object size enlarged by its relative margin: exactly that size with no margin, and never below it for a non-negative margin and size |
| Tools.RowPos | src/anyblend/tools.py:135 | the first row centre is half a row spacing from the origin along the row direction, and each later row centre one row spacing beyond the offset of the row before |
| Tools.CellPos | src/anyblend/tools.py:166 | the first cell of a row is half a column spacing and half a level spacing from the row centre |
| Tools.Position | src/anyblend/tools.py:160-166 | the first C objects of a row fill the columns of level 0 in order; every later object takes the column of the object C places before it, one level higher |
| Tools.TitleName | src/anyblend/tools.py:146 | the title name is "Title.Row." followed by the row number counted from one, in decimal with at least three digits and no zero fill beyond three |
| Tools.LocationIsCell | src/anyblend/tools.py:160-166 | the k-th location of row r is the centre of cell (r, k mod C, k div C) |
| Tools.RowTitle | src/anyblend/tools.py:139-142 | a row name without ';' is its own title; otherwise the title is the text after the first ';' |
| Tools.Titles | src/anyblend/tools.py:137-157 | one title object per row, named by the row's number, holding the row's title, in the row's collection, at the row's centre |
| Tools.TitlesOf | src/anyblend/tools.py:137-157 | the title objects of the first rows, one per row in row order, each the title of that row |
| Tools.Spread | src/anyblend/tools.py:51-171 | a call that raises changes no location and makes no title |
| Tools.ApplyConcat | src/anyblend/tools.py:160-167 | writing two stretches of locations is writing the first and then the second |
| Tools.ApplyUntouched | src/anyblend/tools.py:160-167 | an object none of the writes names keeps its location |
| Tools.ApplyLast | src/anyblend/tools.py:160-167 | an object ends up at the location of its last write |
| Tools.PlacementAt | src/anyblend/tools.py:133-167 | the writes follow the listings, row after row: the k-th object of row r is written after the objects of the earlier rows, with its own location |
| Tools.PlacementNames | src/anyblend/tools.py:133-167 | the writes name exactly the listed objects, in listing order |
| Tools.PlacedOnce | src/anyblend/tools.py:133-167 | when the listed objects are all different, each ends at its own location and an unlisted object keeps its location |
| Tools.SpreadPlaces | src/anyblend/tools.py:133-167 | when the listed objects are all different, each ends at the centre of its cell and an unlisted object is not moved |
| Tools.CSceneObjects.constructor | src/anyblend/tools.py:51-171 | a scene holds the given object locations and no title objects |
| Tools.PlaceRow | src/anyblend/tools.py:160-168 | the inner loop writes each object of the row to its cell's centre and makes no title |
| Tools.PlaceRowWithTitle | src/anyblend/tools.py:133-168 | one pass of the second loop adds the row's title when titles are shown, then the row's writes |
| Tools.PlaceRows | src/anyblend/tools.py:133-169 | the second loop leaves the locations after all rows' writes, and the titles of all rows when titles are shown |
| Tools.SpreadObjectsIn2D | src/anyblend/tools.py:51-171 | the method leaves the scene and returns the outcome that the grid plan and its writes describe |
| Tools.Largest | src/anyblend/tools.py:111 | the running maximum of one size component is at least its start, bounds that component of every object, and is the start or one object's component |
| Tools.Covers | src/anyblend/tools.py:115 | enlarging a bound that is not negative by a gap that is not negative keeps it a bound of every object's size |
| Tools.Locations | src/anyblend/tools.py:160-166 | one list of locations per row, shaped like the row's listing, each the row's cell centres |
| Prefs.VersionSwitch | src/anyblend/app/prefs.py:59-67 | the preferences move at version 2.80: that version and every later one read `preferences`, every earlier one `user_preferences` |
| Prefs.Requested | src/anyblend/app/prefs.py:69-71 | "NONE" and "CPU" both ask for the CPU; any other type asks for itself |
| Prefs.Setting | src/anyblend/app/prefs.py:74-78 | the stored device type is "NONE" exactly when the CPU is asked for |
| Prefs.CCyclesPrefs.SetComputeDeviceType | src/anyblend/app/prefs.py:77-84 | the assignment succeeds exactly for a type the host offers; a refused type leaves the stored type as it was |
| Prefs.CCyclesPrefs.ReloadDevices | src/anyblend/app/prefs.py:93-95 | after clearing and reloading, the device list is the host's detected devices |
| Prefs.EnabledDevices | src/anyblend/app/prefs.py:98-122 | the used devices are devices of the list that the rule selects, and every device the rule selects is among them |
| Prefs.EnabledDevicesConcat | src/anyblend/app/prefs.py:99-122 | selecting from two lists in turn is selecting from their concatenation: the device order is kept |
| Prefs.RequestRules | src/anyblend/app/prefs.py:69-116 | "NONE" and "CPU" select alike; asking for the CPU uses only CPUs; without combined CPU compute, asking for another type uses only devices of that type |
| Prefs.SelectDevices | src/anyblend/app/prefs.py:98-122 | each device's `use` becomes whether the rule selects it, and the selected devices are returned in device order |
| Prefs.UseComputeDevices | src/anyblend/app/prefs.py:35-129 | the default `xContext=None` raises the AttributeError of the attribute its version reads; a missing Cycles add-on or a type the host does not offer raises; each raise leaves everything unchanged; otherwise the stored type is set, the devices are reloaded, exactly the selected devices are used, and those are returned in device order |
| Convert.MatrixToList | src/anyblend/util/convert.py:32-34 | one list per row, with the row's entries in order |
| Convert.MatrixToListCopies | src/anyblend/util/convert.py:32-34 | the nested list equals the matrix |
| Convert.RowToString | src/anyblend/util/convert.py:42 | a one-cell row is that cell's formatted text |
| Convert.Lines | src/anyblend/util/convert.py:42 | one line per row, each the row's formatted cells joined by spaces |
| Convert.MatrixToString | src/anyblend/util/convert.py:40-42 | an empty matrix gives the empty text |
| Convert.MatrixToStringLines | src/anyblend/util/convert.py:40-42 | when no formatted number holds a newline, the text of a matrix with rows splits at its newlines into exactly one line per row |
| Convert.UnitsPerMeterFactor | src/anyblend/util/convert.py:48-72 | without a scene and without one named "Scene" it raises the key error; a factor it returns times the used scene's scale length is 1 |
| Convert.FactorOfScale | src/anyblend/util/convert.py:60-72 | the factor raises only for a zero scale length, is its reciprocal otherwise, and does not depend on the length unit |
| Convert.FactorDefaultScene | src/anyblend/util/convert.py:60-61 | without a scene, the factor is the one of the scene named "Scene" |
| Instances.CInstances.constructor | src/anyblend/cls_instances.py:415-422 | a new container is empty and named `_sName`, or "Instances" when none is given |
| Instances.CInstances.Len | src/anyblend/cls_instances.py:426-445 | the length is the number of keys, each naming one entry |
| Instances.CInstances.Get | src/anyblend/cls_instances.py:431-432 | the entry filed under the key, and None exactly for a missing key |
| Instances.CInstances.Names | src/anyblend/cls_instances.py:449-451 | the keys in insertion order: no repeats, as many as entries, and every entry among them |
| Instances.CInstances.Put | src/anyblend/cls_instances.py:484 | the entry is set under the key; a new key goes to the end of the order and an existing key keeps its place |
| Instances.CInstances.AddElement | src/anyblend/cls_instances.py:483-484 | inserts or overwrites under the instance's own name and changes nothing else |
| Instances.CInstances.AddCollection | src/anyblend/cls_instances.py:489-490 | inserts or overwrites a collection instance under the collection's name and changes nothing else |
| Instances.CInstances.AddObject | src/anyblend/cls_instances.py:495-507 | raises without a name and an object; never replaces an entry already present; with only an object and a new name it raises, because the entry is built from the missing name; a new name is added at the end exactly when the scene has that object; a failed call changes nothing |
| Instances.CInstances.CreateRandomInstances | src/anyblend/cls_instances.py:512-578 | raises for a count of 0 or less; the parent collection gets the first untaken name of `_sName`, `"_sName 1"`, `"_sName 2"`, ...; the selection has `count` indices into the keys with no two consecutive equal when there is more than one element; the new container, named `_sName`, is keyed by exactly the copies' names, and under each name holds the copy (same kind, `CopyAs`) of the last selected element copied under that name |
| Instances.SelectIndices | src/anyblend/cls_instances.py:545-554 | fails for an empty container; otherwise `count` indices below the element count, the first from the first draw, no two consecutive equal when there are several elements, and one draw per index for a single element |
| Instances.AddCopies | src/anyblend/cls_instances.py:557-578 | a fresh container named `_sName` keyed by exactly the copies' names; the entry under a name is the copy (`CopyAs`, same kind) of the last selected element copied under it, as repeated `AddElement` calls overwrite |
| Instances.DistinctCopiesLast | src/anyblend/cls_instances.py:557-576 | when the host names every copy differently, every selected element's copy is its own entry of the container |
| Instances.CopyNames | src/anyblend/cls_instances.py:557-574 | the i-th copy is named by the host after the element of the i-th selected key |
| Instances.CopyAs | src/anyblend/cls_instances.py:140-143 | a copy keeps the kind of its instance and takes the copy's name |
| Instances.KeysCount | src/anyblend/cls_instances.py:444-451 | keys without repeats that name exactly the entries are as many as the entries |
| Instances.DrawIndex | src/anyblend/cls_instances.py:545-548 | a draw reduced into range is below the element count |
| Strings.FreeName | src/anyblend/cls_instances.py:525-530 | the first candidate name that is not taken, with every earlier candidate taken |
| Strings.FirstFreeUnique | src/anyblend/cls_instances.py:525-530 | only one candidate index is the first free one |
| Strings.NumberedDistinct | src/anyblend/cls_instances.py:525-530 | different numbers give different candidate names |
| Collection.FilterExact | src/anyblend/collection.py:151-159 | the comprehension lists the name of every object that passes the parent and type conditions, and only such names |
| Collection.OwnListingExcludesParented | src/anyblend/collection.py:151-157 | without `_bChildren`, an object whose parent is among the collection's own objects is not listed |
| Collection.GetCollectionObjects | src/anyblend/collection.py:131-171 | the listing is the collection's own filtered objects, followed with `_bRecursive` by each child's recursive listing in child order |
| Collection.Listing | src/anyblend/collection.py:131-171 | the collection's own filtered objects come first, and without `_bRecursive` they are all |
| Collection.ListChildren | src/anyblend/collection.py:162-169 | the loop over the child collections yields their recursive listings, one after another |
| Collection.ListingAllAppend | src/anyblend/collection.py:163-168 | listing one more child appends that child's listing |
| Collection.FirstWhere | src/anyblend/collection.py:183-190 | the first match is an element with the property, and there is none exactly when no element has it |
| Collection.FindObjectIsFirstInPreOrder | src/anyblend/collection.py:178-190 | the search returns the first collection in pre-order that holds the object directly, or none when no collection of the tree does |
| Collection.FindObjectInCollection | src/anyblend/collection.py:178-190 | a collection found holds the object directly, and a collection that holds it is itself the result |
| Collection.ParentIsFirstInPreOrder | src/anyblend/collection.py:95-111 | the parent search returns the first collection in pre-order that has the collection as a direct child, or none |
| Collection.GetParentCollection | src/anyblend/collection.py:95-111 | a collection found has the collection as a direct child, and a start collection that has it is itself the result |
| Collection.DirectChild | src/anyblend/collection.py:249 | the child lookup finds a direct child of that name, and none exactly when no direct child has it |
| Collection.FindLayerIffPresent | src/anyblend/collection.py:238-259 | the layer search finds a node exactly when the tree holds one of that name, and the node found has that name |
| Collection.FindLayerCollection | src/anyblend/collection.py:238-259 | a layer collection found has the name asked for, and a start node of that name is itself the result |
| Collection.CViewLayer.SetActiveCollection | src/anyblend/collection.py:266-272 | raises "Layer collection '...' not found." exactly when the tree has no such node, leaving the active one; otherwise the node the search finds is made active |
| Collection.CViewLayer.ExcludeCollection | src/anyblend/collection.py:288-294 | raises the same error exactly when the node is missing; otherwise only that node's exclude flag is set |
| Collection.CScene.CreateCollection | src/anyblend/collection.py:329-343 | a new collection is linked as the last child of the active collection and becomes active |
| Collection.CScene.SetActive | src/anyblend/collection.py:266-272 | a collection without a layer collection raises and stays inactive; otherwise it becomes active |
| Collection.CScene.EnterTop | src/anyblend/collection.py:363-376 | the first level leaves exactly the state and outcome of `EnterTopLevel` from the scene collection: created when missing, activated when present, raising when it has no layer collection |
| Collection.CScene.EnterLevel | src/anyblend/collection.py:382-408 | raises exactly when a collection of the level's name exists but is not a child of the active one or has no layer collection; the new child lists, layer collections and active collection are those of `EnterNextLevel` |
| Collection.CScene.EnterLevels | src/anyblend/collection.py:382-408 | the loop over the further levels, threading the dotted name, ends in exactly the outcome and state of `Levels` over all the level names |
| Collection.LevelNames | src/anyblend/collection.py:382-388 | level k is named by the first k+1 names joined with "." when hierarchy names are asked for, else by name k alone |
| Collection.Message | src/anyblend/collection.py:394-400 | a step passes exactly when it raises no exception; an outside level raises "Collection '...' already exists outside the given hierarchy: a/b/c" and a missing layer "Layer collection '...' not found." |
| Collection.Made | src/anyblend/collection.py:329-343 | a new collection gets no children, a layer collection, is appended to the active collection's children and becomes active; every other child list stays |
| Collection.EnterTopLevel | src/anyblend/collection.py:367-374 | the first level raises exactly when it exists without a layer collection, leaving the state; otherwise it is a collection and active |
| Collection.EnterNextLevel | src/anyblend/collection.py:389-406 | a further level raises exactly when it exists but is not a child of the active collection (the outside-hierarchy error) or has no layer collection; a raise changes nothing; otherwise the level is a child of the level above and active |
| Collection.Hierarchy | src/anyblend/collection.py:350-411 | a non-list raises and changes nothing; an empty list returns None and changes nothing; a call that returns gives the last level's name |
| Collection.HierarchyLinked | src/anyblend/collection.py:363-411 | a call that returns leaves every level a collection and a child of the level above, level k named by the first k+1 names joined by "." (with hierarchy names) or by the plain name, and the last level active |
| Collection.NextLevelName | src/anyblend/collection.py:382-388 | the dotted name grows by "." and the next name at each level |
| Collection.LevelsLinked | src/anyblend/collection.py:367-411 | when no level raises, every level is a collection and a child of the level above, and the last level is active |
| Collection.LinkedNext | src/anyblend/collection.py:389-406 | a level that passes extends the chain of linked levels and becomes active |
| Collection.LevelsFrame | src/anyblend/collection.py:367-408 | the levels change nothing else: child lists only grow at the end, only the active collection and the levels gain children, and every new collection or layer collection is a level |
| Collection.LevelsStopped | src/anyblend/collection.py:394-400 | once a level raises, the later levels are never entered and the state stays as the raise left it |
| Collection.HierarchyRaisesOutside | src/anyblend/collection.py:394-400 | a second level that already exists under a new first level raises the outside-hierarchy error |
| Collection.LevelStep | src/anyblend/collection.py:382-408 | one more level that is a child of the level above extends the chain of levels |
| Collection.LevelsKept | src/anyblend/collection.py:390-391 | creating a new level's collection keeps every earlier link of the chain |
| Collection.CScene.CreateCollectionHierarchy | src/anyblend/collection.py:350-411 | the result and the new child lists, layer collections and active collection are exactly those of `Hierarchy`: a non-list raises, an empty list returns None, otherwise the levels are entered in turn from the scene collection and the first raise stops the call |
| Objects.GetObjectChildrenNames | src/anyblend/object.py:425-435 | the names of the direct children in order; with `bRecursive`, the names of all descendants in pre-order |
| Objects.ChildNamesStep | src/anyblend/object.py:428-432 | one more child adds its name, and with recursion its name followed by its descendants' names |
| Objects.DescendantNamesAreSubtreeTail | src/anyblend/object.py:425-435 | the recursive listing is the subtree's pre-order without the root |
| Objects.SubtreeOfAllAppend | src/anyblend/object.py:428-433 | the pre-order of one more child appends that child's subtree |
| Objects.RemoveAllRemovesExactly | src/anyblend/object.py:454-458 | removing names one by one succeeds exactly when they are all present and distinct, and then removes exactly those names |
| Objects.RemoveObjectHierarchy | src/anyblend/object.py:443-458 | the root and its descendants are removed one by one; the removal succeeds exactly when their names are present, and then leaves the table without exactly those objects |
| Objects.GetMeshObjectHierarchy | src/anyblend/object.py:629-640 | exactly the MESH objects of the subtree, root included, in pre-order |
| Objects.MeshesOfAppend | src/anyblend/object.py:636-638 | the meshes of two stretches of objects are the meshes of each one, in order |
| Objects.MeshesOfAllMesh | src/anyblend/object.py:632-633 | every listed object is of type MESH |
| Objects.HideFlags | src/anyblend/object.py:357-367 | a flag changes only when a boolean is passed for it, and then takes that value |
| Objects.HideRecursiveUpdatesSubtree | src/anyblend/object.py:355-378 | a recursive `Hide` updates the flags of every object of the subtree the same way, in pre-order, and keeps their names |
| Objects.Hide | src/anyblend/object.py:355-378 | an object keeps its name, type, mesh and number of children and gets the flags `HideFlags` gives; without recursion its children stay as they were |
| Objects.HideAll | src/anyblend/object.py:370-377 | each child keeps its name and gets its flags updated the same way, one for one |
| Objects.HideNonRecursiveKeepsChildren | src/anyblend/object.py:355-369 | without recursion only the object's own flags change; its children are kept |
| Objects.HideRecords | src/anyblend/object.py:357-367 | each record keeps its name and has its flags updated |
| Objects.GetMeshVex | src/anyblend/object.py:488-538 | succeeds exactly for a mesh object and a frame of WORLD, LOCAL or ID; one coordinate per vertex, unmapped for ID and mapped by the frame otherwise |
| Objects.FindGroup | src/anyblend/object.py:569 | the vertex group found has that name, and none is found exactly when no group has it |
| Objects.VertexWeights | src/anyblend/object.py:545-582 | one weight per vertex; all 1.0 without a group; an error exactly for a named group that does not exist |
| Objects.GetVertexWeights | src/anyblend/object.py:561-582 | the nested loop yields each vertex's weight in the group, where the last membership entry for the group wins and a non-member gets 0.0 |
| Objects.WeightInSingleEntry | src/anyblend/object.py:574-580 | a vertex with one membership entry for the group gets that entry's weight |
| Objects.WeightInNoEntry | src/anyblend/object.py:568-580 | a vertex not in the group gets weight 0.0 |
| Objects.RangeOf | src/anyblend/object.py:661-674 | the accumulated minimum bounds every object's minimum distance from below and the maximum every maximum from above; each is its start value (1e20 / -1e20) or reached by some object |
| Objects.SelectDeltaAsWrittenFailsWhenTouching | src/anyblend/object.py:679-697 | as written, CLOSEST with minimum 0 reaches no assignment of the delta and fails, where the intended choice is 0 |
| Objects.SelectDelta | src/anyblend/object.py:679-695 | ABOVE takes the minimum, BELOW the maximum, and CLOSEST whichever of the two is smaller in magnitude |
| Objects.SelectDeltaAgrees | src/anyblend/object.py:679-695 | wherever the code as written yields a value, it is the intended one |
| Objects.GetObjectDeltaToMesh | src/anyblend/object.py:646-697 | raises for a mode other than CLOSEST, ABOVE and BELOW; otherwise the direction scaled by the distance the mode selects from the accumulated range |
| Objects.SelectDeltaAsWritten | src/anyblend/object.py:679-697 | ABOVE gives the minimum and BELOW the maximum; CLOSEST fails exactly when min <= 0 <= max with one of them 0, and otherwise gives one of the two |
| Objects.SelectDeltaAgreesAllMiss | src/anyblend/object.py:593-594 | at the starting pair (1e20, -1e20) of an object whose rays all miss, the code as written makes the intended choice |
| Objects.SelectDeltaDisagreesUnordered | src/anyblend/object.py:679-690 | without min <= max the two choices can differ: min 1 and max -5 give -5 as written and 1 as intended |
| Objects.ImportObjectObj | src/anyblend/object.py:726-738 | raises exactly when a location or rotation given as a list does not have three entries; a list is applied as a vector and any other value is ignored |
| Surf.CreateVexFaceLists | src/anyblend/mesh/surf.py:32-67 | fails (index error) exactly for an empty grid or a row shorter than the first; otherwise rows·cols vertices and (rows−1)(cols−1) faces |
| Surf.GridVex | src/anyblend/mesh/surf.py:37-41 | one vertex per grid point of the first `cols` columns of every row |
| Surf.GridFaces | src/anyblend/mesh/surf.py:43-64 | one face per grid cell |
| Surf.VexRowMajor | src/anyblend/mesh/surf.py:37-41 | vertex r·cols + c is grid point (r, c), scaled |
| Surf.FacePerCell | src/anyblend/mesh/surf.py:43-64 | face r·(cols−1) + c is the cell (r, c): (i, i+1, i+cols+1, i+cols) with `bNormUp`, (i, i+cols, i+cols+1, i+1) otherwise |
| Surf.CellFaceIn | src/anyblend/mesh/surf.py:43-64 | the four corners of a cell are vertices of the grid |
| Surf.FaceIndicesInRange | src/anyblend/mesh/surf.py:43-64 | every face index lies in [0, rows·cols) |
| Surf.WindingReversed | src/anyblend/mesh/surf.py:43-64 | both `bNormUp` settings give the same vertices and, face by face, the same corners in reversed winding |
| Surf.TopSide | src/anyblend/mesh/surf.py:116-120 | one side quad per column gap on the first rows |
| Surf.BottomSide | src/anyblend/mesh/surf.py:122-132 | one side quad per column gap on the last rows |
| Surf.LeftSide | src/anyblend/mesh/surf.py:134-143 | one side quad per row gap on the first columns |
| Surf.RightSide | src/anyblend/mesh/surf.py:145-155 | one side quad per row gap on the last columns |
| Surf.SideFaces | src/anyblend/mesh/surf.py:116-155 | 2(cols−1) + 2(rows−1) side faces |
| Surf.SideFacesIn | src/anyblend/mesh/surf.py:116-155 | for grids of the first grid's shape, every side face index is below twice the first grid's vertex count |
| Surf.CreateSurf2 | src/anyblend/mesh/surf.py:91-166 | fails exactly for a zero scale length or a malformed grid; the object location is scaled by meters per unit over the scale length |
| Surf.Surf2Layout | src/anyblend/mesh/surf.py:95-155 | the joined vertices are the first grid's then the second's; the first grid's faces come unchanged, then the second's shifted by the first grid's vertex count, then 2(cols₁−1) + 2(rows₁−1) side faces |
| Surf.Surf2IndicesInRange | src/anyblend/mesh/surf.py:95-155 | for two grids of the same shape, every face index names a vertex of the joined mesh |
| RigidBody.ParseType | src/anyblend/cls_rigidbody_object_pars.py:139-148 | the `sType` setter accepts a name exactly when its upper-cased form is the name of a body type, and then gives that type |
| RigidBody.ParseShape | src/anyblend/cls_rigidbody_object_pars.py:166-177 | the `sCollisionShape` setter accepts a name exactly when its upper-cased form names a collision shape, and gives that shape |
| RigidBody.ParseSource | src/anyblend/cls_rigidbody_object_pars.py:195-206 | the `sMeshSource` setter accepts a name exactly when its upper-cased form names a mesh source, and gives that source |
| RigidBody.TypeRoundTrip | src/anyblend/cls_rigidbody_object_pars.py:127-148 | the name the getter returns, in upper or in lower case, sets the same body type back |
| RigidBody.ShapeRoundTrip | src/anyblend/cls_rigidbody_object_pars.py:152-177 | the collision-shape name read back, in upper or lower case, sets the same shape |
| RigidBody.SourceRoundTrip | src/anyblend/cls_rigidbody_object_pars.py:181-206 | the mesh-source name read back, in upper or lower case, sets the same source |
| RigidBody.TrueIndices | src/anyblend/cls_rigidbody_object_pars.py:113-115 | every index in the index view is in range and names an enabled collection |
| RigidBody.TrueIndicesExact | src/anyblend/cls_rigidbody_object_pars.py:113-115 | the index view is strictly increasing and holds an index exactly when that collection is enabled |
| RigidBody.Membership | src/anyblend/cls_rigidbody_object_pars.py:119-123 | the index setter gives 20 flags, flag `i` set exactly when `i` is among the given values |
| RigidBody.IndicesRoundTrip | src/anyblend/cls_rigidbody_object_pars.py:113-123 | setting the index view and reading it back gives exactly the given values in 0..19, without repeats and in increasing order |
| RigidBody.DefaultCollections | src/anyblend/cls_rigidbody_object_pars.py:61-80 | the default list holds 20 flags |
| RigidBody.DefaultIndices | src/anyblend/cls_rigidbody_object_pars.py:78-115 | by default only collection 0 is enabled: the index view is `[0]` |
| RigidBody.NoneTrue | src/anyblend/cls_rigidbody_object_pars.py:113-115 | a list with no enabled collection has an empty index view |
| RigidBody.OnlyTrue | src/anyblend/cls_rigidbody_object_pars.py:113-115 | a list with exactly one enabled collection has just that index as its view |
| RigidBody.FirstNonBool | src/anyblend/cls_rigidbody_object_pars.py:105-106 | the first element that fails the boolean check: all before it are booleans, and it is not one |
| RigidBody.FirstNonBoolFrom | src/anyblend/cls_rigidbody_object_pars.py:105-106 | past a prefix of booleans the first failing element lies at or after that prefix |
| RigidBody.WrittenCount | src/anyblend/cls_rigidbody_object_pars.py:105-108 | the setter writes no more entries than it is given and no more than the 20 flags |
| RigidBody.CollectionsOutcome | src/anyblend/cls_rigidbody_object_pars.py:100-110 | the setter succeeds exactly when it is given at most 20 elements, all booleans |
| RigidBody.Overwritten | src/anyblend/cls_rigidbody_object_pars.py:105-108 | after the setter the written prefix holds the given values and every later flag keeps its old value |
| RigidBody.WriteCollections | src/anyblend/cls_rigidbody_object_pars.py:104-109 | the setter's loop on the flag array: its outcome is the check above and the array is overwritten as above, also when it raises part way |
| RigidBody.CRigidBodyObjectPars.constructor | src/anyblend/cls_rigidbody_object_pars.py:61-80 | the defaults: active, convex hull, deform source, mass 1, enabled, friction 0.5, margin 0.04, damping 0.04 and 0.1, only collection 0 enabled |
| RigidBody.CRigidBodyObjectPars.SType | src/anyblend/cls_rigidbody_object_pars.py:127-135 | the `sType` getter returns a name that parses back to the stored type |
| RigidBody.CRigidBodyObjectPars.SCollisionShape | src/anyblend/cls_rigidbody_object_pars.py:152-162 | the `sCollisionShape` getter returns a name that parses back to the stored shape |
| RigidBody.CRigidBodyObjectPars.SMeshSource | src/anyblend/cls_rigidbody_object_pars.py:181-191 | the `sMeshSource` getter returns a name that parses back to the stored source |
| RigidBody.CRigidBodyObjectPars.SetType | src/anyblend/cls_rigidbody_object_pars.py:139-148 | a supported name sets the type and reads back upper-cased; an unsupported one raises with the upper-cased name and changes nothing; no other setting changes |
| RigidBody.CRigidBodyObjectPars.SetCollisionShape | src/anyblend/cls_rigidbody_object_pars.py:166-177 | the same for the collision shape, with its own error message |
| RigidBody.CRigidBodyObjectPars.SetMeshSource | src/anyblend/cls_rigidbody_object_pars.py:195-206 | the same for the mesh source, with its own error message |
| RigidBody.CRigidBodyObjectPars.GetCollisionCollections | src/anyblend/cls_rigidbody_object_pars.py:94-96 | the getter returns a fresh copy with the stored flags |
| RigidBody.CRigidBodyObjectPars.CollisionCollectionIndices | src/anyblend/cls_rigidbody_object_pars.py:113-115 | every index returned names an enabled collection |
| RigidBody.CRigidBodyObjectPars.SetCollisionCollections | src/anyblend/cls_rigidbody_object_pars.py:100-110 | a non-list raises with the source's message and changes nothing; a list is written element by element as `Overwritten` states, with the outcome `CollectionsOutcome` states |
| RigidBody.CRigidBodyObjectPars.SetCollisionCollectionIndices | src/anyblend/cls_rigidbody_object_pars.py:119-123 | a non-list raises and changes nothing; a list sets flag `i` exactly when `i` is in it |
| Anim.RemoveFirst | src/anyblend/anim/util.py:91 | `list.remove` succeeds exactly when the handler is in the list, and then drops one copy of it |
| Anim.HandlerId | src/anyblend/anim/util.py:125-149 | the handler id is the object name, a '/', and the animation type |
| Anim.UsersRemove | src/anyblend/anim/util.py:99 | deleting an entry takes one user off its handler and none off any other |
| Anim.UsersPut | src/anyblend/anim/util.py:63 | storing an entry adds at most one user, to its own handler |
| Anim.InUsers | src/anyblend/anim/util.py:88-91 | a registered handler has a user, so under the registry invariant it is in the handler list |
| Anim.CAnimHandlers.constructor | src/anyblend/anim/util.py:33 | the registry starts empty, with an empty handler list |
| Anim.CAnimHandlers.RegisterAnimHandler | src/anyblend/anim/util.py:46-69 | no data raises unwrapped and a missing handler raises wrapped, both before any change; otherwise the entry is stored, the handler appended, and the run's failure reported wrapped; every registered handler stays in the list |
| Anim.CAnimHandlers.RemoveAnimHandler | src/anyblend/anim/util.py:76-102 | the new registry and handler list are exactly those of `RemoveStep` |
| Anim.RemoveStep | src/anyblend/anim/util.py:76-102 | removing an id only deletes that entry and only takes handlers off the list; an unknown id, or a handler `list.remove` cannot find, changes nothing |
| Anim.RemoveStepClean | src/anyblend/anim/util.py:88-99 | on a registry whose handlers are all in the list, removing a registered id whose finalizer returns deletes just that entry, takes exactly one copy of its handler off the list, and keeps that invariant |
| Anim.RemoveAll | src/anyblend/anim/util.py:112-113 | removing ids in turn only deletes entries among those ids, keeps every other entry unchanged, and only takes handlers off the list |
| Anim.RemoveAllClean | src/anyblend/anim/util.py:112-113 | from such a registry, removing distinct registered ids whose finalizers return deletes all of them and takes exactly their handlers off the list, one copy per entry |
| Anim.RemoveAllSnoc | src/anyblend/anim/util.py:112-113 | removing one more id after a run of removals is one more removal step |
| Anim.Prefixed | src/anyblend/anim/util.py:142-143 | the ids picked from the snapshot are exactly those that start with the prefix |
| Anim.PrefixedDistinct | src/anyblend/anim/util.py:142 | picking from a snapshot of distinct ids gives distinct ids |
| Anim.PrefixedSnoc | src/anyblend/anim/util.py:142-143 | one more id of the snapshot is picked exactly when it starts with the prefix |
| Anim.PrefixedNext | src/anyblend/anim/util.py:142-144 | one more id of the snapshot is removed exactly when it starts with the prefix |
| Anim.PrefixRemoved | src/anyblend/anim/util.py:142-146 | removing the prefixed ids keeps every other id, and when all their finalizers return it leaves no prefixed id and keeps the registry invariant |
| Anim.CAnimHandlers.ClearAnim | src/anyblend/anim/util.py:109-116 | the registry ends empty, and the handler list is what `RemoveAll` over the snapshot of ids leaves; when every finalizer returns it has lost exactly the registered handlers, one copy per entry |
| Anim.CAnimHandlers.RegisterAnimObject | src/anyblend/anim/util.py:123-128 | the factory's data is registered under the object's id and its handler appended to the list, succeeding exactly when the handler runs; missing data raises and changes neither |
| Anim.CAnimHandlers.RemoveWithPrefix | src/anyblend/anim/util.py:142-146 | the new registry and handler list are those of `RemoveAll` over the snapshot's ids with the prefix; every other id stays, and none with the prefix remains when every finalizer returns |
| Anim.CAnimHandlers.RemoveAnimObject | src/anyblend/anim/util.py:137-151 | without an animation dictionary the new state is `RemoveAll` over the ids starting with the object name, none of which remains when their finalizers return; with one it is `RemoveStep` of that animation's id |
| Anim.PrefixReachesOtherObjects | src/anyblend/anim/util.py:143 | the plain prefix test matches the ids of other objects: clearing "Cube" removes the animations of "Cube.001" |
| Anim.SeparatorPrefixExact | src/anyblend/anim/util.py:126-143 | with the '/' made part of the prefix, an id matches exactly the object it was registered for |
| Anim.CAnimHandlers.RemoveAnimObjectOwn | src/anyblend/anim/util.py:135-146 | removing an object's animations removes all of its own ids and keeps every other object's |
| Polygons.Counts | src/anyblend/cls_polygons.py:92-93 | one polygon count per stored object, that object's number of kept polygons |
| Polygons.PrefixSums | src/anyblend/cls_polygons.py:90-95 | the running counts have one entry more than the objects and start at 0 |
| Polygons.PrefixSumsStep | src/anyblend/cls_polygons.py:94-95 | each running count is the previous one plus that object's polygon count |
| Polygons.PrefixSumsLastIsSum | src/anyblend/cls_polygons.py:94-95 | the last running count is the total number of polygons |
| Polygons.PrefixSumsMonotone | src/anyblend/cls_polygons.py:106-107 | the running counts never decrease |
| Polygons.LocateUnique | src/anyblend/cls_polygons.py:106-110 | an absolute index lies in the slice of at most one object |
| Polygons.SlotUnique | src/anyblend/cls_polygons.py:106-110 | within a consistent table an absolute index belongs to a single object's slot |
| Polygons.MaxAt | src/anyblend/cls_polygons.py:275-276 | `max(lW)`: no vertex weight of the polygon exceeds it, and one equals it |
| Polygons.MeanPositive | src/anyblend/cls_polygons.py:133-281 | the mean weight of a kept polygon is positive |
| Polygons.Kept | src/anyblend/cls_polygons.py:274-282 | the kept polygons are exactly the mesh's polygons with a positive weight sum, at most as many as the mesh has |
| Polygons.KeptValid | src/anyblend/cls_polygons.py:274-282 | every kept polygon of a well-formed mesh is non-empty, indexes existing vertices and has a positive weight sum |
| Polygons.ObjMaxWeight | src/anyblend/cls_polygons.py:273-277 | the object's maximum weight is at least 0 and at least every vertex weight of every polygon, kept or not |
| Polygons.KeepPolygons | src/anyblend/cls_polygons.py:273-283 | the polygon loop of `AddFromObject` yields the kept polygons and the object's maximum weight |
| Polygons.NewData | src/anyblend/cls_polygons.py:256-283 | the record built holds the name, the vertex weights and the world-space vertices, and can be stored whenever it keeps a polygon |
| Polygons.IndexAppend | src/anyblend/cls_polygons.py:294-295 | appending an object under a fresh name keeps name and position index in agreement |
| Polygons.TotalAppend | src/anyblend/cls_polygons.py:292-297 | after appending, the total is the old total plus the new object's polygon count |
| Polygons.AppendKeepsValid | src/anyblend/cls_polygons.py:292-297 | appending a valid record under a fresh name keeps the table consistent |
| Polygons.RunningSums | src/anyblend/cls_polygons.py:206 | `np.cumsum`: as long as the terms, starting with the first term |
| Polygons.RunningSumsStep | src/anyblend/cls_polygons.py:206 | each running sum is the previous one plus the next term |
| Polygons.Terms | src/anyblend/cls_polygons.py:176-199 | one area-times-mean-weight term per stored polygon |
| Polygons.Distribution | src/anyblend/cls_polygons.py:203-207 | the distribution exists exactly when there is a term, and has one entry per term |
| Polygons.DistributionFits | src/anyblend/cls_polygons.py:173-207 | the distribution has one entry per polygon of the table |
| Polygons.FirstAbove | src/anyblend/cls_polygons.py:217 | the first index from which the entry exceeds the draw, or 0 when none does |
| Polygons.SampleIndex | src/anyblend/cls_polygons.py:217 | `np.argmax(u < dist)`: an index in range, the first whose entry exceeds the draw, and 0 when the entries are NaN |
| Polygons.SampleHitsPositiveTerm | src/anyblend/cls_polygons.py:206-217 | for non-negative terms with a positive total and a draw in [0, 1), the chosen polygon has a positive term |
| Polygons.Insert | src/anyblend/cls_polygons.py:161 | inserting into a sorted list keeps it sorted and adds exactly that value |
| Polygons.InsertBelowHead | src/anyblend/cls_polygons.py:161 | the head of a sorted list bounds every element of its tail after an insertion |
| Polygons.Sort | src/anyblend/cls_polygons.py:161 | `np.sort`: sorted, and a permutation of its input |
| Polygons.Gaps | src/anyblend/cls_polygons.py:160-163 | one gap more than there are cuts |
| Polygons.SimplexWeights | src/anyblend/cls_polygons.py:160-163 | one simplex weight per vertex of the polygon |
| Polygons.GapsTelescope | src/anyblend/cls_polygons.py:163 | the gaps between consecutive values add up to last minus first |
| Polygons.SortedStaysInUnit | src/anyblend/cls_polygons.py:161 | sorting draws from [0, 1] keeps them in [0, 1] |
| Polygons.GapsNonNegative | src/anyblend/cls_polygons.py:160-163 | the gaps between 0, sorted values in [0, 1] and 1 are non-negative |
| Polygons.GapsSumToOne | src/anyblend/cls_polygons.py:160-163 | the gaps between 0, the cuts and 1 add up to 1 |
| Polygons.SimplexWeightsAreBarycentric | src/anyblend/cls_polygons.py:160-163 | for draws in [0, 1] the simplex weights are non-negative and sum to 1 |
| Polygons.WeightedSumOfEqual | src/anyblend/cls_polygons.py:146-166 | when all vertices coincide, the weighted sum is that vertex scaled by the sum of the coefficients |
| Polygons.BarycentricOfEqualVertices | src/anyblend/cls_polygons.py:146-166 | a polygon whose vertices all coincide yields that vertex as its sampled position |
| Polygons.PolyVertices | src/anyblend/cls_polygons.py:124-125 | one position per vertex index of the polygon |
| Polygons.JitterCoefficients | src/anyblend/cls_polygons.py:143 | one jittered weight per vertex of the polygon |
| Polygons.JitterSumBound | src/anyblend/cls_polygons.py:143-147 | with draws of at least 0.01 the jittered weights sum to at least 0.01 times the polygon's weight sum |
| Polygons.JitteredPositionDefined | src/anyblend/cls_polygons.py:139-149 | with non-negative vertex weights and draws of at least 0.01 the jittered position of a kept polygon is defined |
| Polygons.SimplexCoefficients | src/anyblend/cls_polygons.py:163-166 | one simplex weight times vertex weight per vertex of the polygon |
| Polygons.WeightOnSlot | src/anyblend/cls_polygons.py:130-134 | the slot holding an absolute index determines its polygon weight |
| Polygons.JitterOnSlot | src/anyblend/cls_polygons.py:139-149 | the slot holding an absolute index determines its jittered position |
| Polygons.SimplexOnSlot | src/anyblend/cls_polygons.py:154-168 | the slot holding an absolute index determines its simplex-weighted position |
| Polygons.CPolygons.constructor | src/anyblend/cls_polygons.py:54-60 | an empty table with maximum weight 0 and no distribution |
| Polygons.CPolygons.Update | src/anyblend/cls_polygons.py:89-97 | the running counts become the prefix sums of the polygon counts, starting at 0, and the total their last entry; nothing else changes |
| Polygons.CPolygons.GetObjectPolyIdx | src/anyblend/cls_polygons.py:101-117 | succeeds exactly for 0 <= i < total, giving the object k with accum[k] <= i < accum[k+1] and the local index i - accum[k] below its polygon count; otherwise raises with the index in the message |
| Polygons.CPolygons.GetPolyVertices | src/anyblend/cls_polygons.py:122-125 | the positions of the indexed polygon's vertices, in order; out of range it raises |
| Polygons.CPolygons.GetPolyWeight | src/anyblend/cls_polygons.py:130-134 | the mean vertex weight of the indexed polygon, which is positive; out of range it raises |
| Polygons.CPolygons.GetRandomPosOnPoly | src/anyblend/cls_polygons.py:139-149 | the position on the indexed polygon with the per-vertex jittered weights |
| Polygons.CPolygons.GetRandomPosOnPolyUniformlySimplex | src/anyblend/cls_polygons.py:154-168 | the position on the indexed polygon with the simplex weights times the vertex weights |
| Polygons.CPolygons.AddFromObject | src/anyblend/cls_polygons.py:224-298 | raises exactly for a name already added, a missing object, a non-mesh object or a missing vertex group; with no polygon of positive weight sum it returns false and changes nothing; otherwise it appends the object with its kept polygons, records its index and raises the maximum weight to the object's |
| Polygons.CPolygons.Append | src/anyblend/cls_polygons.py:292-297 | the record is appended, its index recorded, the maximum weight set and the running counts recomputed, keeping the table consistent |
| Polygons.CPolygons.CalcWeightAndAreaDistribution | src/anyblend/cls_polygons.py:173-207 | stores the normalised running sums of the terms, failing only for an empty table; the table itself is unchanged |
| Polygons.CPolygons.SetDistribution | src/anyblend/cls_polygons.py:207 | stores the distribution and nothing else |
| Polygons.CPolygons.SampleFromDistribution | src/anyblend/cls_polygons.py:217-218 | with a distribution, picks the first polygon whose entry exceeds the draw and places a simplex-weighted point on it |
| Polygons.CPolygons.SampleUniformlyByWeightAndArea | src/anyblend/cls_polygons.py:212-218 | computes the distribution once and keeps it, then picks the polygon whose entry first exceeds the draw and places a point on it; fails only for an empty table |
| Points.OriginOf | src/anyblend/points.py:177-191 | the origin argument is accepted exactly when it is the string "ORIG" or a list of three numbers, and each error names what was wrong |
| Points.Configure | src/anyblend/points.py:149-191 | the arguments are refused exactly when neither a count nor instances are given, when bounding boxes are asked for without instances, or when the origin is invalid; the point count is the given count (negative counts place nothing) or else the number of instances |
| Points.CheckCamera | src/anyblend/points.py:205-233 | without angle or FoV constraint the camera is not checked; with one, a missing camera matrix or FoV fails, and otherwise it passes exactly when half of each FoV exceeds its border by more than 0.1 degrees |
| Points.BuildTable | src/anyblend/points.py:193-202 | a fresh, consistent polygon table without a distribution is built, and when it succeeds every target names a mesh object of the scene |
| Points.MeshesInStep | src/anyblend/points.py:193-202 | adding one more mesh target keeps every target so far a mesh of the scene |
| Points.AcceptedMeetsConstraints | src/anyblend/points.py:267-363 | a candidate that the tests accept is within the distance range of every accepted point, far enough in view angle from every recorded direction, inside the FoV, and its moved box is clear of every earlier box and every obstacle |
| Points.Evaluate | src/anyblend/points.py:279-363 | with no constraint a position is accepted; with the camera field of view in use a position outside it is never accepted; an error comes only from missing obstacles or a point index past the instance list |
| Points.Record | src/anyblend/points.py:372-397 | recording point i sets its entry (position or None) and changes no other point's entry |
| Points.BoxesApartStep | src/anyblend/points.py:322-359 | adding a box that is clear of all earlier boxes keeps the boxes pairwise apart |
| Points.BoxesClearStep | src/anyblend/points.py:322-359 | adding a box clear of the obstacles keeps every box clear of them |
| Points.EmptyPlacementOK | src/anyblend/points.py:240-244 | the empty start state meets the placement invariant |
| Points.RecordNoneKeepsOK | src/anyblend/points.py:395-396 | recording a point as not found keeps the placement invariant |
| Points.NoneViewsStep | src/anyblend/points.py:395-396 | a point recorded as not found adds no view direction and breaks no FoV condition |
| Points.NoneBoxesStep | src/anyblend/points.py:395-396 | a point recorded as not found leaves the boxes of the accepted points consistent |
| Points.NoneDistancesStep | src/anyblend/points.py:395-396 | a point recorded as not found leaves every pair of accepted points in range |
| Points.RecordSomeKeepsOK | src/anyblend/points.py:372-393 | recording an accepted point with its moved box and view direction keeps the placement invariant |
| Points.KeysStep | src/anyblend/points.py:372-393 | after point i there is one entry for every index up to i and at most one view direction per point |
| Points.BoxesStep | src/anyblend/points.py:375-390 | the recorded boxes stay exactly the moved boxes of the accepted instances, pairwise apart and clear of the obstacles |
| Points.DistancesStep | src/anyblend/points.py:308-313 | a new point within range of all accepted points keeps every pair within range |
| Points.ViewsStep | src/anyblend/points.py:316-319 | a new view direction far enough from all recorded ones keeps every pair of directions separated, and every accepted point inside the FoV |
| Points.Range | src/anyblend/points.py:244 | the initial candidate list holds every polygon index once, in order |
| Points.RemoveAt | src/anyblend/points.py:368 | removing the candidate at position k keeps the others in order |
| Points.RemoveKeepsCandidates | src/anyblend/points.py:368 | removing a rejected candidate leaves distinct polygon indices without it, all from the old list |
| Points.RangeIsCandidates | src/anyblend/points.py:244 | the initial candidate list is a list of distinct valid polygon indices |
| Points.ChoosePolygon | src/anyblend/points.py:255-263 | the chosen candidate is the last one drawn after at most the maximum number of trials, its mean vertex weight is returned, and when the trials end early the last uniform draw fell below that weight |
| Points.DrawCandidate | src/anyblend/points.py:256-259 | one trial draws a candidate position among the remaining ones, takes its mean vertex weight, and accepts exactly when the uniform draw falls below it |
| Points.TryPolygon | src/anyblend/points.py:266-267 | the candidate position is the jittered point on the chosen polygon, and it is accepted exactly when the tests accept it |
| Points.FindPosition | src/anyblend/points.py:252-369 | an accepted position passes every test and lies on a polygon of the table; no position is found only when every candidate was rejected and removed; the candidates lose exactly the rejected draws, which are counted; no trials at all is an error |
| Points.OnSurfaceStep | src/anyblend/points.py:267 | recording a position taken from a polygon keeps every accepted point on the surface |
| Points.OnSurfaceUniformlyStep | src/anyblend/points.py:649 | recording a position drawn by the uniform sampler keeps every accepted point on the surface |
| Points.RecordKeepsOK | src/anyblend/points.py:372-397 | recording point i, found or not, keeps the placement invariant |
| Points.Commit | src/anyblend/points.py:372-397 | recording point i sets only its entry and keeps the placement invariant |
| Points.PlacePoint | src/anyblend/points.py:247-397 | one pass of the point loop adds exactly the entry of point i, keeps the placement invariant and every point on the surface, and a missing point means the candidates ran out; the shared candidates lose exactly the draws it rejected |
| Points.SampleWeighted | src/anyblend/points.py:240-398 | all points are decided, every accepted pair within the distance range, every view-direction pair separated, every box apart from the others and the obstacles, every point on the surface; the rejection count sums the rejected draws of all points, each of which left the shared candidate list, so it is at most the polygon count |
| Points.DrawUniform | src/anyblend/points.py:649 | a drawn position lies on a polygon of the table, chosen by the distribution, which is computed on first use and kept after; the table is unchanged |
| Points.TryUniform | src/anyblend/points.py:649-745 | the drawn position lies on the surface and is accepted exactly when the tests accept it |
| Points.FindPositionUniform | src/anyblend/points.py:646-750 | an accepted position passes every test and lies on the surface; none is found only after the maximum number of attempts; the table is unchanged |
| Points.PlacePointUniform | src/anyblend/points.py:645-778 | one pass of the point loop adds exactly the entry of point i and keeps the placement invariant and every point on the surface |
| Points.SampleUniform | src/anyblend/points.py:640-779 | all points are decided with the same pairwise guarantees as the weighted sampler, every accepted point drawn from the surface |
| Points.OffsetIsPlacementShift | src/anyblend/points.py:379-422 | the reported offset is the shift the box test applied, and that shift carries the instance's reference point exactly onto the accepted position |
| Points.ToInstanceOffsets | src/anyblend/points.py:404-428 | the result has one entry per instance used, holding its offset or None, and no other keys; more points than instances is an index error |
| Points.Report | src/anyblend/points.py:404-431 | without instances the points are returned by index; with instances by name, which succeeds exactly when there are no more points than instances |
| Points.PlacedBox | src/anyblend/points.py:375-388 | a moved box exists exactly for the point indices that have an instance |
| Points.GetRndPointsOnSurface | src/anyblend/points.py:44-431 | a returned result follows valid arguments, mesh targets and a valid camera, and reports a placement meeting every constraint, by index or by instance name |
| Points.GetRndPointsOnSurfaceUniformly | src/anyblend/points.py:437-812 | the same for the uniform sampler |
| Polynomial.HornerScaled | src/anyblend/node/grp/polynomial.py:109-135 | the nested scheme from coefficient p on, scaled by x to the power p, is the sum of the remaining terms of the polynomial |
| Polynomial.HornerIsPoly | src/anyblend/node/grp/polynomial.py:109-135 | the nested scheme the node chain follows computes the sum of a[i] * x^i |
| Polynomial.HornerLastTwo | src/anyblend/node/grp/polynomial.py:109-121 | the first pair of nodes computes a[n-2] + a[n-1] * x, the innermost step of the scheme |
| Polynomial.FindLinkTo | src/anyblend/node/grp/polynomial.py:137 | the link found for an input socket is one of the tree's links into that socket, and none is found only when no link goes there |
| Polynomial.FindLinkToAppend | src/anyblend/node/grp/polynomial.py:137 | new links do not hide a link an input already has |
| Polynomial.NodeAtNames | src/anyblend/node/grp/polynomial.py:57 | a node is found by name exactly when the tree has a node of that name, and it carries that name |
| Polynomial.NodeAtAppend | src/anyblend/node/grp/polynomial.py:110-134 | adding nodes does not change which node an existing name finds |
| Polynomial.OutputMono | src/anyblend/node/grp/polynomial.py:110-137 | the expression an output socket computes does not change with more evaluation depth |
| Polynomial.InputMono | src/anyblend/node/grp/polynomial.py:110-137 | the expression an input socket receives does not change with more evaluation depth |
| Polynomial.ExtendsFinds | src/anyblend/node/grp/polynomial.py:110-134 | a tree that only gains nodes and links finds every old node unchanged |
| Polynomial.ExtendsLinks | src/anyblend/node/grp/polynomial.py:110-134 | a tree that only gains links keeps the link of every input already wired |
| Polynomial.OutputStable | src/anyblend/node/grp/polynomial.py:110-134 | adding nodes and links does not change what an existing output computes |
| Polynomial.InputStable | src/anyblend/node/grp/polynomial.py:110-134 | adding nodes and links does not change what a wired input receives |
| Polynomial.ExtendsTrans | src/anyblend/node/grp/polynomial.py:123-135 | growing a tree twice grows it once |
| Polynomial.AddMath | src/anyblend/node/grp/polynomial.py:110-134 | a math node is appended under a fresh name with its operation and title, both inputs linked to the given sockets |
| Polynomial.AddMathShape | src/anyblend/node/grp/polynomial.py:110-134 | the new node is found by its name and its two inputs are linked to exactly the given sockets |
| Polynomial.AddMathExtends | src/anyblend/node/grp/polynomial.py:110-134 | adding a math node only adds to the tree |
| Polynomial.AddMathWired | src/anyblend/node/grp/polynomial.py:110-134 | after adding a math node every input link still starts at an existing node and the new node is wired |
| Polynomial.AddMathExpr | src/anyblend/node/grp/polynomial.py:110-134 | the new node computes its operation applied to what its two input sockets compute |
| Polynomial.AddMathReady | src/anyblend/node/grp/polynomial.py:110-134 | adding a math node keeps the group input and output nodes as they were |
| Polynomial.GroupInputExpr | src/anyblend/node/grp/polynomial.py:98-100 | output s of the group input node is the group's input s |
| Polynomial.InstrComputes | src/anyblend/node/grp/polynomial.py:110-134 | one step of the chain computes its operation on the previous node's value or a coefficient |
| Polynomial.BuildTrace | src/anyblend/node/grp/polynomial.py:109-135 | building the chain passes through one tree per step, each the previous one with a math node added |
| Polynomial.TraceComputes | src/anyblend/node/grp/polynomial.py:109-135 | after k steps the last node computes the expression of the first k steps |
| Polynomial.BuildComputes | src/anyblend/node/grp/polynomial.py:109-135 | the last node of the chain computes the program's expression |
| Polynomial.ProgExprAppend | src/anyblend/node/grp/polynomial.py:123-135 | the expression of two programs in turn is the second applied to the first |
| Polynomial.PassesLast | src/anyblend/node/grp/polynomial.py:123 | the loop over the powers runs from n-2 down to 1 |
| Polynomial.CountInstrAppend | src/anyblend/node/grp/polynomial.py:109-135 | counting operations is additive over the steps |
| Polynomial.PassesCount | src/anyblend/node/grp/polynomial.py:123-135 | every pass of the loop adds one multiplication and one addition |
| Polynomial.HornerProgramCount | src/anyblend/node/grp/polynomial.py:109-135 | the chain has 2 * (n - 1) steps, n - 1 of each operation |
| Polynomial.BuildKeeps | src/anyblend/node/grp/polynomial.py:109-135 | building the chain keeps the existing nodes in front and the group sockets unchanged |
| Polynomial.BuildNodes | src/anyblend/node/grp/polynomial.py:109-135 | building the chain adds exactly one math node per step of each operation |
| Polynomial.LinkOutComputes | src/anyblend/node/grp/polynomial.py:137 | the last link makes the group output receive what the last node computes |
| Polynomial.ProgramComputes | src/anyblend/node/grp/polynomial.py:109-138 | the group output receives the expression of the whole program on the group's input |
| Polynomial.ChainComputes | src/anyblend/node/grp/polynomial.py:109-138 | the group output receives the nested-scheme expression of the n coefficients |
| Polynomial.EvalArith | src/anyblend/node/grp/polynomial.py:110-134 | an addition node computes the sum and a multiplication node the product of its inputs |
| Polynomial.EvalPass | src/anyblend/node/grp/polynomial.py:124-134 | one pass of the loop takes the nested scheme from power p to power p-1 |
| Polynomial.EvalPasses | src/anyblend/node/grp/polynomial.py:123-135 | the whole loop takes the nested scheme down to power 0 |
| Polynomial.EvalFirstPass | src/anyblend/node/grp/polynomial.py:109-121 | the first two nodes compute the scheme at power n-2 |
| Polynomial.ChainEval | src/anyblend/node/grp/polynomial.py:109-138 | the value at the group output is the polynomial of the coefficients at the input |
| Polynomial.Unlinked | src/anyblend/node/grp/polynomial.py:75-77 | the links left after removing nodes are exactly the links between remaining nodes |
| Polynomial.UnlinkedNone | src/anyblend/node/grp/polynomial.py:75-77 | removing no node keeps every link |
| Polynomial.UnlinkedUnion | src/anyblend/node/grp/polynomial.py:75-77 | removing nodes in two rounds drops the same links as removing them at once |
| Polynomial.NodeNamesSnoc | src/anyblend/node/grp/polynomial.py:75-77 | the names of the first i+1 nodes are those of the first i and node i |
| Polynomial.RemoveNode | src/anyblend/node/grp/polynomial.py:76 | removing a node drops it and every link touching it, and keeps the other nodes and the group sockets |
| Polynomial.Cleared | src/anyblend/node/grp/polynomial.py:75-77 | after removing every node the tree has no nodes and the same group sockets |
| Polynomial.ClearedWired | src/anyblend/node/grp/polynomial.py:75-77 | a tree whose links join its own nodes has no links once cleared |
| Polynomial.RemovedUpToEnds | src/anyblend/node/grp/polynomial.py:75-77 | removing the first none of the nodes changes nothing, removing all of them clears the tree |
| Polynomial.RemovedUpToStep | src/anyblend/node/grp/polynomial.py:75-77 | each pass of the removal loop removes the next node |
| Polynomial.ClearGroup | src/anyblend/node/grp/polynomial.py:75-77 | the removal loop clears the group's tree and changes no other tree or material |
| Polynomial.GroupNameInjective | src/anyblend/node/grp/polynomial.py:54 | different degrees give different group names |
| Polynomial.InputEntries | src/anyblend/node/grp/polynomial.py:80-88 | the inputs are "Input" and one socket per coefficient |
| Polynomial.CreateGroup | src/anyblend/node/grp/polynomial.py:42-142 | fewer than two coefficients raises; otherwise only the group of that degree is created or rebuilt, an existing group is kept unless forced, and on success its reference is returned |
| Polynomial.ProvidedOnce | src/anyblend/node/shader/utils.py:95-161 | providing the interface of a fresh group adds exactly one interface node of the right kind and every requested socket |
| Polynomial.InterfaceShape | src/anyblend/node/grp/polynomial.py:75-103 | a cleared group with its interface has just the group input and output nodes, no links, and every requested socket |
| Polynomial.RebuildShape | src/anyblend/node/grp/polynomial.py:71-138 | a rebuilt group is the node chain on a tree holding only the two interface nodes with every requested socket |
| Polynomial.TwoNodesReady | src/anyblend/node/grp/polynomial.py:98-105 | the bare interface tree has a group input and a group output node ready to be wired |
| Polynomial.CountMathInterface | src/anyblend/node/grp/polynomial.py:98-105 | the interface nodes hold no math node |
| Polynomial.CreateComputes | src/anyblend/node/grp/polynomial.py:42-142 | a created or forced group computes the polynomial of its coefficients at its input, for every input |
| Polynomial.ChainCounts | src/anyblend/node/grp/polynomial.py:109-135 | the chain on the two interface nodes has 2n nodes, n - 1 of each operation |
| Polynomial.CreateRebuilds | src/anyblend/node/grp/polynomial.py:64-71 | a new or forced group is the rebuilt tree, and the call raises exactly when the rebuild does |
| Polynomial.CreateCounts | src/anyblend/node/grp/polynomial.py:42-142 | a created group has 2n nodes: the interface, n - 1 multiplications and n - 1 additions |
| Polynomial.CreateProvides | src/anyblend/node/grp/polynomial.py:80-103 | a created group declares every input and output socket |
| Polynomial.CoefNames | src/anyblend/node/grp/polynomial.py:81 | coefficient i is named "Coef. i" |
| Polynomial.CoefNameDistinct | src/anyblend/node/grp/polynomial.py:80-81 | coefficient names differ from each other and from "Input" |
| Polynomial.EntriesFresh | src/anyblend/node/grp/polynomial.py:80-95 | none of the requested sockets exists on a new group, and their names are "Input", the coefficient names and "Output" |
| Polynomial.EmptyProvided | src/anyblend/node/grp/polynomial.py:97-103 | providing the sockets on a new group creates exactly the requested ones |
| Polynomial.EmptyRebuildInterface | src/anyblend/node/grp/polynomial.py:71-103 | rebuilding a new group raises nothing and gives exactly the requested sockets |
| Polynomial.CreateInterface | src/anyblend/node/grp/polynomial.py:42-142 | a new group is created without error with exactly the sockets "Input", "Coef. 0" to "Coef. n-1" and "Output" |
| Polynomial.InterfaceOk | src/anyblend/node/grp/polynomial.py:97-103 | the interface raises nothing when neither run of socket declarations does |
| Polynomial.BuildSnoc | src/anyblend/node/grp/polynomial.py:123-135 | building a program with one more step is one more step on the built tree |
| Polynomial.FirstPassStep | src/anyblend/node/grp/polynomial.py:109-121 | the first two nodes are the first two steps of the program |
| Polynomial.PassStep | src/anyblend/node/grp/polynomial.py:123-134 | each pass of the loop adds the next two steps of the program |
| Polynomial.AddChainNodes | src/anyblend/node/grp/polynomial.py:109-135 | the loop that adds the math nodes builds exactly the program of the nested scheme |
| Polynomial.ProvideGroupInterface | src/anyblend/node/grp/polynomial.py:97-103 | the group's tree gets its interface and no other tree or material changes |
| Polynomial.AddChain | src/anyblend/node/grp/polynomial.py:109-138 | the group's tree gets the node chain and its output link, and nothing else changes |
| Polynomial.RebuildGroup | src/anyblend/node/grp/polynomial.py:71-140 | the group's tree is cleared, given its interface and its chain, and nothing else changes |
| Polynomial.Create | src/anyblend/node/grp/polynomial.py:42-142 | the trees after the call and the result are those of the function model of the group creation |
| ShaderUtils.Connect | src/anyblend/node/shader/utils.py:128-137 | no source changes nothing; a socket source adds exactly one link into the target input; a number or tuple sets only the target's default, and raises exactly when the input has no default of that kind |
| ShaderUtils.Declare | src/anyblend/node/shader/utils.py:145-164 | a socket of that name is there afterwards; an existing one is kept as it is, a missing one is appended with the type's initial default, and an unknown socket type raises |
| ShaderUtils.SetDefault | src/anyblend/node/shader/utils.py:149-155 | the socket names stay; a socket without a default is left alone, an accepted value becomes its default, and a value of another kind raises and changes nothing |
| ShaderUtils.Entries | src/anyblend/node/shader/utils.py:176-225 | a list is processed entry by entry, a socket collection element by element with non-socket elements refused, and any other data raises |
| ShaderUtils.ProvideOne | src/anyblend/node/shader/utils.py:144-168 | an invalid element raises; no socket is lost; an existing name adds no socket; a call that raises nothing leaves a socket of that name |
| ShaderUtils.ProvideOneDefault | src/anyblend/node/shader/utils.py:149-152 | a provided input socket holds the declared value, unless it has no default value |
| ShaderUtils.FindSocketNames | src/anyblend/node/shader/utils.py:145-163 | the lookup by name depends only on the socket names |
| ShaderUtils.ProvideAllStep | src/anyblend/node/shader/utils.py:177-211 | the run over one more entry is the run so far followed by that entry, unless the run had already raised |
| ShaderUtils.ProvideAllStops | src/anyblend/node/shader/utils.py:177-188 | once an entry raises, the later entries are not processed |
| ShaderUtils.ProvideAllCovers | src/anyblend/node/shader/utils.py:177-222 | after a run that raised nothing every entry has its socket |
| ShaderUtils.ProvideAllKeepsNames | src/anyblend/node/shader/utils.py:145-163 | when every entry already has its socket a run adds none |
| ShaderUtils.AllPresentPrefix | src/anyblend/node/shader/utils.py:177-178 | entries present for a list are present for each of its prefixes |
| ShaderUtils.ProvideOneKeepsNames | src/anyblend/node/shader/utils.py:145-163 | an entry whose socket exists adds no socket |
| ShaderUtils.WithSide | src/anyblend/node/shader/utils.py:173-232 | replacing the sockets of one side leaves the other side, the nodes and the links unchanged |
| ShaderUtils.ProvideNode | src/anyblend/node/shader/utils.py:193-230 | an existing group node is reused; a missing one is appended, which fails only for an unknown node type; nothing else of the tree changes |
| ShaderUtils.ProvideSockets | src/anyblend/node/shader/utils.py:173-232 | other data raises and changes nothing; the links and the other side are never changed; a returned node index is a node of the tree |
| ShaderUtils.ProvideSocketsProvides | src/anyblend/node/shader/utils.py:173-232 | after a call that raised nothing the group node is there and every declared socket exists |
| ShaderUtils.ProvideSocketsNoop | src/anyblend/node/shader/utils.py:173-232 | on a tree that already has the group node and every socket, a call adds no socket and no node |
| ShaderUtils.ProvideSocketsIdempotent | src/anyblend/node/shader/utils.py:173-232 | a second call with the same data adds no socket and no node |
| ShaderUtils.ProvideSocketsSide | src/anyblend/node/shader/utils.py:176-198 | with a list, the sockets are those of the run over the entries, and the call succeeds exactly when no entry raises and the group node exists or can be made |
| ShaderUtils.ProvideSocketsAppends | src/anyblend/node/shader/utils.py:193-230 | on a tree without the group node a successful call appends exactly one node of that kind, named "Group Input" or "Group Output", and returns it |
| ShaderUtils.EntryNames | src/anyblend/node/shader/utils.py:177-178 | the names of the entries, in order |
| ShaderUtils.ProvideAllFresh | src/anyblend/node/shader/utils.py:177-211 | entries for new sockets all succeed and append one socket each, in order |
| ShaderUtils.EntryNamesSnoc | src/anyblend/node/shader/utils.py:177-178 | the names of a list are those of its front and then of its last entry |
| ShaderUtils.FreshPrefix | src/anyblend/node/shader/utils.py:177-178 | a prefix of fresh entries is fresh |
| ShaderUtils.FreshLast | src/anyblend/node/shader/utils.py:177-178 | the last fresh entry names neither an old socket nor an earlier entry |
| ShaderUtils.ProvideOneFresh | src/anyblend/node/shader/utils.py:144-168 | one entry for a new socket adds that socket and raises nothing |
| ShaderUtils.ProvideNodeTreeInputs | src/anyblend/node/shader/utils.py:173-198 | only the given tree changes, to the provided input sockets and group input node, and the group input node is returned |
| ShaderUtils.ProvideNodeTreeOutputs | src/anyblend/node/shader/utils.py:206-232 | only the given tree changes, to the provided output sockets and group output node, and the group output node is returned |
| ShaderUtils.ProvideTree | src/anyblend/node/shader/utils.py:173-232 | the loop over the entries followed by the node lookup computes the function model of the call |
| ShaderUtils.RunEntries | src/anyblend/node/shader/utils.py:177-222 | the loop over the entries stops at the first that raises and computes the run over the entries |
| ShaderReplace.FirstNamed | src/anyblend/node/shader/utils.py:113-116 | the position found is the first socket of that name, and none is found exactly when no socket has it |
| ShaderReplace.Select | src/anyblend/node/shader/utils.py:113-117 | a socket chosen by position exists exactly when the position is in range, one chosen by name exactly when a socket has that name, and the socket found is the one asked for |
| ShaderReplace.LinksInto | src/anyblend/node/shader/utils.py:113 | the links listed for an input are exactly the tree's links into that socket |
| ShaderReplace.LinksOutOf | src/anyblend/node/shader/utils.py:116 | the links listed for an output are exactly the tree's links out of that socket |
| ShaderReplace.Feeding | src/anyblend/node/shader/utils.py:113-115 | one new link into the replacement node per link into the replaced input |
| ShaderReplace.Draining | src/anyblend/node/shader/utils.py:116-118 | one new link out of the replacement node per link out of the replaced output |
| ShaderReplace.RemoveNamed | src/anyblend/node/shader/utils.py:119 | removing a node keeps exactly the nodes of other names |
| ShaderReplace.Detach | src/anyblend/node/shader/utils.py:119 | removing a node keeps exactly the links that do not touch it |
| ShaderReplace.RewireInputs | src/anyblend/node/shader/utils.py:113-115 | the links only grow, by links into the new node; it raises exactly when there is a link to carry and the new node lacks the selected input, and then nothing changes; on success every link into the old input has a counterpart into the new one |
| ShaderReplace.FeedingCovers | src/anyblend/node/shader/utils.py:113-115 | every link into the old input gets its counterpart into the new node |
| ShaderReplace.DrainingCovers | src/anyblend/node/shader/utils.py:116-118 | every link out of the old output gets its counterpart out of the new node |
| ShaderReplace.RewireOutputs | src/anyblend/node/shader/utils.py:116-118 | the links only grow, by links out of the new node; it raises exactly when there is a link to carry and the new node lacks the selected output, and then nothing changes; on success every link out of the old output has a counterpart out of the new one |
| ShaderReplace.ReplaceOne | src/anyblend/node/shader/utils.py:111-120 | replacing one node keeps the group sockets and adds only replacement nodes; on success the old node and all its links are gone |
| ShaderReplace.ReplaceAll | src/anyblend/node/shader/utils.py:111-120 | after the second loop every node is an old node not collected, or a replacement node |
| ShaderReplace.EvolvesRanked | src/anyblend/node/shader/utils.py:97-104 | removing nodes and adding replacement nodes keeps node groups from using themselves |
| ShaderReplace.EvolvesTransitive | src/anyblend/node/shader/utils.py:97-120 | two rounds of removing and replacing nodes are one such round |
| ShaderReplace.KeepsDescend | src/anyblend/node/shader/utils.py:97-104 | processing a group below a tree, then the rest of the tree's nodes, changes no tree that is not below it |
| ShaderReplace.Scan | src/anyblend/node/shader/utils.py:97-109 | the first loop only removes and replaces nodes, changes no tree above the current one, and collects every matching node of the rest of the list |
| ShaderReplace.ScanGroup | src/anyblend/node/shader/utils.py:98-104 | recursing into a group node keeps the same guarantees as the loop |
| ShaderReplace.Process | src/anyblend/node/shader/utils.py:88-120 | a call only removes and replaces nodes, keeps node groups acyclic, and changes no tree other than the given one and the groups below it |
| ShaderReplace.CleanEvolves | src/anyblend/node/shader/utils.py:97-120 | removing nodes and adding replacement nodes keeps a tree without nodes to replace |
| ShaderReplace.GroupsCleanEvolve | src/anyblend/node/shader/utils.py:97-104 | the groups found clean stay clean while the loop goes on |
| ShaderReplace.GroupsCleanExtend | src/anyblend/node/shader/utils.py:97-104 | once the group of the next node is clean, the groups of the nodes so far are all clean |
| ShaderReplace.ScanCleans | src/anyblend/node/shader/utils.py:97-109 | after the first loop every group the loop recursed into has no node to replace, at any depth |
| ShaderReplace.ScanGroupCleans | src/anyblend/node/shader/utils.py:98-104 | after recursing into a group node its group has no node to replace |
| ShaderReplace.ReplaceAllLeavesNoMatch | src/anyblend/node/shader/utils.py:111-120 | after the second loop no node of the tree is one to replace |
| ShaderReplace.ReplacedTreeClean | src/anyblend/node/shader/utils.py:111-120 | a tree whose matching nodes were all collected is clean after the second loop |
| ShaderReplace.ProcessCleans | src/anyblend/node/shader/utils.py:88-120 | after a call that raised nothing no node to replace is left in the tree, nor, when recursing, in any group it uses at any depth |
| ShaderReplace.ReplaceOneRewires | src/anyblend/node/shader/utils.py:111-120 | a successful replacement keeps every link not touching the old node and carries every link into the selected input and out of the selected output over to the new node |
| ShaderReplace.ReplaceOneAddsOnlyMade | src/anyblend/node/shader/utils.py:111-120 | a successful replacement adds no link other than those of the new node |
| ShaderReplace.ReplaceOneKeepsCount | src/anyblend/node/shader/utils.py:111-120 | with unique node names a replacement keeps the node count and the names unique |
| ShaderReplace.RemoveNamedOne | src/anyblend/node/shader/utils.py:119 | removing a name that occurs once drops exactly one node |
| ShaderReplace.UniqueTail | src/anyblend/node/shader/utils.py:119 | the nodes after the first have unique names, all different from the first |
| ShaderReplace.UniqueCons | src/anyblend/node/shader/utils.py:112 | a node whose name is new keeps the names unique |
| ShaderReplace.RemoveNamedAbsent | src/anyblend/node/shader/utils.py:119 | removing a name no node has changes nothing |
| ShaderReplace.CarryInputs | src/anyblend/node/shader/utils.py:113-115 | the loop over the links into the old input computes the function model of the rewiring |
| ShaderReplace.AppendFeeding | src/anyblend/node/shader/utils.py:113-115 | the loop appends the new input links in order |
| ShaderReplace.CarryOutputs | src/anyblend/node/shader/utils.py:116-118 | the loop over the links out of the old output computes the function model of the rewiring |
| ShaderReplace.AppendDraining | src/anyblend/node/shader/utils.py:116-118 | the loop appends the new output links in order |
| ShaderReplace.ReplaceInTree | src/anyblend/node/shader/utils.py:112-119 | one pass of the second loop computes the function model of replacing that node |
| ShaderReplace.ReplaceNodeType | src/anyblend/node/shader/utils.py:88-120 | the trees after the call are those of the function model, and the materials are unchanged |
| ShaderReplace.CollectNodes | src/anyblend/node/shader/utils.py:97-109 | the first loop computes the function model of the scan |
| ShaderReplace.VisitGroup | src/anyblend/node/shader/utils.py:98-104 | recursing into a group node computes the function model of that step |
| ShaderReplace.ReplaceFound | src/anyblend/node/shader/utils.py:111-120 | the second loop changes only the given tree, as the function model says |
| NodeTree.FindNode | src/anyblend/node/shader/utils.py:193-227 | the node found is the first of that name, and none is found exactly when no node has it |
| NodeTree.FindNodeAppend | src/anyblend/node/shader/utils.py:193-196 | appending nodes does not change which node an existing name finds |
| NodeTree.FindSocket | src/anyblend/node/shader/utils.py:145-163 | the socket found is the first of that name, and none is found exactly when no socket has it |
| NodeTree.NewNodeName | src/anyblend/node/shader/utils.py:112-195 | a new node gets a name no node of the tree has, its base name when that is free |
| NodeTree.AddNode | src/anyblend/node/shader/utils.py:112-229 | an unknown node type raises; otherwise one node of that kind is appended and nothing else changes |
| NodeTree.AddNodeUnique | src/anyblend/node/shader/utils.py:112 | node names stay unique when a node is added |
| NodeTree.CBlendData.constructor | src/anyblend/util/node.py:78-85 | the blend data holds the given node trees and materials |
| NodeUtil.FindLabel | src/anyblend/util/node.py:37-50 | the index found is the first node with that label, and none is found exactly when no node has it |
| NodeUtil.GetByIdOrLabel | src/anyblend/util/node.py:32-40 | a node is found exactly when some node has that name or label; the first of that name wins, and only when no node has the name the first of that label |
| NodeUtil.GetByLabelOrId | src/anyblend/util/node.py:47-55 | a node is found exactly when some node has that label or name; the first of that label wins, and only when no node has the label the first of that name |
| NodeUtil.LookupsAgree | src/anyblend/util/node.py:32-55 | when no node has the name as a label, or none has it as a name, the two lookups return the same node |
| NodeUtil.Redirect | src/anyblend/util/node.py:92-97 | the group a node is left with is a prefix of the group it had |
| NodeUtil.RedirectShortens | src/anyblend/util/node.py:92-97 | the group a node ends up with is a prefix of its old one; it is kept exactly when nothing is collected, and every collected name is a prefix of the old name longer than the new one |
| NodeUtil.PrefixTransitive | src/anyblend/util/node.py:94 | a prefix of a prefix is a prefix |
| NodeUtil.BaseOf | src/anyblend/util/node.py:94 | the base found is a listed name that the group name extends, and none is found exactly when the group name extends no listed name |
| NodeUtil.OneBase | src/anyblend/util/node.py:94 | with unnested base names a group name extends at most one of them |
| NodeUtil.PrefixesComparable | src/anyblend/util/node.py:94 | two prefixes of one name are prefixes of each other |
| NodeUtil.UnnestedInit | src/anyblend/util/node.py:92 | dropping the last base name keeps the names unnested |
| NodeUtil.RedirectUnnested | src/anyblend/util/node.py:92-97 | with unnested base names a copy moves straight to its base group and only its name is collected; a group that is no copy stays |
| NodeUtil.RedirectNode | src/anyblend/util/node.py:90-99 | one node changes only in its group; a group node without a group raises when there are base names |
| NodeUtil.RedirectNodes | src/anyblend/util/node.py:90-100 | the node loop keeps the number of nodes |
| NodeUtil.RedirectNodesPointwise | src/anyblend/util/node.py:90-100 | the node loop passes exactly when no node raises, and then each node is redirected on its own |
| NodeUtil.RedirectNodesRemoved | src/anyblend/util/node.py:90-100 | the names the node loop collects are those its nodes leave, all of them when it passes |
| NodeUtil.RedirectMaterials | src/anyblend/util/node.py:85-101 | the material loop keeps the set of trees, changes only the nodes of the listed materials' trees and leaves every other tree alone |
| NodeUtil.DistinctTail | src/anyblend/util/node.py:85 | the rest of distinct names is distinct and misses the first |
| NodeUtil.RedirectMaterialsOnce | src/anyblend/util/node.py:85-101 | with distinct material names every material tree is redirected once, from its original nodes |
| NodeUtil.RedirectMaterialsRemovedFrom | src/anyblend/util/node.py:85-101 | every collected name was left by a node of some material tree |
| NodeUtil.RedirectMaterialsRemovedAll | src/anyblend/util/node.py:85-101 | on success every name any material's node loop leaves is collected |
| NodeUtil.FirstMissing | src/anyblend/util/node.py:77-81 | a missing base group is reported exactly when some base name has no node group, and the one reported has none |
| NodeUtil.RemoveGroups | src/anyblend/util/node.py:103-106 | exactly the node groups of the collected names are removed and every other tree is kept unchanged |
| NodeUtil.MakeUnique | src/anyblend/util/node.py:65-109 | a missing base group raises before anything changes; no tree is added and no material tree removed |
| NodeUtil.NodeRebased | src/anyblend/util/node.py:90-99 | with unnested base names one node is moved to its base group and leaves exactly the copy it used |
| NodeUtil.MakeUniqueRebases | src/anyblend/util/node.py:65-109 | with unnested base names and distinct materials, a successful call moves every group node of every material tree to its base group and changes nothing else of those trees |
| NodeUtil.NodesRemovedCopies | src/anyblend/util/node.py:90-100 | with unnested base names a passing node loop collects exactly the copies its group nodes use |
| NodeUtil.MaterialsRemovedCopies | src/anyblend/util/node.py:85-101 | with unnested base names and distinct materials the material loop collects exactly the copies in use |
| NodeUtil.MakeUniqueRemovesCopies | src/anyblend/util/node.py:65-109 | a successful call removes exactly the copies that material trees used and keeps every other node group as it was |
| NodeUtil.MakeUniqueKeepsMaterialsResolved | src/anyblend/util/node.py:65-109 | after a successful call with unnested base names every group node of a listed material uses a node group that still exists, so the removal unlinks nothing there |
| NodeUtil.MakeUniqueKeepsBases | src/anyblend/util/node.py:65-109 | with unnested base names no base group is removed |
| NodeUtil.NodeStaysResolved | src/anyblend/util/node.py:93-96 | when the base groups exist, a redirected node still uses an existing node group and leaves only existing ones |
| NodeUtil.NodesStayResolved | src/anyblend/util/node.py:90-100 | when the base groups exist, the node loop keeps every group reference on an existing group |
| NodeUtil.MaterialsStayResolved | src/anyblend/util/node.py:85-101 | when the base groups exist, the material loop keeps every material's group references on existing groups and collects only existing groups |
| NodeUtil.FindMissing | src/anyblend/util/node.py:77-81 | the check loop reports the first base name without a node group |
| NodeUtil.RedirectGroupName | src/anyblend/util/node.py:92-97 | the inner loop computes the redirection over the base names |
| NodeUtil.RedirectOneNode | src/anyblend/util/node.py:91-99 | one pass of the node loop computes the redirection of that node |
| NodeUtil.RedirectNodesFrom | src/anyblend/util/node.py:90-100 | the node loop from a node on is that node's step followed by the rest |
| NodeUtil.NodesLoopFail | src/anyblend/util/node.py:90-100 | a node that raises ends the node loop with the state so far |
| NodeUtil.NodesLoopStep | src/anyblend/util/node.py:90-100 | a node that passes moves the node loop on by one |
| NodeUtil.RedirectTreeNodes | src/anyblend/util/node.py:90-100 | the node loop over one material's tree computes the redirection of its nodes |
| NodeUtil.RedirectInMaterials | src/anyblend/util/node.py:85-101 | the material loop on the blend data computes the redirection of every material tree and the names collected |
| NodeUtil.RemoveCollected | src/anyblend/util/node.py:103-106 | the removal loop removes exactly the collected node groups |
| NodeUtil.MakeMaterialNodeGroupsUnique | src/anyblend/util/node.py:65-109 | the node trees after the call and its outcome are those of the function model, and the materials are unchanged |
| Align.CNode.constructor | src/anyblend/node/align.py:36-117 | a node with the given location, size and socket counts |
| Align.RightOfGap | src/anyblend/node/align.py:36-39 | the new node is on the original's row and starts exactly the spacing past its right edge |
| Align.LeftOfGap | src/anyblend/node/align.py:46-49 | the new node is on the original's row and ends exactly the spacing before its left edge |
| Align.AboveOfGap | src/anyblend/node/align.py:56-61 | the new node is in the original's column, with its inputs' room below it ending exactly the spacing above the original |
| Align.BelowOfGap | src/anyblend/node/align.py:68-73 | the new node is in the original's column, starting exactly the spacing below the original's bottom with its inputs' room |
| Align.RightLeftRoundTrip | src/anyblend/node/align.py:36-49 | placing a node to the right and then the original to its left puts the original back |
| Align.AboveBelowRoundTrip | src/anyblend/node/align.py:56-73 | placing a node above and then the original below it puts the original back |
| Align.SetNodePosToRightOf | src/anyblend/node/align.py:36-39 | only the new node's location is written, to the place right of the original |
| Align.SetNodePosToLeftOf | src/anyblend/node/align.py:46-49 | only the new node's location is written, to the place left of the original |
| Align.SetNodePosToAboveOf | src/anyblend/node/align.py:56-61 | only the new node's location is written, to the place above the original |
| Align.SetNodePosToBelowOf | src/anyblend/node/align.py:68-73 | only the new node's location is written, to the place below the original |
| Align.RelativeAtOrigin | src/anyblend/node/align.py:98-117 | aligning the top left corners puts the node at the origin node's location |
| Align.RelativeAxesIndependent | src/anyblend/node/align.py:98-117 | the aligned x depends only on x quantities, the aligned y only on y quantities and socket counts |
| Align.RelativeTranslates | src/anyblend/node/align.py:98-117 | moving the origin node moves the aligned location by the same offset |
| Align.Relative | src/anyblend/node/align.py:80-117 | an empty socket collection raises and changes nothing; otherwise only the aligned node's location is written, to the place the relative positions give |

## Left out

- Floating point: reals are exact. The SVD box construction, the polygon area heuristic, the camera-angle trigonometry, `sqrt` and normalisation are host functions or given values. The box radius is kept with its defining equation `radius^2 = sum size_i^2 / 4`.
- Tools.Round3: rounds a half upwards, where Python's `round` rounds a half to even; the two agree on every other value.
- Random draws (`random`, `np.random`) are finite oracle sequences. A loop that could draw forever in the source (`CreateRandomInstances`) returns `Err("random draws exhausted")` when the oracle runs out.
- Ray casts, `evaluated_get` and `GetMeshVex` are host results. The WORLD and LOCAL frames are one given vertex mapping.
- The NaN position that the source produces for a zero weight sum in `GetRandomPosOnPoly` is an `Err` in the point samplers.
- The `lObjectVertexIndices` generator of `cls_polygons.py` is not modelled; it is only a host iteration.
- Printing (`bPrintInfo`, `PrintUsedDevices`) and `save_userpref` are host I/O and are left out.
- Prefs.UseComputeDevices: the host is assumed to accept the value "NONE" for `compute_device_type`.
- `asset_placement.py`, `color.py`, the operator, node-creation and host-copy wrappers, collection removal, orphan purging, the transform code and file I/O are left out: they are host calls or transcendental numerics.
- Anim.CAnimHandlers.RegisterAnimHandler: reports the wrapped message, not the inner exception object.
- Anim.CAnimHandlers.RemoveAnimHandler: the handlers and finalizers of `anim/util.py` are opaque functions given as parameters; only whether a finalizer returns or raises is modelled.
- Error messages that print a list (the offset in `SpreadObjectsIn2D`, the location and rotation in `ImportObjectObj`) do not reproduce Python's list formatting.
- Tools.SpreadObjectsIn2D: the row dictionary keyed by collection name is modelled by row position. The title text's material, colour and font settings and `view_layer.update()` are left out.
- Objects.SelectDeltaAgrees: assumes the accumulated minimum is not above the maximum. That can fail: when every ray of an object misses, its pair stays at (1e20, -1e20), scaled by the target's transform. At exactly the starting pair the two choices still agree (Objects.SelectDeltaAgreesAllMiss: both give -1e20), but for other unordered pairs they can differ (Objects.SelectDeltaDisagreesUnordered: min 1, max -5 gives -5 as written and 1 as intended).
- Objects.GetObjectDeltaToMesh: uses the corrected CLOSEST choice (Objects.SelectDelta). Where the source raises UnboundLocalError, with min or max exactly 0, the model returns the zero delta instead of an error.
- RigidBody.CRigidBodyObjectPars.SetCollisionCollectionIndices: writes the mask in place, where the source binds a new list; no caller can tell the two apart.
- The node locations set by the Horner group (`node.location`), and the `Relative` calls that compute them, are left out of the polynomial model. So is `use_clamp`, since it does not change the evaluated value.
- Polynomial.OutputExpr: the evaluation of the group's graph carries a fuel bound. The lemmas give enough fuel (4n - 3) to reach the group input.
- Polynomial: the node-kind table is a premise (`MathKind`): the host's "ShaderNodeMath" must be a math node. That links in an existing group read from existing nodes (`Wired`) is also a premise, kept by every step of the model.
- Polynomial.ClearGroup: removes every node of a snapshot of the group's nodes, one at a time, each with the links into and out of it. Python's `remove` inside a loop over the live collection may skip nodes; the model gives every node its turn. The group's own Group Output mirroring is not modelled.
- ShaderReplace.ReplaceNodeType: group trees must be ranked (acyclic), since the source would recurse forever on a cyclic group, which the host forbids. `links.new` replacing an existing link into an input, and the order of links, are not modelled.
- ShaderUtils.Connect: appends the new link. Blender's `links.new` into an input that already has a link replaces that link; the model does not drop the old one. Within this model Connect is only called on the inputs of a math node just created, which have no link yet.
- SetDefault: the error message ends after the socket name. The source's message goes on with " to '<value>'", Python's formatting of the value, which the model does not reproduce.
- ParseType: upper-cases ASCII letters only (Strings.Upper); Python's `str.upper` also maps non-ASCII letters. Type names outside ASCII are not modelled.
- ParseShape: upper-cases ASCII letters only, as ParseType; a non-ASCII shape name is not modelled.
- ParseSource: upper-cases ASCII letters only, as ParseType; a non-ASCII source name is not modelled.
- RemoveGroups: deletes the collected node groups; Blender's `node_groups.remove` with `do_unlink` also sets the group of every remaining user to None, which is not modelled. NodeUtil.MakeUniqueKeepsMaterialsResolved proves no listed material tree is such a user after a successful call; group nodes nested inside other node groups may be.
- RemoveCollected: removes the node groups as RemoveGroups does, without the host's unlink of their remaining users.
- MakeUniqueRemovesCopies: states which node groups remain and that each keeps its tree; a remaining node group whose nodes used a removed copy would have those nodes unlinked by the host, which the model does not do.
- Anim.CAnimHandlers.ClearAnim: the snapshot `list(dicHandler.keys())` is in insertion order, which the map does not record; the order is the `keys` parameter.
- Anim.CAnimHandlers.RemoveWithPrefix: the snapshot of ids is in insertion order, which the map does not record; the order is the `keys` parameter.
- Anim.CAnimHandlers.RemoveAnimObject: the snapshot of ids is in insertion order, which the map does not record; the order is the `keys` parameter.
- Points: the two source quirks are modelled as they are. `len(xObstacles)` on None raises a TypeError, and an angle constraint without `lCamFov_deg` raises a TypeError when it subscripts None.
- Instances.CInstances.CreateRandomInstances: the default `_sName=None` is not modelled; `base` is a required string. With None, the source looks up None in `bpy.data.collections` and creates a collection named None, which depends on how the host treats a None key.
- `CInstances.AddCollectionElements` is not modelled: it only loops `AddObject` and `AddCollection` over a collection listing, and each of those is modelled.

## Findings

| source | as written | input that shows it | evidently intended | confidence | as-written member | corrected member |
|---|---|---|---|---|---|---|
| src/anyblend/object.py:679-697 | CLOSEST assigns the delta only when min < 0 < max, max < 0 or min > 0, so `return vDelta` fails with an unbound local when min or max is exactly 0 | mode CLOSEST with min 0 and max 1, an object resting on the target | the smaller-magnitude distance, 0 here | not executed | Objects.SelectDeltaAsWrittenFailsWhenTouching | Objects.SelectDelta |
| src/anyblend/anim/util.py:141-146 | without an animation dictionary, every id that starts with the object name is removed | removing the animations of "Cube" also removes the id "Cube.001/..." of another object | only the ids of the object itself, those starting with its name followed by '/' | not executed | Anim.PrefixReachesOtherObjects | Anim.CAnimHandlers.RemoveAnimObjectOwn |
