# Overlap-free ROI grouping and contour rasterisation, in Dafny

This project models the computational core of a radiotherapy DICOM viewer. The
core reads an RT structure set: named regions of interest (ROIs), each made of
closed planar contours in patient coordinates. From it the core produces two
things.

* **Overlap-free grouping** (`viewer/rtss_split_non_overlap.py`). The ROIs are
  loaded into `ROI` objects that bucket their polygons by quantised z level
  (`load_rois_from_rtss`, `ROI.add_polygon`). Two ROIs conflict when some
  polygons on a shared level overlap (`roi_intersect`). The conflicts form a
  symmetric graph (`build_conflict_graph`). The graph is coloured greedily with
  DSATUR (`dsatur_coloring`), and the colour classes become the groups
  (`split_into_sets`).
* **Slice masks** (`viewer/rtstruct.py`). The structure set is read into a map
  from ROI name to contour list (`parse_rtstruct`). Each contour is projected
  into the image volume's index space. It is filed under every distinct rounded
  slice index it touches and rasterised over its clipped integer bounding box
  (`polygon_to_mask`). The masks of one slice are OR-merged
  (`contours_to_slice_masks`).

Module layout, leaves first:

| file | module | models |
|---|---|---|
| `wrappers.dfy` | `Wrappers` | Option / Result |
| `sequences.dfy` | `Sequences` | distinctness, subsequences, first-occurrence order of dict keys |
| `graphs.dfy` | `Graphs` | the adjacency dict `name -> set of names` |
| `numerics.dfy` | `Numerics` | `round` / `np.round` (half to even), `np.ceil`, `np.mean`, `str(int)` |
| `records.dfy` | `Records` | the pydicom dataset as datatypes; `reshape(-1, 3)` |
| `roi.dfy` | `Roi` | the `ROI` class and `add_polygon` |
| `roi_loader.dfy` | `RoiLoader` | `load_rois_from_rtss` |
| `conflict_graph.dfy` | `ConflictGraph` | `roi_intersect`, `build_conflict_graph` |
| `dsatur.dfy` | `Dsatur`, `GreedyColoring`, `SplitSets` | `dsatur_coloring`, its properties, `split_into_sets` |
| `rtstruct.dfy` | `RtStruct`, `RtStructFacts` | `parse_rtstruct` and its properties |
| `slice_masks.dfy` | `SliceMasks` | `contours_to_slice_masks`, `polygon_to_mask` |

Each loop of the source is a method with loop invariants, except two that only
compute a value: the `roi_info` dict comprehension (the functions
`RoiLoader.DeclaredNumbers` and `RoiLoader.DeclaredNames`) and the ROI-name
filter loop (the function `RoiLoader.Materialised`). Each method is proved
equal to a specification function: for example `RoiLoader.LoadRois` against
`RoiLoader.Load`, and `SliceMasks.ContoursToSliceMasks` against
`SliceMasks.AllSliceMasks`. The properties are then proved as lemmas about
those functions.

Some conventions of the model:

* Floating point is modelled by exact `real`s.
* Python's `round` and `np.round` both round half to even (`Numerics.RoundHalfEven`).
* An exception that ends a call is the `Failure` of a `Result`.
* The ROI-name filter `None` is the empty set.
* The shapely calls are the function-valued fields of `Roi.GeometryOps`. A
  value of `None` from `intersectionArea` or `intersects` stands for a call
  that raised, which `roi_intersect` catches. A value of `None` from `bounds`
  stands only for the `AttributeError` that `roi_intersect` catches there.
* `patient_to_index` is the function field `SliceMasks.Volume.toIndex`.
  matplotlib's `Path.contains_points` is the `SliceMasks.PointInPolygon`
  parameter.

Behaviours of the code worth noting:

* Of the two top-level sequences, `load_rois_from_rtss` raises only when one
  is missing. An empty `StructureSetROISequence` is not an error: it gives an
  empty result, unless some group lacks `ReferencedROINumber`.
* `load_rois_from_rtss` also raises in four other cases, each a
  `RoiLoader.LoadError`:
  * a declaration without `ROIName` (`MissingRoiName`);
  * a group without `ReferencedROINumber` (`MissingReferencedRoiNumber`);
  * `z_tol == 0` once a contour of a kept ROI reshapes into triples (`ZeroTolerance`);
  * such a contour with no points (`UndefinedMeanZ`).

  `RoiLoader.LoadSucceeds` states exactly when none of these happens.
* The loader returns ROIs in `roi_info` order: the order in which each ROI
  number is first declared.
* In `parse_rtstruct`, a contour whose data length is not a multiple of 3 makes
  `reshape` raise, and that ends the parse (`RtStruct.ParseError`).
* `contours_to_slice_masks` keeps a slice key for every in-range slice that a
  contour targets. It does so even when the rasterised mask is all-false, for
  example for a contour with fewer than three points.
* A contour with no points ends `contours_to_slice_masks`: indexing `idxs[:, 2]`
  on a 1-D array raises. A contour with no points also ends
  `load_rois_from_rtss`, because the mean of an empty list is NaN and `round`
  raises on it.
* `add_polygon` counts points, not distinct points.

## Model

| member | source | states |
|---|---|---|
| `Roi.ROI.constructor` | viewer/rtss_split_non_overlap.py:14-18 | a new ROI keeps its number and name and has an empty `slices` dict |
| `Roi.ROI.AddPolygon` | viewer/rtss_split_non_overlap.py:20-34 | the new `slices` is `WithPolygon` of the old one: the effect that `Roi.AddPolygonEffect` characterises |
| `Roi.ClosedRing` | viewer/rtss_split_non_overlap.py:24-26 | a 3-point contour is closed by appending its first point; longer contours are used as given; the ring starts with the input points |
| `Roi.AddPolygonEffect` | viewer/rtss_split_non_overlap.py:20-34 | fewer than 3 points leaves `slices` unchanged; no level other than z changes, and no key other than z appears or disappears; level z gains exactly the polygon of the closed ring when shapely reports it valid with positive area, otherwise nothing changes; no level is ever left empty |
| `Records.Triples` | viewer/rtss_split_non_overlap.py:106 | `reshape(-1, 3)`: point i is the triple of data[3i], data[3i+1], data[3i+2], and there are length/3 points |
| `Records.TriplesFlatten` | viewer/rtstruct.py:30 | reshaping the flat list of a point list gives back the points |
| `Records.FlattenTriples` | viewer/rtstruct.py:30 | flattening the reshaped triples gives back the data |
| `Numerics.RoundHalfEven` | viewer/rtss_split_non_overlap.py:113 | the result is within 0.5 of x, and an exact tie goes to the even integer |
| `Numerics.RoundHalfEvenUnique` | viewer/rtss_split_non_overlap.py:113 | those two properties determine the rounding |
| `Numerics.MeanBounds` | viewer/rtss_split_non_overlap.py:112 | the mean of values in [lo, hi] lies in [lo, hi] |
| `Numerics.MeanConstant` | viewer/rtss_split_non_overlap.py:112 | the mean of a sequence whose values are all equal is that value |
| `Numerics.NearestMultiple` | viewer/rtss_split_non_overlap.py:113 | `round(z / z_tol) * z_tol` is the multiple of z_tol nearest to z: within half a step of it, and no multiple is closer |
| `Numerics.Ceil` | viewer/rtstruct.py:83 | `np.ceil`: the least integer not below x |
| `RoiLoader.DeclaredNumbers` | viewer/rtss_split_non_overlap.py:59-62 | `roi_info`'s keys hold each declared number exactly once and nothing else |
| `Sequences.DedupSubsequence` | viewer/rtss_split_non_overlap.py:59-62 | dict keys built from a sequence keep the order of their first occurrences: the deduplicated sequence is a subsequence of the input |
| `RoiLoader.DeclaredNames` | viewer/rtss_split_non_overlap.py:59-62 | `roi_info` has a name for exactly the declared numbers |
| `RoiLoader.DeclaredNamesValue` | viewer/rtss_split_non_overlap.py:59-62 | `roi_info[n]` is the ROIName of the last declaration of n: a later declaration overwrites an earlier one |
| `RoiLoader.MaterialisedSubsequence` | viewer/rtss_split_non_overlap.py:66-83 | ROI objects are created, in `roi_info` order, for exactly the declared numbers whose name passes the filter; an empty filter passes every name |
| `RoiLoader.ContourKey` | viewer/rtss_split_non_overlap.py:112-113 | a contour's bucket key is an integer multiple of z_tol, within \|z_tol\|/2 of the mean of its z values, and no multiple of z_tol is closer to that mean |
| `RoiLoader.ContourKeyOfPlanarContour` | viewer/rtss_split_non_overlap.py:112-113 | a contour lying on a grid plane k·z_tol is keyed by that plane |
| `RoiLoader.ApplyContour` | viewer/rtss_split_non_overlap.py:100-116 | one contour raises exactly when its data reshapes into triples but z_tol is 0 or there are no points |
| `RoiLoader.ApplyContoursFails` | viewer/rtss_split_non_overlap.py:100-116 | one group's contour loop raises exactly when one of its contours does |
| `RoiLoader.ApplyGroupsFails` | viewer/rtss_split_non_overlap.py:86-116 | the group loop raises exactly when some group has no ReferencedROINumber, or has an ROI object and a ContourSequence holding a contour that raises |
| `RoiLoader.ApplyContoursKeepsLevels` | viewer/rtss_split_non_overlap.py:100-116 | adding one group's contours never leaves an empty z level |
| `RoiLoader.ApplyGroupsKeys` | viewer/rtss_split_non_overlap.py:86-116 | the contour loop never adds or removes ROI objects |
| `RoiLoader.ApplyGroupsKeepsLevels` | viewer/rtss_split_non_overlap.py:86-116 | after the contour loop no ROI has an empty z level |
| `RoiLoader.ValidRoisMembers` | viewer/rtss_split_non_overlap.py:119 | every returned ROI has at least one z key and carries its own number, name and slices |
| `RoiLoader.ValidRoisComplete` | viewer/rtss_split_non_overlap.py:119 | every ROI object with a z key is returned |
| `RoiLoader.ValidRoisOrder` | viewer/rtss_split_non_overlap.py:119 | returned ROIs keep the dict's order |
| `RoiLoader.LoadedRois` | viewer/rtss_split_non_overlap.py:66-119 | a successful load returns only ROIs that passed the filter; each has a z key and no empty level, is named by the declaration of its number and holds the slices the contour loop built for it; they come in declaration order without repetition; every ROI object the loop left with a z key is returned |
| `RoiLoader.LoadSucceeds` | viewer/rtss_split_non_overlap.py:52-116 | the load succeeds exactly when both sequences are present, every declaration has a name, and no group raises (`NoFatalItem`); groups of unknown or filtered-out numbers, groups without ContourSequence, contours without ContourData and data that does not reshape into triples never abort it |
| `RoiLoader.Load` | viewer/rtss_split_non_overlap.py:40-121 | a successful load had both sequences and a name for every declaration, and every ROI it returns has a z key |
| `RoiLoader.NewRois` | viewer/rtss_split_non_overlap.py:73-83 | one fresh, empty ROI object per selected number, with its name, none shared |
| `RoiLoader.AddContour` | viewer/rtss_split_non_overlap.py:101-116 | one pass of the inner loop changes the ROI's slices as `ApplyContour` says, or reports the exception |
| `RoiLoader.AddContours` | viewer/rtss_split_non_overlap.py:100-116 | the inner contour loop leaves the ROI's slices as the contour-by-contour specification says, or reports the exception it raises |
| `RoiLoader.AddGroups` | viewer/rtss_split_non_overlap.py:86-116 | the loop over ROIContourSequence updates the ROI objects as `ApplyGroups` says, or reports the exception |
| `RoiLoader.NonEmptyRois` | viewer/rtss_split_non_overlap.py:119 | returns the ROI objects that have a z key, in dict order |
| `RoiLoader.LoadRois` | viewer/rtss_split_non_overlap.py:40-121 | fails without StructureSetROISequence or ROIContourSequence; otherwise returns exactly the ROIs, or the error, that `Load` specifies |
| `ConflictGraph.NoSharedLevelNoConflict` | viewer/rtss_split_non_overlap.py:128-130 | ROIs without a common z key never conflict, whatever their polygons |
| `ConflictGraph.SlicesConflict` | viewer/rtss_split_non_overlap.py:127-159 | two ROIs conflict only on a z key they share, where both have polygons |
| `ConflictGraph.RoiIntersect` | viewer/rtss_split_non_overlap.py:127-159 | True iff on some shared z, some polygon pair has bounds that overlap on both axes and a positive intersection area, or, when the area raised, `intersects` is true |
| `ConflictGraph.Connect` | viewer/rtss_split_non_overlap.py:172-173 | adding an edge puts b in a's set and a in b's set and changes nothing else |
| `ConflictGraph.ConnectRow` | viewer/rtss_split_non_overlap.py:169-173 | after row i of the double loop the graph holds exactly the conflicting pairs visited so far |
| `ConflictGraph.BuildConflictGraph` | viewer/rtss_split_non_overlap.py:165-175 | the graph is `ConflictMap`: every name is a key, mapped to the names it conflicts with; the key order is first occurrence |
| `ConflictGraph.ConflictMap` | viewer/rtss_split_non_overlap.py:165-175 | the keys are exactly the ROI names, and every neighbour is one of them |
| `ConflictGraph.ConflictMapSymmetric` | viewer/rtss_split_non_overlap.py:170-173 | `b ∈ graph[a]` iff `a ∈ graph[b]` |
| `ConflictGraph.ConflictMapKeys` | viewer/rtss_split_non_overlap.py:166 | every ROI name is a key; an ROI that conflicts with nothing maps to the empty set |
| `ConflictGraph.ConflictMapLoopless` | viewer/rtss_split_non_overlap.py:168-173 | with distinct names there are no self-loops |
| `ConflictGraph.ConflictMapEdges` | viewer/rtss_split_non_overlap.py:168-173 | with distinct names, the edge {i, j} for i < j exists iff `roi_intersect(rois[i], rois[j])` |
| `Dsatur.FirstFreeColor` | viewer/rtss_split_non_overlap.py:191-195 | the colour found is the least one not used by a coloured neighbour |
| `Dsatur.LeastFreeBound` | viewer/rtss_split_non_overlap.py:192-194 | the least free colour is at most the number of colours in use |
| `Dsatur.LeastFreeUnique` | viewer/rtss_split_non_overlap.py:192-194 | there is only one least free colour |
| `Dsatur.NeighborColorsCard` | viewer/rtss_split_non_overlap.py:199-200 | a vertex's saturation is at most its degree |
| `Dsatur.SelectVertex` | viewer/rtss_split_non_overlap.py:189 | the chosen vertex is uncoloured and no uncoloured vertex ranks above it by (saturation, degree); every uncoloured vertex before it in visiting order ranks strictly below it |
| `Dsatur.RefreshSaturation` | viewer/rtss_split_non_overlap.py:197-200 | recomputing only the uncoloured neighbours of the coloured vertex keeps every uncoloured saturation equal to the number of distinct colours among its coloured neighbours (in a symmetric graph) |
| `Dsatur.DsaturColoring` | viewer/rtss_split_non_overlap.py:181-204 | every vertex is coloured exactly once; each got the least colour its already-coloured neighbours did not have; in a symmetric graph each had maximal (saturation, degree) among the uncoloured vertices when chosen |
| `GreedyColoring.GreedyProper` | viewer/rtss_split_non_overlap.py:181-204 | adjacent vertices get different colours |
| `GreedyColoring.GreedyColorBound` | viewer/rtss_split_non_overlap.py:191-195 | no vertex's colour exceeds its degree |
| `GreedyColoring.GreedyDeterministic` | viewer/rtss_split_non_overlap.py:187-202 | the colouring is determined by the order in which vertices were taken |
| `SplitSets.SplitIntoSets` | viewer/rtss_split_non_overlap.py:210-214 | the keys are the colours in use; each set lists the names of that colour in iteration order |
| `SplitSets.GroupMembers` | viewer/rtss_split_non_overlap.py:212-213 | a name is in the group of c iff it was paired with c |
| `SplitSets.GroupSubsequence` | viewer/rtss_split_non_overlap.py:212-213 | each group lists its names in iteration order |
| `SplitSets.GroupNonEmpty` | viewer/rtss_split_non_overlap.py:210-214 | every colour in use has a non-empty group |
| `SplitSets.ColorClasses` | viewer/rtss_split_non_overlap.py:210-214 | every name is in the group of its own colour and no other, no group repeats a name, and for a proper colouring no group holds two adjacent names |
| `RtStruct.BuildNameMap` | viewer/rtstruct.py:21-22 | the loop builds `roi_name_map` as `NameMap` specifies |
| `RtStruct.ReadContours` | viewer/rtstruct.py:27-31 | the inner loop yields the group's contour list, or the reshape error |
| `RtStruct.FileGroups` | viewer/rtstruct.py:23-34 | the group loop yields the name-to-contours dict, or the reshape error |
| `RtStruct.ParseRtstruct` | viewer/rtstruct.py:13-34 | the parser returns what `Parse` specifies |
| `RtStruct.Parse` | viewer/rtstruct.py:13-34 | without ROIContourSequence the result is empty; every name in the result has a non-empty contour list |
| `RtStruct.ParseGroups` | viewer/rtstruct.py:23-33 | every name in the result has a non-empty contour list, and there are no more names than groups |
| `RtStruct.GroupName` | viewer/rtstruct.py:24-25 | a group is filed under a name from `roi_name_map` or under `ROI_<n>` |
| `RtStruct.GroupContours` | viewer/rtstruct.py:26-31 | a group yields at most one array per contour |
| `RtStructFacts.NameMapKeys` | viewer/rtstruct.py:21-22 | `roi_name_map` has an entry for exactly the declared numbers |
| `RtStructFacts.NameMapValue` | viewer/rtstruct.py:21-22 | a declared number maps to the name of its last declaration |
| `RtStructFacts.GroupNameUndeclared` | viewer/rtstruct.py:24-25 | a group whose number (-1 when it has none) was never declared is filed under `ROI_<n>` |
| `RtStructFacts.GroupNameDeclared` | viewer/rtstruct.py:21-25 | a declared number is filed under the ROIName of its last declaration, or `ROI_<n>` when that has none |
| `RtStructFacts.FallbackNamesDistinct` | viewer/rtstruct.py:25 | different numbers get different fallback names |
| `RtStructFacts.GroupContoursFails` | viewer/rtstruct.py:30 | a group's contour list fails exactly when some ContourData length is not a multiple of 3 |
| `RtStructFacts.GroupContoursKept` | viewer/rtstruct.py:26-31 | when the group does not fail, its list holds, in order, the reshaped data of exactly the contours that have ContourData (the k-th array comes from the k-th such contour); so it is empty exactly when no contour has data |
| `RtStructFacts.ParseGroupsFails` | viewer/rtstruct.py:23-34 | parsing fails exactly when some group has a contour that does not reshape |
| `RtStructFacts.ParseGroupsKeys` | viewer/rtstruct.py:32-33 | a name is a key exactly when some group files a non-empty contour list under it |
| `RtStructFacts.ParseGroupsValue` | viewer/rtstruct.py:32-33 | the entry holds the list of the last group filing under that name: a later group replaces an earlier one |
| `SliceMasks.MinOf` | viewer/rtstruct.py:82-85 | `min()` is a vertex coordinate and no vertex is below it |
| `SliceMasks.MaxOf` | viewer/rtstruct.py:82-85 | `max()` is a vertex coordinate and no vertex is above it |
| `SliceMasks.ClippedBox` | viewer/rtstruct.py:79-90 | a box exists only for a polygon of at least 3 vertices, and it is non-empty and inside the mask |
| `SliceMasks.PolygonMask` | viewer/rtstruct.py:73-100 | the mask has the shape `rows × cols` |
| `SliceMasks.ClippedBoxPixels` | viewer/rtstruct.py:79-90 | a pixel is in the clipped box iff the polygon has at least 3 vertices, the pixel is inside the mask, and some vertex has x < col + 1, some x > col - 1, some y < row + 1 and some y > row - 1: exactly the pixels between the floor of the minimum and the ceiling of the maximum on each axis |
| `SliceMasks.DegeneratePolygonMask` | viewer/rtstruct.py:79-80 | fewer than 3 vertices give an all-false mask |
| `SliceMasks.PolygonToMask` | viewer/rtstruct.py:73-100 | the mask is `rows × cols`; a pixel is true iff it lies in the clipped box and the point-in-polygon test holds at (x = column, y = row); pixels outside the box are false |
| `SliceMasks.UnionMasks` | viewer/rtstruct.py:66 | `a \| b` is the pixelwise OR |
| `SliceMasks.RoundedSlices` | viewer/rtstruct.py:55-57 | a contour with points touches at least one slice, and every slice it touches is within 0.5 of some point's z index |
| `SliceMasks.RoiMasks` | viewer/rtstruct.py:49-69 | every mask of a `per_slice` dict has the image's shape and every key is a slice of the volume |
| `SliceMasks.AllSliceMasks` | viewer/rtstruct.py:37-70 | the result has one entry per ROI name; every key is a slice of the volume and every mask has the image's shape |
| `SliceMasks.OrInto` | viewer/rtstruct.py:65-68 | only slice k changes: it becomes the OR of its old mask and the new one, or the new one |
| `SliceMasks.AddToSlice` | viewer/rtstruct.py:61-68 | rasterising the contour and merging it into slice k extends the merge by k |
| `SliceMasks.AddContour` | viewer/rtstruct.py:55-68 | a contour is OR-merged into exactly its in-range rounded slice indices |
| `SliceMasks.RoiSliceMasks` | viewer/rtstruct.py:49-69 | one ROI's `per_slice` dict is `RoiMasks`, or the empty-contour error |
| `SliceMasks.ContoursToSliceMasks` | viewer/rtstruct.py:37-70 | every ROI name is a key, each mapped to its `per_slice` dict; the call fails iff some ROI's rasterisation fails |
| `SliceMasks.RoiMasksFails` | viewer/rtstruct.py:52-55 | one ROI's rasterisation fails exactly when one of its contours has no points |
| `SliceMasks.RoiMasksKeys` | viewer/rtstruct.py:55-60 | the slice keys are exactly the in-range rounded z indices of the contours' points, all in `[0, zcount)`, kept even when the merged mask is all-false |
| `SliceMasks.RoiMasksPixel` | viewer/rtstruct.py:64-68 | a pixel of slice k is true iff it is true in the mask of some contour that targets k |
| `SliceMasks.AllSliceMasksResult` | viewer/rtstruct.py:48-69 | the call fails exactly when some ROI has an empty contour; otherwise the keys are exactly the input's ROI names |
| `SliceMasks.NoSliceInRange` | viewer/rtstruct.py:57-60 | an ROI whose points all round to slices out of range gets an empty `per_slice` dict |

## Left out

- File access: `os.path.exists` and the FileNotFoundError it leads to, `pydicom.dcmread` and its errors. The parsers receive the dataset as a `Records.StructureSet` value.
- Logging: the `print` warnings and progress messages.
- `save_results` and `main`: report writing, printing and command-line parsing.
- `viewer/utils.py` (`patient_to_index`, `indices_to_patient`): float matrix algebra. The projection is a given function. A singular direction matrix, which makes `np.linalg.inv` raise, is not modelled.
- Shapely (`Polygon`, `is_valid`, `area`, `bounds`, `intersection`, `intersects`) and matplotlib's point-in-polygon test: foreign geometry, modelled as given functions. `add_polygon` treats a shapely exception like a rejected polygon, since both append nothing.
- ConflictGraph.RoiIntersect: an exception other than `AttributeError` from `bounds` propagates out of `roi_intersect` and `build_conflict_graph` in the source. The model has no such failure: `bounds` either returns a box or `None`, the caught `AttributeError`, and the pair is then skipped.
- Floating point: reals are exact, so rounding error and NaN are not modelled. The one NaN the loader meets, the mean of an empty contour, is the `UndefinedMeanZ` error.
- Attributes the code reads without a fallback are always present in the model: `ROINumber` in both parsers, and `int(...)` conversions of it. The fallback name `f'ROI_{roi.ROINumber}'` in `parse_rtstruct` formats pydicom's integer-string element, whose text can differ from the integer's decimal form (for example "05"). The model formats the integer (`Numerics.DecimalString`). A missing `ROIName` or `ReferencedROINumber` in `load_rois_from_rtss` is modelled (`MissingRoiName`, `MissingReferencedRoiNumber`).
- Iteration orders that do not affect results: the order of shared z levels in `roi_intersect`, of `ks` in `contours_to_slice_masks`, and of names in its result dict; and the key order of the dict `split_into_sets` returns (the order in which colours first appear), since `SplitSets.SplitIntoSets` returns a map. Only `save_results`, which is not modelled, reads that order.
- Dsatur.SelectVertex: the tie-break among vertices of equal (saturation, degree) is not the source's. `max` over the set `uncolored` visits it in hash order. The model visits vertices in the graph's key order `names` and takes the first maximal one, as `max` does with the order it visits. `Dsatur.DsaturColoring`'s contract uses only maximality, so it holds whichever maximal vertex is taken.
- Dsatur.DsaturColoring: the maximal-(saturation, degree) choice is proved only for symmetric graphs, which are the graphs `build_conflict_graph` produces. In an asymmetric graph the saturation bookkeeping of the source does not track saturation.
- The viewer modules (`dicom_io.py`, `image_view.py`, `app_mainwindow.py`, `rtss_split_dialog.py`, `rtss_split_gui.py`) and `main.py`: UI, volume loading and threading.
