/**
 * `contours_to_slice_masks` and `polygon_to_mask`: every contour of an ROI is
 * projected into the volume's index space, filed under each distinct rounded
 * slice index its points fall on, and rasterised over its clipped integer
 * bounding box; the masks of one slice are merged by logical OR.
 *
 * `patient_to_index` (with the volume's origin, spacing and direction fixed)
 * and matplotlib's `Path.contains_points` are foreign computations and are
 * supplied as functions. A mask is a `rows x cols` array; its value is the
 * sequence of its rows.
 */
module SliceMasks {
  import opened Wrappers
  import opened Numerics
  import opened Records
  import opened RtStruct
  import Sequences

  /** The volume the contours are rasterised against: `volume_shape` and the index projection. */
  datatype Volume = Volume(toIndex: Point3 -> Point3, zcount: nat, ysize: nat, xsize: nat)

  /** `Path(poly).contains_points([(x, y)])` for one integer pixel. */
  type PointInPolygon = (seq<Point2>, int, int) -> bool

  /** The exception the rasteriser raises: `idxs[:, 2]` of an empty contour (a 1-D array). */
  datatype RasterError = EmptyContour

  /** A mask as a value: its rows, each a sequence of columns. */
  type Mask = seq<seq<bool>>

  predicate Shaped(m: Mask, rows: nat, cols: nat)
  {
    |m| == rows && forall r :: 0 <= r < rows ==> |m[r]| == cols
  }

  /** Two masks of the same shape are equal when they agree on every pixel. */
  lemma MaskExt(a: Mask, b: Mask, rows: nat, cols: nat)
    requires Shaped(a, rows, cols) && Shaped(b, rows, cols)
    requires forall r, c :: 0 <= r < rows && 0 <= c < cols ==> a[r][c] == b[r][c]
    ensures a == b
  {
    forall r | 0 <= r < rows
      ensures a[r] == b[r]
    {
    }
  }

  /* ---------- polygon_to_mask ---------- */

  function MinOf(s: seq<real>): (m: real)
    requires |s| > 0
    ensures m in s
    ensures forall i :: 0 <= i < |s| ==> m <= s[i]
  {
    if |s| == 1 then s[0]
    else
      var rest := MinOf(s[..|s| - 1]);
      if s[|s| - 1] < rest then s[|s| - 1] else rest
  }

  function MaxOf(s: seq<real>): (m: real)
    requires |s| > 0
    ensures m in s
    ensures forall i :: 0 <= i < |s| ==> s[i] <= m
  {
    if |s| == 1 then s[0]
    else
      var rest := MaxOf(s[..|s| - 1]);
      if s[|s| - 1] > rest then s[|s| - 1] else rest
  }

  /** `poly_xy[:, 0]` */
  function Xs(poly: seq<Point2>): (xs: seq<real>)
    ensures |xs| == |poly| && forall i :: 0 <= i < |poly| ==> xs[i] == poly[i].x
  {
    seq(|poly|, i requires 0 <= i < |poly| => poly[i].x)
  }

  /** `poly_xy[:, 1]` */
  function Ys(poly: seq<Point2>): (ys: seq<real>)
    ensures |ys| == |poly| && forall i :: 0 <= i < |poly| ==> ys[i] == poly[i].y
  {
    seq(|poly|, i requires 0 <= i < |poly| => poly[i].y)
  }

  function IntMax(a: int, b: int): int { if a >= b then a else b }

  function IntMin(a: int, b: int): int { if a <= b then a else b }

  /** The pixels `polygon_to_mask` tests: columns minCol..maxCol, rows minRow..maxRow, all bounds inclusive. */
  datatype PixelBox = PixelBox(minCol: int, maxCol: int, minRow: int, maxRow: int)

  /**
   * The integer bounding box (floor of the minimum, ceiling of the maximum)
   * clipped to the mask; None when the polygon has fewer than three vertices
   * or the clipped box is empty.
   */
  function ClippedBox(poly: seq<Point2>, rows: nat, cols: nat): (box: Option<PixelBox>)
    ensures box.Some? ==> |poly| >= 3
    ensures box.Some? ==> 0 <= box.value.minCol <= box.value.maxCol < cols && 0 <= box.value.minRow <= box.value.maxRow < rows
  {
    if |poly| < 3 then None
    else
      var minx := IntMax(MinOf(Xs(poly)).Floor, 0);
      var maxx := IntMin(Ceil(MaxOf(Xs(poly))), cols - 1);
      var miny := IntMax(MinOf(Ys(poly)).Floor, 0);
      var maxy := IntMin(Ceil(MaxOf(Ys(poly))), rows - 1);
      if minx > maxx || miny > maxy then None else Some(PixelBox(minx, maxx, miny, maxy))
  }

  predicate InBox(box: Option<PixelBox>, row: int, col: int)
  {
    box.Some? && box.value.minRow <= row <= box.value.maxRow && box.value.minCol <= col <= box.value.maxCol
  }

  /** The value of `polygon_to_mask(poly_xy, (rows, cols))`. */
  function PolygonMask(poly: seq<Point2>, rows: nat, cols: nat, inside: PointInPolygon): (m: Mask)
    ensures Shaped(m, rows, cols)
  {
    var box := ClippedBox(poly, rows, cols);
    seq(rows, r => seq(cols, c => InBox(box, r, c) && inside(poly, c, r)))
  }

  lemma FloorAtMost(x: real, c: int)
    ensures x.Floor <= c <==> x < c as real + 1.0
  {
  }

  lemma CeilAtLeast(x: real, c: int)
    ensures c <= Ceil(x) <==> c as real - 1.0 < x
  {
  }

  /**
   * Which pixels the clipped box holds, stated on the vertices: pixel (row,
   * col) of a polygon with at least three vertices is tested exactly when it
   * lies in the mask and within distance less than one of the polygon's
   * extent on both axes (some vertex has x < col + 1 and some x > col - 1, and
   * likewise for y and row).
   */
  lemma ClippedBoxPixels(poly: seq<Point2>, rows: nat, cols: nat, row: int, col: int)
    ensures InBox(ClippedBox(poly, rows, cols), row, col) <==>
      && |poly| >= 3 && 0 <= row < rows && 0 <= col < cols
      && (exists i :: 0 <= i < |poly| && poly[i].x < col as real + 1.0)
      && (exists i :: 0 <= i < |poly| && poly[i].x > col as real - 1.0)
      && (exists i :: 0 <= i < |poly| && poly[i].y < row as real + 1.0)
      && (exists i :: 0 <= i < |poly| && poly[i].y > row as real - 1.0)
  {
    if |poly| >= 3 {
      var xs, ys := Xs(poly), Ys(poly);
      var lx, hx, ly, hy := MinOf(xs), MaxOf(xs), MinOf(ys), MaxOf(ys);
      FloorAtMost(lx, col);
      FloorAtMost(ly, row);
      CeilAtLeast(hx, col);
      CeilAtLeast(hy, row);
      assert (exists i :: 0 <= i < |poly| && poly[i].x < col as real + 1.0) <==> lx < col as real + 1.0 by {
        var i :| 0 <= i < |xs| && xs[i] == lx;
      }
      assert (exists i :: 0 <= i < |poly| && poly[i].x > col as real - 1.0) <==> hx > col as real - 1.0 by {
        var i :| 0 <= i < |xs| && xs[i] == hx;
      }
      assert (exists i :: 0 <= i < |poly| && poly[i].y < row as real + 1.0) <==> ly < row as real + 1.0 by {
        var i :| 0 <= i < |ys| && ys[i] == ly;
      }
      assert (exists i :: 0 <= i < |poly| && poly[i].y > row as real - 1.0) <==> hy > row as real - 1.0 by {
        var i :| 0 <= i < |ys| && ys[i] == hy;
      }
    }
  }

  /** `np.zeros((rows, cols), dtype=bool)` is what a polygon with fewer than three vertices yields. */
  lemma DegeneratePolygonMask(poly: seq<Point2>, rows: nat, cols: nat, inside: PointInPolygon)
    requires |poly| < 3
    ensures forall r, c :: 0 <= r < rows && 0 <= c < cols ==> !PolygonMask(poly, rows, cols, inside)[r][c]
  {
    forall r, c | 0 <= r < rows && 0 <= c < cols
      ensures !PolygonMask(poly, rows, cols, inside)[r][c]
    {
      assert !InBox(ClippedBox(poly, rows, cols), r, c);
    }
  }

  /** `polygon_to_mask(poly_xy, (rows, cols))`: a zero mask whose clipped bounding box is filled in place. */
  method PolygonToMask(poly: seq<Point2>, rows: nat, cols: nat, inside: PointInPolygon) returns (mask: array2<bool>)
    ensures mask.Length0 == rows && mask.Length1 == cols
    ensures forall r, c :: 0 <= r < rows && 0 <= c < cols ==>
      mask[r, c] == (InBox(ClippedBox(poly, rows, cols), r, c) && inside(poly, c, r))
  {
    mask := new bool[rows, cols]((r, c) => false);
    if |poly| < 3 {
      return;
    }
    var minx := MinOf(Xs(poly)).Floor;
    var maxx := Ceil(MaxOf(Xs(poly)));
    var miny := MinOf(Ys(poly)).Floor;
    var maxy := Ceil(MaxOf(Ys(poly)));
    minx, maxx := IntMax(minx, 0), IntMin(maxx, cols - 1);
    miny, maxy := IntMax(miny, 0), IntMin(maxy, rows - 1);
    if minx > maxx || miny > maxy {
      return;
    }
    assert ClippedBox(poly, rows, cols) == Some(PixelBox(minx, maxx, miny, maxy));
    var y := miny;
    while y <= maxy
      invariant miny <= y <= maxy + 1
      invariant forall r, c :: 0 <= r < rows && 0 <= c < cols ==>
        mask[r, c] == (miny <= r < y && minx <= c <= maxx && inside(poly, c, r))
    {
      FillRow(mask, y, minx, maxx, poly, inside);
      y := y + 1;
    }
  }

  /** One row of the box assignment `mask[ys[:, None], xs[None, :]] = ...`: columns minx..maxx of row y. */
  method FillRow(mask: array2<bool>, y: int, minx: int, maxx: int, poly: seq<Point2>, inside: PointInPolygon)
    requires 0 <= y < mask.Length0 && 0 <= minx <= maxx < mask.Length1
    modifies mask
    ensures forall r, c :: 0 <= r < mask.Length0 && 0 <= c < mask.Length1 ==>
      mask[r, c] == if r == y && minx <= c <= maxx then inside(poly, c, r) else old(mask[r, c])
  {
    var x := minx;
    while x <= maxx
      invariant minx <= x <= maxx + 1
      invariant forall r, c :: 0 <= r < mask.Length0 && 0 <= c < mask.Length1 ==>
        mask[r, c] == if r == y && minx <= c < x then inside(poly, c, r) else old(mask[r, c])
    {
      mask[y, x] := inside(poly, x, y);
      x := x + 1;
    }
  }

  /* ---------- contours_to_slice_masks ---------- */

  /** The value of a mask array. */
  function MaskValue(m: array2<bool>): (v: Mask)
    reads m
    ensures Shaped(v, m.Length0, m.Length1)
    ensures forall r, c :: 0 <= r < m.Length0 && 0 <= c < m.Length1 ==> v[r][c] == m[r, c]
  {
    seq(m.Length0, r reads m requires 0 <= r < m.Length0 =>
      seq(m.Length1, c reads m requires 0 <= c < m.Length1 => m[r, c]))
  }

  /** The values of a `per_slice` dict. */
  function MaskValues(ps: map<int, array2<bool>>): (vs: map<int, Mask>)
    reads ps.Values
    ensures vs.Keys == ps.Keys
    ensures forall k :: k in ps ==> vs[k] == MaskValue(ps[k])
  {
    map k | k in ps :: MaskValue(ps[k])
  }

  /** Every array of a `per_slice` dict is `rows x cols`. */
  predicate AllShaped(ps: map<int, array2<bool>>, rows: nat, cols: nat)
  {
    forall k :: k in ps ==> ps[k].Length0 == rows && ps[k].Length1 == cols
  }

  /** `per_slice[k] | mask` */
  function Union(a: Mask, b: Mask, rows: nat, cols: nat): (m: Mask)
    requires Shaped(a, rows, cols) && Shaped(b, rows, cols)
    ensures Shaped(m, rows, cols)
    ensures forall r, c :: 0 <= r < rows && 0 <= c < cols ==> (m[r][c] <==> a[r][c] || b[r][c])
  {
    seq(rows, r requires 0 <= r < rows => seq(cols, c requires 0 <= c < cols => a[r][c] || b[r][c]))
  }

  /** `[patient_to_index(pt, origin, spacing, direction) for pt in contour]` */
  function Project(vol: Volume, contour: ContourPoints): (idxs: seq<Point3>)
    ensures |idxs| == |contour| && forall i :: 0 <= i < |contour| ==> idxs[i] == vol.toIndex(contour[i])
  {
    seq(|contour|, i requires 0 <= i < |contour| => vol.toIndex(contour[i]))
  }

  /** `np.unique(np.round(idxs[:, 2]).astype(int))`, as a set. */
  function RoundedSlices(idxs: seq<Point3>): (ks: set<int>)
    ensures |idxs| > 0 <==> ks != {}
    ensures forall k :: k in ks ==> exists i :: 0 <= i < |idxs| && idxs[i].z - 0.5 <= k as real <= idxs[i].z + 0.5
  {
    var ks := set i | 0 <= i < |idxs| :: RoundHalfEven(idxs[i].z);
    assert |idxs| > 0 ==> RoundHalfEven(idxs[0].z) in ks;
    ks
  }

  /** The slices a contour is rasterised on: its rounded slice indices within `[0, zcount)`. */
  function Targets(idxs: seq<Point3>, zcount: nat): (ks: set<int>)
    ensures forall k :: k in ks ==> 0 <= k < zcount
  {
    InRange(RoundedSlices(idxs), zcount)
  }

  /** The slice indices of ks that the `k < 0 or k >= zcount` test keeps. */
  function InRange(ks: set<int>, zcount: nat): set<int>
  {
    set k | k in ks && 0 <= k < zcount
  }

  /** The mask of one projected contour: `polygon_to_mask(idxs[:, :2], (ysize, xsize))`. */
  function ContourMask(vol: Volume, idxs: seq<Point3>, inside: PointInPolygon): (m: Mask)
    ensures Shaped(m, vol.ysize, vol.xsize)
  {
    PolygonMask(PlanarPart(idxs), vol.ysize, vol.xsize, inside)
  }

  /** `per_slice` after OR-ing mask m into every slice of ks. */
  function Merge(acc: map<int, Mask>, ks: set<int>, m: Mask, rows: nat, cols: nat): (r: map<int, Mask>)
    requires forall k :: k in acc ==> Shaped(acc[k], rows, cols)
    requires Shaped(m, rows, cols)
    ensures forall k :: k in r ==> Shaped(r[k], rows, cols)
  {
    map k | k in acc.Keys + ks :: if k !in ks then acc[k] else if k in acc then Union(acc[k], m, rows, cols) else m
  }

  /** The `per_slice` dict built from one ROI's contours, or the exception an empty contour raises. */
  function RoiMasks(vol: Volume, contours: seq<ContourPoints>, inside: PointInPolygon): (res: Result<map<int, Mask>, RasterError>)
    ensures res.Success? ==> forall k :: k in res.value ==> Shaped(res.value[k], vol.ysize, vol.xsize)
    ensures res.Success? ==> forall k :: k in res.value ==> 0 <= k < vol.zcount
  {
    if |contours| == 0 then Success(map[])
    else
      match RoiMasks(vol, contours[..|contours| - 1], inside)
      case Failure(e) => Failure(e)
      case Success(acc) =>
        var contour := contours[|contours| - 1];
        if |contour| == 0 then Failure(EmptyContour)
        else
          var idxs := Project(vol, contour);
          Success(Merge(acc, Targets(idxs, vol.zcount), ContourMask(vol, idxs, inside), vol.ysize, vol.xsize))
  }

  /** What `contours_to_slice_masks` returns: one `per_slice` dict per ROI name, or the exception. */
  function AllSliceMasks(rois: RoiContours, vol: Volume, inside: PointInPolygon): (res: Result<map<string, map<int, Mask>>, RasterError>)
    ensures res.Success? ==> res.value.Keys == rois.Keys
    ensures res.Success? ==> forall name, k :: name in res.value && k in res.value[name] ==>
      0 <= k < vol.zcount && Shaped(res.value[name][k], vol.ysize, vol.xsize)
  {
    if exists name :: name in rois && RoiMasks(vol, rois[name], inside).Failure? then Failure(EmptyContour)
    else Success(map name | name in rois :: RoiMasks(vol, rois[name], inside).value)
  }

  /** `per_slice[k] | mask`: a new array holding the pixelwise OR. */
  method UnionMasks(a: array2<bool>, b: array2<bool>) returns (m: array2<bool>)
    requires a.Length0 == b.Length0 && a.Length1 == b.Length1
    ensures m.Length0 == a.Length0 && m.Length1 == a.Length1
    ensures forall r, c :: 0 <= r < a.Length0 && 0 <= c < a.Length1 ==> m[r, c] == (a[r, c] || b[r, c])
  {
    m := new bool[a.Length0, a.Length1]((r, c) reads a, b requires 0 <= r < a.Length0 && 0 <= c < a.Length1 =>
      a[r, c] || b[r, c]);
  }

  lemma MergeStep(acc: map<int, Mask>, done: set<int>, k: int, m: Mask, rows: nat, cols: nat)
    requires forall j :: j in acc ==> Shaped(acc[j], rows, cols)
    requires Shaped(m, rows, cols) && k !in done
    ensures Merge(acc, done + {k}, m, rows, cols) ==
      var cur := Merge(acc, done, m, rows, cols);
      cur[k := if k in cur then Union(cur[k], m, rows, cols) else m]
  {
  }

  /**
   * `if k in per_slice: per_slice[k] = per_slice[k] | mask else: per_slice[k] = mask`:
   * only slice k changes, and it becomes the OR of its old mask and the new one.
   */
  method OrInto(perSlice: map<int, array2<bool>>, k: int, mask: array2<bool>, rows: nat, cols: nat)
    returns (merged: map<int, array2<bool>>)
    requires AllShaped(perSlice, rows, cols)
    requires mask.Length0 == rows && mask.Length1 == cols
    ensures AllShaped(merged, rows, cols)
    ensures MaskValues(merged) == MaskValues(perSlice)[k :=
      if k in perSlice then Union(MaskValue(perSlice[k]), MaskValue(mask), rows, cols) else MaskValue(mask)]
  {
    if k in perSlice {
      var u := UnionMasks(perSlice[k], mask);
      MaskExt(MaskValue(u), Union(MaskValue(perSlice[k]), MaskValue(mask), rows, cols), rows, cols);
      merged := perSlice[k := u];
    } else {
      merged := perSlice[k := mask];
    }
    assert MaskValues(merged) == MaskValues(perSlice)[k := MaskValue(merged[k])];
  }

  /** Taking k out of the pending slice indices adds it to the processed in-range ones when it is in range. */
  lemma InRangeStep(ks: set<int>, pending: set<int>, k: int, zcount: nat)
    requires k in pending && pending <= ks
    ensures InRange(ks - (pending - {k}), zcount) ==
      InRange(ks - pending, zcount) + (if 0 <= k < zcount then {k} else {})
  {
  }

  /** Merging into no slice changes nothing. */
  lemma MergeNone(acc: map<int, Mask>, m: Mask, rows: nat, cols: nat)
    requires forall j :: j in acc ==> Shaped(acc[j], rows, cols)
    requires Shaped(m, rows, cols)
    ensures Merge(acc, {}, m, rows, cols) == acc
  {
  }

  /** The body of the `for k in ks` loop for an in-range k: rasterise the contour and OR it into slice k. */
  method AddToSlice(perSlice: map<int, array2<bool>>, k: int, vol: Volume, idxs: seq<Point3>, inside: PointInPolygon,
                    ghost start: map<int, Mask>, ghost done: set<int>)
    returns (merged: map<int, array2<bool>>)
    requires AllShaped(perSlice, vol.ysize, vol.xsize)
    requires forall j :: j in start ==> Shaped(start[j], vol.ysize, vol.xsize)
    requires k !in done
    requires MaskValues(perSlice) == Merge(start, done, ContourMask(vol, idxs, inside), vol.ysize, vol.xsize)
    ensures AllShaped(merged, vol.ysize, vol.xsize)
    ensures MaskValues(merged) == Merge(start, done + {k}, ContourMask(vol, idxs, inside), vol.ysize, vol.xsize)
  {
    var rows, cols := vol.ysize, vol.xsize;
    ghost var cm := ContourMask(vol, idxs, inside);
    var mask := PolygonToMask(PlanarPart(idxs), rows, cols, inside);
    MaskExt(MaskValue(mask), cm, rows, cols);
    merged := OrInto(perSlice, k, mask, rows, cols);
    MergeStep(start, done, k, cm, rows, cols);
  }

  /** One iteration of the `for k in ks` loop: an out-of-range k is skipped, an in-range one merged. */
  method AddPendingSlice(perSlice: map<int, array2<bool>>, ks: set<int>, pending: set<int>, k: int,
                         vol: Volume, idxs: seq<Point3>, inside: PointInPolygon, ghost start: map<int, Mask>)
    returns (merged: map<int, array2<bool>>)
    requires k in pending && pending <= ks
    requires AllShaped(perSlice, vol.ysize, vol.xsize)
    requires forall j :: j in start ==> Shaped(start[j], vol.ysize, vol.xsize)
    requires MaskValues(perSlice) ==
      Merge(start, InRange(ks - pending, vol.zcount), ContourMask(vol, idxs, inside), vol.ysize, vol.xsize)
    ensures AllShaped(merged, vol.ysize, vol.xsize)
    ensures MaskValues(merged) ==
      Merge(start, InRange(ks - (pending - {k}), vol.zcount), ContourMask(vol, idxs, inside), vol.ysize, vol.xsize)
  {
    InRangeStep(ks, pending, k, vol.zcount);
    merged := perSlice;
    if 0 <= k < vol.zcount {
      merged := AddToSlice(perSlice, k, vol, idxs, inside, start, InRange(ks - pending, vol.zcount));
    }
  }

  /**
   * The `for k in ks` loop of one contour: for every rounded slice index in
   * range, rasterise the contour and OR it into `per_slice[k]`, or store it
   * when the slice has no mask yet.
   */
  method AddContour(perSlice: map<int, array2<bool>>, vol: Volume, idxs: seq<Point3>, inside: PointInPolygon)
    returns (merged: map<int, array2<bool>>)
    requires AllShaped(perSlice, vol.ysize, vol.xsize)
    ensures AllShaped(merged, vol.ysize, vol.xsize)
    ensures MaskValues(merged) ==
      Merge(MaskValues(perSlice), Targets(idxs, vol.zcount), ContourMask(vol, idxs, inside), vol.ysize, vol.xsize)
  {
    ghost var start := MaskValues(perSlice);
    ghost var cm := ContourMask(vol, idxs, inside);
    merged := perSlice;
    var ks := RoundedSlices(idxs);
    var pending := ks;
    MergeNone(start, cm, vol.ysize, vol.xsize);
    assert InRange(ks - pending, vol.zcount) == {};
    while pending != {}
      invariant pending <= ks
      invariant AllShaped(merged, vol.ysize, vol.xsize)
      invariant MaskValues(merged) == Merge(start, InRange(ks - pending, vol.zcount), cm, vol.ysize, vol.xsize)
      decreases pending
    {
      ghost var some := Sequences.Pick(pending);
      var k :| k in pending;
      merged := AddPendingSlice(merged, ks, pending, k, vol, idxs, inside, start);
      pending := pending - {k};
    }
    assert ks - pending == ks;
    assert InRange(ks - pending, vol.zcount) == Targets(idxs, vol.zcount);
  }

  lemma {:induction false} RoiMasksFailureStays(vol: Volume, contours: seq<ContourPoints>, i: nat, inside: PointInPolygon)
    requires i <= |contours| && RoiMasks(vol, contours[..i], inside).Failure?
    ensures RoiMasks(vol, contours, inside).Failure?
    decreases |contours| - i
  {
    if i < |contours| {
      assert contours[..i + 1][..i] == contours[..i];
      RoiMasksFailureStays(vol, contours, i + 1, inside);
    } else {
      assert contours[..i] == contours;
    }
  }

  /** The `for contour in contours` loop of one ROI: its `per_slice` dict. */
  method RoiSliceMasks(vol: Volume, contours: seq<ContourPoints>, inside: PointInPolygon)
    returns (res: Result<map<int, array2<bool>>, RasterError>)
    ensures res.Success? <==> RoiMasks(vol, contours, inside).Success?
    ensures res.Success? ==> AllShaped(res.value, vol.ysize, vol.xsize)
    ensures res.Success? ==> MaskValues(res.value) == RoiMasks(vol, contours, inside).value
  {
    var perSlice: map<int, array2<bool>> := map[];
    for i := 0 to |contours|
      invariant AllShaped(perSlice, vol.ysize, vol.xsize)
      invariant RoiMasks(vol, contours[..i], inside) == Success(MaskValues(perSlice))
    {
      var contour := contours[i];
      assert contours[..i + 1][..i] == contours[..i];
      if |contour| == 0 {
        RoiMasksFailureStays(vol, contours, i + 1, inside);
        return Failure(EmptyContour);
      }
      var idxs := Project(vol, contour);
      perSlice := AddContour(perSlice, vol, idxs, inside);
    }
    assert contours[..|contours|] == contours;
    return Success(perSlice);
  }

  /** `contours_to_slice_masks(rois, origin, spacing, direction, volume_shape)` */
  method ContoursToSliceMasks(rois: RoiContours, vol: Volume, inside: PointInPolygon)
    returns (res: Result<map<string, map<int, array2<bool>>>, RasterError>)
    ensures res.Success? <==> AllSliceMasks(rois, vol, inside).Success?
    ensures res.Success? ==> res.value.Keys == rois.Keys
    ensures res.Success? ==> forall name :: name in rois ==>
      AllShaped(res.value[name], vol.ysize, vol.xsize) &&
      MaskValues(res.value[name]) == AllSliceMasks(rois, vol, inside).value[name]
  {
    var sliceMasks: map<string, map<int, array2<bool>>> := map[];
    var pending := rois.Keys;
    while pending != {}
      invariant pending <= rois.Keys
      invariant sliceMasks.Keys == rois.Keys - pending
      invariant forall name :: name in sliceMasks ==>
        && RoiMasks(vol, rois[name], inside).Success?
        && AllShaped(sliceMasks[name], vol.ysize, vol.xsize)
        && MaskValues(sliceMasks[name]) == RoiMasks(vol, rois[name], inside).value
      decreases pending
    {
      ghost var some := Sequences.Pick(pending);
      var name :| name in pending;
      var perSlice := RoiSliceMasks(vol, rois[name], inside);
      if perSlice.Failure? {
        return Failure(perSlice.error);
      }
      sliceMasks := sliceMasks[name := perSlice.value];
      pending := pending - {name};
    }
    return Success(sliceMasks);
  }

  /* ---------- what the rasteriser returns ---------- */

  /** Contour i of an ROI is rasterised on slice k. */
  predicate Targeted(vol: Volume, contours: seq<ContourPoints>, i: int, k: int)
    requires 0 <= i < |contours|
  {
    k in Targets(Project(vol, contours[i]), vol.zcount)
  }

  /** Contour i of an ROI is rasterised on slice k and its mask is true at (row, col). */
  predicate Paints(vol: Volume, contours: seq<ContourPoints>, inside: PointInPolygon, i: int, k: int, row: int, col: int)
    requires 0 <= i < |contours|
    requires 0 <= row < vol.ysize && 0 <= col < vol.xsize
  {
    Targeted(vol, contours, i, k) && ContourMask(vol, Project(vol, contours[i]), inside)[row][col]
  }

  /** One ROI's rasterisation fails exactly when one of its contours has no points. */
  lemma {:induction false} RoiMasksFails(vol: Volume, contours: seq<ContourPoints>, inside: PointInPolygon)
    ensures RoiMasks(vol, contours, inside).Failure? <==> exists i :: 0 <= i < |contours| && |contours[i]| == 0
  {
    if |contours| > 0 {
      var prefix := contours[..|contours| - 1];
      RoiMasksFails(vol, prefix, inside);
      assert forall i :: 0 <= i < |prefix| ==> prefix[i] == contours[i];
    }
  }

  /** A successful rasterisation of a non-empty contour list merges the last contour into that of the rest. */
  lemma RoiMasksLast(vol: Volume, contours: seq<ContourPoints>, inside: PointInPolygon)
    requires |contours| > 0 && RoiMasks(vol, contours, inside).Success?
    ensures RoiMasks(vol, contours[..|contours| - 1], inside).Success?
    ensures |contours[|contours| - 1]| > 0
    ensures var idxs := Project(vol, contours[|contours| - 1]);
      RoiMasks(vol, contours, inside).value ==
        Merge(RoiMasks(vol, contours[..|contours| - 1], inside).value, Targets(idxs, vol.zcount),
              ContourMask(vol, idxs, inside), vol.ysize, vol.xsize)
  {
  }

  /**
   * The slices of an ROI are exactly those some contour targets, so every key
   * lies in `[0, zcount)`; a slice is kept even when every mask OR-ed into it
   * is all-false.
   */
  lemma {:induction false} RoiMasksKeys(vol: Volume, contours: seq<ContourPoints>, inside: PointInPolygon, k: int)
    requires RoiMasks(vol, contours, inside).Success?
    ensures k in RoiMasks(vol, contours, inside).value <==> exists i :: 0 <= i < |contours| && Targeted(vol, contours, i, k)
    ensures k in RoiMasks(vol, contours, inside).value ==> 0 <= k < vol.zcount
  {
    if |contours| > 0 {
      var n := |contours|;
      var prefix := contours[..n - 1];
      RoiMasksLast(vol, contours, inside);
      RoiMasksKeys(vol, prefix, inside, k);
      var acc := RoiMasks(vol, prefix, inside).value;
      assert k in RoiMasks(vol, contours, inside).value <==> k in acc || Targeted(vol, contours, n - 1, k);
      forall i | 0 <= i < n - 1
        ensures Targeted(vol, prefix, i, k) == Targeted(vol, contours, i, k)
      {
        assert prefix[i] == contours[i];
      }
    }
  }

  /** A pixel of a merged slice is set when the old mask of that slice or the merged mask sets it. */
  lemma MergePixel(acc: map<int, Mask>, ks: set<int>, m: Mask, rows: nat, cols: nat, k: int, row: int, col: int)
    requires forall j :: j in acc ==> Shaped(acc[j], rows, cols)
    requires Shaped(m, rows, cols)
    requires k in Merge(acc, ks, m, rows, cols)
    requires 0 <= row < rows && 0 <= col < cols
    ensures Merge(acc, ks, m, rows, cols)[k][row][col] <==> (k in acc && acc[k][row][col]) || (k in ks && m[row][col])
  {
  }

  /** Some contour paints a pixel exactly when a contour of the prefix does or the last one does. */
  lemma PaintsPrefix(vol: Volume, contours: seq<ContourPoints>, prefix: seq<ContourPoints>, inside: PointInPolygon,
                     k: int, row: int, col: int)
    requires |contours| > 0 && prefix == contours[..|contours| - 1]
    requires 0 <= row < vol.ysize && 0 <= col < vol.xsize
    ensures (exists i :: 0 <= i < |contours| && Paints(vol, contours, inside, i, k, row, col)) <==>
      (exists i :: 0 <= i < |prefix| && Paints(vol, prefix, inside, i, k, row, col))
      || Paints(vol, contours, inside, |prefix|, k, row, col)
  {
    if i :| 0 <= i < |contours| && Paints(vol, contours, inside, i, k, row, col) {
      if i < |prefix| {
        assert prefix[i] == contours[i];
        assert Paints(vol, prefix, inside, i, k, row, col);
      }
    }
    if i :| 0 <= i < |prefix| && Paints(vol, prefix, inside, i, k, row, col) {
      assert prefix[i] == contours[i];
      assert Paints(vol, contours, inside, i, k, row, col);
    }
  }

  /** OR-merge: a pixel of slice k is set exactly when some contour targeting k sets it. */
  lemma {:induction false} RoiMasksPixel(vol: Volume, contours: seq<ContourPoints>, inside: PointInPolygon,
                                         k: int, row: int, col: int)
    requires RoiMasks(vol, contours, inside).Success?
    requires k in RoiMasks(vol, contours, inside).value
    requires 0 <= row < vol.ysize && 0 <= col < vol.xsize
    ensures RoiMasks(vol, contours, inside).value[k][row][col] <==>
      exists i :: 0 <= i < |contours| && Paints(vol, contours, inside, i, k, row, col)
  {
    var n := |contours|;
    var prefix := contours[..n - 1];
    RoiMasksLast(vol, contours, inside);
    var acc := RoiMasks(vol, prefix, inside).value;
    var idxs := Project(vol, contours[n - 1]);
    MergePixel(acc, Targets(idxs, vol.zcount), ContourMask(vol, idxs, inside), vol.ysize, vol.xsize, k, row, col);
    assert Paints(vol, contours, inside, n - 1, k, row, col) <==>
      k in Targets(idxs, vol.zcount) && ContourMask(vol, idxs, inside)[row][col];
    assert RoiMasks(vol, contours, inside).value[k][row][col] <==>
      (k in acc && acc[k][row][col]) || Paints(vol, contours, inside, n - 1, k, row, col);
    PaintsPrefix(vol, contours, prefix, inside, k, row, col);
    var prior := exists i :: 0 <= i < |prefix| && Paints(vol, prefix, inside, i, k, row, col);
    if k in acc {
      RoiMasksPixel(vol, prefix, inside, k, row, col);
      assert acc[k][row][col] <==> prior;
    } else {
      RoiMasksKeys(vol, prefix, inside, k);
      assert !prior;
    }
  }

  /**
   * `contours_to_slice_masks` fails exactly when some ROI has a contour with
   * no points; otherwise every ROI name is a key, even one whose `per_slice`
   * dict is empty, and no other name is.
   */
  lemma AllSliceMasksResult(rois: RoiContours, vol: Volume, inside: PointInPolygon)
    ensures AllSliceMasks(rois, vol, inside).Failure? <==>
      exists name, i :: name in rois && 0 <= i < |rois[name]| && |rois[name][i]| == 0
    ensures AllSliceMasks(rois, vol, inside).Success? ==> AllSliceMasks(rois, vol, inside).value.Keys == rois.Keys
  {
    forall name | name in rois
      ensures RoiMasks(vol, rois[name], inside).Failure? <==> exists i :: 0 <= i < |rois[name]| && |rois[name][i]| == 0
    {
      RoiMasksFails(vol, rois[name], inside);
    }
  }

  /** An ROI none of whose contours projects to a slice in range gets an empty `per_slice` dict. */
  lemma NoSliceInRange(vol: Volume, contours: seq<ContourPoints>, inside: PointInPolygon)
    requires RoiMasks(vol, contours, inside).Success?
    requires forall i, p :: 0 <= i < |contours| && p in contours[i] ==>
      var k := RoundHalfEven(vol.toIndex(p).z); k < 0 || k >= vol.zcount
    ensures RoiMasks(vol, contours, inside).value == map[]
  {
    var masks := RoiMasks(vol, contours, inside).value;
    forall k
      ensures k !in masks
    {
      RoiMasksKeys(vol, contours, inside, k);
      forall i | 0 <= i < |contours|
        ensures !Targeted(vol, contours, i, k)
      {
        var idxs := Project(vol, contours[i]);
        forall j | 0 <= j < |idxs|
          ensures RoundHalfEven(idxs[j].z) < 0 || RoundHalfEven(idxs[j].z) >= vol.zcount
        {
          assert contours[i][j] in contours[i];
        }
      }
    }
  }
}
