/**
 * The ROI record of the overlap-free grouping tool: a numbered, named region
 * whose `slices` map a quantised z level to the polygons lying on it, and
 * `add_polygon`, the only operation that changes it.
 *
 * Shapely is a foreign library: a polygon is the coordinate list it was built
 * from, and the shapely operations the code calls are supplied as
 * uninterpreted functions in GeometryOps.
 */
module Roi {
  import opened Wrappers
  import opened Records

  /** A shapely `Polygon(xy)`, identified by the coordinates it was built from. */
  datatype Polygon = Polygon(ring: seq<Point2>)

  /** `Polygon.bounds`: (minx, miny, maxx, maxy). */
  datatype Bounds = Bounds(minX: real, minY: real, maxX: real, maxY: real)

  /**
   * The shapely calls of the core. A result of None stands for a call that
   * raised an exception.
   */
  datatype GeometryOps = GeometryOps(
    isValid: Polygon -> bool,
    area: Polygon -> real,
    bounds: Polygon -> Option<Bounds>,
    intersectionArea: (Polygon, Polygon) -> Option<real>,
    intersects: (Polygon, Polygon) -> Option<bool>)

  /** The `slices` dictionary: z level -> polygons on that level. */
  type Slices = map<real, seq<Polygon>>

  /** `poly.is_valid and poly.area > 0`. */
  predicate Accepted(ops: GeometryOps, p: Polygon)
  {
    ops.isValid(p) && ops.area(p) > 0.0
  }

  /** The coordinates given to `Polygon`: a three-point contour is closed by repeating its first point. */
  function ClosedRing(xy: seq<Point2>): (ring: seq<Point2>)
    requires |xy| >= 3
    ensures |ring| >= 4
    ensures |ring| >= |xy| && ring[..|xy|] == xy
    ensures |xy| == 3 ==> ring == xy + [xy[0]]
    ensures |xy| > 3 ==> ring == xy
  {
    if |xy| == 3 then xy + [xy[0]] else xy
  }

  function Level(slices: Slices, z: real): seq<Polygon>
  {
    if z in slices then slices[z] else []
  }

  /** The dictionary after `add_polygon(z, xy)`. */
  function WithPolygon(slices: Slices, z: real, xy: seq<Point2>, ops: GeometryOps): Slices
  {
    if |xy| < 3 then slices
    else
      var p := Polygon(ClosedRing(xy));
      if Accepted(ops, p) then slices[z := Level(slices, z) + [p]] else slices
  }

  /** Every level present holds at least one polygon (keys are only created by an append). */
  predicate NoEmptyLevel(slices: Slices)
  {
    forall z :: z in slices ==> |slices[z]| > 0
  }

  /**
   * What `add_polygon` does: nothing for fewer than three points; otherwise
   * only level z may change, and it gains exactly the polygon built from the
   * closed ring, provided shapely accepts it.
   */
  lemma AddPolygonEffect(slices: Slices, z: real, xy: seq<Point2>, ops: GeometryOps)
    ensures |xy| < 3 ==> WithPolygon(slices, z, xy, ops) == slices
    ensures forall w :: w != z ==> Level(WithPolygon(slices, z, xy, ops), w) == Level(slices, w)
    ensures forall w :: w != z ==> (w in WithPolygon(slices, z, xy, ops) <==> w in slices)
    ensures |xy| >= 3 && Accepted(ops, Polygon(ClosedRing(xy))) ==>
      Level(WithPolygon(slices, z, xy, ops), z) == Level(slices, z) + [Polygon(ClosedRing(xy))]
    ensures |xy| >= 3 && !Accepted(ops, Polygon(ClosedRing(xy))) ==>
      WithPolygon(slices, z, xy, ops) == slices
    ensures NoEmptyLevel(slices) ==> NoEmptyLevel(WithPolygon(slices, z, xy, ops))
  {
  }

  /** An ROI's value: what the rest of the pipeline reads from an ROI object. */
  datatype RoiData = RoiData(number: int, name: string, slices: Slices)

  /** The values of a sequence of ROI objects. */
  function Values(rois: seq<ROI>): (ds: seq<RoiData>)
    reads set r | r in rois
    ensures |ds| == |rois| && forall i :: 0 <= i < |rois| ==> ds[i] == rois[i].Data()
  {
    seq(|rois|, i reads set r | r in rois requires 0 <= i < |rois| => rois[i].Data())
  }

  class ROI {
    const number: int
    const name: string
    var slices: Slices

    constructor (number: int, name: string)
      ensures this.number == number && this.name == name
      ensures slices == map[]
    {
      this.number := number;
      this.name := name;
      slices := map[];
    }

    function Data(): (d: RoiData)
      reads this
      ensures d.number == number && d.name == name && d.slices == slices
    {
      RoiData(number, name, slices)
    }

    /** `ROI.add_polygon(z, xy)`. */
    method AddPolygon(z: real, xy: seq<Point2>, ops: GeometryOps)
      modifies this
      ensures slices == WithPolygon(old(slices), z, xy, ops)
    {
      if |xy| < 3 {
        return;
      }
      var ring := xy;
      if |xy| == 3 {
        ring := xy + [xy[0]];
      }
      var poly := Polygon(ring);
      if ops.isValid(poly) && ops.area(poly) > 0.0 {
        var level := if z in slices then slices[z] else [];
        slices := slices[z := level + [poly]];
      }
    }
  }
}
