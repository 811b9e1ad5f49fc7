/**
 * The structure-set record as the parsers see it after pydicom has read it:
 * every attribute the code probes with `hasattr`/`getattr` is an Option.
 */
module Records {
  import opened Wrappers

  /** One item of StructureSetROISequence. */
  datatype RoiDeclaration = RoiDeclaration(number: int, name: Option<string>)

  /** decls[i] is the last declaration of number n. */
  predicate LastDeclaration(decls: seq<RoiDeclaration>, i: int, n: int)
  {
    0 <= i < |decls| && decls[i].number == n && forall j :: i < j < |decls| ==> decls[j].number != n
  }

  /** One item of a ContourSequence; `data` is the flat ContourData list. */
  datatype Contour = Contour(data: Option<seq<real>>)

  /** One item of ROIContourSequence. */
  datatype RoiContour = RoiContour(referencedNumber: Option<int>, contours: Option<seq<Contour>>)

  /** The two top-level sequences of an RTSTRUCT dataset. */
  datatype StructureSet = StructureSet(
    roiDeclarations: Option<seq<RoiDeclaration>>,
    roiContours: Option<seq<RoiContour>>)

  datatype Point3 = Point3(x: real, y: real, z: real)

  datatype Point2 = Point2(x: real, y: real)

  /** `np.array(data).reshape(-1, 3)`: consecutive (x, y, z) triples. */
  function Triples(data: seq<real>): (pts: seq<Point3>)
    requires |data| % 3 == 0
    ensures 3 * |pts| == |data|
    ensures forall i :: 0 <= i < |pts| ==> pts[i] == Point3(data[3 * i], data[3 * i + 1], data[3 * i + 2])
    decreases |data|
  {
    if |data| == 0 then []
    else
      var rest := Triples(data[3..]);
      assert forall i :: 0 <= i < |rest| ==> data[3..][3 * i] == data[3 * (i + 1)];
      [Point3(data[0], data[1], data[2])] + rest
  }

  /** The inverse of Triples: the flat coordinate list of a point list. */
  function Flatten(pts: seq<Point3>): (data: seq<real>)
    ensures |data| == 3 * |pts|
  {
    if |pts| == 0 then [] else [pts[0].x, pts[0].y, pts[0].z] + Flatten(pts[1..])
  }

  lemma {:induction false} TriplesFlatten(pts: seq<Point3>)
    ensures Triples(Flatten(pts)) == pts
  {
    if |pts| > 0 {
      TriplesFlatten(pts[1..]);
      assert Flatten(pts)[3..] == Flatten(pts[1..]);
    }
  }

  lemma {:induction false} FlattenTriples(data: seq<real>)
    requires |data| % 3 == 0
    ensures Flatten(Triples(data)) == data
    decreases |data|
  {
    if |data| > 0 {
      FlattenTriples(data[3..]);
    }
  }

  /** `data[:, :2]`: the planar part of every point. */
  function PlanarPart(pts: seq<Point3>): (xy: seq<Point2>)
    ensures |xy| == |pts|
    ensures forall i :: 0 <= i < |pts| ==> xy[i] == Point2(pts[i].x, pts[i].y)
  {
    seq(|pts|, i requires 0 <= i < |pts| => Point2(pts[i].x, pts[i].y))
  }

  /** `data[:, 2]`: the z coordinate of every point. */
  function ZValues(pts: seq<Point3>): (zs: seq<real>)
    ensures |zs| == |pts|
    ensures forall i :: 0 <= i < |pts| ==> zs[i] == pts[i].z
  {
    seq(|pts|, i requires 0 <= i < |pts| => pts[i].z)
  }
}
