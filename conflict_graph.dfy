/**
 * `roi_intersect` and `build_conflict_graph`: two ROIs conflict when some
 * pair of their polygons on a shared z level passes the bounding-box test and
 * has a positive intersection area (or, when the area cannot be computed,
 * shapely reports that they intersect).
 */
module ConflictGraph {
  import opened Wrappers
  import opened Sequences
  import opened Graphs
  import opened Roi

  /** `not (maxx1 < minx2 or maxx2 < minx1)` and the same on y. */
  predicate BoundsOverlap(a: Bounds, b: Bounds)
  {
    !(a.maxX < b.minX || b.maxX < a.minX) && !(a.maxY < b.minY || b.maxY < a.minY)
  }

  /** The body of the innermost loop of `roi_intersect` answers True for this pair. */
  predicate PolygonsConflict(ops: GeometryOps, pa: Polygon, pb: Polygon)
  {
    match (ops.bounds(pa), ops.bounds(pb))
    case (Some(ba), Some(bb)) =>
      && BoundsOverlap(ba, bb)
      && (match ops.intersectionArea(pa, pb)
          case Some(area) => area > 0.0
          case None => ops.intersects(pa, pb) == Some(true))
    case _ => false
  }

  predicate LevelsConflict(ops: GeometryOps, pas: seq<Polygon>, pbs: seq<Polygon>)
  {
    exists i, j :: 0 <= i < |pas| && 0 <= j < |pbs| && PolygonsConflict(ops, pas[i], pbs[j])
  }

  /** What `roi_intersect` decides, as an existential over shared levels and polygon pairs. */
  predicate SlicesConflict(ops: GeometryOps, a: Slices, b: Slices)
    ensures SlicesConflict(ops, a, b) ==> exists z :: z in a && z in b && |a[z]| > 0 && |b[z]| > 0
  {
    exists z :: z in a && z in b && LevelsConflict(ops, a[z], b[z])
  }

  /** Pruning: ROIs that share no z level never conflict, whatever their polygons. */
  lemma NoSharedLevelNoConflict(ops: GeometryOps, a: Slices, b: Slices)
    requires a.Keys * b.Keys == {}
    ensures !SlicesConflict(ops, a, b)
  {
    assert forall z :: z in a.Keys * b.Keys <==> z in a && z in b;
  }

  /** `roi_intersect(roi_a, roi_b)`. */
  method RoiIntersect(a: ROI, b: ROI, ops: GeometryOps) returns (r: bool)
    ensures r == SlicesConflict(ops, a.slices, b.slices)
  {
    var common := a.slices.Keys * b.slices.Keys;
    if common == {} {
      NoSharedLevelNoConflict(ops, a.slices, b.slices);
      return false;
    }
    var rest := common;
    while rest != {}
      invariant rest <= common
      invariant forall z :: z in common && z !in rest ==> !LevelsConflict(ops, a.slices[z], b.slices[z])
      decreases rest
    {
      ghost var some := Pick(rest);
      var z :| z in rest;
      var pas, pbs := a.slices[z], b.slices[z];
      var i := 0;
      while i < |pas|
        invariant 0 <= i <= |pas|
        invariant forall i', j :: 0 <= i' < i && 0 <= j < |pbs| ==> !PolygonsConflict(ops, pas[i'], pbs[j])
      {
        var j := 0;
        while j < |pbs|
          invariant 0 <= j <= |pbs|
          invariant forall i', j' :: 0 <= i' < i && 0 <= j' < |pbs| ==> !PolygonsConflict(ops, pas[i'], pbs[j'])
          invariant forall j' :: 0 <= j' < j ==> !PolygonsConflict(ops, pas[i], pbs[j'])
        {
          var pa, pb := pas[i], pbs[j];
          var ba, bb := ops.bounds(pa), ops.bounds(pb);
          if ba.None? || bb.None? {
            j := j + 1;
            continue;
          }
          var box1, box2 := ba.value, bb.value;
          if box1.maxX < box2.minX || box2.maxX < box1.minX {
            j := j + 1;
            continue;
          }
          if box1.maxY < box2.minY || box2.maxY < box1.minY {
            j := j + 1;
            continue;
          }
          match ops.intersectionArea(pa, pb) {
            case Some(area) =>
              if area > 0.0 {
                assert PolygonsConflict(ops, pas[i], pbs[j]);
                assert LevelsConflict(ops, a.slices[z], b.slices[z]);
                return true;
              }
            case None =>
              if ops.intersects(pa, pb) == Some(true) {
                assert PolygonsConflict(ops, pas[i], pbs[j]);
                assert LevelsConflict(ops, a.slices[z], b.slices[z]);
                return true;
              }
          }
          j := j + 1;
        }
        i := i + 1;
      }
      rest := rest - {z};
    }
    assert forall z :: z in a.slices && z in b.slices ==> z in common;
    return false;
  }

  /* ---------- build_conflict_graph ---------- */

  function NameList(rs: seq<RoiData>): (ns: seq<string>)
    ensures |ns| == |rs| && forall i :: 0 <= i < |rs| ==> ns[i] == rs[i].name
  {
    seq(|rs|, i requires 0 <= i < |rs| => rs[i].name)
  }

  /** The pair (i, j) of the double loop joins the names a and b. */
  predicate Joins(rs: seq<RoiData>, i: int, j: int, a: string, b: string)
    requires 0 <= i < |rs| && 0 <= j < |rs|
  {
    (rs[i].name == a && rs[j].name == b) || (rs[i].name == b && rs[j].name == a)
  }

  /** Some visited pair i < j (before position (i0, j0) of the double loop) conflicts and joins a and b. */
  ghost predicate ConflictBefore(ops: GeometryOps, rs: seq<RoiData>, a: string, b: string, i0: int, j0: int)
  {
    exists i, j :: 0 <= i < j < |rs| && (i < i0 || (i == i0 && j < j0))
      && Joins(rs, i, j, a, b) && SlicesConflict(ops, rs[i].slices, rs[j].slices)
  }

  /** b is a neighbour of a in the conflict graph of rs. */
  ghost predicate Conflicting(ops: GeometryOps, rs: seq<RoiData>, a: string, b: string)
  {
    exists i, j :: 0 <= i < j < |rs| && Joins(rs, i, j, a, b) && SlicesConflict(ops, rs[i].slices, rs[j].slices)
  }

  lemma ConflictBeforeStep(ops: GeometryOps, rs: seq<RoiData>, a: string, b: string, i0: int, j0: int)
    requires 0 <= i0 < j0 < |rs|
    ensures ConflictBefore(ops, rs, a, b, i0, j0 + 1) <==>
      ConflictBefore(ops, rs, a, b, i0, j0) || (Joins(rs, i0, j0, a, b) && SlicesConflict(ops, rs[i0].slices, rs[j0].slices))
  {
    if ConflictBefore(ops, rs, a, b, i0, j0 + 1) {
      var i, j :| 0 <= i < j < |rs| && (i < i0 || (i == i0 && j < j0 + 1))
        && Joins(rs, i, j, a, b) && SlicesConflict(ops, rs[i].slices, rs[j].slices);
      if !(i == i0 && j == j0) {
        assert ConflictBefore(ops, rs, a, b, i0, j0);
      }
    }
  }

  lemma ConflictBeforeRow(ops: GeometryOps, rs: seq<RoiData>, a: string, b: string, i0: int)
    requires 0 <= i0 < |rs|
    ensures ConflictBefore(ops, rs, a, b, i0, |rs|) <==> ConflictBefore(ops, rs, a, b, i0 + 1, i0 + 2)
  {
    if ConflictBefore(ops, rs, a, b, i0 + 1, i0 + 2) {
      var i, j :| 0 <= i < j < |rs| && (i < i0 + 1 || (i == i0 + 1 && j < i0 + 2))
        && Joins(rs, i, j, a, b) && SlicesConflict(ops, rs[i].slices, rs[j].slices);
      assert ConflictBefore(ops, rs, a, b, i0, |rs|);
    }
  }

  lemma ConflictBeforeAll(ops: GeometryOps, rs: seq<RoiData>, a: string, b: string)
    ensures ConflictBefore(ops, rs, a, b, |rs|, |rs| + 1) <==> Conflicting(ops, rs, a, b)
  {
    if Conflicting(ops, rs, a, b) {
      var i, j :| 0 <= i < j < |rs| && Joins(rs, i, j, a, b) && SlicesConflict(ops, rs[i].slices, rs[j].slices);
      assert ConflictBefore(ops, rs, a, b, |rs|, |rs| + 1);
    }
  }

  lemma ConflictBeforeStart(ops: GeometryOps, rs: seq<RoiData>, a: string, b: string, i0: int)
    requires 0 <= i0
    ensures ConflictBefore(ops, rs, a, b, i0, i0 + 1) <==> ConflictBefore(ops, rs, a, b, i0, 0)
  {
  }

  /** The graph as a value: every ROI name is a key; its neighbours are the names it conflicts with. */
  ghost function ConflictMap(ops: GeometryOps, rs: seq<RoiData>): (g: Graph)
    ensures g.Keys == Elements(NameList(rs))
    ensures forall a :: a in g ==> g[a] <= g.Keys
  {
    map a | a in NameList(rs) :: set b | b in NameList(rs) && Conflicting(ops, rs, a, b)
  }

  /** `graph[a].add(b); graph[b].add(a)` */
  function Connect(g: Graph, a: string, b: string): (g': Graph)
    requires a in g && b in g
    ensures g'.Keys == g.Keys
    ensures forall x, y :: x in g ==> (y in g'[x] <==> y in g[x] || (x == a && y == b) || (x == b && y == a))
  {
    var g1 := g[a := g[a] + {b}];
    g1[b := g1[b] + {a}]
  }

  /** The state of the double loop of `build_conflict_graph` before visiting pair (i, j). */
  ghost predicate Visited(ops: GeometryOps, rs: seq<RoiData>, g: Graph, i: int, j: int)
  {
    && (forall a :: a in g <==> a in NameList(rs))
    && (forall a, b :: a in g ==> (b in g[a] <==> ConflictBefore(ops, rs, a, b, i, j)))
  }

  lemma VisitPair(ops: GeometryOps, rs: seq<RoiData>, g: Graph, i: int, j: int, hit: bool)
    requires 0 <= i < j < |rs|
    requires Visited(ops, rs, g, i, j)
    requires hit == SlicesConflict(ops, rs[i].slices, rs[j].slices)
    ensures rs[i].name in g && rs[j].name in g
    ensures Visited(ops, rs, if hit then Connect(g, rs[i].name, rs[j].name) else g, i, j + 1)
  {
    assert rs[i].name == NameList(rs)[i] && rs[j].name == NameList(rs)[j];
    forall a, b ensures ConflictBefore(ops, rs, a, b, i, j + 1) <==>
      ConflictBefore(ops, rs, a, b, i, j) || (Joins(rs, i, j, a, b) && hit)
    {
      ConflictBeforeStep(ops, rs, a, b, i, j);
    }
  }

  /**
   * One pass of the inner loop of `build_conflict_graph`: ROI i against every later ROI,
   * adding each conflicting pair to both adjacency sets.
   */
  method ConnectRow(rois: seq<ROI>, i: int, graph0: Graph, ops: GeometryOps) returns (graph: Graph)
    requires 0 <= i < |rois|
    requires Visited(ops, Values(rois), graph0, i, i + 1)
    ensures Visited(ops, Values(rois), graph, i + 1, i + 2)
  {
    ghost var rs := Values(rois);
    graph := graph0;
    var j := i + 1;
    while j < |rois|
      invariant i + 1 <= j <= |rois|
      invariant Visited(ops, rs, graph, i, j)
    {
      var hit := RoiIntersect(rois[i], rois[j], ops);
      VisitPair(ops, rs, graph, i, j, hit);
      if hit {
        graph := Connect(graph, rois[i].name, rois[j].name);
      }
      j := j + 1;
    }
    forall a, b ensures ConflictBefore(ops, rs, a, b, i, |rs|) <==> ConflictBefore(ops, rs, a, b, i + 1, i + 2) {
      ConflictBeforeRow(ops, rs, a, b, i);
    }
  }

  /** `build_conflict_graph(rois)`: the dict and its key order (first occurrence of each name). */
  method BuildConflictGraph(rois: seq<ROI>, ops: GeometryOps) returns (names: seq<string>, graph: Graph)
    ensures names == Dedup(NameList(Values(rois)))
    ensures graph == ConflictMap(ops, Values(rois))
  {
    var rs := Values(rois);
    names := Dedup(NameList(rs));
    graph := map a | a in NameList(rs) :: {};
    var i := 0;
    while i < |rois|
      invariant 0 <= i <= |rois|
      invariant Visited(ops, rs, graph, i, i + 1)
    {
      graph := ConnectRow(rois, i, graph, ops);
      i := i + 1;
    }
    forall a, b ensures ConflictBefore(ops, rs, a, b, |rs|, |rs| + 1) <==> Conflicting(ops, rs, a, b) {
      ConflictBeforeAll(ops, rs, a, b);
    }
    forall a | a in graph
      ensures graph[a] == ConflictMap(ops, rs)[a]
    {
      forall b | b in graph[a] ensures b in NameList(rs) {
        var i, j :| 0 <= i < j < |rs| && Joins(rs, i, j, a, b) && SlicesConflict(ops, rs[i].slices, rs[j].slices);
        assert NameList(rs)[i] == rs[i].name && NameList(rs)[j] == rs[j].name;
      }
    }
  }

  /* ---------- properties of the conflict graph ---------- */

  /** `b ∈ graph[a]` iff `a ∈ graph[b]`. */
  lemma ConflictMapSymmetric(ops: GeometryOps, rs: seq<RoiData>)
    ensures Symmetric(ConflictMap(ops, rs))
  {
    var g := ConflictMap(ops, rs);
    forall a, b | a in g && b in g[a]
      ensures b in g && a in g[b]
    {
      var i, j :| 0 <= i < j < |rs| && Joins(rs, i, j, a, b) && SlicesConflict(ops, rs[i].slices, rs[j].slices);
      assert Joins(rs, i, j, b, a);
    }
  }

  /** Every ROI name is a key; an ROI that conflicts with nothing maps to the empty set. */
  lemma ConflictMapKeys(ops: GeometryOps, rs: seq<RoiData>)
    ensures forall i :: 0 <= i < |rs| ==> rs[i].name in ConflictMap(ops, rs)
    ensures forall a :: a in ConflictMap(ops, rs) ==>
      (ConflictMap(ops, rs)[a] == {} <==> forall b :: !Conflicting(ops, rs, a, b))
  {
    var g := ConflictMap(ops, rs);
    forall i | 0 <= i < |rs| ensures rs[i].name in g {
      assert NameList(rs)[i] == rs[i].name;
    }
    forall a, b | a in g && Conflicting(ops, rs, a, b)
      ensures b in g[a]
    {
      var i, j :| 0 <= i < j < |rs| && Joins(rs, i, j, a, b) && SlicesConflict(ops, rs[i].slices, rs[j].slices);
      assert NameList(rs)[i] == rs[i].name && NameList(rs)[j] == rs[j].name;
    }
  }

  /** With distinct names there are no self-loops. */
  lemma ConflictMapLoopless(ops: GeometryOps, rs: seq<RoiData>)
    requires Distinct(NameList(rs))
    ensures Loopless(ConflictMap(ops, rs))
  {
    forall a, i, j | 0 <= i < j < |rs|
      ensures !Joins(rs, i, j, a, a)
    {
      assert NameList(rs)[i] != NameList(rs)[j];
    }
  }

  /** With distinct names, the edge {i, j} for i < j exists iff `roi_intersect(rois[i], rois[j])`. */
  lemma ConflictMapEdges(ops: GeometryOps, rs: seq<RoiData>, i: int, j: int)
    requires Distinct(NameList(rs))
    requires 0 <= i < j < |rs|
    ensures rs[j].name in ConflictMap(ops, rs)[rs[i].name] <==> SlicesConflict(ops, rs[i].slices, rs[j].slices)
  {
    var g := ConflictMap(ops, rs);
    var a, b := rs[i].name, rs[j].name;
    assert NameList(rs)[i] == a && NameList(rs)[j] == b;
    if SlicesConflict(ops, rs[i].slices, rs[j].slices) {
      assert Joins(rs, i, j, a, b);
      assert Conflicting(ops, rs, a, b);
    }
    if b in g[a] {
      var i', j' :| 0 <= i' < j' < |rs| && Joins(rs, i', j', a, b) && SlicesConflict(ops, rs[i'].slices, rs[j'].slices);
      assert NameList(rs)[i'] == rs[i'].name && NameList(rs)[j'] == rs[j'].name;
      assert i' == i && j' == j;
    }
  }
}
