/**
 * `parse_rtstruct`: the RT structure set as a map from ROI name to its list
 * of contours, each an (N, 3) point list in patient coordinates.
 *
 * Reading the file is not modelled: the parser receives the record. The
 * functions state what it returns; ParseRtstruct is the loop-based parser,
 * proved to return exactly that.
 */
module RtStruct {
  import opened Wrappers
  import opened Numerics
  import opened Records

  type ContourPoints = seq<Point3>

  /** The returned dict: ROI name -> contours. */
  type RoiContours = map<string, seq<ContourPoints>>

  /** The one exception the parser lets through for a well-typed record. */
  datatype ParseError = ContourNotTriples   // reshape(-1, 3) of a ContourData whose length is not a multiple of 3

  /** `f'ROI_{n}'` */
  function FallbackName(n: int): string
  {
    "ROI_" + DecimalString(n)
  }

  /** `getattr(ds, 'StructureSetROISequence', []) or []` */
  function Declarations(ds: StructureSet): seq<RoiDeclaration>
  {
    ds.roiDeclarations.GetOr([])
  }

  /** `getattr(ds, 'ROIContourSequence', []) or []` */
  function Groups(ds: StructureSet): seq<RoiContour>
  {
    ds.roiContours.GetOr([])
  }

  function DeclaredName(d: RoiDeclaration): string
  {
    d.name.GetOr(FallbackName(d.number))
  }

  /** `roi_name_map`: filled in declaration order, so a later declaration of a number wins. */
  function NameMap(decls: seq<RoiDeclaration>): map<int, string>
  {
    if |decls| == 0 then map[]
    else
      var d := decls[|decls| - 1];
      NameMap(decls[..|decls| - 1])[d.number := DeclaredName(d)]
  }

  /** The name a contour group is filed under. */
  function GroupName(names: map<int, string>, g: RoiContour): (name: string)
    ensures name in names.Values || name == FallbackName(g.referencedNumber.GetOr(-1))
  {
    var rnum := g.referencedNumber.GetOr(-1);
    if rnum in names then names[rnum] else FallbackName(rnum)
  }

  /** The `contours` list of one group; None when a ContourData does not reshape into triples. */
  function GroupContours(cs: seq<Contour>): (r: Option<seq<ContourPoints>>)
    ensures r.Some? ==> |r.value| <= |cs|
  {
    if |cs| == 0 then Some([])
    else
      match GroupContours(cs[..|cs| - 1])
      case None => None
      case Some(l) =>
        match cs[|cs| - 1].data
        case None => Some(l)
        case Some(d) => if |d| % 3 != 0 then None else Some(l + [Triples(d)])
  }

  function ParseGroups(names: map<int, string>, groups: seq<RoiContour>): (r: Result<RoiContours, ParseError>)
    ensures r.Success? ==> forall name :: name in r.value ==> |r.value[name]| > 0
    ensures r.Success? ==> |r.value| <= |groups|
  {
    if |groups| == 0 then Success(map[])
    else
      var g := groups[|groups| - 1];
      match ParseGroups(names, groups[..|groups| - 1])
      case Failure(e) => Failure(e)
      case Success(rois) =>
        match GroupContours(g.contours.GetOr([]))
        case None => Failure(ContourNotTriples)
        case Some(l) => Success(if |l| > 0 then rois[GroupName(names, g) := l] else rois)
  }

  /** What `parse_rtstruct` returns, or the exception it raises. */
  function Parse(ds: StructureSet): (r: Result<RoiContours, ParseError>)
    ensures ds.roiContours.None? ==> r == Success(map[])
    ensures r.Success? ==> forall name :: name in r.value ==> |r.value[name]| > 0
  {
    ParseGroups(NameMap(Declarations(ds)), Groups(ds))
  }

  /* ---------- the parser ---------- */

  /** The first loop of `parse_rtstruct`: `roi_name_map[int(roi.ROINumber)] = ...` per declaration. */
  method BuildNameMap(decls: seq<RoiDeclaration>) returns (roiNameMap: map<int, string>)
    ensures roiNameMap == NameMap(decls)
  {
    roiNameMap := map[];
    for i := 0 to |decls|
      invariant roiNameMap == NameMap(decls[..i])
    {
      assert decls[..i + 1][..i] == decls[..i];
      roiNameMap := roiNameMap[decls[i].number := DeclaredName(decls[i])];
    }
    assert decls[..|decls|] == decls;
  }

  /**
   * The inner loop of `parse_rtstruct` over one ContourSequence; None stands
   * for the ValueError that reshape raises.
   */
  method ReadContours(cs: seq<Contour>) returns (contours: Option<seq<ContourPoints>>)
    ensures contours == GroupContours(cs)
  {
    var acc := [];
    for k := 0 to |cs|
      invariant GroupContours(cs[..k]) == Some(acc)
    {
      assert cs[..k + 1][..k] == cs[..k];
      if cs[k].data.None? {
        continue;
      }
      var data := cs[k].data.value;
      if |data| % 3 != 0 {
        GroupContoursFailureStays(cs, k + 1);
        return None;
      }
      acc := acc + [Triples(data)];
    }
    assert cs[..|cs|] == cs;
    return Some(acc);
  }

  /** `parse_rtstruct(path)` on the record `ds` that `dcmread(path)` returns. */
  method ParseRtstruct(ds: StructureSet) returns (res: Result<RoiContours, ParseError>)
    ensures res == Parse(ds)
  {
    var roiNameMap := BuildNameMap(Declarations(ds));
    res := FileGroups(roiNameMap, Groups(ds));
  }

  /** The second loop of `parse_rtstruct`: each group's contours filed under its name. */
  method FileGroups(roiNameMap: map<int, string>, groups: seq<RoiContour>) returns (res: Result<RoiContours, ParseError>)
    ensures res == ParseGroups(roiNameMap, groups)
  {
    var rois: RoiContours := map[];
    for j := 0 to |groups|
      invariant ParseGroups(roiNameMap, groups[..j]) == Success(rois)
    {
      var rc := groups[j];
      var name := GroupName(roiNameMap, rc);
      var contours := ReadContours(rc.contours.GetOr([]));
      if contours.None? {
        ParseGroupsFailureStays(roiNameMap, groups, j + 1);
        return Failure(ContourNotTriples);
      }
      ParseGroupsStep(roiNameMap, groups, j, rois, contours.value);
      if |contours.value| > 0 {
        rois := rois[name := contours.value];
      }
    }
    assert groups[..|groups|] == groups;
    return Success(rois);
  }

  lemma ParseGroupsStep(names: map<int, string>, groups: seq<RoiContour>, j: nat, rois: RoiContours, l: seq<ContourPoints>)
    requires j < |groups|
    requires ParseGroups(names, groups[..j]) == Success(rois)
    requires GroupContours(groups[j].contours.GetOr([])) == Some(l)
    ensures ParseGroups(names, groups[..j + 1]) ==
      Success(if |l| > 0 then rois[GroupName(names, groups[j]) := l] else rois)
  {
    assert groups[..j + 1][..j] == groups[..j];
    assert groups[..j + 1][j] == groups[j];
  }

  /** A failed contour list makes every longer group list fail. */
  lemma {:induction false} GroupContoursFailureStays(cs: seq<Contour>, k: nat)
    requires k <= |cs| && GroupContours(cs[..k]).None?
    ensures GroupContours(cs).None?
    decreases |cs| - k
  {
    if k < |cs| {
      assert cs[..k + 1][..k] == cs[..k];
      GroupContoursFailureStays(cs, k + 1);
    } else {
      assert cs[..k] == cs;
    }
  }

  lemma {:induction false} ParseGroupsFailureStays(names: map<int, string>, groups: seq<RoiContour>, j: nat)
    requires 0 < j <= |groups|
    requires GroupContours(groups[j - 1].contours.GetOr([])).None? || ParseGroups(names, groups[..j - 1]) == Failure(ContourNotTriples)
    ensures ParseGroups(names, groups) == Failure(ContourNotTriples)
    decreases |groups| - j
  {
    assert groups[..j][..j - 1] == groups[..j - 1];
    assert groups[..j][j - 1] == groups[j - 1];
    var prefix := ParseGroups(names, groups[..j - 1]);
    if prefix.Failure? {
      assert prefix.error == ContourNotTriples;
    }
    assert ParseGroups(names, groups[..j]) == Failure(ContourNotTriples);
    FailureExtends(names, groups, j);
  }

  lemma {:induction false} FailureExtends(names: map<int, string>, groups: seq<RoiContour>, j: nat)
    requires j <= |groups| && ParseGroups(names, groups[..j]) == Failure(ContourNotTriples)
    ensures ParseGroups(names, groups) == Failure(ContourNotTriples)
    decreases |groups| - j
  {
    if j < |groups| {
      assert groups[..j + 1][..j] == groups[..j];
      FailureExtends(names, groups, j + 1);
    } else {
      assert groups[..j] == groups;
    }
  }
}

/** What `parse_rtstruct` promises about names, skipped items and replaced entries. */
module RtStructFacts {
  import opened Wrappers
  import opened Numerics
  import opened Records
  import opened RtStruct

  predicate Declared(decls: seq<RoiDeclaration>, n: int)
  {
    exists i :: 0 <= i < |decls| && decls[i].number == n
  }

  /** The map has an entry for exactly the declared numbers. */
  lemma {:induction false} NameMapKeys(decls: seq<RoiDeclaration>, n: int)
    ensures n in NameMap(decls) <==> Declared(decls, n)
  {
    if |decls| > 0 {
      var prefix := decls[..|decls| - 1];
      NameMapKeys(prefix, n);
      if Declared(prefix, n) {
        var i :| 0 <= i < |prefix| && prefix[i].number == n;
        assert decls[i].number == n;
      }
      if Declared(decls, n) && decls[|decls| - 1].number != n {
        var i :| 0 <= i < |decls| && decls[i].number == n;
        assert prefix[i].number == n;
      }
    }
  }

  /** A declared number maps to the name of its last declaration. */
  lemma {:induction false} NameMapValue(decls: seq<RoiDeclaration>, n: int) returns (i: int)
    requires n in NameMap(decls)
    ensures LastDeclaration(decls, i, n) && NameMap(decls)[n] == DeclaredName(decls[i])
  {
    var prefix, d := decls[..|decls| - 1], decls[|decls| - 1];
    if d.number == n {
      i := |decls| - 1;
    } else {
      assert NameMap(decls) == NameMap(prefix)[d.number := DeclaredName(d)];
      i := NameMapValue(prefix, n);
      assert forall j :: 0 <= j < |prefix| ==> decls[j] == prefix[j];
    }
  }

  /** A group whose number (-1 when it has none) was never declared is filed under `ROI_<n>`. */
  lemma GroupNameUndeclared(decls: seq<RoiDeclaration>, g: RoiContour)
    requires !Declared(decls, g.referencedNumber.GetOr(-1))
    ensures GroupName(NameMap(decls), g) == "ROI_" + DecimalString(g.referencedNumber.GetOr(-1))
  {
    NameMapKeys(decls, g.referencedNumber.GetOr(-1));
  }

  /**
   * A group whose number was declared is filed under the ROIName of the last
   * declaration of that number, or `ROI_<n>` when that declaration has none.
   */
  lemma GroupNameDeclared(decls: seq<RoiDeclaration>, g: RoiContour) returns (i: int)
    requires Declared(decls, g.referencedNumber.GetOr(-1))
    ensures LastDeclaration(decls, i, g.referencedNumber.GetOr(-1))
    ensures GroupName(NameMap(decls), g) ==
      if decls[i].name.Some? then decls[i].name.value else "ROI_" + DecimalString(decls[i].number)
  {
    NameMapKeys(decls, g.referencedNumber.GetOr(-1));
    i := NameMapValue(decls, g.referencedNumber.GetOr(-1));
  }

  /** Distinct undeclared numbers get distinct fallback names. */
  lemma FallbackNamesDistinct(a: int, b: int)
    requires a != b
    ensures FallbackName(a) != FallbackName(b)
  {
    if FallbackName(a) == FallbackName(b) {
      assert FallbackName(a)[4..] == DecimalString(a);
      assert FallbackName(b)[4..] == DecimalString(b);
      DecimalStringInjective(a, b);
    }
  }

  predicate BadContour(c: Contour)
  {
    c.data.Some? && |c.data.value| % 3 != 0
  }

  /** A contour list fails exactly when some ContourData does not reshape into triples. */
  lemma {:induction false} GroupContoursFails(cs: seq<Contour>)
    ensures GroupContours(cs).None? <==> exists i :: 0 <= i < |cs| && BadContour(cs[i])
  {
    if |cs| > 0 {
      var prefix := cs[..|cs| - 1];
      GroupContoursFails(prefix);
      assert forall i :: 0 <= i < |prefix| ==> cs[i] == prefix[i];
    }
  }

  /** The positions of the contours that carry ContourData, in sequence order. */
  function DataIndices(cs: seq<Contour>): (ix: seq<int>)
    ensures forall k :: 0 <= k < |ix| ==> 0 <= ix[k] < |cs| && cs[ix[k]].data.Some?
    ensures forall k, m :: 0 <= k < m < |ix| ==> ix[k] < ix[m]
    ensures forall i :: 0 <= i < |cs| && cs[i].data.Some? ==> i in ix
  {
    if |cs| == 0 then []
    else
      var prefix := DataIndices(cs[..|cs| - 1]);
      assert forall k :: 0 <= k < |prefix| ==> cs[..|cs| - 1][prefix[k]] == cs[prefix[k]];
      if cs[|cs| - 1].data.Some? then prefix + [|cs| - 1] else prefix
  }

  /** The list of a successful group, position by position. */
  lemma {:induction false} GroupContoursInOrder(cs: seq<Contour>)
    requires GroupContours(cs).Some?
    ensures forall i :: 0 <= i < |cs| && cs[i].data.Some? ==> |cs[i].data.value| % 3 == 0
    ensures var l, ix := GroupContours(cs).value, DataIndices(cs);
      |l| == |ix| && forall k :: 0 <= k < |l| ==> l[k] == Triples(cs[ix[k]].data.value)
  {
    GroupContoursFails(cs);
    if |cs| > 0 {
      var prefix, c := cs[..|cs| - 1], cs[|cs| - 1];
      GroupContoursInOrder(prefix);
      var l, ix := GroupContours(prefix).value, DataIndices(prefix);
      var l', ix' := GroupContours(cs).value, DataIndices(cs);
      if c.data.Some? {
        assert l' == l + [Triples(c.data.value)];
        assert ix' == ix + [|cs| - 1];
        forall k | 0 <= k < |l|
          ensures l'[k] == Triples(cs[ix'[k]].data.value)
        {
          assert l'[k] == l[k] && ix'[k] == ix[k] && cs[ix[k]] == prefix[ix[k]];
        }
      } else {
        assert l' == l && ix' == ix;
        forall k | 0 <= k < |l'|
          ensures l'[k] == Triples(cs[ix'[k]].data.value)
        {
          assert cs[ix[k]] == prefix[ix[k]];
        }
      }
    }
  }

  /**
   * Otherwise the list holds, in order, the reshaped data of exactly the
   * contours that have ContourData (contours without it are skipped), so it
   * is empty exactly when no contour has data.
   */
  lemma {:induction false} GroupContoursKept(cs: seq<Contour>)
    requires GroupContours(cs).Some?
    ensures forall i :: 0 <= i < |cs| && cs[i].data.Some? ==> |cs[i].data.value| % 3 == 0
    ensures var l, ix := GroupContours(cs).value, DataIndices(cs);
      |l| == |ix| && forall k :: 0 <= k < |l| ==> l[k] == Triples(cs[ix[k]].data.value)
    ensures |GroupContours(cs).value| == 0 <==> forall i :: 0 <= i < |cs| ==> cs[i].data.None?
  {
    GroupContoursInOrder(cs);
    var ix := DataIndices(cs);
    if |ix| > 0 {
      assert cs[ix[0]].data.Some?;
    }
  }

  /** The contours group g contributes. */
  function Filed(g: RoiContour): Option<seq<ContourPoints>>
  {
    GroupContours(g.contours.GetOr([]))
  }

  /** Group g files a non-empty contour list under name. */
  predicate FilesUnder(names: map<int, string>, g: RoiContour, name: string)
  {
    GroupName(names, g) == name && Filed(g).Some? && |Filed(g).value| > 0
  }

  /** groups[j] is the last group that files a non-empty contour list under name. */
  predicate LastFiling(names: map<int, string>, groups: seq<RoiContour>, j: int, name: string)
  {
    0 <= j < |groups| && FilesUnder(names, groups[j], name)
      && forall j' :: j < j' < |groups| ==> !FilesUnder(names, groups[j'], name)
  }

  /** Parsing fails exactly when some group has a contour that does not reshape. */
  lemma {:induction false} ParseGroupsFails(names: map<int, string>, groups: seq<RoiContour>)
    ensures ParseGroups(names, groups).Failure? <==> exists j :: 0 <= j < |groups| && Filed(groups[j]).None?
  {
    if |groups| > 0 {
      var prefix := groups[..|groups| - 1];
      ParseGroupsFails(names, prefix);
      assert forall j :: 0 <= j < |prefix| ==> groups[j] == prefix[j];
    }
  }

  /** A successful parse of a non-empty group list extends the parse of its prefix by the last group. */
  lemma ParseGroupsLast(names: map<int, string>, groups: seq<RoiContour>)
    requires |groups| > 0 && ParseGroups(names, groups).Success?
    ensures ParseGroups(names, groups[..|groups| - 1]).Success?
    ensures Filed(groups[|groups| - 1]).Some?
    ensures var g := groups[|groups| - 1];
      var before := ParseGroups(names, groups[..|groups| - 1]).value;
      ParseGroups(names, groups).value ==
        if FilesUnder(names, g, GroupName(names, g)) then before[GroupName(names, g) := Filed(g).value] else before
  {
  }

  /** On success there is an entry for a name exactly when some group files a non-empty list under it. */
  lemma {:induction false} ParseGroupsKeys(names: map<int, string>, groups: seq<RoiContour>, name: string)
    requires ParseGroups(names, groups).Success?
    ensures name in ParseGroups(names, groups).value <==>
      exists j :: 0 <= j < |groups| && FilesUnder(names, groups[j], name)
  {
    if |groups| > 0 {
      var prefix, g := groups[..|groups| - 1], groups[|groups| - 1];
      ParseGroupsLast(names, groups);
      ParseGroupsKeys(names, prefix, name);
      FilesUnderPrefix(names, groups, prefix, name);
      var rois, before := ParseGroups(names, groups).value, ParseGroups(names, prefix).value;
      assert name in rois <==> name in before || FilesUnder(names, g, name);
    }
  }

  /** Some group files under name exactly when one of the prefix does or the last one does. */
  lemma FilesUnderPrefix(names: map<int, string>, groups: seq<RoiContour>, prefix: seq<RoiContour>, name: string)
    requires |groups| > 0 && prefix == groups[..|groups| - 1]
    ensures (exists j :: 0 <= j < |groups| && FilesUnder(names, groups[j], name)) <==>
      (exists j :: 0 <= j < |prefix| && FilesUnder(names, prefix[j], name)) || FilesUnder(names, groups[|groups| - 1], name)
  {
    assert forall j :: 0 <= j < |prefix| ==> prefix[j] == groups[j];
  }

  /** Appending a group that does not file under name keeps the last filing where it was. */
  lemma LastFilingExtend(names: map<int, string>, groups: seq<RoiContour>, j: int, name: string)
    requires |groups| > 0 && LastFiling(names, groups[..|groups| - 1], j, name)
    requires !FilesUnder(names, groups[|groups| - 1], name)
    ensures LastFiling(names, groups, j, name)
  {
    var prefix := groups[..|groups| - 1];
    assert groups[j] == prefix[j];
    forall j' | j < j' < |groups|
      ensures !FilesUnder(names, groups[j'], name)
    {
      if j' < |prefix| {
        assert groups[j'] == prefix[j'];
      }
    }
  }

  /**
   * The entry holds the list of the LAST group filing under that name: a later
   * group with the same name replaces the earlier one, and a group whose
   * contours all lack data adds nothing.
   */
  lemma {:induction false} ParseGroupsValue(names: map<int, string>, groups: seq<RoiContour>, name: string) returns (j: int)
    requires ParseGroups(names, groups).Success?
    requires name in ParseGroups(names, groups).value
    ensures LastFiling(names, groups, j, name)
    ensures ParseGroups(names, groups).value[name] == Filed(groups[j]).value
  {
    assert |groups| > 0;
    var prefix, g := groups[..|groups| - 1], groups[|groups| - 1];
    ParseGroupsLast(names, groups);
    var rois, before := ParseGroups(names, groups).value, ParseGroups(names, prefix).value;
    if FilesUnder(names, g, name) {
      j := |groups| - 1;
      assert rois[name] == Filed(g).value;
    } else {
      assert name in before && rois[name] == before[name];
      j := ParseGroupsValue(names, prefix, name);
      LastFilingExtend(names, groups, j, name);
    }
  }
}
