/**
 * `load_rois_from_rtss`: turns a structure-set record into ROI objects.
 *
 * The record is given as a value (reading the file is not modelled). The
 * functions of this module state what the loader returns; LoadRois is the
 * imperative loader, proved to return exactly that.
 */
module RoiLoader {
  import opened Wrappers
  import opened Records
  import opened Numerics
  import opened Sequences
  import opened Roi

  /** The exceptions that end a load; every other defect of an item only skips that item. */
  datatype LoadError =
    | MissingStructureSetRoiSequence   // no StructureSetROISequence
    | MissingRoiContourSequence        // no ROIContourSequence
    | MissingRoiName                   // a declaration without ROIName (AttributeError)
    | MissingReferencedRoiNumber       // a contour group without ReferencedROINumber (AttributeError)
    | ZeroTolerance                    // z / z_tol with z_tol == 0 (ZeroDivisionError)
    | UndefinedMeanZ                   // empty ContourData: the mean is NaN and round(NaN) raises

  /* ---------- roi_info: ROINumber -> ROIName, an insertion-ordered dict ---------- */

  predicate AllNamed(decls: seq<RoiDeclaration>)
  {
    forall i :: 0 <= i < |decls| ==> decls[i].name.Some?
  }

  /** The keys of `roi_info` in dict order: each number at its first declaration. */
  function DeclaredNumbers(decls: seq<RoiDeclaration>): (order: seq<int>)
    ensures Distinct(order)
    ensures forall n :: n in order <==> exists i :: 0 <= i < |decls| && decls[i].number == n
  {
    var numbers := seq(|decls|, i requires 0 <= i < |decls| => decls[i].number);
    assert forall n :: n in numbers <==> exists i :: 0 <= i < |decls| && decls[i].number == n by {
      assert forall i :: 0 <= i < |decls| ==> numbers[i] == decls[i].number;
      assert forall n :: n in numbers ==> exists i :: 0 <= i < |numbers| && numbers[i] == n;
    }
    Dedup(numbers)
  }

  /** The values of `roi_info`: a later declaration of the same number overwrites the name. */
  function DeclaredNames(decls: seq<RoiDeclaration>): (info: map<int, string>)
    requires AllNamed(decls)
    ensures forall n :: n in info <==> exists i :: 0 <= i < |decls| && decls[i].number == n
  {
    if |decls| == 0 then map[]
    else
      var d := decls[|decls| - 1];
      assert forall i :: 0 <= i < |decls| - 1 ==> decls[..|decls| - 1][i] == decls[i];
      DeclaredNames(decls[..|decls| - 1])[d.number := d.name.value]
  }

  /** `roi_info[n]` is the ROIName of the last declaration of n: a later item overwrites an earlier one. */
  lemma {:induction false} DeclaredNamesValue(decls: seq<RoiDeclaration>, n: int) returns (i: int)
    requires AllNamed(decls) && n in DeclaredNames(decls)
    ensures LastDeclaration(decls, i, n) && DeclaredNames(decls)[n] == decls[i].name.value
  {
    var prefix, d := decls[..|decls| - 1], decls[|decls| - 1];
    if d.number == n {
      i := |decls| - 1;
    } else {
      assert forall j :: 0 <= j < |prefix| ==> decls[j] == prefix[j];
      assert DeclaredNames(decls) == DeclaredNames(prefix)[d.number := d.name.value];
      i := DeclaredNamesValue(prefix, n);
    }
  }

  /** The numbers whose ROI object is created, in `roi_info` order; an empty filter keeps all. */
  function Materialised(order: seq<int>, info: map<int, string>, filter: set<string>): (selected: seq<int>)
    requires forall n :: n in order ==> n in info
    ensures forall n :: n in selected ==> n in order
  {
    if |order| == 0 then []
    else
      var prefix := Materialised(order[..|order| - 1], info, filter);
      var n := order[|order| - 1];
      assert forall m :: m in order[..|order| - 1] ==> m in order;
      if filter == {} || info[n] in filter then prefix + [n] else prefix
  }

  /** Every ROI object starts with an empty `slices` dict. */
  function InitialState(numbers: seq<int>): (state: map<int, Slices>)
    ensures state.Keys == Elements(numbers)
  {
    map n | n in numbers :: map[]
  }

  /* ---------- contour processing ---------- */

  /**
   * The bucket key of a contour: the mean of its z values, snapped to the
   * nearest multiple of z_tol.
   */
  function ContourKey(pts: seq<Point3>, ztol: real): (key: real)
    requires |pts| > 0 && ztol != 0.0
    ensures exists k: int :: key == Multiple(k, ztol)
    ensures var m := Mean(ZValues(pts));
      && m - Abs(ztol) / 2.0 <= key <= m + Abs(ztol) / 2.0
      && forall j: int :: Abs(key - m) <= MultipleGap(j, ztol, m)
  {
    var m := Mean(ZValues(pts));
    var k := RoundHalfEven(m / ztol);
    NearestMultiple(m, ztol, k);
    Multiple(k, ztol)
  }

  /** A contour that raises: its data reshapes into triples, but there is no z_tol to divide by or no point to average. */
  predicate FatalContour(c: Contour, ztol: real)
  {
    c.data.Some? && |c.data.value| % 3 == 0 && (ztol == 0.0 || |c.data.value| == 0)
  }

  /** One item of a ContourSequence applied to its ROI's `slices`. */
  function ApplyContour(slices: Slices, c: Contour, ztol: real, ops: GeometryOps): (r: Result<Slices, LoadError>)
    ensures r.Failure? <==> FatalContour(c, ztol)
  {
    match c.data
    case None => Success(slices)
    case Some(d) =>
      if |d| % 3 != 0 then Success(slices)
      else if ztol == 0.0 then Failure(ZeroTolerance)
      else if |d| == 0 then Failure(UndefinedMeanZ)
      else
        var pts := Triples(d);
        Success(WithPolygon(slices, ContourKey(pts, ztol), PlanarPart(pts), ops))
  }

  function ApplyContours(slices: Slices, cs: seq<Contour>, ztol: real, ops: GeometryOps): Result<Slices, LoadError>
  {
    if |cs| == 0 then Success(slices)
    else
      match ApplyContours(slices, cs[..|cs| - 1], ztol, ops)
      case Failure(e) => Failure(e)
      case Success(s) => ApplyContour(s, cs[|cs| - 1], ztol, ops)
  }

  /** One item of ROIContourSequence applied to the dict of ROI objects. */
  function ApplyGroup(state: map<int, Slices>, g: RoiContour, ztol: real, ops: GeometryOps)
    : Result<map<int, Slices>, LoadError>
  {
    match g.referencedNumber
    case None => Failure(MissingReferencedRoiNumber)
    case Some(n) =>
      if n !in state || g.contours.None? then Success(state)
      else
        match ApplyContours(state[n], g.contours.value, ztol, ops)
        case Failure(e) => Failure(e)
        case Success(s) => Success(state[n := s])
  }

  function ApplyGroups(state: map<int, Slices>, gs: seq<RoiContour>, ztol: real, ops: GeometryOps)
    : Result<map<int, Slices>, LoadError>
  {
    if |gs| == 0 then Success(state)
    else
      match ApplyGroups(state, gs[..|gs| - 1], ztol, ops)
      case Failure(e) => Failure(e)
      case Success(s) => ApplyGroup(s, gs[|gs| - 1], ztol, ops)
  }

  /** `[roi for roi in rois.values() if len(roi.slices) > 0]`. */
  function ValidRois(numbers: seq<int>, info: map<int, string>, state: map<int, Slices>): seq<RoiData>
    requires forall n :: n in numbers ==> n in info && n in state
  {
    if |numbers| == 0 then []
    else
      var prefix := ValidRois(numbers[..|numbers| - 1], info, state);
      var n := numbers[|numbers| - 1];
      if |state[n]| > 0 then prefix + [RoiData(n, info[n], state[n])] else prefix
  }

  /** What `load_rois_from_rtss(ds, z_tol, filter)` returns or raises. */
  function Load(ds: StructureSet, ztol: real, filter: set<string>, ops: GeometryOps): (r: Result<seq<RoiData>, LoadError>)
    ensures r.Success? ==> ds.roiDeclarations.Some? && ds.roiContours.Some? && AllNamed(ds.roiDeclarations.value)
    ensures r.Success? ==> forall x :: x in r.value ==> |x.slices| > 0
  {
    if ds.roiDeclarations.None? then Failure(MissingStructureSetRoiSequence)
    else if ds.roiContours.None? then Failure(MissingRoiContourSequence)
    else if !AllNamed(ds.roiDeclarations.value) then Failure(MissingRoiName)
    else
      var decls := ds.roiDeclarations.value;
      var info := DeclaredNames(decls);
      var selected := SelectedNumbers(decls, filter);
      match ApplyGroups(InitialState(selected), ds.roiContours.value, ztol, ops)
      case Failure(e) => Failure(e)
      case Success(state) =>
        assert forall n :: n in selected ==> n in state by {
          ApplyGroupsKeys(InitialState(selected), ds.roiContours.value, ztol, ops);
          MaterialisedSubsequence(DeclaredNumbers(decls), info, filter);
          SubsequenceOfDistinct(selected, DeclaredNumbers(decls));
        }
        ValidRoisMembers(selected, info, state);
        Success(ValidRois(selected, info, state))
  }

  /* ---------- lemmas ---------- */

  lemma {:induction false} MaterialisedSubsequence(order: seq<int>, info: map<int, string>, filter: set<string>)
    requires forall n :: n in order ==> n in info
    ensures IsSubsequence(Materialised(order, info, filter), order)
    ensures forall n :: n in Materialised(order, info, filter) ==> filter == {} || info[n] in filter
    ensures forall n :: n in order && (filter == {} || info[n] in filter) ==> n in Materialised(order, info, filter)
  {
    if |order| > 0 {
      var order' := order[..|order| - 1];
      var n := order[|order| - 1];
      assert order == order' + [n];
      MaterialisedSubsequence(order', info, filter);
      var prefix := Materialised(order', info, filter);
      if filter == {} || info[n] in filter {
        SubsequenceAppendBoth(prefix, order', n);
      } else {
        SubsequenceExtend(prefix, order', n);
      }
    }
  }

  lemma {:induction false} ApplyContoursKeepsLevels(slices: Slices, cs: seq<Contour>, ztol: real, ops: GeometryOps)
    requires NoEmptyLevel(slices)
    ensures ApplyContours(slices, cs, ztol, ops).Success? ==> NoEmptyLevel(ApplyContours(slices, cs, ztol, ops).value)
  {
    if |cs| > 0 {
      ApplyContoursKeepsLevels(slices, cs[..|cs| - 1], ztol, ops);
      match ApplyContours(slices, cs[..|cs| - 1], ztol, ops)
      case Failure(_) =>
      case Success(s) =>
        var c := cs[|cs| - 1];
        if c.data.Some? && |c.data.value| % 3 == 0 && ztol != 0.0 && |c.data.value| != 0 {
          var pts := Triples(c.data.value);
          AddPolygonEffect(s, ContourKey(pts, ztol), PlanarPart(pts), ops);
        }
    }
  }

  /** Contour groups never add or remove ROI objects. */
  lemma {:induction false} ApplyGroupsKeys(state: map<int, Slices>, gs: seq<RoiContour>, ztol: real, ops: GeometryOps)
    ensures ApplyGroups(state, gs, ztol, ops).Success? ==> ApplyGroups(state, gs, ztol, ops).value.Keys == state.Keys
  {
    if |gs| > 0 {
      ApplyGroupsKeys(state, gs[..|gs| - 1], ztol, ops);
    }
  }

  predicate AllLevelsFilled(state: map<int, Slices>)
  {
    forall n :: n in state ==> NoEmptyLevel(state[n])
  }

  /** Contour groups never leave an empty z level behind. */
  lemma {:induction false} ApplyGroupsKeepsLevels(state: map<int, Slices>, gs: seq<RoiContour>, ztol: real, ops: GeometryOps)
    requires AllLevelsFilled(state)
    ensures ApplyGroups(state, gs, ztol, ops).Success? ==> AllLevelsFilled(ApplyGroups(state, gs, ztol, ops).value)
  {
    if |gs| > 0 {
      ApplyGroupsKeepsLevels(state, gs[..|gs| - 1], ztol, ops);
      match ApplyGroups(state, gs[..|gs| - 1], ztol, ops)
      case Failure(_) =>
      case Success(s) =>
        var g := gs[|gs| - 1];
        assert AllLevelsFilled(s);
        if g.referencedNumber.Some? && g.referencedNumber.value in s && g.contours.Some? {
          var n := g.referencedNumber.value;
          assert NoEmptyLevel(s[n]);
          ApplyContoursKeepsLevels(s[n], g.contours.value, ztol, ops);
        }
    }
  }

  lemma {:induction false} ValidRoisMembers(numbers: seq<int>, info: map<int, string>, state: map<int, Slices>)
    requires forall n :: n in numbers ==> n in info && n in state
    ensures forall r :: r in ValidRois(numbers, info, state) ==>
      r.number in numbers && r.name == info[r.number] && r.slices == state[r.number] && |r.slices| > 0
  {
    if |numbers| > 0 {
      var numbers' := numbers[..|numbers| - 1];
      assert forall m :: m in numbers' ==> m in numbers;
      ValidRoisMembers(numbers', info, state);
    }
  }

  lemma {:induction false} ValidRoisComplete(numbers: seq<int>, info: map<int, string>, state: map<int, Slices>)
    requires forall n :: n in numbers ==> n in info && n in state
    ensures forall n :: n in numbers && |state[n]| > 0 ==> RoiData(n, info[n], state[n]) in ValidRois(numbers, info, state)
  {
    if |numbers| > 0 {
      var numbers' := numbers[..|numbers| - 1];
      assert numbers == numbers' + [numbers[|numbers| - 1]];
      ValidRoisComplete(numbers', info, state);
    }
  }

  lemma {:induction false} ValidRoisOrder(numbers: seq<int>, info: map<int, string>, state: map<int, Slices>)
    requires forall n :: n in numbers ==> n in info && n in state
    ensures IsSubsequence(Numbers(ValidRois(numbers, info, state)), numbers)
  {
    if |numbers| > 0 {
      var numbers' := numbers[..|numbers| - 1];
      var n := numbers[|numbers| - 1];
      assert numbers == numbers' + [n];
      ValidRoisOrder(numbers', info, state);
      var prefix := ValidRois(numbers', info, state);
      if |state[n]| > 0 {
        assert Numbers(prefix + [RoiData(n, info[n], state[n])]) == Numbers(prefix) + [n];
        SubsequenceAppendBoth(Numbers(prefix), numbers', n);
      } else {
        SubsequenceExtend(Numbers(prefix), numbers', n);
      }
    }
  }

  function Numbers(rs: seq<RoiData>): (ns: seq<int>)
    ensures |ns| == |rs| && forall i :: 0 <= i < |rs| ==> ns[i] == rs[i].number
  {
    seq(|rs|, i requires 0 <= i < |rs| => rs[i].number)
  }

  /**
   * What a successful load returns: only ROIs that passed the name filter,
   * each holding at least one z level and no empty level, each named by the
   * declaration of its number, in `roi_info` order without repetition, each
   * holding the slices the contour loop built for it; and every ROI object
   * the loop left with a polygon is there.
   */
  lemma LoadedRois(ds: StructureSet, ztol: real, filter: set<string>, ops: GeometryOps)
    requires Load(ds, ztol, filter, ops).Success?
    ensures var rs := Load(ds, ztol, filter, ops).value;
      var decls := ds.roiDeclarations.value;
      && (forall r :: r in rs ==> |r.slices| > 0 && NoEmptyLevel(r.slices))
      && (forall r :: r in rs ==> filter == {} || r.name in filter)
      && (forall r :: r in rs ==> r.number in DeclaredNames(decls) && r.name == DeclaredNames(decls)[r.number])
      && IsSubsequence(Numbers(rs), DeclaredNumbers(decls))
      && Distinct(Numbers(rs))
  ensures var rs := Load(ds, ztol, filter, ops).value;
      var decls := ds.roiDeclarations.value;
      var selected := SelectedNumbers(decls, filter);
      var applied := ApplyGroups(InitialState(selected), ds.roiContours.value, ztol, ops);
      && applied.Success?
      && (forall r :: r in rs ==> r.number in applied.value && r.slices == applied.value[r.number])
      && (forall n :: n in selected && n in applied.value && |applied.value[n]| > 0 ==>
            RoiData(n, DeclaredNames(decls)[n], applied.value[n]) in rs)
  {
    var decls := ds.roiDeclarations.value;
    var info := DeclaredNames(decls);
    var order := DeclaredNumbers(decls);
    var selected := Materialised(order, info, filter);
    var init := InitialState(selected);
    var state := ApplyGroups(init, ds.roiContours.value, ztol, ops).value;
    MaterialisedSubsequence(order, info, filter);
    SubsequenceOfDistinct(selected, order);
    ApplyGroupsKeys(init, ds.roiContours.value, ztol, ops);
    ApplyGroupsKeepsLevels(init, ds.roiContours.value, ztol, ops);
    ValidRoisMembers(selected, info, state);
    ValidRoisOrder(selected, info, state);
    ValidRoisComplete(selected, info, state);
    var rs := ValidRois(selected, info, state);
    SubsequenceOfDistinct(Numbers(rs), selected);
    assert IsSubsequence(Numbers(rs), order) by {
      SubsequenceTransitive(Numbers(rs), selected, order);
    }
    SubsequenceOfDistinct(Numbers(rs), order);
    forall r | r in rs
      ensures NoEmptyLevel(r.slices)
    {
      assert r.slices == state[r.number];
    }
  }

  lemma {:induction false} SubsequenceTransitive(a: seq<int>, b: seq<int>, c: seq<int>)
    requires IsSubsequence(a, b) && IsSubsequence(b, c)
    ensures IsSubsequence(a, c)
    decreases |c|
  {
    if |a| > 0 {
      var c' := c[..|c| - 1];
      if b[|b| - 1] == c[|c| - 1] {
        if a[|a| - 1] == b[|b| - 1] {
          SubsequenceTransitive(a[..|a| - 1], b[..|b| - 1], c');
        } else {
          SubsequenceTransitive(a, b[..|b| - 1], c');
        }
      } else {
        SubsequenceTransitive(a, b, c');
        assert IsSubsequence(a, c') ==> IsSubsequence(a, c) by {
          if IsSubsequence(a, c') {
            assert c == c' + [c[|c| - 1]];
            SubsequenceExtend(a, c', c[|c| - 1]);
          }
        }
      }
    }
  }

  /** The per-ROI-object part of the load: the groups it applies and the numbers it skips. */
  function SelectedNumbers(decls: seq<RoiDeclaration>, filter: set<string>): seq<int>
    requires AllNamed(decls)
  {
    Materialised(DeclaredNumbers(decls), DeclaredNames(decls), filter)
  }

  /**
   * A group that raises: one without ReferencedROINumber (read before the
   * lookup), or one whose ROI object exists, that has a ContourSequence and
   * holds a fatal contour. Groups of unknown or filtered-out numbers and
   * groups without ContourSequence are skipped before their contours are read.
   */
  predicate FatalGroup(keys: set<int>, g: RoiContour, ztol: real)
  {
    || g.referencedNumber.None?
    || (g.referencedNumber.value in keys && g.contours.Some?
        && exists c :: c in g.contours.value && FatalContour(c, ztol))
  }

  /** The problems that end a load: with none of them present, and only then, the load succeeds. */
  predicate NoFatalItem(ds: StructureSet, ztol: real, filter: set<string>)
  {
    && ds.roiDeclarations.Some? && ds.roiContours.Some?
    && AllNamed(ds.roiDeclarations.value)
    && var keys := Elements(SelectedNumbers(ds.roiDeclarations.value, filter));
       forall g :: g in ds.roiContours.value ==> !FatalGroup(keys, g, ztol)
  }

  /** A contour sequence fails exactly when one of its contours is fatal. */
  lemma {:induction false} ApplyContoursFails(slices: Slices, cs: seq<Contour>, ztol: real, ops: GeometryOps)
    ensures ApplyContours(slices, cs, ztol, ops).Failure? <==> exists c :: c in cs && FatalContour(c, ztol)
  {
    if |cs| > 0 {
      var prefix, c := cs[..|cs| - 1], cs[|cs| - 1];
      assert cs == prefix + [c];
      ApplyContoursFails(slices, prefix, ztol, ops);
      assert forall d :: d in cs <==> d in prefix || d == c;
    }
  }

  /** A group sequence fails exactly when one of its groups is fatal for the ROI objects present. */
  lemma {:induction false} ApplyGroupsFails(state: map<int, Slices>, gs: seq<RoiContour>, ztol: real, ops: GeometryOps)
    ensures ApplyGroups(state, gs, ztol, ops).Failure? <==> exists g :: g in gs && FatalGroup(state.Keys, g, ztol)
  {
    if |gs| > 0 {
      var prefix, g := gs[..|gs| - 1], gs[|gs| - 1];
      assert gs == prefix + [g];
      assert forall h :: h in gs <==> h in prefix || h == g;
      ApplyGroupsFails(state, prefix, ztol, ops);
      ApplyGroupsKeys(state, prefix, ztol, ops);
      var r := ApplyGroups(state, prefix, ztol, ops);
      assert (exists h :: h in gs && FatalGroup(state.Keys, h, ztol)) <==>
        (exists h :: h in prefix && FatalGroup(state.Keys, h, ztol)) || FatalGroup(state.Keys, g, ztol);
      if r.Success? && g.referencedNumber.Some? {
        var n := g.referencedNumber.value;
        if n in r.value && g.contours.Some? {
          ApplyContoursFails(r.value[n], g.contours.value, ztol, ops);
        }
      }
    }
  }

  /**
   * Skipped items never abort the load: unknown or filtered-out ROI numbers,
   * groups without ContourSequence, contours without ContourData and
   * ContourData that does not reshape into triples all leave it successful;
   * everything else listed by NoFatalItem aborts it.
   */
  lemma LoadSucceeds(ds: StructureSet, ztol: real, filter: set<string>, ops: GeometryOps)
    ensures Load(ds, ztol, filter, ops).Success? <==> NoFatalItem(ds, ztol, filter)
  {
    if ds.roiDeclarations.Some? && ds.roiContours.Some? && AllNamed(ds.roiDeclarations.value) {
      var selected := SelectedNumbers(ds.roiDeclarations.value, filter);
      ApplyGroupsFails(InitialState(selected), ds.roiContours.value, ztol, ops);
    }
  }

  /** A planar contour whose plane lies on the tolerance grid is keyed by that plane. */
  lemma ContourKeyOfPlanarContour(pts: seq<Point3>, ztol: real, k: int)
    requires |pts| > 0 && ztol != 0.0
    requires forall i :: 0 <= i < |pts| ==> pts[i].z == k as real * ztol
    ensures ContourKey(pts, ztol) == k as real * ztol
  {
    var c := k as real * ztol;
    MeanBounds(ZValues(pts), c, c);
    assert Mean(ZValues(pts)) / ztol == k as real;
  }

  /* ---------- the imperative loader ---------- */

  function SlicesOf(rois: map<int, ROI>): (state: map<int, Slices>)
    reads rois.Values
    ensures state.Keys == rois.Keys
  {
    map n | n in rois :: rois[n].slices
  }

  lemma {:induction false} ApplyContoursFailurePersists(slices: Slices, cs: seq<Contour>, k: nat, ztol: real, ops: GeometryOps)
    requires k <= |cs| && ApplyContours(slices, cs[..k], ztol, ops).Failure?
    ensures ApplyContours(slices, cs, ztol, ops) == ApplyContours(slices, cs[..k], ztol, ops)
    decreases |cs| - k
  {
    if k < |cs| {
      assert cs[..k + 1][..k] == cs[..k];
      ApplyContoursFailurePersists(slices, cs, k + 1, ztol, ops);
    } else {
      assert cs[..k] == cs;
    }
  }

  lemma {:induction false} ApplyGroupsFailurePersists(state: map<int, Slices>, gs: seq<RoiContour>, k: nat, ztol: real, ops: GeometryOps)
    requires k <= |gs| && ApplyGroups(state, gs[..k], ztol, ops).Failure?
    ensures ApplyGroups(state, gs, ztol, ops) == ApplyGroups(state, gs[..k], ztol, ops)
    decreases |gs| - k
  {
    if k < |gs| {
      assert gs[..k + 1][..k] == gs[..k];
      ApplyGroupsFailurePersists(state, gs, k + 1, ztol, ops);
    } else {
      assert gs[..k] == gs;
    }
  }

  /** `{num: ROI(num, roi_info[num]) for num in numbers}`: one fresh, empty ROI object per number. */
  method NewRois(numbers: seq<int>, info: map<int, string>) returns (rois: map<int, ROI>)
    requires forall n :: n in numbers ==> n in info
    ensures rois.Keys == Elements(numbers)
    ensures forall n :: n in rois ==> fresh(rois[n]) && rois[n].number == n && rois[n].name == info[n]
    ensures SlicesOf(rois) == InitialState(numbers)
    ensures forall a, b :: a in rois && b in rois && a != b ==> rois[a] != rois[b]
  {
    rois := map[];
    var i := 0;
    while i < |numbers|
      invariant 0 <= i <= |numbers|
      invariant rois.Keys == Elements(numbers[..i])
      invariant forall n :: n in rois ==> n in info
      invariant forall n :: n in rois ==> fresh(rois[n]) && rois[n].number == n && rois[n].name == info[n]
      invariant forall n :: n in rois ==> rois[n].slices == map[]
      invariant forall a, b :: a in rois && b in rois && a != b ==> rois[a] != rois[b]
    {
      var n := numbers[i];
      assert numbers[..i + 1] == numbers[..i] + [n];
      var roi := new ROI(n, info[n]);
      rois := rois[n := roi];
      i := i + 1;
    }
    assert numbers[..i] == numbers;
  }

  /** The body of the inner loop: one item of a ContourSequence added to `roi`, or the error it raises. */
  method AddContour(roi: ROI, contour: Contour, ztol: real, ops: GeometryOps) returns (err: Option<LoadError>)
    modifies roi
    ensures err.None? ==> ApplyContour(old(roi.slices), contour, ztol, ops) == Success(roi.slices)
    ensures err.Some? ==> ApplyContour(old(roi.slices), contour, ztol, ops) == Failure(err.value)
  {
    if contour.data.None? {
      return None;
    }
    var d := contour.data.value;
    if |d| % 3 != 0 {
      return None;
    }
    if ztol == 0.0 || |d| == 0 {
      return Some(if ztol == 0.0 then ZeroTolerance else UndefinedMeanZ);
    }
    var pts := Triples(d);
    var z := ContourKey(pts, ztol);
    roi.AddPolygon(z, PlanarPart(pts), ops);
    return None;
  }

  /** The inner loop over one group's ContourSequence, adding every usable contour to `roi`. */
  method AddContours(roi: ROI, cs: seq<Contour>, ztol: real, ops: GeometryOps) returns (err: Option<LoadError>)
    modifies roi
    ensures err.None? ==> ApplyContours(old(roi.slices), cs, ztol, ops) == Success(roi.slices)
    ensures err.Some? ==> ApplyContours(old(roi.slices), cs, ztol, ops) == Failure(err.value)
  {
    var c := 0;
    while c < |cs|
      invariant 0 <= c <= |cs|
      invariant ApplyContours(old(roi.slices), cs[..c], ztol, ops) == Success(roi.slices)
    {
      assert cs[..c + 1][..c] == cs[..c];
      assert cs[..c + 1][c] == cs[c];
      err := AddContour(roi, cs[c], ztol, ops);
      if err.Some? {
        ApplyContoursFailurePersists(old(roi.slices), cs, c + 1, ztol, ops);
        return;
      }
      c := c + 1;
    }
    assert cs[..c] == cs;
    err := None;
  }

  /** The loop over ROIContourSequence, applied to the ROI objects in `rois`. */
  method AddGroups(rois: map<int, ROI>, groups: seq<RoiContour>, ztol: real, ops: GeometryOps)
    returns (err: Option<LoadError>)
    requires forall a, b :: a in rois && b in rois && a != b ==> rois[a] != rois[b]
    modifies rois.Values
    ensures err.None? ==> ApplyGroups(old(SlicesOf(rois)), groups, ztol, ops) == Success(SlicesOf(rois))
    ensures err.Some? ==> ApplyGroups(old(SlicesOf(rois)), groups, ztol, ops) == Failure(err.value)
  {
    ghost var init := old(SlicesOf(rois));
    var g := 0;
    while g < |groups|
      invariant 0 <= g <= |groups|
      invariant ApplyGroups(init, groups[..g], ztol, ops) == Success(SlicesOf(rois))
    {
      var group := groups[g];
      assert groups[..g + 1][..g] == groups[..g];
      assert groups[..g + 1][g] == group;
      if group.referencedNumber.None? {
        ApplyGroupsFailurePersists(init, groups, g + 1, ztol, ops);
        return Some(MissingReferencedRoiNumber);
      }
      var n := group.referencedNumber.value;
      if n in rois && group.contours.Some? {
        ghost var before := SlicesOf(rois);
        var e := AddContours(rois[n], group.contours.value, ztol, ops);
        if e.Some? {
          ApplyGroupsFailurePersists(init, groups, g + 1, ztol, ops);
          return e;
        }
        forall m | m in rois && m != n
          ensures rois[m].slices == before[m]
        {
          assert rois[m] != rois[n];
        }
        assert SlicesOf(rois) == before[n := rois[n].slices];
      }
      g := g + 1;
    }
    assert groups[..g] == groups;
    return None;
  }

  /** `[roi for roi in rois.values() if len(roi.slices) > 0]`, in the dict's order `numbers`. */
  method NonEmptyRois(numbers: seq<int>, info: map<int, string>, rois: map<int, ROI>) returns (valid: seq<ROI>)
    requires Elements(numbers) == rois.Keys
    requires forall n :: n in rois ==> n in info && rois[n].number == n && rois[n].name == info[n]
    ensures Values(valid) == ValidRois(numbers, info, SlicesOf(rois))
  {
    valid := [];
    var i := 0;
    while i < |numbers|
      invariant 0 <= i <= |numbers|
      invariant Values(valid) == ValidRois(numbers[..i], info, SlicesOf(rois))
    {
      var n := numbers[i];
      assert numbers[..i + 1][..i] == numbers[..i];
      if |rois[n].slices| > 0 {
        valid := valid + [rois[n]];
      }
      i := i + 1;
    }
    assert numbers[..i] == numbers;
  }

  /** `load_rois_from_rtss(ds, z_tol, roi_names_filter)`; an empty filter stands for None. */
  method LoadRois(ds: StructureSet, ztol: real, filter: set<string>, ops: GeometryOps)
    returns (res: Result<seq<ROI>, LoadError>)
    ensures ds.roiDeclarations.None? ==> res == Failure(MissingStructureSetRoiSequence)
    ensures ds.roiDeclarations.Some? && ds.roiContours.None? ==> res == Failure(MissingRoiContourSequence)
    ensures res.Success? <==> Load(ds, ztol, filter, ops).Success?
    ensures res.Failure? ==> res.error == Load(ds, ztol, filter, ops).error
    ensures res.Success? ==> Values(res.value) == Load(ds, ztol, filter, ops).value
  {
    if ds.roiDeclarations.None? {
      return Failure(MissingStructureSetRoiSequence);
    }
    if ds.roiContours.None? {
      return Failure(MissingRoiContourSequence);
    }
    var decls := ds.roiDeclarations.value;
    if exists i :: 0 <= i < |decls| && decls[i].name.None? {
      return Failure(MissingRoiName);
    }
    var info := DeclaredNames(decls);
    var selected := Materialised(DeclaredNumbers(decls), info, filter);
    var rois := NewRois(selected, info);
    var err := AddGroups(rois, ds.roiContours.value, ztol, ops);
    if err.Some? {
      return Failure(err.value);
    }
    var valid := NonEmptyRois(selected, info, rois);
    return Success(valid);
  }
}
