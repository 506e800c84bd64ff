/**
  The attribute-mask vocabulary of a MeshLab mesh model.

  Two independent flag vocabularies exist: the internal `MM` attribute bits kept in a
  mesh model's current data mask, and the `IOM` bits that file importers and exporters
  report.  A mask is the set of its bits, so the empty set is `MM_NONE` / `IOM_NONE`,
  union is `|` and set difference is `& ~`.  The numeric values of the flags live in
  headers that are not part of this model; only their distinctness matters here.

  The optional per-vertex and per-face storage of the mesh is modelled as the set of
  buffer kinds that are currently enabled in the vertex store and in the face store.
  Which buffer stores which attribute bit is given by `VertBit` and `FaceBit`; the
  enable, disable and resynchronisation paths of the mesh model cover slightly different
  parts of those tables, and that difference is made explicit.
*/
module DataMask {
  import opened Wrappers

  /** The internal attribute bits (MM_*) that the mesh model's source file uses.
      `Other(id)` stands for every bit of that vocabulary the file does not name. */
  datatype MM =
    | VertCoord | VertNormal | VertFlag | VertColor | VertQuality | VertMark
    | VertFaceTopo | VertCurv | VertCurvDir | VertRadius | VertTexCoord
    | FaceVert | FaceNormal | FaceFlag | FaceColor | FaceQuality | FaceMark
    | FaceFaceTopo | FaceCurvDir
    | WedgTexCoord | WedgNormal | WedgColor
    | Polygonal | Camera
    | Other(id: nat)

  /** The file-format bits (IOM_*).  `Other(id)` stands for every flag of that
      vocabulary that the mesh model's source file does not name. */
  datatype IOM =
    | VertCoord | VertFlags | VertColor | VertQuality | VertNormal | VertTexCoord | VertRadius
    | FaceIndex | FaceFlags | FaceColor | FaceQuality | FaceNormal
    | WedgTexCoord | WedgColor | WedgNormal
    | BitPolygonal | Camera
    | Other(id: nat)

  type Mask = set<MM>
  type FileMask = set<IOM>

  /** The attributes that are always present on a mesh: set by `clear`. */
  const Baseline: Mask :=
    {MM.VertCoord, MM.VertNormal, MM.VertFlag, MM.FaceVert, MM.FaceNormal, MM.FaceFlag}

  /** True iff `f` is one of the I/O flags the translator's switch has a case for. */
  predicate Translatable(f: IOM) {
    !f.Camera? && !f.Other?
  }

  /**
    `io2mm`: translate the I/O mask that holds a single flag into the internal mask
    holding its counterpart.  `None` is the `assert(0)` path of the switch: a
    combination of flags, a flag the switch does not name (IOM_CAMERA among them)
    or any other value.
  */
  function Io2mm(singleIoBit: FileMask): (r: Option<Mask>)
    ensures singleIoBit == {} <==> r == Some({})
    ensures r.Some? ==> |r.value| == |singleIoBit| <= 1
    ensures r.Some? ==> forall f :: f in singleIoBit ==> Translatable(f)
    ensures |singleIoBit| >= 2 ==> r.None?
  {
    if singleIoBit == {} then Some({})
    else if |singleIoBit| >= 2 then None
    else
      var f :| f in singleIoBit;
      SingletonIs(singleIoBit, f);
      match SwitchCase(f)
      case Some(b) => Some({b})
      case None => None
  }

  /** A set of one element that holds `f` is `{f}`. */
  lemma SingletonIs<T>(s: set<T>, f: T)
    requires |s| == 1 && f in s
    ensures s == {f}
  {
    var rest := s - {f};
    assert s == rest + {f};
    assert |rest| == 0;
    assert rest == {};
  }

  /** The case of the switch for one flag: its counterpart, or `None` for a flag the
      switch does not name. */
  function SwitchCase(f: IOM): (r: Option<MM>)
    ensures r.Some? <==> Translatable(f)
  {
    match f
    case VertCoord => Some(MM.VertCoord)
    case VertColor => Some(MM.VertColor)
    case VertFlags => Some(MM.VertFlag)
    case VertQuality => Some(MM.VertQuality)
    case VertNormal => Some(MM.VertNormal)
    case VertTexCoord => Some(MM.VertTexCoord)
    case VertRadius => Some(MM.VertRadius)
    case FaceIndex => Some(MM.FaceVert)
    case FaceFlags => Some(MM.FaceFlag)
    case FaceColor => Some(MM.FaceColor)
    case FaceQuality => Some(MM.FaceQuality)
    case FaceNormal => Some(MM.FaceNormal)
    case WedgTexCoord => Some(MM.WedgTexCoord)
    case WedgColor => Some(MM.WedgColor)
    case WedgNormal => Some(MM.WedgNormal)
    case BitPolygonal => Some(MM.Polygonal)
    case _ => None
  }

  /** The I/O flag the switch translates into `b`, if any: the inverse of `SwitchCase`. */
  function Mm2io(b: MM): (r: Option<IOM>)
    ensures forall f :: SwitchCase(f) == Some(b) <==> r == Some(f)
  {
    match b
    case VertCoord => Some(IOM.VertCoord)
    case VertColor => Some(IOM.VertColor)
    case VertFlag => Some(IOM.VertFlags)
    case VertQuality => Some(IOM.VertQuality)
    case VertNormal => Some(IOM.VertNormal)
    case VertTexCoord => Some(IOM.VertTexCoord)
    case VertRadius => Some(IOM.VertRadius)
    case FaceVert => Some(IOM.FaceIndex)
    case FaceFlag => Some(IOM.FaceFlags)
    case FaceColor => Some(IOM.FaceColor)
    case FaceQuality => Some(IOM.FaceQuality)
    case FaceNormal => Some(IOM.FaceNormal)
    case WedgTexCoord => Some(IOM.WedgTexCoord)
    case WedgColor => Some(IOM.WedgColor)
    case WedgNormal => Some(IOM.WedgNormal)
    case Polygonal => Some(IOM.BitPolygonal)
    case _ => None
  }

  /** Every flag the switch names is translated (no fault on a recognised flag) into the
      single bit of its case. */
  lemma Io2mmTotal(f: IOM)
    requires Translatable(f)
    ensures Io2mm({f}) == Some({SwitchCase(f).value})
  {
  }

  /** IOM_CAMERA and every flag the switch does not name fall into `assert(0)`. */
  lemma Io2mmFaults(f: IOM)
    requires !Translatable(f)
    ensures Io2mm({f}).None?
  {
  }

  /** Distinct recognised flags have distinct counterparts: the translation is one-to-one. */
  lemma Io2mmInjective(f: IOM, g: IOM)
    requires Translatable(f) && Translatable(g)
    requires Io2mm({f}) == Io2mm({g})
    ensures f == g
  {
    Io2mmTotal(f);
    Io2mmTotal(g);
    assert SwitchCase(g).value in {SwitchCase(f).value};
  }

  // ---------------------------------------------------------------------------
  // Storage of the optional attributes
  // ---------------------------------------------------------------------------

  /** Optional per-vertex buffers of the mesh's vertex store. */
  datatype VertBuf = VFAdjacency | Mark | Curvature | CurvatureDir | Radius | TexCoord

  /** Optional per-face buffers of the mesh's face store. */
  datatype FaceBuf = FFAdjacency | VFAdjacency | WedgeTexCoord | Color | Quality | CurvatureDir | Mark

  /** The attribute bit a vertex buffer stores. */
  function VertBit(x: VertBuf): MM {
    match x
    case VFAdjacency => MM.VertFaceTopo
    case Mark => MM.VertMark
    case Curvature => MM.VertCurv
    case CurvatureDir => MM.VertCurvDir
    case Radius => MM.VertRadius
    case TexCoord => MM.VertTexCoord
  }

  /** The attribute bit a face buffer stores.  Vertex-face adjacency lives in both stores. */
  function FaceBit(x: FaceBuf): MM {
    match x
    case FFAdjacency => MM.FaceFaceTopo
    case VFAdjacency => MM.VertFaceTopo
    case WedgeTexCoord => MM.WedgTexCoord
    case Color => MM.FaceColor
    case Quality => MM.FaceQuality
    case CurvatureDir => MM.FaceCurvDir
    case Mark => MM.FaceMark
  }

  /** The vertex buffer that stores `b`, if any: the inverse of `VertBit`. */
  function VertBufFor(b: MM): (r: Option<VertBuf>)
    ensures forall x :: VertBit(x) == b <==> r == Some(x)
  {
    match b
    case VertFaceTopo => Some(VertBuf.VFAdjacency)
    case VertMark => Some(VertBuf.Mark)
    case VertCurv => Some(VertBuf.Curvature)
    case VertCurvDir => Some(VertBuf.CurvatureDir)
    case VertRadius => Some(VertBuf.Radius)
    case VertTexCoord => Some(VertBuf.TexCoord)
    case _ => None
  }

  /** The face buffer that stores `b`, if any: the inverse of `FaceBit`. */
  function FaceBufFor(b: MM): (r: Option<FaceBuf>)
    ensures forall x :: FaceBit(x) == b <==> r == Some(x)
  {
    match b
    case FaceFaceTopo => Some(FaceBuf.FFAdjacency)
    case VertFaceTopo => Some(FaceBuf.VFAdjacency)
    case WedgTexCoord => Some(FaceBuf.WedgeTexCoord)
    case FaceColor => Some(FaceBuf.Color)
    case FaceQuality => Some(FaceBuf.Quality)
    case FaceCurvDir => Some(FaceBuf.CurvatureDir)
    case FaceMark => Some(FaceBuf.Mark)
    case _ => None
  }

  /** `updateDataMask(int)` has an enable call for every vertex buffer except curvature. */
  predicate VertEnablePath(x: VertBuf) {
    x != VertBuf.Curvature
  }

  /** `clearDataMask` has a disable call for every face buffer except curvature direction. */
  predicate FaceDisablePath(x: FaceBuf) {
    x != FaceBuf.CurvatureDir
  }

  /** One `if (test) enable…()` of the source: add `x` when `c` holds. */
  function AddIf<T>(s: set<T>, c: bool, x: T): set<T> {
    if c then s + {x} else s
  }

  /** One `if (test) disable…()` of the source: remove `x` when `c` holds. */
  function RemoveIf<T>(s: set<T>, c: bool, x: T): set<T> {
    if c then s - {x} else s
  }

  // The next four functions are the stores as the update methods leave them, written as
  // the methods' own sequence of tests; the lemma after each states which buffers that is.

  /** The face store after `updateDataMask(needed)`. */
  function EnabledFace(face: set<FaceBuf>, needed: Mask): set<FaceBuf> {
    var f := AddIf(face, MM.FaceFaceTopo in needed, FaceBuf.FFAdjacency);
    var f := AddIf(f, MM.VertFaceTopo in needed, FaceBuf.VFAdjacency);
    var f := AddIf(f, MM.WedgTexCoord in needed, FaceBuf.WedgeTexCoord);
    var f := AddIf(f, MM.FaceColor in needed, FaceBuf.Color);
    var f := AddIf(f, MM.FaceQuality in needed, FaceBuf.Quality);
    var f := AddIf(f, MM.FaceCurvDir in needed, FaceBuf.CurvatureDir);
    AddIf(f, MM.FaceMark in needed, FaceBuf.Mark)
  }

  /** `updateDataMask(needed)` enables the face buffer of every needed bit. */
  lemma EnabledFaceMembers(face: set<FaceBuf>, needed: Mask)
    ensures forall x :: x in EnabledFace(face, needed) <==> x in face || FaceBit(x) in needed
  {
  }

  /** The vertex store after `updateDataMask(needed)`. */
  function EnabledVert(vert: set<VertBuf>, needed: Mask): set<VertBuf> {
    var v := AddIf(vert, MM.VertFaceTopo in needed, VertBuf.VFAdjacency);
    var v := AddIf(v, MM.VertMark in needed, VertBuf.Mark);
    var v := AddIf(v, MM.VertCurvDir in needed, VertBuf.CurvatureDir);
    var v := AddIf(v, MM.VertRadius in needed, VertBuf.Radius);
    AddIf(v, MM.VertTexCoord in needed, VertBuf.TexCoord)
  }

  /** `updateDataMask(needed)` enables the vertex buffer of every needed bit except
      VERTCURV, for which it has no enable call. */
  lemma EnabledVertMembers(vert: set<VertBuf>, needed: Mask)
    ensures forall x :: x in EnabledVert(vert, needed) <==>
      x in vert || (VertEnablePath(x) && VertBit(x) in needed)
  {
  }

  /** The face store after `clearDataMask(unneeded)` on a model whose mask is `mask`; each
      test also asks `hasDataMask`, which sees the mask as it was on entry. */
  function DisabledFace(face: set<FaceBuf>, mask: Mask, unneeded: Mask): set<FaceBuf> {
    var f := RemoveIf(face, MM.VertFaceTopo in unneeded && MM.VertFaceTopo in mask, FaceBuf.VFAdjacency);
    var f := RemoveIf(f, MM.FaceFaceTopo in unneeded && MM.FaceFaceTopo in mask, FaceBuf.FFAdjacency);
    var f := RemoveIf(f, MM.WedgTexCoord in unneeded && MM.WedgTexCoord in mask, FaceBuf.WedgeTexCoord);
    var f := RemoveIf(f, MM.FaceColor in unneeded && MM.FaceColor in mask, FaceBuf.Color);
    var f := RemoveIf(f, MM.FaceQuality in unneeded && MM.FaceQuality in mask, FaceBuf.Quality);
    RemoveIf(f, MM.FaceMark in unneeded && MM.FaceMark in mask, FaceBuf.Mark)
  }

  /** `clearDataMask(unneeded)` disables the face buffer of every unneeded bit that is
      declared, except face curvature direction, for which it has no disable call. */
  lemma DisabledFaceMembers(face: set<FaceBuf>, mask: Mask, unneeded: Mask)
    ensures forall x :: x in DisabledFace(face, mask, unneeded) <==>
      x in face && !(FaceDisablePath(x) && FaceBit(x) in unneeded && FaceBit(x) in mask)
  {
  }

  /** The vertex store after `clearDataMask(unneeded)` on a model whose mask is `mask`. */
  function DisabledVert(vert: set<VertBuf>, mask: Mask, unneeded: Mask): set<VertBuf> {
    var v := RemoveIf(vert, MM.VertFaceTopo in unneeded && MM.VertFaceTopo in mask, VertBuf.VFAdjacency);
    var v := RemoveIf(v, MM.VertMark in unneeded && MM.VertMark in mask, VertBuf.Mark);
    var v := RemoveIf(v, MM.VertCurv in unneeded && MM.VertCurv in mask, VertBuf.Curvature);
    var v := RemoveIf(v, MM.VertCurvDir in unneeded && MM.VertCurvDir in mask, VertBuf.CurvatureDir);
    var v := RemoveIf(v, MM.VertRadius in unneeded && MM.VertRadius in mask, VertBuf.Radius);
    RemoveIf(v, MM.VertTexCoord in unneeded && MM.VertTexCoord in mask, VertBuf.TexCoord)
  }

  /** `clearDataMask(unneeded)` disables the vertex buffer of every unneeded bit that is
      declared. */
  lemma DisabledVertMembers(vert: set<VertBuf>, mask: Mask, unneeded: Mask)
    ensures forall x :: x in DisabledVert(vert, mask, unneeded) <==>
      x in vert && !(VertBit(x) in unneeded && VertBit(x) in mask)
  {
  }

  /** A mesh-wide topology recomputation (tri::UpdateTopology). */
  datatype Topology = FaceFace | VertexFace

  /** The rebuilds `updateDataMask(needed)` runs, in order. */
  function Rebuilds(needed: Mask): (r: seq<Topology>)
    ensures Topology.FaceFace in r <==> MM.FaceFaceTopo in needed
    ensures Topology.VertexFace in r <==> MM.VertFaceTopo in needed
    ensures forall i, j :: 0 <= i < j < |r| ==> r[i] != r[j]
  {
    (if MM.FaceFaceTopo in needed then [Topology.FaceFace] else [])
    + (if MM.VertFaceTopo in needed then [Topology.VertexFace] else [])
  }

  /** The bits that the argument-less `updateDataMask()` sets whatever the stores say. */
  const ResyncBase: Mask := Baseline + {MM.VertQuality, MM.VertColor}

  /** The vertex half of the argument-less `updateDataMask()`: it never asks about the
      curvature buffer. */
  function ResyncVert(mask: Mask, vert: set<VertBuf>): Mask {
    var m := AddIf(mask, VertBuf.VFAdjacency in vert, MM.VertFaceTopo);
    var m := AddIf(m, VertBuf.Mark in vert, MM.VertMark);
    var m := AddIf(m, VertBuf.TexCoord in vert, MM.VertTexCoord);
    var m := AddIf(m, VertBuf.CurvatureDir in vert, MM.VertCurvDir);
    AddIf(m, VertBuf.Radius in vert, MM.VertRadius)
  }

  /** The face half of the argument-less `updateDataMask()`. */
  function ResyncFace(mask: Mask, face: set<FaceBuf>): Mask {
    var m := AddIf(mask, FaceBuf.Quality in face, MM.FaceQuality);
    var m := AddIf(m, FaceBuf.Mark in face, MM.FaceMark);
    var m := AddIf(m, FaceBuf.Color in face, MM.FaceColor);
    var m := AddIf(m, FaceBuf.FFAdjacency in face, MM.FaceFaceTopo);
    var m := AddIf(m, FaceBuf.VFAdjacency in face, MM.VertFaceTopo);
    var m := AddIf(m, FaceBuf.CurvatureDir in face, MM.FaceCurvDir);
    AddIf(m, FaceBuf.WedgeTexCoord in face, MM.WedgTexCoord)
  }

  /** The mask that the argument-less `updateDataMask()` derives from the stores. */
  function ResyncMask(vert: set<VertBuf>, face: set<FaceBuf>): Mask {
    ResyncFace(ResyncVert(ResyncBase, vert), face)
  }

  /** The vertex half adds the bit of every enabled vertex buffer except curvature. */
  lemma ResyncVertMembers(mask: Mask, vert: set<VertBuf>, b: MM)
    ensures b in ResyncVert(mask, vert) <==>
      b in mask || (VertBufFor(b).Some? && VertBufFor(b).value in vert && VertEnablePath(VertBufFor(b).value))
  {
  }

  /** The face half adds the bit of every enabled face buffer. */
  lemma ResyncFaceMembers(mask: Mask, face: set<FaceBuf>, b: MM)
    ensures b in ResyncFace(mask, face) <==>
      b in mask || (FaceBufFor(b).Some? && FaceBufFor(b).value in face)
  {
  }

  /** One bit of the resynchronised mask: set iff it is always on, or the vertex buffer
      storing it is enabled and inspected, or the face buffer storing it is enabled. */
  lemma ResyncBit(vert: set<VertBuf>, face: set<FaceBuf>, b: MM)
    ensures b in ResyncMask(vert, face) <==>
      || b in ResyncBase
      || (VertBufFor(b).Some? && VertBufFor(b).value in vert && VertEnablePath(VertBufFor(b).value))
      || (FaceBufFor(b).Some? && FaceBufFor(b).value in face)
  {
    ResyncVertMembers(ResyncBase, vert, b);
    ResyncFaceMembers(ResyncVert(ResyncBase, vert), face, b);
  }

  /** What the resynchronised mask always, and never, holds. */
  lemma ResyncMaskShape(vert: set<VertBuf>, face: set<FaceBuf>)
    ensures ResyncBase <= ResyncMask(vert, face)
    ensures MM.VertFaceTopo in ResyncMask(vert, face) <==>
      VertBuf.VFAdjacency in vert || FaceBuf.VFAdjacency in face
    ensures MM.VertCurv !in ResyncMask(vert, face)
  {
    ResyncBit(vert, face, MM.VertFaceTopo);
    ResyncBit(vert, face, MM.VertCurv);
    forall b | b in ResyncBase ensures b in ResyncMask(vert, face) {
      ResyncBit(vert, face, b);
    }
  }

  // ---------------------------------------------------------------------------
  // Declared mask versus enabled storage
  // ---------------------------------------------------------------------------

  /** The mask declares exactly the buffer-backed attributes whose buffers are enabled. */
  predicate Consistent(mask: Mask, vert: set<VertBuf>, face: set<FaceBuf>) {
    && (forall x :: x in vert <==> VertBit(x) in mask)
    && (forall x :: x in face <==> FaceBit(x) in mask)
  }

  /** `updateDataMask(needed)` keeps the mask and the stores in step, unless it declares
      VERTCURV, for which it enables no buffer. */
  lemma EnableKeepsConsistent(mask: Mask, vert: set<VertBuf>, face: set<FaceBuf>, needed: Mask)
    requires Consistent(mask, vert, face)
    requires MM.VertCurv in needed ==> MM.VertCurv in mask
    ensures Consistent(mask + needed, EnabledVert(vert, needed), EnabledFace(face, needed))
  {
    EnabledVertMembers(vert, needed);
    EnabledFaceMembers(face, needed);
  }

  /** On every consistent model without VERTCURV, declaring VERTCURV through
      `updateDataMask` leaves the curvature buffer disabled, so the mask and the vertex
      store disagree. */
  lemma EnableVertCurvDrifts(mask: Mask, vert: set<VertBuf>, face: set<FaceBuf>)
    requires Consistent(mask, vert, face) && MM.VertCurv !in mask
    ensures !Consistent(mask + {MM.VertCurv}, EnabledVert(vert, {MM.VertCurv}), EnabledFace(face, {MM.VertCurv}))
  {
    assert VertBuf.Curvature !in vert;
    assert VertBuf.Curvature !in EnabledVert(vert, {MM.VertCurv});
    assert VertBit(VertBuf.Curvature) in mask + {MM.VertCurv};
  }

  /** `clearDataMask(unneeded)` keeps the mask and the stores in step, unless it clears a
      set FACECURVDIR bit, whose buffer it never disables. */
  lemma DisableKeepsConsistent(mask: Mask, vert: set<VertBuf>, face: set<FaceBuf>, unneeded: Mask)
    requires Consistent(mask, vert, face)
    requires MM.FaceCurvDir in unneeded ==> MM.FaceCurvDir !in mask
    ensures Consistent(mask - unneeded, DisabledVert(vert, mask, unneeded), DisabledFace(face, mask, unneeded))
  {
    DisabledVertMembers(vert, mask, unneeded);
    DisabledFaceMembers(face, mask, unneeded);
  }

  /** The mask the argument-less `updateDataMask()` computes is consistent with the stores
      when vertex-face adjacency is enabled on both stores or on neither, and the vertex
      curvature buffer (which it never inspects) is off. */
  lemma ResyncIsConsistent(vert: set<VertBuf>, face: set<FaceBuf>)
    requires VertBuf.VFAdjacency in vert <==> FaceBuf.VFAdjacency in face
    requires VertBuf.Curvature !in vert
    ensures Consistent(ResyncMask(vert, face), vert, face)
  {
    forall x ensures x in vert <==> VertBit(x) in ResyncMask(vert, face) {
      ResyncBit(vert, face, VertBit(x));
      assert VertBufFor(VertBit(x)) == Some(x);
    }
    forall x ensures x in face <==> FaceBit(x) in ResyncMask(vert, face) {
      ResyncBit(vert, face, FaceBit(x));
      assert FaceBufFor(FaceBit(x)) == Some(x);
    }
  }

  /** One bit of `ResyncRecoversMask`, for a bit `inResync` characterised as `ResyncBit`
      does. */
  lemma ResyncRecoversBit(mask: Mask, vert: set<VertBuf>, face: set<FaceBuf>, b: MM, inResync: bool)
    requires Consistent(mask, vert, face)
    requires inResync <==>
      || b in ResyncBase
      || (VertBufFor(b).Some? && VertBufFor(b).value in vert && VertEnablePath(VertBufFor(b).value))
      || (FaceBufFor(b).Some? && FaceBufFor(b).value in face)
    ensures (VertBufFor(b).Some? || FaceBufFor(b).Some?) && b != MM.VertCurv ==> (inResync <==> b in mask)
    ensures VertBufFor(b).None? && FaceBufFor(b).None? ==> (inResync <==> b in ResyncBase)
  {
    match VertBufFor(b) {
      case Some(x) => assert VertBit(x) == b;
      case None =>
    }
    match FaceBufFor(b) {
      case Some(x) => assert FaceBit(x) == b;
      case None =>
    }
  }

  /** On a consistent model, resynchronising gives back every declared buffer-backed bit
      except VERTCURV, and adds exactly the always-on bits. */
  lemma ResyncRecoversMask(mask: Mask, vert: set<VertBuf>, face: set<FaceBuf>)
    requires Consistent(mask, vert, face)
    ensures forall b :: (VertBufFor(b).Some? || FaceBufFor(b).Some?) && b != MM.VertCurv ==>
      (b in ResyncMask(vert, face) <==> b in mask)
    ensures forall b :: VertBufFor(b).None? && FaceBufFor(b).None? ==>
      (b in ResyncMask(vert, face) <==> b in ResyncBase)
  {
    forall b ensures (VertBufFor(b).Some? || FaceBufFor(b).Some?) && b != MM.VertCurv ==>
      (b in ResyncMask(vert, face) <==> b in mask)
    {
      ResyncBit(vert, face, b);
      ResyncRecoversBit(mask, vert, face, b, b in ResyncMask(vert, face));
    }
    forall b ensures VertBufFor(b).None? && FaceBufFor(b).None? ==>
      (b in ResyncMask(vert, face) <==> b in ResyncBase)
    {
      ResyncBit(vert, face, b);
      ResyncRecoversBit(mask, vert, face, b, b in ResyncMask(vert, face));
    }
  }

  /** Enabling `a` and then `b` is enabling `a + b`. */
  lemma EnableComposes(vert: set<VertBuf>, face: set<FaceBuf>, a: Mask, b: Mask)
    ensures EnabledVert(EnabledVert(vert, a), b) == EnabledVert(vert, a + b)
    ensures EnabledFace(EnabledFace(face, a), b) == EnabledFace(face, a + b)
  {
    EnabledVertMembers(vert, a);
    EnabledVertMembers(EnabledVert(vert, a), b);
    EnabledVertMembers(vert, a + b);
    EnabledFaceMembers(face, a);
    EnabledFaceMembers(EnabledFace(face, a), b);
    EnabledFaceMembers(face, a + b);
  }

  /** Enabling twice gives the same mask and stores as enabling once (the rebuilds,
      however, run on every call). */
  lemma EnableIdempotent(mask: Mask, vert: set<VertBuf>, face: set<FaceBuf>, needed: Mask)
    ensures (mask + needed) + needed == mask + needed
    ensures EnabledVert(EnabledVert(vert, needed), needed) == EnabledVert(vert, needed)
    ensures EnabledFace(EnabledFace(face, needed), needed) == EnabledFace(face, needed)
  {
    EnableComposes(vert, face, needed, needed);
    assert needed + needed == needed;
  }

  /** On a consistent model, enabling bits that are not yet declared and then clearing
      them restores the mask and both stores, provided FACECURVDIR is not among them. */
  lemma EnableThenDisableRestores(mask: Mask, vert: set<VertBuf>, face: set<FaceBuf>, bits: Mask)
    requires Consistent(mask, vert, face)
    requires bits !! mask
    requires MM.FaceCurvDir !in bits
    ensures (mask + bits) - bits == mask
    ensures DisabledVert(EnabledVert(vert, bits), mask + bits, bits) == vert
    ensures DisabledFace(EnabledFace(face, bits), mask + bits, bits) == face
  {
    EnabledVertMembers(vert, bits);
    EnabledFaceMembers(face, bits);
    DisabledVertMembers(EnabledVert(vert, bits), mask + bits, bits);
    DisabledFaceMembers(EnabledFace(face, bits), mask + bits, bits);
  }

  /** On every model, enabling and then clearing FACECURVDIR leaves its face buffer
      enabled. */
  lemma FaceCurvDirNotRestored(mask: Mask, face: set<FaceBuf>)
    ensures FaceBuf.CurvatureDir in
      DisabledFace(EnabledFace(face, {MM.FaceCurvDir}), mask + {MM.FaceCurvDir}, {MM.FaceCurvDir})
  {
  }

  /** A bit that no buffer stores (VERTCOLOR, VERTQUALITY, CAMERA, POLYGONAL, the
      always-present bits, …) changes only the mask: `updateDataMask` enables and
      rebuilds nothing for it and `clearDataMask` disables nothing. */
  lemma UnbackedBitOnlyMask(mask: Mask, vert: set<VertBuf>, face: set<FaceBuf>, b: MM)
    requires VertBufFor(b).None? && FaceBufFor(b).None?
    ensures EnabledVert(vert, {b}) == vert && EnabledFace(face, {b}) == face && Rebuilds({b}) == []
    ensures DisabledVert(vert, mask, {b}) == vert && DisabledFace(face, mask, {b}) == face
  {
  }

  /** Vertex-face adjacency is coupled: enabled on both stores with one rebuild, disabled
      on both stores with no rebuild. */
  lemma VertFaceCoupling(mask: Mask, vert: set<VertBuf>, face: set<FaceBuf>, bits: Mask)
    requires MM.VertFaceTopo in bits
    ensures VertBuf.VFAdjacency in EnabledVert(vert, bits) && FaceBuf.VFAdjacency in EnabledFace(face, bits)
    ensures multiset(Rebuilds(bits))[Topology.VertexFace] == 1
    ensures MM.VertFaceTopo in mask ==>
      VertBuf.VFAdjacency !in DisabledVert(vert, mask, bits) && FaceBuf.VFAdjacency !in DisabledFace(face, mask, bits)
  {
  }

  // ---------------------------------------------------------------------------
  // Opening a file
  // ---------------------------------------------------------------------------

  /** The I/O flags `enable` tests, in the order it tests them, each with the bit it then
      requests through `updateDataMask`. */
  const EnableTable: seq<(IOM, MM)> := [
    (IOM.VertTexCoord, MM.VertTexCoord),
    (IOM.WedgTexCoord, MM.WedgTexCoord),
    (IOM.VertColor, MM.VertColor),
    (IOM.FaceColor, MM.FaceColor),
    (IOM.VertRadius, MM.VertRadius),
    (IOM.Camera, MM.Camera),
    (IOM.VertQuality, MM.VertQuality),
    (IOM.FaceQuality, MM.FaceQuality),
    (IOM.BitPolygonal, MM.Polygonal)
  ]

  /** Whether `enable` tests the flag `f`. */
  predicate Tested(f: IOM) {
    exists i :: 0 <= i < |EnableTable| && EnableTable[i].0 == f
  }

  /** The bits the first `k` tests of `enable(fileMask)` request. */
  function Requested(fileMask: FileMask, k: nat): Mask
    requires k <= |EnableTable|
  {
    if k == 0 then {}
    else AddIf(Requested(fileMask, k - 1), EnableTable[k - 1].0 in fileMask, EnableTable[k - 1].1)
  }

  /** The bits `enable(fileMask)` requests. */
  function FileMaskBits(fileMask: FileMask): Mask {
    Requested(fileMask, |EnableTable|)
  }

  /** The first `k` tests request exactly the bits of the tested flags present. */
  lemma {:induction false} RequestedMembers(fileMask: FileMask, k: nat)
    requires k <= |EnableTable|
    ensures forall b :: b in Requested(fileMask, k) <==>
      exists i :: 0 <= i < k && EnableTable[i].0 in fileMask && EnableTable[i].1 == b
  {
    if k > 0 {
      RequestedMembers(fileMask, k - 1);
    }
  }

  /** `enable(fileMask)` requests exactly the bits of the tested flags present. */
  lemma FileMaskBitsMembers(fileMask: FileMask)
    ensures forall b :: b in FileMaskBits(fileMask) <==>
      exists i :: 0 <= i < |EnableTable| && EnableTable[i].0 in fileMask && EnableTable[i].1 == b
  {
    RequestedMembers(fileMask, |EnableTable|);
  }

  /** The bits a file mask requests never include adjacency, so `enable` runs no rebuild. */
  lemma FileMaskNoTopology(fileMask: FileMask)
    ensures MM.VertFaceTopo !in FileMaskBits(fileMask) && MM.FaceFaceTopo !in FileMaskBits(fileMask)
    ensures Rebuilds(FileMaskBits(fileMask)) == []
  {
    FileMaskBitsMembers(fileMask);
  }

  /** `enable` forwards, for eight of its nine flags, the bit that `io2mm` gives; for
      IOM_CAMERA it forwards MM_CAMERA although `io2mm` faults on that flag. */
  lemma EnableTableAgreesWithIo2mm()
    ensures forall i :: 0 <= i < |EnableTable| && EnableTable[i].0 != IOM.Camera ==>
      Io2mm({EnableTable[i].0}) == Some({EnableTable[i].1})
    ensures Tested(IOM.Camera) && Io2mm({IOM.Camera}).None?
  {
    assert EnableTable[5] == (IOM.Camera, MM.Camera);
  }

  /** An I/O flag that `enable` does not test requests nothing. */
  lemma FileMaskIgnoresUntested(fileMask: FileMask, f: IOM)
    requires !Tested(f)
    ensures FileMaskBits(fileMask + {f}) == FileMaskBits(fileMask)
  {
    FileMaskBitsMembers(fileMask);
    FileMaskBitsMembers(fileMask + {f});
  }

  /** Test `k` of `enable`: when the first `k` tests have been enabled on top of
      `mask0`/`vert0`/`face0` and this test enables its bit exactly when its flag is
      present, the first `k + 1` tests have been enabled afterwards; no rebuild runs. */
  lemma EnableStep(mask0: Mask, vert0: set<VertBuf>, face0: set<FaceBuf>, fileMask: FileMask, k: nat,
                   mask: Mask, vert: set<VertBuf>, face: set<FaceBuf>, rebuilds: seq<Topology>,
                   mask': Mask, vert': set<VertBuf>, face': set<FaceBuf>, rebuilds': seq<Topology>)
    requires k < |EnableTable|
    requires mask == mask0 + Requested(fileMask, k)
    requires vert == EnabledVert(vert0, Requested(fileMask, k)) && face == EnabledFace(face0, Requested(fileMask, k))
    requires EnableTable[k].0 in fileMask ==>
      && mask' == mask + {EnableTable[k].1}
      && vert' == EnabledVert(vert, {EnableTable[k].1}) && face' == EnabledFace(face, {EnableTable[k].1})
      && rebuilds' == rebuilds + Rebuilds({EnableTable[k].1})
    requires EnableTable[k].0 !in fileMask ==> mask' == mask && vert' == vert && face' == face && rebuilds' == rebuilds
    ensures mask' == mask0 + Requested(fileMask, k + 1)
    ensures vert' == EnabledVert(vert0, Requested(fileMask, k + 1))
    ensures face' == EnabledFace(face0, Requested(fileMask, k + 1))
    ensures rebuilds' == rebuilds
  {
    if EnableTable[k].0 in fileMask {
      EnableComposes(vert0, face0, Requested(fileMask, k), {EnableTable[k].1});
      assert Rebuilds({EnableTable[k].1}) == [];
    }
  }

  /** Before the first test nothing has been enabled. */
  lemma EnableStart(mask0: Mask, vert0: set<VertBuf>, face0: set<FaceBuf>, fileMask: FileMask)
    ensures mask0 == mask0 + Requested(fileMask, 0)
    ensures vert0 == EnabledVert(vert0, Requested(fileMask, 0)) && face0 == EnabledFace(face0, Requested(fileMask, 0))
  {
  }
}
