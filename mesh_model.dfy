/**
  The per-mesh state of a MeshLab document entry: the current data mask, which says
  which optional attributes the model believes are live on its mesh, the vertex and
  face stores of optional buffers, the modification flag, and the table of texture
  images kept beside the mesh's list of texture names.

  The buffer enable/disable calls and the topology rebuilds are library code; here a
  store is the set of its enabled buffer kinds and every rebuild is appended to the
  ghost log `rebuilds`.
*/
module MeshModels {
  import opened DataMask
  import opened TextureNames

  /** A texture image.  Its pixels are opaque to this model; `NullImage` is what a
      default-constructed image is. */
  datatype Image = NullImage | Picture(content: seq<bv8>)

  /** Two masks share a bit exactly when their intersection is not empty. */
  lemma SharedBit(a: Mask, b: Mask)
    ensures a * b != {} <==> exists x :: x in a && x in b
  {
    if exists x :: x in a && x in b {
      var x :| x in a && x in b;
      assert x in a * b;
    }
  }

  /** The image table after the image under `oldKey` is stored under `newKey` and
      `oldKey` is erased (`textures[newKey] = textures[oldKey]; textures.erase(oldKey)`). */
  function Rekeyed(m: map<string, Image>, oldKey: string, newKey: string): (r: map<string, Image>)
    requires oldKey in m && oldKey != newKey
    ensures newKey in r && r[newKey] == m[oldKey]
    ensures oldKey !in r
    ensures forall k :: k != oldKey && k != newKey ==> (k in r <==> k in m)
    ensures forall k :: k != oldKey && k != newKey && k in m ==> r[k] == m[k]
  {
    m[newKey := m[oldKey]] - {oldKey}
  }

  /** Moving an image to an unused key and back gives the table back. */
  lemma RekeyRoundTrip(m: map<string, Image>, oldKey: string, newKey: string)
    requires oldKey in m && newKey !in m && oldKey != newKey
    ensures Rekeyed(Rekeyed(m, oldKey, newKey), newKey, oldKey) == m
  {
  }

  class MeshModel {
    /** The attributes declared live on the mesh. */
    var currentDataMask: Mask
    var modified: bool
    var visible: bool
    /** Numbers of selected vertices and faces of the contained mesh. */
    var svn: nat
    var sfn: nat
    /** Enabled optional buffers of the contained mesh's vertex and face stores. */
    var vert: set<VertBuf>
    var face: set<FaceBuf>
    /** Every topology recomputation run so far, in order. */
    ghost var rebuilds: seq<Topology>
    /** Loaded texture images by name. */
    var textures: map<string, Image>
    /** The contained mesh's list of texture names. */
    var textureNames: seq<string>

    /** A new model over an empty mesh: no optional buffer and no texture, and the state
        `clear` sets. */
    constructor ()
      ensures currentDataMask == Baseline && !modified && visible && svn == 0 && sfn == 0
      ensures vert == {} && face == {} && rebuilds == []
      ensures textures == map[] && textureNames == []
    {
      vert, face, rebuilds := {}, {}, [];
      textures, textureNames := map[], [];
      new;
      Clear();
    }

    /** `clear`: forget the modification, declare only the always-present attributes,
        show the model and reset the selection counts.  The stores are not touched. */
    method Clear()
      modifies this`modified, this`currentDataMask, this`visible, this`svn, this`sfn
      ensures !MeshModified()
      ensures currentDataMask == Baseline
      ensures visible && svn == 0 && sfn == 0
      ensures !HasPerVertexColor() && !HasPerVertexQuality() && !HasPerVertexTexCoord()
      ensures !HasPerFaceColor() && !HasPerFaceQuality() && !HasPerFaceWedgeTexCoords()
    {
      SetMeshModified(false);
      currentDataMask := {};
      currentDataMask := currentDataMask + {MM.VertCoord, MM.VertNormal, MM.VertFlag};
      currentDataMask := currentDataMask + {MM.FaceVert, MM.FaceNormal, MM.FaceFlag};
      visible := true;
      sfn := 0;
      svn := 0;
    }

    // -------------------------------------------------------------------------
    // Queries
    // -------------------------------------------------------------------------

    /** `hasDataMask`: some bit of `maskToBeTested` is declared (any bit, not all bits). */
    function HasDataMask(maskToBeTested: Mask): (r: bool)
      reads this
      ensures r <==> exists b :: b in maskToBeTested && b in currentDataMask
    {
      SharedBit(currentDataMask, maskToBeTested);
      currentDataMask * maskToBeTested != {}
    }

    function HasPerVertexColor(): (r: bool)
      reads this
      ensures r <==> HasDataMask({MM.VertColor})
    {
      MM.VertColor in currentDataMask
    }

    function HasPerVertexQuality(): (r: bool)
      reads this
      ensures r <==> HasDataMask({MM.VertQuality})
    {
      MM.VertQuality in currentDataMask
    }

    function HasPerVertexTexCoord(): (r: bool)
      reads this
      ensures r <==> HasDataMask({MM.VertTexCoord})
    {
      MM.VertTexCoord in currentDataMask
    }

    function HasPerFaceColor(): (r: bool)
      reads this
      ensures r <==> HasDataMask({MM.FaceColor})
    {
      MM.FaceColor in currentDataMask
    }

    function HasPerFaceQuality(): (r: bool)
      reads this
      ensures r <==> HasDataMask({MM.FaceQuality})
    {
      MM.FaceQuality in currentDataMask
    }

    function HasPerFaceWedgeTexCoords(): (r: bool)
      reads this
      ensures r <==> HasDataMask({MM.WedgTexCoord})
    {
      MM.WedgTexCoord in currentDataMask
    }

    /** `dataMask`: the declared mask, which holds exactly the bits `hasDataMask` reports. */
    function GetDataMask(): (r: Mask)
      reads this
      ensures forall b :: b in r <==> HasDataMask({b})
    {
      currentDataMask
    }

    function MeshModified(): bool
      reads this
    {
      modified
    }

    /** `setMeshModified`. */
    method SetMeshModified(b: bool)
      modifies this`modified
      ensures MeshModified() == b
    {
      modified := b;
    }

    // -------------------------------------------------------------------------
    // Updating the data mask
    // -------------------------------------------------------------------------

    /** `updateDataMask(int)`: enable the buffers of the needed bits, rebuild the requested
        adjacency, and only then add the needed bits to the mask.  Nothing else changes. */
    method UpdateDataMask(neededDataMask: Mask)
      modifies this`currentDataMask, this`vert, this`face, this`rebuilds
      ensures currentDataMask == old(currentDataMask) + neededDataMask
      ensures vert == EnabledVert(old(vert), neededDataMask)
      ensures face == EnabledFace(old(face), neededDataMask)
      ensures rebuilds == old(rebuilds) + Rebuilds(neededDataMask)
      ensures old(Consistent(currentDataMask, vert, face))
        && (MM.VertCurv in neededDataMask ==> MM.VertCurv in old(currentDataMask))
        ==> Consistent(currentDataMask, vert, face)
    {
      // The enable calls act on the stores; here they are collected in locals first.
      // A single test followed by a single enable call reads
      // `face := AddIf(face, <bit tested>, <buffer enabled>)`.
      var vert, face := this.vert, this.face;
      ghost var log := [];
      if MM.FaceFaceTopo in neededDataMask {
        face := face + {FaceBuf.FFAdjacency};
        log := log + [Topology.FaceFace];
      }
      assert face == AddIf(this.face, MM.FaceFaceTopo in neededDataMask, FaceBuf.FFAdjacency);
      ghost var face1 := face;
      if MM.VertFaceTopo in neededDataMask {
        vert := vert + {VertBuf.VFAdjacency};
        face := face + {FaceBuf.VFAdjacency};
        log := log + [Topology.VertexFace];
      }
      assert vert == AddIf(this.vert, MM.VertFaceTopo in neededDataMask, VertBuf.VFAdjacency);
      assert face == AddIf(face1, MM.VertFaceTopo in neededDataMask, FaceBuf.VFAdjacency);
      face := AddIf(face, MM.WedgTexCoord in neededDataMask, FaceBuf.WedgeTexCoord);
      face := AddIf(face, MM.FaceColor in neededDataMask, FaceBuf.Color);
      face := AddIf(face, MM.FaceQuality in neededDataMask, FaceBuf.Quality);
      face := AddIf(face, MM.FaceCurvDir in neededDataMask, FaceBuf.CurvatureDir);
      face := AddIf(face, MM.FaceMark in neededDataMask, FaceBuf.Mark);
      vert := AddIf(vert, MM.VertMark in neededDataMask, VertBuf.Mark);
      vert := AddIf(vert, MM.VertCurvDir in neededDataMask, VertBuf.CurvatureDir);
      vert := AddIf(vert, MM.VertRadius in neededDataMask, VertBuf.Radius);
      vert := AddIf(vert, MM.VertTexCoord in neededDataMask, VertBuf.TexCoord);
      if Consistent(currentDataMask, this.vert, this.face) && (MM.VertCurv in neededDataMask ==> MM.VertCurv in currentDataMask) {
        EnableKeepsConsistent(currentDataMask, this.vert, this.face, neededDataMask);
      }
      this.vert, this.face, rebuilds := vert, face, rebuilds + log;
      currentDataMask := currentDataMask + neededDataMask;
    }

    /** `updateDataMask(const MeshModel*)`: enable on this model every bit `m` declares
        (`m` may be this model itself). */
    method UpdateDataMaskFrom(m: MeshModel)
      modifies this`currentDataMask, this`vert, this`face, this`rebuilds
      ensures currentDataMask == old(currentDataMask) + old(m.currentDataMask)
      ensures vert == EnabledVert(old(vert), old(m.currentDataMask))
      ensures face == EnabledFace(old(face), old(m.currentDataMask))
      ensures rebuilds == old(rebuilds) + Rebuilds(old(m.currentDataMask))
    {
      UpdateDataMask(m.currentDataMask);
    }

    /** `clearDataMask`: disable the buffer of every unneeded bit that is currently declared
        (the test sees the mask as it was on entry), then remove the unneeded bits from the
        mask.  No rebuild runs. */
    method ClearDataMask(unneededDataMask: Mask)
      modifies this`currentDataMask, this`vert, this`face
      ensures currentDataMask == old(currentDataMask) - unneededDataMask
      ensures vert == DisabledVert(old(vert), old(currentDataMask), unneededDataMask)
      ensures face == DisabledFace(old(face), old(currentDataMask), unneededDataMask)
      ensures old(Consistent(currentDataMask, vert, face))
        && (MM.FaceCurvDir in unneededDataMask ==> MM.FaceCurvDir !in old(currentDataMask))
        ==> Consistent(currentDataMask, vert, face)
    {
      var vert, face := this.vert, this.face;
      if MM.VertFaceTopo in unneededDataMask && HasDataMask({MM.VertFaceTopo}) {
        face := face - {FaceBuf.VFAdjacency};
        vert := vert - {VertBuf.VFAdjacency};
      }
      assert face == RemoveIf(this.face, MM.VertFaceTopo in unneededDataMask && MM.VertFaceTopo in currentDataMask, FaceBuf.VFAdjacency);
      assert vert == RemoveIf(this.vert, MM.VertFaceTopo in unneededDataMask && MM.VertFaceTopo in currentDataMask, VertBuf.VFAdjacency);
      face := RemoveIf(face, MM.FaceFaceTopo in unneededDataMask && MM.FaceFaceTopo in currentDataMask, FaceBuf.FFAdjacency);
      face := RemoveIf(face, MM.WedgTexCoord in unneededDataMask && MM.WedgTexCoord in currentDataMask, FaceBuf.WedgeTexCoord);
      face := RemoveIf(face, MM.FaceColor in unneededDataMask && MM.FaceColor in currentDataMask, FaceBuf.Color);
      face := RemoveIf(face, MM.FaceQuality in unneededDataMask && MM.FaceQuality in currentDataMask, FaceBuf.Quality);
      face := RemoveIf(face, MM.FaceMark in unneededDataMask && MM.FaceMark in currentDataMask, FaceBuf.Mark);
      vert := RemoveIf(vert, MM.VertMark in unneededDataMask && MM.VertMark in currentDataMask, VertBuf.Mark);
      vert := RemoveIf(vert, MM.VertCurv in unneededDataMask && MM.VertCurv in currentDataMask, VertBuf.Curvature);
      vert := RemoveIf(vert, MM.VertCurvDir in unneededDataMask && MM.VertCurvDir in currentDataMask, VertBuf.CurvatureDir);
      vert := RemoveIf(vert, MM.VertRadius in unneededDataMask && MM.VertRadius in currentDataMask, VertBuf.Radius);
      vert := RemoveIf(vert, MM.VertTexCoord in unneededDataMask && MM.VertTexCoord in currentDataMask, VertBuf.TexCoord);
      if Consistent(currentDataMask, this.vert, this.face)
        && (MM.FaceCurvDir in unneededDataMask ==> MM.FaceCurvDir !in currentDataMask)
      {
        DisableKeepsConsistent(currentDataMask, this.vert, this.face, unneededDataMask);
      }
      this.vert, this.face := vert, face;
      currentDataMask := currentDataMask - unneededDataMask;
    }

    /** `updateDataMask()`: recompute the mask from the stores.  The always-present bits,
        vertex quality and vertex colour are set unconditionally; every other bit is set
        when a buffer holding it is enabled, except that vertex curvature is not inspected. */
    method UpdateDataMaskFromStores()
      modifies this`currentDataMask
      ensures currentDataMask == ResyncMask(vert, face)
      ensures (VertBuf.VFAdjacency in vert <==> FaceBuf.VFAdjacency in face) && VertBuf.Curvature !in vert
        ==> Consistent(currentDataMask, vert, face)
    {
      var mask: Mask := {};
      mask := mask + {MM.VertCoord, MM.VertNormal, MM.VertFlag, MM.VertQuality, MM.VertColor};
      mask := mask + {MM.FaceVert, MM.FaceNormal, MM.FaceFlag};
      assert mask == ResyncBase;
      mask := AddIf(mask, VertBuf.VFAdjacency in vert, MM.VertFaceTopo);
      mask := AddIf(mask, VertBuf.Mark in vert, MM.VertMark);
      mask := AddIf(mask, VertBuf.TexCoord in vert, MM.VertTexCoord);
      mask := AddIf(mask, VertBuf.CurvatureDir in vert, MM.VertCurvDir);
      mask := AddIf(mask, VertBuf.Radius in vert, MM.VertRadius);
      mask := AddIf(mask, FaceBuf.Quality in face, MM.FaceQuality);
      mask := AddIf(mask, FaceBuf.Mark in face, MM.FaceMark);
      mask := AddIf(mask, FaceBuf.Color in face, MM.FaceColor);
      mask := AddIf(mask, FaceBuf.FFAdjacency in face, MM.FaceFaceTopo);
      mask := AddIf(mask, FaceBuf.VFAdjacency in face, MM.VertFaceTopo);
      mask := AddIf(mask, FaceBuf.CurvatureDir in face, MM.FaceCurvDir);
      mask := AddIf(mask, FaceBuf.WedgeTexCoord in face, MM.WedgTexCoord);
      if (VertBuf.VFAdjacency in vert <==> FaceBuf.VFAdjacency in face) && VertBuf.Curvature !in vert {
        ResyncIsConsistent(vert, face);
      }
      currentDataMask := mask;
    }

    /** One test of `enable`: when `fileFlag` is in the opened file's mask, enable `bit`.
        This is test `k` of `EnableTable`, so afterwards the first `k + 1` tests have
        been enabled on top of the state `mask0`/`vert0`/`face0` that `enable` began with. */
    method EnableIf(openingFileMask: FileMask, fileFlag: IOM, bit: MM,
                    ghost mask0: Mask, ghost vert0: set<VertBuf>, ghost face0: set<FaceBuf>, ghost k: nat)
      requires k < |EnableTable| && EnableTable[k] == (fileFlag, bit)
      requires currentDataMask == mask0 + Requested(openingFileMask, k)
      requires vert == EnabledVert(vert0, Requested(openingFileMask, k))
      requires face == EnabledFace(face0, Requested(openingFileMask, k))
      modifies this`currentDataMask, this`vert, this`face, this`rebuilds
      ensures currentDataMask == mask0 + Requested(openingFileMask, k + 1)
      ensures vert == EnabledVert(vert0, Requested(openingFileMask, k + 1))
      ensures face == EnabledFace(face0, Requested(openingFileMask, k + 1))
      ensures rebuilds == old(rebuilds)
    {
      ghost var m, v, f, r := currentDataMask, vert, face, rebuilds;
      if fileFlag in openingFileMask {
        UpdateDataMask({bit});
      }
      EnableStep(mask0, vert0, face0, openingFileMask, k, m, v, f, r, currentDataMask, vert, face, rebuilds);
    }

    /** `enable`: after a file is opened, enable one by one the attributes its I/O mask
        reports, for the nine flags the method tests (`EnableTable`, in its order). */
    method Enable(openingFileMask: FileMask)
      modifies this`currentDataMask, this`vert, this`face, this`rebuilds
      ensures currentDataMask == old(currentDataMask) + FileMaskBits(openingFileMask)
      ensures vert == EnabledVert(old(vert), FileMaskBits(openingFileMask))
      ensures face == EnabledFace(old(face), FileMaskBits(openingFileMask))
      ensures rebuilds == old(rebuilds)
    {
      ghost var mask0, vert0, face0 := currentDataMask, vert, face;
      ghost var k := 0;
      EnableStart(mask0, vert0, face0, openingFileMask);
      EnableIf(openingFileMask, IOM.VertTexCoord, MM.VertTexCoord, mask0, vert0, face0, k);
      k := k + 1;
      EnableIf(openingFileMask, IOM.WedgTexCoord, MM.WedgTexCoord, mask0, vert0, face0, k);
      k := k + 1;
      EnableIf(openingFileMask, IOM.VertColor, MM.VertColor, mask0, vert0, face0, k);
      k := k + 1;
      EnableIf(openingFileMask, IOM.FaceColor, MM.FaceColor, mask0, vert0, face0, k);
      k := k + 1;
      EnableIf(openingFileMask, IOM.VertRadius, MM.VertRadius, mask0, vert0, face0, k);
      k := k + 1;
      EnableIf(openingFileMask, IOM.Camera, MM.Camera, mask0, vert0, face0, k);
      k := k + 1;
      EnableIf(openingFileMask, IOM.VertQuality, MM.VertQuality, mask0, vert0, face0, k);
      k := k + 1;
      EnableIf(openingFileMask, IOM.FaceQuality, MM.FaceQuality, mask0, vert0, face0, k);
      k := k + 1;
      EnableIf(openingFileMask, IOM.BitPolygonal, MM.Polygonal, mask0, vert0, face0, k);
    }

    // -------------------------------------------------------------------------
    // Textures
    // -------------------------------------------------------------------------

    /** Every loaded image is listed among the mesh's texture names. */
    predicate TexturesListed()
      reads this
    {
      forall n :: n in textures ==> n in textureNames
    }

    /** `getTexture`: the image stored under `name`, or the null image when there is none. */
    function GetTexture(name: string): (r: Image)
      reads this
      ensures name in textures ==> r == textures[name]
      ensures name !in textures ==> r == NullImage
    {
      if name in textures then textures[name] else NullImage
    }

    /** `clearTextures`: forget every image and every texture name. */
    method ClearTextures()
      modifies this`textures, this`textureNames
      ensures textures == map[] && textureNames == []
      ensures TexturesListed() && NoDuplicates(textureNames)
    {
      textures := map[];
      textureNames := [];
    }

    /** `addTexture`: only a name without an image is added; its name is appended to the
        list unless already listed.  An existing image is never replaced. */
    method AddTexture(name: string, txt: Image)
      modifies this`textures, this`textureNames
      ensures old(name in textures) ==> textures == old(textures) && textureNames == old(textureNames)
      ensures old(name !in textures) ==> textures == old(textures)[name := txt]
      ensures old(name !in textures) && old(name in textureNames) ==> textureNames == old(textureNames)
      ensures old(name !in textures) && old(name !in textureNames) ==> textureNames == old(textureNames) + [name]
      ensures old(TexturesListed()) ==> TexturesListed()
      ensures old(NoDuplicates(textureNames)) ==> NoDuplicates(textureNames)
    {
      if name !in textures {
        var i := FindName(textureNames, name);
        if i == |textureNames| {
          textureNames := textureNames + [name];
        }
        textures := textures[name := txt];
      }
    }

    /** `setTexture`: replace the image of a name that has one; otherwise do nothing. */
    method SetTexture(name: string, txt: Image)
      modifies this`textures
      ensures old(name in textures) ==> textures == old(textures)[name := txt]
      ensures old(name !in textures) ==> textures == old(textures)
      ensures old(TexturesListed()) ==> TexturesListed()
    {
      if name in textures {
        textures := textures[name := txt];
      }
    }

    /** `changeTextureName`: when the names differ and `oldName` both has an image and is
        listed, its first list entry becomes `newName` and its image moves to `newName`
        (replacing any image already there); otherwise nothing changes. */
    method ChangeTextureName(oldName: string, newName: string)
      modifies this`textures, this`textureNames
      ensures old(oldName != newName && oldName in textures && oldName in textureNames) ==>
        && textureNames == Renamed(old(textureNames), oldName, newName)
        && textures == Rekeyed(old(textures), oldName, newName)
      ensures !old(oldName != newName && oldName in textures && oldName in textureNames) ==>
        textures == old(textures) && textureNames == old(textureNames)
      ensures old(TexturesListed()) ==> TexturesListed()
      ensures old(NoDuplicates(textureNames)) && old(newName !in textureNames) ==> NoDuplicates(textureNames)
    {
      if oldName != newName {
        var found := oldName in textures;
        var i := FindName(textureNames, oldName);
        if found && i < |textureNames| {
          if NoDuplicates(textureNames) && newName !in textureNames {
            RenameKeepsNoDuplicates(textureNames, oldName, newName);
          }
          textureNames := textureNames[i := newName];
          textures := textures[newName := textures[oldName]];
          textures := textures - {oldName};
        }
      }
    }
  }
}
