# MeshLab mesh model: data mask and textures

A Dafny model of the attribute data-mask controller and the texture bookkeeping of
MeshLab's `MeshModel` (`src/common/ml_document/mesh_model.cpp`).

A mesh model declares, in its current data mask, which optional per-vertex and
per-face attributes are live on its mesh. It enables and disables the mesh's optional
buffers to match that mask. The model covers:

- `io2mm`, which translates an I/O-format flag into its internal mask bit;
- the queries `hasDataMask`, `hasPer*`, `dataMask` and `meshModified`;
- the state changes `clear`, the three `updateDataMask` overloads, `clearDataMask`,
  `enable` and `setMeshModified`;
- the texture table (`getTexture`, `clearTextures`, `addTexture`, `setTexture`,
  `changeTextureName`) and the mesh's list of texture names beside it.

Layout:

- `data_mask.dfy` (module `DataMask`): the two flag vocabularies (`MM`, `IOM`), masks
  as sets of flags, and `io2mm`. It also holds which buffer stores which bit
  (`VertBit`, `FaceBit`) and the specification functions for the four update paths.
  Each of these functions is written as the method's own sequence of tests:
  - `EnabledVert`/`EnabledFace` for `updateDataMask(int)`;
  - `DisabledVert`/`DisabledFace` for `clearDataMask`;
  - `ResyncMask` for `updateDataMask()`;
  - `FileMaskBits` for `enable`, over the table `EnableTable` of the nine tested flags.

  The lemmas state what those functions mean and how they relate.
- `texture_names.dfy` (module `TextureNames`): the linear search `std::find` over the
  name list, and the in-place rename of a list entry.
- `mesh_model.dfy` (module `MeshModels`): the class `MeshModel`, whose methods update
  its fields in place. The vertex and face stores are the sets `vert` and `face` of
  enabled buffer kinds. Every topology recomputation is appended to the ghost log
  `rebuilds`.

Behaviour of the code worth noting, each stated by a contract or a lemma:

- `clearDataMask` clears whatever bits it is given, the always-present ones included
  (line 360; the contract of `ClearDataMask`).
- `updateDataMask(int)` has no enable call for MM_VERTCURV, so declaring that bit
  leaves the curvature buffer off (`EnableVertCurvDrifts`).
- `clearDataMask` has no disable call for MM_FACECURVDIR, so enabling and then clearing
  it does not restore the face store (`FaceCurvDirNotRestored`).
- The argument-less `updateDataMask` behaves as follows (`ResyncMaskShape`):
  - it always sets MM_VERTQUALITY and MM_VERTCOLOR;
  - it never inspects the vertex curvature buffer;
  - it sets MM_VERTFACETOPO from either store.
- `enable` forwards IOM_CAMERA as MM_CAMERA, but `io2mm` has no case for IOM_CAMERA and
  faults on it (`EnableTableAgreesWithIo2mm`).

## Model

| member | source | states |
|---|---|---|
| DataMask.Io2mm | src/common/ml_document/mesh_model.cpp:199-229 | The empty mask maps to the empty mask. A mask of two or more flags faults. A successful translation of one flag is one bit, and only flags the switch names translate. |
| DataMask.SwitchCase | src/common/ml_document/mesh_model.cpp:203-222 | The switch has a case for a flag exactly when the flag is one of the sixteen it names. |
| DataMask.Mm2io | src/common/ml_document/mesh_model.cpp:203-222 | For every bit, it gives the unique flag whose case yields that bit, or none. |
| DataMask.Io2mmTotal | src/common/ml_document/mesh_model.cpp:203-222 | Every named flag translates, with no fault, into the single bit of its case. |
| DataMask.Io2mmFaults | src/common/ml_document/mesh_model.cpp:224-227 | IOM_CAMERA and every flag the switch does not name hit the `assert(0)` path. |
| DataMask.Io2mmInjective | src/common/ml_document/mesh_model.cpp:203-222 | Distinct named flags translate into distinct bits. |
| DataMask.VertBit | src/common/ml_document/mesh_model.cpp:315-339 | The bit each vertex buffer stores, as paired by the tests and enable calls. No contract of its own; `VertBufFor` states its inverse. |
| DataMask.FaceBit | src/common/ml_document/mesh_model.cpp:310-331 | The bit each face buffer stores; VF adjacency is stored in both stores. No contract of its own; `FaceBufFor` states its inverse. |
| DataMask.VertBufFor | src/common/ml_document/mesh_model.cpp:315-339 | For every bit, the unique vertex buffer storing it, or none. |
| DataMask.FaceBufFor | src/common/ml_document/mesh_model.cpp:310-331 | For every bit, the unique face buffer storing it, or none. |
| DataMask.EnabledFace | src/common/ml_document/mesh_model.cpp:310-331 | The face store after `updateDataMask(needed)`, test by test. No contract of its own; `EnabledFaceMembers` states it. |
| DataMask.EnabledVert | src/common/ml_document/mesh_model.cpp:315-339 | The vertex store after `updateDataMask(needed)`, test by test. No contract of its own; `EnabledVertMembers` states it. |
| DataMask.DisabledFace | src/common/ml_document/mesh_model.cpp:346-353 | The face store after `clearDataMask(u)`, test by test against the mask on entry. No contract of its own; `DisabledFaceMembers` states it. |
| DataMask.DisabledVert | src/common/ml_document/mesh_model.cpp:346-358 | The vertex store after `clearDataMask(u)`, test by test against the mask on entry. No contract of its own; `DisabledVertMembers` states it. |
| DataMask.ResyncVert | src/common/ml_document/mesh_model.cpp:277-286 | The vertex tests of the argument-less `updateDataMask`. No contract of its own; `ResyncVertMembers` states it. |
| DataMask.ResyncFace | src/common/ml_document/mesh_model.cpp:287-300 | The face tests of the argument-less `updateDataMask`. No contract of its own; `ResyncFaceMembers` states it. |
| DataMask.ResyncMask | src/common/ml_document/mesh_model.cpp:269-300 | The mask the argument-less `updateDataMask` computes. No contract of its own; `ResyncBit` and `ResyncMaskShape` state it. |
| DataMask.Consistent | src/common/ml_document/mesh_model.cpp:308-361 | The mask declares a buffer-backed bit iff the buffer storing it is enabled. No contract of its own; `EnableKeepsConsistent`, `DisableKeepsConsistent` and `ResyncIsConsistent` state which updates keep it. |
| DataMask.EnableTable | src/common/ml_document/mesh_model.cpp:365-382 | The nine flags `enable` tests, in its order, each with the bit it requests. No contract of its own; `EnableTableAgreesWithIo2mm` states it. |
| DataMask.Requested | src/common/ml_document/mesh_model.cpp:365-382 | The bits the first `k` tests of `enable` request. No contract of its own; `RequestedMembers` states it. |
| DataMask.FileMaskBits | src/common/ml_document/mesh_model.cpp:363-383 | The bits `enable` requests. No contract of its own; `FileMaskBitsMembers` states it. |
| DataMask.EnabledFaceMembers | src/common/ml_document/mesh_model.cpp:310-331 | After `updateDataMask(needed)`, a face buffer is enabled iff it was enabled before or the bit it stores is needed. |
| DataMask.EnabledVertMembers | src/common/ml_document/mesh_model.cpp:315-339 | After `updateDataMask(needed)`, a vertex buffer is enabled iff it was enabled before or its bit is needed and it is not the curvature buffer. |
| DataMask.DisabledFaceMembers | src/common/ml_document/mesh_model.cpp:346-353 | After `clearDataMask(u)`, a face buffer stays enabled unless its bit is in `u` and in the mask on entry. The curvature-direction buffer is never disabled. |
| DataMask.DisabledVertMembers | src/common/ml_document/mesh_model.cpp:346-358 | After `clearDataMask(u)`, a vertex buffer stays enabled iff it was enabled and its bit is not both in `u` and in the mask on entry. |
| DataMask.Rebuilds | src/common/ml_document/mesh_model.cpp:310-320 | A FaceFace rebuild runs iff MM_FACEFACETOPO is needed. A VertexFace rebuild runs iff MM_VERTFACETOPO is needed. Neither runs twice. |
| DataMask.ResyncVertMembers | src/common/ml_document/mesh_model.cpp:277-286 | The vertex tests add the bit of every enabled vertex buffer except curvature, and nothing else. |
| DataMask.ResyncFaceMembers | src/common/ml_document/mesh_model.cpp:287-300 | The face tests add the bit of every enabled face buffer, and nothing else. |
| DataMask.ResyncBit | src/common/ml_document/mesh_model.cpp:269-300 | A bit is in the resynchronised mask iff it is always set, or an inspected buffer storing it is enabled. |
| DataMask.ResyncMaskShape | src/common/ml_document/mesh_model.cpp:271-300 | The resynchronised mask holds the baseline plus MM_VERTQUALITY and MM_VERTCOLOR. It has MM_VERTFACETOPO iff either store has VF adjacency, and never has MM_VERTCURV. |
| DataMask.EnableKeepsConsistent | src/common/ml_document/mesh_model.cpp:308-341 | `updateDataMask` keeps "bit declared iff buffer enabled" for every buffer, unless it newly declares MM_VERTCURV. |
| DataMask.EnableVertCurvDrifts | src/common/ml_document/mesh_model.cpp:308-341 | On every consistent model without MM_VERTCURV, declaring it makes the mask and the vertex store disagree, because the curvature buffer stays off. |
| DataMask.DisableKeepsConsistent | src/common/ml_document/mesh_model.cpp:344-360 | `clearDataMask` keeps the mask and the stores consistent, unless it clears a declared MM_FACECURVDIR. |
| DataMask.ResyncIsConsistent | src/common/ml_document/mesh_model.cpp:269-300 | The resynchronised mask is consistent with the stores when both or neither have VF adjacency and vertex curvature is off. |
| DataMask.ResyncRecoversMask | src/common/ml_document/mesh_model.cpp:269-300 | On a consistent model, resynchronising keeps every buffer-backed bit except MM_VERTCURV. Every other bit becomes exactly the always-set ones. |
| DataMask.EnableComposes | src/common/ml_document/mesh_model.cpp:308-341 | Enabling `a` and then `b` leaves the same stores as enabling `a + b`. |
| DataMask.EnableIdempotent | src/common/ml_document/mesh_model.cpp:308-341 | Enabling the same mask twice leaves the same mask and stores as enabling it once. |
| DataMask.EnableThenDisableRestores | src/common/ml_document/mesh_model.cpp:308-360 | On a consistent model, enabling undeclared bits other than MM_FACECURVDIR and then clearing them restores the mask and both stores. |
| DataMask.FaceCurvDirNotRestored | src/common/ml_document/mesh_model.cpp:308-360 | On every model, enabling and then clearing MM_FACECURVDIR leaves its face buffer enabled. |
| DataMask.UnbackedBitOnlyMask | src/common/ml_document/mesh_model.cpp:308-358 | A bit no buffer stores changes neither store on enable or clear, and causes no rebuild. |
| DataMask.VertFaceCoupling | src/common/ml_document/mesh_model.cpp:315-347 | MM_VERTFACETOPO enables VF adjacency on both stores with exactly one VertexFace rebuild. A declared MM_VERTFACETOPO is cleared on both stores. |
| DataMask.RequestedMembers | src/common/ml_document/mesh_model.cpp:363-383 | The first `k` tests of `enable` request exactly the bits of the present flags among the first `k` tested. |
| DataMask.FileMaskBitsMembers | src/common/ml_document/mesh_model.cpp:363-383 | `enable` requests exactly the bits of the tested flags present in the file mask. |
| DataMask.FileMaskNoTopology | src/common/ml_document/mesh_model.cpp:363-383 | `enable` never requests adjacency, so it runs no rebuild. |
| DataMask.EnableTableAgreesWithIo2mm | src/common/ml_document/mesh_model.cpp:365-382 | Eight of the nine flags `enable` tests request the bit `io2mm` gives them. IOM_CAMERA is tested although `io2mm` faults on it. |
| DataMask.FileMaskIgnoresUntested | src/common/ml_document/mesh_model.cpp:363-383 | A flag `enable` does not test changes nothing and causes no fault. |
| DataMask.EnableStep | src/common/ml_document/mesh_model.cpp:365-366 | One test of `enable` extends the enabled prefix of tests by one and runs no rebuild. |
| TextureNames.IndexOf | src/common/ml_document/mesh_model.cpp:189 | The position of the first occurrence of a name, as `std::find` gives it here and at line 170. It equals the length of the list iff the name is absent. |
| TextureNames.FindName | src/common/ml_document/mesh_model.cpp:189 | The linear search `std::find` (here and at line 170) returns the first occurrence or the end. |
| TextureNames.Renamed | src/common/ml_document/mesh_model.cpp:189-191 | Only the first occurrence of the old name is overwritten, and the length is kept. Every other name stays listed. |
| TextureNames.RenameKeepsNoDuplicates | src/common/ml_document/mesh_model.cpp:183-197 | Renaming to an unlisted name keeps the list free of duplicates and unlists the old name. |
| TextureNames.RenameOntoListedDuplicates | src/common/ml_document/mesh_model.cpp:183-197 | Renaming to a listed name makes that name occur twice. |
| TextureNames.RenameRoundTrip | src/common/ml_document/mesh_model.cpp:183-197 | Renaming to an unlisted name and back restores the list. |
| MeshModels.Rekeyed | src/common/ml_document/mesh_model.cpp:193-194 | The image moves to the new key, the old key is gone, and every other entry is kept. |
| MeshModels.RekeyRoundTrip | src/common/ml_document/mesh_model.cpp:183-197 | Moving an image to an unused key and back restores the table. |
| MeshModels.MeshModel.constructor | src/common/ml_document/mesh_model.cpp:38-46 | A new model has only the always-present bits, is unmodified and visible, and has no buffers, rebuilds or textures. |
| MeshModels.MeshModel.Clear | src/common/ml_document/mesh_model.cpp:48-60 | Afterwards the mask is exactly the six always-present bits, and the model is unmodified, visible and has no selection. Every optional `hasPer*` query is false. |
| MeshModels.MeshModel.HasDataMask | src/common/ml_document/mesh_model.cpp:234-237 | True iff some bit (not every bit) of the tested mask is declared. |
| MeshModels.MeshModel.HasPerVertexColor | src/common/ml_document/mesh_model.cpp:239-242 | Equals `hasDataMask` of MM_VERTCOLOR alone. |
| MeshModels.MeshModel.HasPerVertexQuality | src/common/ml_document/mesh_model.cpp:244-247 | Equals `hasDataMask` of MM_VERTQUALITY alone. |
| MeshModels.MeshModel.HasPerVertexTexCoord | src/common/ml_document/mesh_model.cpp:249-252 | Equals `hasDataMask` of MM_VERTTEXCOORD alone. |
| MeshModels.MeshModel.HasPerFaceColor | src/common/ml_document/mesh_model.cpp:254-257 | Equals `hasDataMask` of MM_FACECOLOR alone. |
| MeshModels.MeshModel.HasPerFaceQuality | src/common/ml_document/mesh_model.cpp:259-262 | Equals `hasDataMask` of MM_FACEQUALITY alone. |
| MeshModels.MeshModel.HasPerFaceWedgeTexCoords | src/common/ml_document/mesh_model.cpp:264-267 | Equals `hasDataMask` of MM_WEDGTEXCOORD alone. |
| MeshModels.MeshModel.GetDataMask | src/common/ml_document/mesh_model.cpp:395-398 | Holds exactly the bits for which `hasDataMask` of that bit is true. |
| MeshModels.MeshModel.MeshModified | src/common/ml_document/mesh_model.cpp:385-388 | The modification flag. No contract of its own; `SetMeshModified` and `Clear` state it. |
| MeshModels.MeshModel.SetMeshModified | src/common/ml_document/mesh_model.cpp:390-393 | `meshModified` afterwards reports the given value. |
| MeshModels.MeshModel.UpdateDataMask | src/common/ml_document/mesh_model.cpp:308-342 | The mask becomes old ∪ needed and the stores become `EnabledVert`/`EnabledFace`. The requested rebuilds are appended to the log. It keeps the mask consistent with the stores, except when MM_VERTCURV is newly declared. |
| MeshModels.MeshModel.UpdateDataMaskFrom | src/common/ml_document/mesh_model.cpp:303-306 | A union-enable of the other model's mask (not a copy), also when the other model is this one. |
| MeshModels.MeshModel.ClearDataMask | src/common/ml_document/mesh_model.cpp:344-361 | The mask becomes old minus the unneeded bits, baseline bits included. The stores become `DisabledVert`/`DisabledFace` of the mask on entry, and no rebuild runs. It keeps consistency unless a declared MM_FACECURVDIR is cleared. |
| MeshModels.MeshModel.UpdateDataMaskFromStores | src/common/ml_document/mesh_model.cpp:269-301 | The mask becomes `ResyncMask` of the stores whatever its old value, and only the mask changes. The result is consistent under the conditions of `ResyncIsConsistent`. |
| MeshModels.MeshModel.EnableIf | src/common/ml_document/mesh_model.cpp:365-382 | One test of `enable`: the state moves from `k` enabled tests to `k + 1`. |
| MeshModels.MeshModel.Enable | src/common/ml_document/mesh_model.cpp:363-383 | The mask grows by exactly `FileMaskBits` of the file mask and the stores become `EnabledVert`/`EnabledFace` of those bits. No rebuild runs. |
| MeshModels.MeshModel.GetTexture | src/common/ml_document/mesh_model.cpp:146-153 | The image stored under the name, or the null image when there is none. |
| MeshModels.MeshModel.ClearTextures | src/common/ml_document/mesh_model.cpp:160-164 | Empties both the image table and the name list. |
| MeshModels.MeshModel.AddTexture | src/common/ml_document/mesh_model.cpp:166-174 | Nothing changes if the name has an image. Otherwise the image is stored and the name is appended only if unlisted. It keeps every image listed and the list free of duplicates. |
| MeshModels.MeshModel.SetTexture | src/common/ml_document/mesh_model.cpp:176-181 | Only an existing image is replaced; a missing name changes nothing. |
| MeshModels.MeshModel.ChangeTextureName | src/common/ml_document/mesh_model.cpp:183-197 | It acts only when the names differ and the old name has an image and is listed. Then the first list entry is renamed and the image moves to the new key. It keeps every image listed, and keeps the list free of duplicates when the new name was unlisted. |

## Left out

- `loadTextures` and `saveTextures` (lines 95-144): they do file and image I/O with an exception-driven fallback and logging.
- `updateBoxAndNormals` (62-69) and `cm.Tr.SetIdentity()` in `clear` (57): floating-point geometry in the mesh library.
- `relativePathName` (71-80), and the constructor's `id`, file name and label (43-45): thin wrappers over path and string classes.
- `getTextures` (155-158) returns the image table itself, which is the field `textures` here.
- The bodies of `tri::UpdateTopology` and the buffer enable/disable calls of the mesh library: a store is the set of its enabled buffer kinds, and a rebuild is an entry in the ghost log `rebuilds`. Adjacency contents are not modelled.
- The numeric values of the `MM_*` and `IOM_*` flags (defined in headers that are not part of this model): masks are sets of flags, and only distinctness matters.
- Io2mm: with assertions compiled out, `io2mm` returns MM_NONE after the failed `assert(0)`. The model treats every such input as the fault `None`.
- Exceptions thrown part-way through `updateDataMask` or `enable` (a failed allocation): the model has no failure path.
- `visible`, `svn` and `sfn` are set by `clear` and the constructor, and are not otherwise used in mesh_model.cpp.
- Aliasing between the mesh and its name list: `textureNames` stands for `cm.textures` and is a field of the model.
