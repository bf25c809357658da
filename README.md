# COLLADA reference linking, modelled in Dafny

This project models the linking pass of the p57 COLLADA loader (`ColladaLoader.linkCollada`
and the helpers it calls). The pass takes a deserialised COLLADA document, in which records
refer to one another only by id strings, and produces a linked document, in which those
references are direct. The pass works in a fixed order:

1. It checks the declared version against the closed allow-list `{"1.4.1"}`.
2. It builds id-keyed tables, in this order: images, effects, materials, geometries and
   visual scenes. Each geometry also gets its own source table and vertices table.
3. It resolves every reference into the table it names. Two addressing forms exist:
   - **URI-fragment** references, where the key is the text after the first `#`. These are
     instance effects, input sources, the VERTEX input, node geometry URLs, instance-material
     targets and instance-visual-scene URLs.
   - **Bare-key** references. These are a texture's image id and a triangles element's
     material.
4. It enforces the input rules:
   - a `<vertices>` group needs a POSITION input;
   - a triangles element needs NORMAL and VERTEX inputs;
   - a TEXCOORD input is optional;
   - a triangles element's material may be missing without error.

Files and modules:

- `results.dfy` (`Results`): `Option`, and `Result` with one `LinkError` per fatal check.
- `references.dfy` (`References`): `Fragment` (`idFromLink`) and table lookup.
- `tables.dfy` (`Tables`): the table builder `map` in two forms. `LinkTable` is the
  specification function and `BuildTable` is the loop, proved equal to it. `MapAll` is the
  element-wise list transform.
- `collada.dfy` (`Collada`): the raw records. Only the fields the pass reads are modelled.
- `linked_collada.dfy` (`LinkedCollada`): the linked records. Each one keeps the raw record
  it came from (`src`), as the Java constructors do.
- `effect_linking.dfy`, `geometry_linking.dfy`, `scene_linking.dfy`: the stages of the pass.
- `collada_loader.dfy` (`ColladaLoader`): `LinkCollada`, together with `Linkable` (which raw
  documents link) and `Integrity` (what a linked document guarantees). The stages after the
  version gate are written as a chain of functions, one per stage (`LinkLibraries`,
  `LinkMaterialsOnward`, `LinkGeometriesOnward`, `LinkScenesOnward`).
- `scenarios.dfy`: an end-to-end document that links, and the same document with a dangling
  VERTEX reference, which fails.

Each stage function states both directions of its success condition, in terms of the key
sets of the tables it is given. On success it states that every reference field equals the
table entry its key names, and that every table entry is the linked form of the last record
of its library with that key. On failure it states the error: the leaf lookups name the
key or URL that did not resolve, and every table and list names the first record, in
input order, whose linking fails, all records before it linking. Every linked record keeps
its raw record, so each resolved reference is checked against the raw key it was made from.
The pass as a whole is described by `LinkCollada` and three lemmas about it. An unsupported
version fails with `UnsupportedVersion`, and no other stage raises that error. Otherwise the
failure is that of the first failing stage, stages taken in the loader's order. Linking
succeeds exactly when the document is `Linkable`. A success satisfies `Integrity`.

Where the code and the format's usual reading disagree, the model follows the code:

- A node without `<instance_geometry>` is a failure (`NodeGeometryMissing`). The loader
  passes the null geometry to `linkGeometry`, which dereferences it. The format itself treats
  the geometry binding as optional.
- Duplicate ids are not rejected. The last record with a given id wins.
- An unresolved or absent triangles material is not an error. It becomes `None`.
- A missing POSITION input yields an error that names no group, because the loader's
  message is a constant.

## Model

| member | source | states |
|---|---|---|
| Tables.LinkTable | p57/src/ColladaLoader.java:405-420 | The table succeeds iff every record converts. Its key set is exactly the set of record keys. Each entry is the conversion of a record with that key. A failure is the error of the first record whose conversion fails. |
| Tables.LinkTableLastWins | p57/src/ColladaLoader.java:410-415 | Last write wins: the entry under key k is the conversion of the last record whose key is k. |
| Tables.LinkTableEntries | p57/src/ColladaLoader.java:405-420 | Every entry of a built table is the conversion of the last record with its key, so no entry is made up. |
| Tables.BuildTable | p57/src/ColladaLoader.java:405-420 | The loop that puts each converted record under its key, and stops at the first failing conversion, returns exactly `LinkTable`. |
| Tables.MapAll | p57/src/ColladaLoader.java:99-109 | The element-wise transform succeeds iff every element converts. The result has the same length and order as the input, and element i is the conversion of input i. A failure is the error of the first failing element. |
| References.Fragment | p57/src/ColladaLoader.java:111-113 | A reference has no fragment (null) exactly when it contains no '#'. A fragment is shorter than the reference. |
| References.FragmentOfLink | p57/src/ColladaLoader.java:111-113 | Writing a key after a '#'-free base gives a reference whose fragment is that key. |
| References.FragmentSplits | p57/src/ColladaLoader.java:111-113 | Every fragment is the text after the first '#' of the reference. |
| EffectLinking.LinkImages | p57/src/ColladaLoader.java:62-63 | The image table is keyed by exactly the image ids. Each entry wraps the last image record with that id. |
| EffectLinking.LinkTextureParam | p57/src/ColladaLoader.java:156-166 | Succeeds iff the texture's bare image id is in the image table. The linked image is that table entry. Otherwise the result is ImageNotFound(id). |
| EffectLinking.LinkPhong | p57/src/ColladaLoader.java:146-154 | Succeeds iff both the emission and the diffuse image ids resolve, and both linked textures equal their table entries. Emission is checked first: an unresolved emission id gives ImageNotFound(emission id), and otherwise an unresolved diffuse id gives ImageNotFound(diffuse id). |
| EffectLinking.LinkTechnique | p57/src/ColladaLoader.java:138-142 | Succeeds iff the technique's phong resolves, and the linked phong is made from its own phong and satisfies PhongLinked. The error is ImageNotFound of the emission id, or of the diffuse id when the emission resolves. |
| EffectLinking.LinkTechniques | p57/src/ColladaLoader.java:135-144 | The technique table succeeds iff every phong resolves. It is keyed by the technique ids, every entry's textures equal the image-table entries, and each entry is LinkTechnique of the last technique with its id. A failure is the ImageNotFound error of the first technique that fails. |
| EffectLinking.LinkCommonProfile | p57/src/ColladaLoader.java:126-133 | The profile links iff all its techniques do. On success it keeps its raw profile and satisfies ProfileLinked: keyed by the technique ids, each entry the last technique with its id, linked. A failure is the ImageNotFound error of the first failing technique. |
| EffectLinking.LinkEffect | p57/src/ColladaLoader.java:118-123 | Succeeds iff every texture of every technique names an existing image, and the result satisfies EffectLinked. A failure is the ImageNotFound error of the first failing technique. |
| EffectLinking.LinkEffects | p57/src/ColladaLoader.java:115-124 | The effect table succeeds iff every effect resolves. On success it satisfies EffectTable: keyed by the effect ids, each entry linked and equal to LinkEffect of the last effect with its id. A failure is the ImageNotFound error of the first effect that fails. |
| EffectLinking.PrepareEffect | p57/src/ColladaLoader.java:102-108 | Succeeds iff the URL fragment names an effect, and returns that table entry. Otherwise the result is EffectNotFound(url). |
| EffectLinking.PrepareEffects | p57/src/ColladaLoader.java:99-109 | The effect list has the same length and order as the instance effects, and element i is effects[fragment(url_i)]. It fails iff some fragment is unresolved, with the error naming the first such URL. |
| EffectLinking.LinkMaterial | p57/src/ColladaLoader.java:91-96 | Succeeds iff every instance-effect fragment names an effect, and the result satisfies MaterialLinked. A failure is EffectNotFound(url) of the first unresolved instance effect. |
| EffectLinking.LinkMaterials | p57/src/ColladaLoader.java:88-97 | The material table succeeds iff every material resolves. On success it satisfies MaterialTable: keyed by the material ids, each entry's effect list follows its instance effects one for one, and each entry is LinkMaterial of the last material with its id. A failure is the EffectNotFound error of the first material that fails. |
| GeometryLinking.LinkSources | p57/src/ColladaLoader.java:185-186 | A mesh's source table is keyed by exactly the source ids. Each entry wraps the last source with that id. |
| GeometryLinking.InputsBySemantic | p57/src/ColladaLoader.java:242 | The triangles' input table is keyed by exactly the input semantics. Each entry is the last input of that semantic. |
| GeometryLinking.ResolveSource | p57/src/ColladaLoader.java:224-227 | Succeeds iff the fragment names a source, and returns that table entry. Otherwise the result is SourceNotFound(fragment). |
| GeometryLinking.SemanticSources | p57/src/ColladaLoader.java:219-232 | Succeeds iff every input's fragment names a source of the mesh. It is keyed by exactly the input semantics. A failure names the first unresolved fragment. |
| GeometryLinking.SemanticSourcesLastWins | p57/src/ColladaLoader.java:223-230 | The entry for a semantic is the source named by the last input with that semantic. |
| GeometryLinking.CollectSemanticSources | p57/src/ColladaLoader.java:219-232 | The loop over inputs, stopping at the first unresolved source, returns exactly SemanticSources. |
| GeometryLinking.LinkVertices | p57/src/ColladaLoader.java:203-216 | Succeeds iff all inputs resolve and some input has semantic POSITION. On success, position == semanticSources["POSITION"] and each entry comes from the last input of its semantic. If some input is unresolved, the result is SourceNotFound of the first unresolved input's fragment, before POSITION is checked. If all inputs resolve, the only possible error is PositionMissing. |
| GeometryLinking.LinkVerticesTable | p57/src/ColladaLoader.java:199-217 | The vertices table succeeds iff every group resolves and has POSITION. On success it satisfies VerticesTable: keyed by the group ids, each entry VerticesLinked and equal to LinkVertices of the last group with its id. A failure is the error of the first group that fails. |
| GeometryLinking.PrepareSource | p57/src/ColladaLoader.java:276-289 | An absent semantic gives no source and no error. A present one must resolve, and then gives the table entry its fragment names. An unresolved one is SourceNotFound. |
| GeometryLinking.PrepareVertex | p57/src/ColladaLoader.java:263-274 | Succeeds iff a VERTEX input exists and its fragment names a vertices group, and returns that group. A missing input is VertexInputMissing. An unresolved input is VerticesNotFound(fragment). |
| GeometryLinking.LinkTriangles | p57/src/ColladaLoader.java:235-261 | Succeeds iff NORMAL is present and resolves, TEXCOORD (if present) resolves, and VERTEX is present and resolves. Texcoord is absent exactly when there is no TEXCOORD input. The material is the bare-key lookup, possibly absent. A failure is the first one in the loader's check order (TrianglesFailure). |
| GeometryLinking.LinkMesh | p57/src/ColladaLoader.java:180-197 | Succeeds iff every vertices group and the triangles resolve against the mesh's own tables, and the result satisfies MeshLinked. The vertices table is linked first: its failure is the mesh's failure. Otherwise a failure is the triangles' TrianglesFailure. |
| GeometryLinking.LinkGeometryEntry | p57/src/ColladaLoader.java:172-177 | A geometry links iff its mesh does. The linked mesh is made from the geometry's own mesh, and a failure is the mesh's own error. |
| GeometryLinking.LinkGeometries | p57/src/ColladaLoader.java:168-178 | The geometry table succeeds iff every mesh resolves. On success it satisfies GeometryTable: keyed by the geometry ids, each entry fully linked and equal to LinkGeometryEntry of the last geometry with its id. A failure is the error of the first geometry whose mesh fails, and only geometry errors can occur. |
| SceneLinking.LinkInstanceMaterial | p57/src/ColladaLoader.java:346-355 | Succeeds iff the target fragment names a material, and holds that table entry. Otherwise the result is MaterialNotFound(fragment). |
| SceneLinking.LinkMaterialTechnique | p57/src/ColladaLoader.java:337-344 | Links iff its instance material resolves. The bound material is materials[fragment(target)]. |
| SceneLinking.LinkBindMaterial | p57/src/ColladaLoader.java:329-335 | Links iff the common technique's instance material resolves. The bound material is materials[fragment(target)]. |
| SceneLinking.LinkNodeGeometry | p57/src/ColladaLoader.java:315-327 | Succeeds iff the URL fragment names a geometry and the bound target names a material. The geometry is checked first, and a failure there is GeometryNotFound(url). The linked fields equal the table entries. |
| SceneLinking.LinkNode | p57/src/ColladaLoader.java:307-312 | A node links iff it has an instance_geometry and both references resolve, and the result satisfies NodeLinked. A node without one fails with NodeGeometryMissing. Otherwise a failure is LinkNodeGeometry's error. |
| SceneLinking.LinkNodes | p57/src/ColladaLoader.java:303-313 | The nodes keep their length and order, and each node is linked from its own raw node. The list fails iff some node does, with the error of the first failing node. |
| SceneLinking.LinkVisualScene | p57/src/ColladaLoader.java:295-300 | A visual scene links iff all its nodes do, and the result satisfies VisualSceneLinked. A failure is the error of its first failing node. |
| SceneLinking.LinkVisualScenes | p57/src/ColladaLoader.java:291-301 | The visual-scene table succeeds iff every scene's nodes resolve. On success it satisfies VisualSceneTable: keyed by the visual-scene ids, each entry linked and equal to LinkVisualScene of the last visual scene with its id. A failure is the error of the first failing visual scene. |
| SceneLinking.LinkSceneInstance | p57/src/ColladaLoader.java:372-383 | Succeeds iff the URL fragment names a visual scene, and holds that entry. Otherwise the result is VisualSceneNotFound(fragment). |
| SceneLinking.LinkSceneInstances | p57/src/ColladaLoader.java:368-384 | The instances keep their length and order, and instance i is visualScenes[fragment(url_i)]. The list fails iff some fragment is unresolved, with VisualSceneNotFound of the first unresolved fragment. |
| SceneLinking.LinkScene | p57/src/ColladaLoader.java:360-365 | A scene links iff all its instances resolve, and the result satisfies SceneLinked. A failure is VisualSceneNotFound of its first unresolved instance's fragment. |
| SceneLinking.LinkScenes | p57/src/ColladaLoader.java:357-366 | The linked scene list keeps the length and order of the input scenes, and scene i is linked from raw scene i (SceneList). It fails iff some instance is unresolved, with the error of the first failing scene. |
| ColladaLoader.LinkCollada | p57/src/ColladaLoader.java:55-86 | An unsupported version fails with UnsupportedVersion before any table is built. A failure is UnsupportedVersion exactly when the version is unsupported, so no later stage raises that error. |
| ColladaLoader.LinkColladaStageOrder | p57/src/ColladaLoader.java:62-85 | For a supported version, the failure is that of the first failing stage, stages taken in the order effects, materials, geometries, visual scenes, scenes. |
| ColladaLoader.LinkColladaSucceedsIffLinkable | p57/src/ColladaLoader.java:55-86 | Linking succeeds exactly when the document is Linkable: the version is supported and every reference in every library names a record that exists where it must. |
| ColladaLoader.LinkColladaIntegrity | p57/src/ColladaLoader.java:62-85 | A linked document keeps its raw document and satisfies Integrity: each table is keyed by its library's ids, each entry is the last record with its key, linked, and every reference equals its table entry. |
| LinkingScenarios.EndToEndScenario | p57/src/ColladaLoader.java:235-261 | In the resolvable scenario, the triangles hold material "mat1", a vertices group positioned by "pos-src", normal "norm-src" and no texcoord. Material "mat1"'s effect list is exactly the effect "eff1". |
| LinkingScenarios.UnresolvedVertexScenario | p57/src/ColladaLoader.java:263-274 | The same scenario with VERTEX -> "#missing-vtx" fails with VerticesNotFound("missing-vtx"). |

## Left out

- Reading the file, configuring XStream and the `load` stub that returns null: these are I/O
  and a foreign deserialiser. The model starts from the deserialised record tree.
- Reflective key extraction through `PropertyUtils.getProperty`, and the exceptions it
  wraps: each record type has an explicit key accessor (its id, or the input's semantic).
  Keys are never null.
- Full `java.net.URI` parsing: malformed-URI exceptions, percent-decoding and the other URI
  components are not modelled. The fragment is the text after the first '#'.
- The laziness of `Lists.transform`: material effect lists, visual-scene node lists, the
  scene list and each scene's instances are views in the loader. Their null checks only run
  when an element is read, so `linkCollada` itself returns without raising them. The model
  resolves those lists eagerly, so these failures occur during linking and in the stage
  order.
- Null reference attributes: every url, source, target and texture attribute is a string in
  the model, never null. In the loader a null url, source or target reaches
  `URI.create(null)` in `idFromLink` (ColladaLoader.java:112, called from lines 104, 224,
  270, 285, 319, 349 and 373) and is a NullPointerException. A null texture id fails the
  lookup at lines 160-161. The model has no error for these cases.
- Null record lists and a null version: every list of the raw document (the libraries,
  techniques, sources, vertices groups, inputs, instance effects, nodes, scenes and scene
  instances) is a sequence in the model, so an absent list links as empty. In the loader a
  null list is a NullPointerException: from the for-each in `map` (ColladaLoader.java:411),
  which also builds a triangles element's input table (line 242); from the for-each of
  `linkSemanticSources` (line 223) for a vertices group's inputs; or from `Lists.transform`
  (lines 102, 307, 360 and 372). The version is a string in the
  model. In the loader a null version is not in the allow-list and fails with an
  UnsupportedOperationException naming "null" (lines 56-58), which `UnsupportedVersion`
  cannot represent. So `LinkColladaSucceedsIffLinkable` accepts documents with absent lists
  that the loader rejects.
- Null sub-elements other than a node's instance_geometry and a triangles element's material
  attribute: a missing profile, phong, emission or diffuse texture, mesh, triangles element,
  bind_material, technique or instance_material is a NullPointerException in the loader (a
  missing instance_material reaches `src.getTarget()` at line 349 through line 342). The model's record
  types always contain them.
- Exception message text: each error value carries only the key or URL the message names.
- Object identity: linked records are values, so "the same object" is stated as equality with
  the table entry.
- Fields of the raw records that the pass does not read, such as float arrays and the payloads
  of images and sources. The internals of the `Collada` and `LinkedCollada` classes, and the
  LWJGL model, are not part of this model.
- Concurrency and repeated calls: the pass is a pure function here, so linking the same
  document twice gives equal results by construction.
