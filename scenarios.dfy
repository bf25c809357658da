/** Linking an example document, one with every reference resolvable and one
    with a dangling vertices reference, stated as lemmas over the concrete document. */
module LinkingScenarios {
  import opened Results
  import opened References
  import opened Tables
  import Collada
  import LinkedCollada
  import opened EffectLinking
  import opened GeometryLinking
  import opened SceneLinking
  import opened ColladaLoader

  function ScenarioEffect(): Collada.Effect
  {
    var texture := Collada.TextureParam(Collada.Texture("tex1"));
    Collada.Effect("eff1", Collada.Profile([Collada.Technique("common", Collada.Phong(texture, texture))]))
  }

  function ScenarioMaterial(): Collada.Material
  {
    Collada.Material("mat1", [Collada.InstanceEffect("#eff1")])
  }

  function ScenarioVertices(): Collada.Vertices
  {
    Collada.Vertices("geo1-vtx", [Collada.Input("POSITION", "#pos-src")])
  }

  function ScenarioTriangles(vertexUrl: string): Collada.Triangles
  {
    Collada.Triangles(Some("mat1"), [Collada.Input("VERTEX", vertexUrl), Collada.Input("NORMAL", "#norm-src")])
  }

  function ScenarioMesh(vertexUrl: string): Collada.Mesh
  {
    Collada.Mesh([Collada.Source("pos-src"), Collada.Source("norm-src")], [ScenarioVertices()], ScenarioTriangles(vertexUrl))
  }

  function ScenarioGeometry(vertexUrl: string): Collada.Geometry
  {
    Collada.Geometry("geo1", "geo1", ScenarioMesh(vertexUrl))
  }

  /** One image "tex1"; one effect "eff1" whose phong textures name "tex1"; one
      material "mat1" instancing "#eff1"; one geometry "geo1" with sources
      "pos-src" and "norm-src", a vertices group "geo1-vtx" with POSITION ->
      "#pos-src", and triangles with material "mat1", VERTEX -> vertexUrl and
      NORMAL -> "#norm-src". */
  function ScenarioDocument(vertexUrl: string): Collada.Document
  {
    Collada.Document("1.4.1", [Collada.Image("tex1")], [ScenarioEffect()], [ScenarioMaterial()],
                     [ScenarioGeometry(vertexUrl)], [], [])
  }

  lemma FragmentOfKey(key: string)
    ensures Fragment("#" + key) == Some(key)
  {
    FragmentOfLink("", key);
    assert "" + "#" + key == "#" + key;
  }

  lemma KeysOfOne<S>(x: S, key: S -> string)
    ensures KeysOf([x], key) == {key(x)}
  {
    assert [x][0] == x;
  }

  lemma KeysOfTwo<S>(x: S, y: S, key: S -> string)
    ensures KeysOf([x, y], key) == {key(x), key(y)}
  {
    assert [x, y][0] == x && [x, y][1] == y;
  }

  const Tex1 := LinkedCollada.Image(Collada.Image("tex1"))
  const PosSrc := LinkedCollada.Source(Collada.Source("pos-src"))
  const NormSrc := LinkedCollada.Source(Collada.Source("norm-src"))

  lemma ScenarioImages()
    ensures LinkImages([Collada.Image("tex1")]) == map["tex1" := Tex1]
  {
    KeysOfOne(Collada.Image("tex1"), ImageId);
  }

  lemma ScenarioEffects()
    ensures LinkEffects([ScenarioEffect()], map["tex1" := Tex1]).Ok?
    ensures LinkEffects([ScenarioEffect()], map["tex1" := Tex1]).value.Keys == {"eff1"}
  {
    KeysOfOne(ScenarioEffect(), EffectId);
    assert EffectResolvable(ScenarioEffect(), {"tex1"});
  }

  lemma ScenarioMaterials(effects: map<string, LinkedCollada.Effect>)
    requires effects.Keys == {"eff1"}
    ensures LinkMaterials([ScenarioMaterial()], effects).Ok?
    ensures var t := LinkMaterials([ScenarioMaterial()], effects).value;
      t.Keys == {"mat1"} && t["mat1"].effects == [effects["eff1"]]
  {
    KeysOfOne(ScenarioMaterial(), MaterialId);
    FragmentOfKey("eff1");
    assert MaterialResolvable(ScenarioMaterial(), {"eff1"});
    var t := LinkMaterials([ScenarioMaterial()], effects).value;
    assert MaterialLinked(t["mat1"], effects);
    assert t["mat1"].src == ScenarioMaterial();
  }

  lemma ScenarioSources(vertexUrl: string)
    ensures LinkSources(ScenarioMesh(vertexUrl).sources) == map["pos-src" := PosSrc, "norm-src" := NormSrc]
  {
    var src := ScenarioMesh(vertexUrl).sources;
    KeysOfTwo(src[0], src[1], SourceId);
    var t := LinkSources(src);
    assert t["pos-src"].src in src && t["norm-src"].src in src;
  }

  lemma ScenarioVerticesTable(sources: map<string, LinkedCollada.Source>)
    requires sources == map["pos-src" := PosSrc, "norm-src" := NormSrc]
    ensures LinkVerticesTable([ScenarioVertices()], sources).Ok?
    ensures var t := LinkVerticesTable([ScenarioVertices()], sources).value;
      t.Keys == {"geo1-vtx"} && t["geo1-vtx"].position == PosSrc
  {
    var v := ScenarioVertices();
    KeysOfOne(v, VerticesId);
    KeysOfOne(v.inputs[0], InputSemantic);
    FragmentOfKey("pos-src");
    assert VerticesResolvable(v, sources.Keys);
    var t := LinkVerticesTable([v], sources).value;
    var x := t["geo1-vtx"];
    assert x.src == v;
    assert VerticesLinked(x, sources);
    var i :| IsLastWith(v.inputs, InputSemantic, "POSITION", i) &&
      Resolve(sources, Fragment(v.inputs[i].source)) == Some(x.semanticSources["POSITION"]);
    assert i == 0;
  }

  lemma ScenarioInputs(vertexUrl: string)
    ensures InputsBySemantic(ScenarioTriangles(vertexUrl).inputs)
      == map["VERTEX" := Collada.Input("VERTEX", vertexUrl), "NORMAL" := Collada.Input("NORMAL", "#norm-src")]
  {
    var inputs := ScenarioTriangles(vertexUrl).inputs;
    KeysOfTwo(inputs[0], inputs[1], InputSemantic);
    var t := InputsBySemantic(inputs);
    assert t["VERTEX"] in inputs && t["NORMAL"] in inputs;
  }

  /** The NORMAL and TEXCOORD lookups of the scenario's triangles: the normal
      source is "norm-src" and there are no texture coordinates. */
  lemma ScenarioTrianglesSources(
    u: string,
    inputs: map<string, Collada.Input>,
    sources: map<string, LinkedCollada.Source>)
    requires inputs == map["VERTEX" := Collada.Input("VERTEX", u), "NORMAL" := Collada.Input("NORMAL", "#norm-src")]
    requires sources == map["pos-src" := PosSrc, "norm-src" := NormSrc]
    ensures PrepareSource(sources, LinkedCollada.NORMAL, inputs) == Ok(Some(NormSrc))
    ensures PrepareSource(sources, LinkedCollada.TEXTURE_COORDINATE, inputs) == Ok(None)
  {
    FragmentOfKey("norm-src");
  }

  // The vertex URL is a parameter fixed by a precondition rather than a literal
  // in the body: this keeps the solver from unfolding the whole literal document.

  lemma ScenarioTrianglesResolved(
    u: string,
    materials: map<string, LinkedCollada.Material>,
    sources: map<string, LinkedCollada.Source>,
    vertices: map<string, LinkedCollada.Vertices>)
    requires u == "#geo1-vtx"
    requires "mat1" in materials && vertices.Keys == {"geo1-vtx"}
    requires sources == map["pos-src" := PosSrc, "norm-src" := NormSrc]
    ensures var tri := LinkTriangles(ScenarioTriangles(u), ScenarioGeometry(u), materials, sources, vertices);
      && tri.Ok?
      && tri.value.material == Some(materials["mat1"])
      && tri.value.vertices == vertices["geo1-vtx"]
      && tri.value.normal == NormSrc
      && tri.value.texcoord == None
  {
    ScenarioInputs(u);
    var inputs := InputsBySemantic(ScenarioTriangles(u).inputs);
    ScenarioTrianglesSources(u, inputs, sources);
    FragmentOfKey("geo1-vtx");
    assert PrepareVertex(vertices, inputs) == Ok(vertices["geo1-vtx"]);
  }

  lemma ScenarioTrianglesUnresolved(
    u: string,
    materials: map<string, LinkedCollada.Material>,
    sources: map<string, LinkedCollada.Source>,
    vertices: map<string, LinkedCollada.Vertices>)
    requires u == "#missing-vtx"
    requires vertices.Keys == {"geo1-vtx"}
    requires sources == map["pos-src" := PosSrc, "norm-src" := NormSrc]
    ensures LinkTriangles(ScenarioTriangles(u), ScenarioGeometry(u), materials, sources, vertices)
        == Err(VerticesNotFound(Some("missing-vtx")))
  {
    ScenarioInputs(u);
    var inputs := InputsBySemantic(ScenarioTriangles(u).inputs);
    ScenarioTrianglesSources(u, inputs, sources);
    FragmentOfKey("missing-vtx");
    assert PrepareVertex(vertices, inputs) == Err(VerticesNotFound(Some("missing-vtx")));
  }

  /** The scenario's image, effect and material tables. */
  lemma ScenarioLibraries(vertexUrl: string)
    ensures var c := ScenarioDocument(vertexUrl);
      var images := LinkImages(c.libraryImages);
      && LinkEffects(c.libraryEffects, images).Ok?
      && var effects := LinkEffects(c.libraryEffects, images).value;
      && effects.Keys == {"eff1"}
      && LinkMaterials(c.libraryMaterials, effects).Ok?
      && var materials := LinkMaterials(c.libraryMaterials, effects).value;
      && materials.Keys == {"mat1"}
      && materials["mat1"].effects == [effects["eff1"]]
  {
    var c := ScenarioDocument(vertexUrl);
    ScenarioImages();
    ScenarioEffects();
    var effects := LinkEffects(c.libraryEffects, LinkImages(c.libraryImages)).value;
    ScenarioMaterials(effects);
  }

  /** LinkCollada of a supported document whose stages all succeed is the document of those stages. */
  lemma LinkColladaOfStages(
    c: Collada.Document,
    effects: map<string, LinkedCollada.Effect>,
    materials: map<string, LinkedCollada.Material>,
    geometries: map<string, LinkedCollada.Geometry>,
    visualScenes: map<string, LinkedCollada.VisualScene>,
    scenes: seq<LinkedCollada.Scene>)
    requires c.version in Collada.AllowedVersions
    requires LinkEffects(c.libraryEffects, LinkImages(c.libraryImages)) == Ok(effects)
    requires LinkMaterials(c.libraryMaterials, effects) == Ok(materials)
    requires LinkGeometries(c.libraryGeometries, materials) == Ok(geometries)
    requires LinkVisualScenes(c.libraryVisualScenes, geometries, materials) == Ok(visualScenes)
    requires LinkScenes(c.scenes, visualScenes) == Ok(scenes)
    ensures LinkCollada(c)
      == Ok(LinkedCollada.Document(c, LinkImages(c.libraryImages), materials, effects, geometries, visualScenes, scenes))
  {
  }

  lemma LastInSingleton<S>(x: S, key: S -> string, k: string, i: int)
    requires IsLastWith([x], key, k, i)
    ensures i == 0 && [x][i] == x
  {
  }

  /** A library of one geometry whose mesh links holds the geometry under its id with that mesh. */
  lemma LinkGeometriesSingleOk(g: Collada.Geometry, materials: map<string, LinkedCollada.Material>)
    requires LinkMesh(g.mesh, g, materials).Ok?
    ensures LinkGeometries([g], materials).Ok?
    ensures g.id in LinkGeometries([g], materials).value
    ensures LinkGeometries([g], materials).value[g.id].mesh == LinkMesh(g.mesh, g, materials).value
  {
    var r := LinkGeometries([g], materials);
    assert MeshResolvable([g][0].mesh);
    assert GeometryTable([g], materials, r.value);
    assert GeometryId([g][0]) in KeysOf([g], GeometryId);
    var i :| IsLastWith([g], GeometryId, g.id, i) && LinkGeometryEntry([g][i], materials) == Ok(r.value[g.id]);
    LastInSingleton(g, GeometryId, g.id, i);
  }

  /** A library of one geometry whose mesh fails fails with the mesh's error. */
  lemma LinkGeometriesSingleErr(g: Collada.Geometry, materials: map<string, LinkedCollada.Material>)
    requires LinkMesh(g.mesh, g, materials).Err?
    ensures LinkGeometries([g], materials) == Err(LinkMesh(g.mesh, g, materials).error)
  {
    var r := LinkGeometries([g], materials);
    assert LinkGeometryEntry(g, materials) == Err(LinkMesh(g.mesh, g, materials).error);
    var i :| 0 <= i < 1 && LinkGeometryEntry([g][i], materials) == Err(r.error);
  }

  /** The scenario's geometry table when VERTEX names the vertices group: its
      triangles resolve material "mat1", the group positioned by "pos-src" and
      the normal source "norm-src", and have no texture coordinates. */
  lemma ScenarioGeometriesResolved(u: string, materials: map<string, LinkedCollada.Material>)
    requires u == "#geo1-vtx" && materials.Keys == {"mat1"}
    ensures LinkGeometries([ScenarioGeometry(u)], materials).Ok?
    ensures var g := LinkGeometries([ScenarioGeometry(u)], materials).value;
      && "geo1" in g
      && g["geo1"].mesh.triangles.material == Some(materials["mat1"])
      && g["geo1"].mesh.triangles.vertices.position == PosSrc
      && g["geo1"].mesh.triangles.normal == NormSrc
      && g["geo1"].mesh.triangles.texcoord == None
  {
    ScenarioMeshResolved(u, materials);
    LinkGeometriesSingleOk(ScenarioGeometry(u), materials);
  }

  /** The scenario's mesh with VERTEX -> "#geo1-vtx" links, with the triangles described above. */
  lemma ScenarioMeshResolved(u: string, materials: map<string, LinkedCollada.Material>)
    requires u == "#geo1-vtx" && materials.Keys == {"mat1"}
    ensures LinkMesh(ScenarioMesh(u), ScenarioGeometry(u), materials).Ok?
    ensures var t := LinkMesh(ScenarioMesh(u), ScenarioGeometry(u), materials).value.triangles;
      && t.material == Some(materials["mat1"])
      && t.vertices.position == PosSrc
      && t.normal == NormSrc
      && t.texcoord == None
  {
    ScenarioSources(u);
    var sources := LinkSources(ScenarioMesh(u).sources);
    ScenarioVerticesTable(sources);
    var vertices := LinkVerticesTable(ScenarioMesh(u).vertices, sources).value;
    ScenarioTrianglesResolved(u, materials, sources, vertices);
  }

  /** The scenario's geometry table when VERTEX names no vertices group. */
  lemma ScenarioGeometriesUnresolved(u: string, materials: map<string, LinkedCollada.Material>)
    requires u == "#missing-vtx" && materials.Keys == {"mat1"}
    ensures LinkGeometries([ScenarioGeometry(u)], materials) == Err(VerticesNotFound(Some("missing-vtx")))
  {
    ScenarioMeshUnresolved(u, materials);
    LinkGeometriesSingleErr(ScenarioGeometry(u), materials);
  }

  /** The scenario's mesh with VERTEX -> "#missing-vtx" fails naming the missing vertices group. */
  lemma ScenarioMeshUnresolved(u: string, materials: map<string, LinkedCollada.Material>)
    requires u == "#missing-vtx" && materials.Keys == {"mat1"}
    ensures LinkMesh(ScenarioMesh(u), ScenarioGeometry(u), materials) == Err(VerticesNotFound(Some("missing-vtx")))
  {
    ScenarioSources(u);
    var sources := LinkSources(ScenarioMesh(u).sources);
    ScenarioVerticesTable(sources);
    var vertices := LinkVerticesTable(ScenarioMesh(u).vertices, sources).value;
    ScenarioTrianglesUnresolved(u, materials, sources, vertices);
  }

  /** Empty visual-scene and scene libraries link to an empty table and an empty list. */
  lemma EmptySceneLibraries(
    geometries: map<string, LinkedCollada.Geometry>,
    materials: map<string, LinkedCollada.Material>)
    ensures LinkVisualScenes([], geometries, materials) == Ok(map[])
    ensures LinkScenes([], map[]) == Ok([])
  {
  }

  /** The resolvable scenario links, and its triangles refer to the linked
      material "mat1", to a vertices group positioned by "pos-src", and to the
      normal source "norm-src"; the material's effect list is exactly "eff1". */
  lemma EndToEndScenario()
    ensures LinkCollada(ScenarioDocument("#geo1-vtx")).Ok?
    ensures var d := LinkCollada(ScenarioDocument("#geo1-vtx")).value;
      && "mat1" in d.materials && "eff1" in d.effects && "geo1" in d.geometries
      && d.materials["mat1"].effects == [d.effects["eff1"]]
      && d.geometries["geo1"].mesh.triangles.material == Some(d.materials["mat1"])
      && d.geometries["geo1"].mesh.triangles.vertices.position == PosSrc
      && d.geometries["geo1"].mesh.triangles.normal == NormSrc
      && d.geometries["geo1"].mesh.triangles.texcoord == None
  {
    var c := ScenarioDocument("#geo1-vtx");
    ScenarioLibraries("#geo1-vtx");
    var effects := LinkEffects(c.libraryEffects, LinkImages(c.libraryImages)).value;
    var materials := LinkMaterials(c.libraryMaterials, effects).value;
    ScenarioGeometriesResolved("#geo1-vtx", materials);
    var geometries := LinkGeometries(c.libraryGeometries, materials).value;
    EmptySceneLibraries(geometries, materials);
    LinkColladaOfStages(c, effects, materials, geometries, map[], []);
  }

  /** The same scenario with VERTEX -> "#missing-vtx" fails naming the missing vertices group. */
  lemma UnresolvedVertexScenario()
    ensures LinkCollada(ScenarioDocument("#missing-vtx")) == Err(VerticesNotFound(Some("missing-vtx")))
  {
    var c := ScenarioDocument("#missing-vtx");
    ScenarioLibraries("#missing-vtx");
    var effects := LinkEffects(c.libraryEffects, LinkImages(c.libraryImages)).value;
    var materials := LinkMaterials(c.libraryMaterials, effects).value;
    ScenarioGeometriesUnresolved("#missing-vtx", materials);
    GeometryFailureStopsLinking(c, effects, materials, VerticesNotFound(Some("missing-vtx")));
  }

  /** A supported document whose effects and materials link but whose geometries fail fails with that error. */
  lemma GeometryFailureStopsLinking(
    c: Collada.Document,
    effects: map<string, LinkedCollada.Effect>,
    materials: map<string, LinkedCollada.Material>,
    e: LinkError)
    requires c.version in Collada.AllowedVersions
    requires LinkEffects(c.libraryEffects, LinkImages(c.libraryImages)) == Ok(effects)
    requires LinkMaterials(c.libraryMaterials, effects) == Ok(materials)
    requires LinkGeometries(c.libraryGeometries, materials) == Err(e)
    ensures LinkCollada(c) == Err(e)
  {
  }
}
