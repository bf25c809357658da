/** Linking of geometries: per mesh, a source table, a vertices table (each
    group resolving its inputs into sources and requiring POSITION) and the
    triangles (NORMAL and VERTEX required, TEXCOORD optional, material by bare key). */
module GeometryLinking {
  import opened Results
  import opened References
  import opened Tables
  import Collada
  import LinkedCollada

  function SourceId(x: Collada.Source): string { x.id }
  function InputSemantic(x: Collada.Input): string { x.semantic }
  function VerticesId(x: Collada.Vertices): string { x.id }
  function GeometryId(x: Collada.Geometry): string { x.id }

  /** A mesh's source table: every source wrapped, keyed by its id, last duplicate winning. */
  function LinkSources(src: seq<Collada.Source>): (r: map<string, LinkedCollada.Source>)
    ensures r.Keys == KeysOf(src, SourceId)
    ensures forall k :: k in r ==> r[k].src.id == k && r[k].src in src
    ensures forall k :: k in r ==> exists i :: IsLastWith(src, SourceId, k, i) && r[k] == LinkedCollada.Source(src[i])
  {
    var convert := (x: Collada.Source) => Ok(LinkedCollada.Source(x));
    LinkTableEntries(src, SourceId, convert);
    LinkTable(src, SourceId, convert).value
  }

  /** A triangles element's inputs keyed by semantic, the last input of a semantic winning. */
  function InputsBySemantic(inputs: seq<Collada.Input>): (r: map<string, Collada.Input>)
    ensures r.Keys == KeysOf(inputs, InputSemantic)
    ensures forall k :: k in r ==> r[k].semantic == k && r[k] in inputs
    ensures forall k :: k in r ==> exists i :: IsLastWith(inputs, InputSemantic, k, i) && r[k] == inputs[i]
  {
    var convert := (x: Collada.Input) => Ok(x);
    LinkTableEntries(inputs, InputSemantic, convert);
    LinkTable(inputs, InputSemantic, convert).value
  }

  /** The source an input's URL fragment names. */
  function ResolveSource(url: string, sources: map<string, LinkedCollada.Source>): (r: Result<LinkedCollada.Source>)
    ensures r.Ok? <==> FragmentIn(url, sources.Keys)
    ensures r.Ok? ==> Resolve(sources, Fragment(url)) == Some(r.value)
    ensures r.Err? ==> r.error == SourceNotFound(Fragment(url))
  {
    match Resolve(sources, Fragment(url))
    case None => Err(SourceNotFound(Fragment(url)))
    case Some(source) => Ok(source)
  }

  function ResolveInputSource(input: Collada.Input, sources: map<string, LinkedCollada.Source>)
    : Result<LinkedCollada.Source>
  {
    ResolveSource(input.source, sources)
  }

  /** A vertices group's semantic-to-source map: fails on the first input whose
      fragment names no source of the mesh. */
  function SemanticSources(inputs: seq<Collada.Input>, sources: map<string, LinkedCollada.Source>)
    : (r: Result<map<string, LinkedCollada.Source>>)
    ensures r.Ok? <==> forall i :: 0 <= i < |inputs| ==> FragmentIn(inputs[i].source, sources.Keys)
    ensures r.Ok? ==> r.value.Keys == KeysOf(inputs, InputSemantic)
    ensures r.Err? ==> exists i :: (0 <= i < |inputs| && !FragmentIn(inputs[i].source, sources.Keys) &&
                                    r.error == SourceNotFound(Fragment(inputs[i].source)) &&
                                    forall j :: 0 <= j < i ==> FragmentIn(inputs[j].source, sources.Keys))
  {
    var convert := (x: Collada.Input) => ResolveInputSource(x, sources);
    var r := LinkTable(inputs, InputSemantic, convert);
    assert r.Err? ==> exists i :: (0 <= i < |inputs| && ResolveInputSource(inputs[i], sources) == Err(r.error) &&
                                   forall j :: 0 <= j < i ==> ResolveInputSource(inputs[j], sources).Ok?);
    r
  }

  /** The entry for a semantic is the source named by the LAST input with that semantic. */
  lemma SemanticSourcesLastWins(inputs: seq<Collada.Input>, sources: map<string, LinkedCollada.Source>, k: string)
    returns (i: nat)
    requires SemanticSources(inputs, sources).Ok?
    requires k in SemanticSources(inputs, sources).value
    ensures IsLastWith(inputs, InputSemantic, k, i)
    ensures Resolve(sources, Fragment(inputs[i].source)) == Some(SemanticSources(inputs, sources).value[k])
  {
    i := LinkTableLastWins(inputs, InputSemantic, (x: Collada.Input) => ResolveInputSource(x, sources), k);
  }

  /** The loop of linkSemanticSources: puts each input's source under its semantic. */
  method CollectSemanticSources(inputs: seq<Collada.Input>, sources: map<string, LinkedCollada.Source>)
    returns (r: Result<map<string, LinkedCollada.Source>>)
    ensures r == SemanticSources(inputs, sources)
  {
    var outMap: map<string, LinkedCollada.Source> := map[];
    var n := 0;
    while n < |inputs|
      invariant 0 <= n <= |inputs|
      invariant SemanticSources(inputs[..n], sources) == Ok(outMap)
    {
      var input := inputs[n];
      var idRef := Fragment(input.source);
      var source := Resolve(sources, idRef);
      if source.None? {
        assert forall j :: 0 <= j < n ==> inputs[..n][j] == inputs[j];
        assert SemanticSources(inputs, sources).Err?;
        return Err(SourceNotFound(idRef));
      }
      assert inputs[..n + 1][..n] == inputs[..n];
      outMap := outMap[input.semantic := source.value];
      n := n + 1;
    }
    assert inputs[..n] == inputs;
    r := Ok(outMap);
  }

  // ----- Vertices

  ghost predicate VerticesResolvable(v: Collada.Vertices, sourceIds: set<string>)
  {
    && (forall i :: 0 <= i < |v.inputs| ==> FragmentIn(v.inputs[i].source, sourceIds))
    && LinkedCollada.POSITION in KeysOf(v.inputs, InputSemantic)
  }

  /** A linked vertices group: one entry per semantic, the source named by the
      last input of that semantic, and its position is the POSITION entry. */
  ghost predicate VerticesLinked(x: LinkedCollada.Vertices, sources: map<string, LinkedCollada.Source>)
  {
    && x.semanticSources.Keys == KeysOf(x.src.inputs, InputSemantic)
    && (forall k :: k in x.semanticSources ==>
          exists i :: IsLastWith(x.src.inputs, InputSemantic, k, i) &&
                      Resolve(sources, Fragment(x.src.inputs[i].source)) == Some(x.semanticSources[k]))
    && LinkedCollada.POSITION in x.semanticSources
    && x.position == x.semanticSources[LinkedCollada.POSITION]
  }

  function LinkVertices(src: Collada.Vertices, sources: map<string, LinkedCollada.Source>)
    : (r: Result<LinkedCollada.Vertices>)
    ensures r.Ok? <==> VerticesResolvable(src, sources.Keys)
    ensures r.Ok? ==> r.value.src == src && VerticesLinked(r.value, sources)
    ensures r.Err? ==> r.error.SourceNotFound? || r.error.PositionMissing?
    ensures (forall i :: 0 <= i < |src.inputs| ==> FragmentIn(src.inputs[i].source, sources.Keys)) ==>
      (r.Err? <==> r == Err(PositionMissing))
    ensures (exists i :: 0 <= i < |src.inputs| && !FragmentIn(src.inputs[i].source, sources.Keys)) ==>
      r.Err? &&
      exists i :: (0 <= i < |src.inputs| && !FragmentIn(src.inputs[i].source, sources.Keys) &&
                   r.error == SourceNotFound(Fragment(src.inputs[i].source)) &&
                   forall j :: 0 <= j < i ==> FragmentIn(src.inputs[j].source, sources.Keys))
  {
    var semanticSources :- SemanticSources(src.inputs, sources);
    if LinkedCollada.POSITION in semanticSources then
      var linked := LinkedCollada.Vertices(src, semanticSources, semanticSources[LinkedCollada.POSITION]);
      assert forall k :: k in semanticSources ==>
          exists i :: IsLastWith(src.inputs, InputSemantic, k, i) &&
                      Resolve(sources, Fragment(src.inputs[i].source)) == Some(semanticSources[k]) by {
        forall k | k in semanticSources
          ensures exists i :: IsLastWith(src.inputs, InputSemantic, k, i) &&
                              Resolve(sources, Fragment(src.inputs[i].source)) == Some(semanticSources[k])
        {
          var i := SemanticSourcesLastWins(src.inputs, sources, k);
        }
      }
      Ok(linked)
    else
      Err(PositionMissing)
  }

  /** A mesh's vertices table: keyed by exactly its groups' ids, and each entry is
      the last group with its key, linked. */
  ghost predicate VerticesTable(src: seq<Collada.Vertices>, sources: map<string, LinkedCollada.Source>, t: map<string, LinkedCollada.Vertices>)
  {
    && t.Keys == KeysOf(src, VerticesId)
    && (forall k :: k in t ==> t[k].src.id == k && VerticesLinked(t[k], sources))
    && (forall k :: k in t ==> exists i :: IsLastWith(src, VerticesId, k, i) && LinkVertices(src[i], sources) == Ok(t[k]))
  }

  function LinkVerticesTable(src: seq<Collada.Vertices>, sources: map<string, LinkedCollada.Source>)
    : (r: Result<map<string, LinkedCollada.Vertices>>)
    ensures r.Ok? <==> forall i :: 0 <= i < |src| ==> VerticesResolvable(src[i], sources.Keys)
    ensures r.Ok? ==> VerticesTable(src, sources, r.value)
    ensures r.Err? ==> r.error.SourceNotFound? || r.error.PositionMissing?
    ensures r.Err? ==> exists i :: (0 <= i < |src| && LinkVertices(src[i], sources) == Err(r.error) &&
                                    forall j :: 0 <= j < i ==> VerticesResolvable(src[j], sources.Keys))
  {
    var convert := (v: Collada.Vertices) => LinkVertices(v, sources);
    var r := LinkTable(src, VerticesId, convert);
    LinkTableEntries(src, VerticesId, convert);
    assert r.Err? ==> exists i :: (0 <= i < |src| && convert(src[i]) == Err(r.error) &&
                                   forall j :: 0 <= j < i ==> convert(src[j]).Ok?);
    r
  }

  // ----- Triangles

  /** The source of an optional semantic: absent without error when no input
      has that semantic, a failure when the input's fragment names no source. */
  function PrepareSource(sources: map<string, LinkedCollada.Source>, semantic: string, inputs: map<string, Collada.Input>)
    : (r: Result<Option<LinkedCollada.Source>>)
    ensures r.Ok? <==> (semantic in inputs ==> FragmentIn(inputs[semantic].source, sources.Keys))
    ensures r.Ok? ==> (r.value.None? <==> semantic !in inputs)
    ensures r.Ok? && semantic in inputs ==> Resolve(sources, Fragment(inputs[semantic].source)) == r.value
    ensures r.Err? ==> semantic in inputs && r.error == SourceNotFound(Fragment(inputs[semantic].source))
  {
    if semantic !in inputs then Ok(None)
    else
      var source :- ResolveSource(inputs[semantic].source, sources);
      Ok(Some(source))
  }

  /** The vertices group named by the VERTEX input, which must exist and resolve. */
  function PrepareVertex(vertices: map<string, LinkedCollada.Vertices>, inputs: map<string, Collada.Input>)
    : (r: Result<LinkedCollada.Vertices>)
    ensures r.Ok? <==> LinkedCollada.VERTEX in inputs && FragmentIn(inputs[LinkedCollada.VERTEX].source, vertices.Keys)
    ensures r.Ok? ==> Resolve(vertices, Fragment(inputs[LinkedCollada.VERTEX].source)) == Some(r.value)
    ensures LinkedCollada.VERTEX !in inputs ==> r == Err(VertexInputMissing)
    ensures LinkedCollada.VERTEX in inputs && r.Err? ==>
      r.error == VerticesNotFound(Fragment(inputs[LinkedCollada.VERTEX].source))
  {
    if LinkedCollada.VERTEX !in inputs then Err(VertexInputMissing)
    else
      var verticesId := Fragment(inputs[LinkedCollada.VERTEX].source);
      match Resolve(vertices, verticesId)
      case None => Err(VerticesNotFound(verticesId))
      case Some(v) => Ok(v)
  }

  ghost predicate TrianglesResolvable(src: Collada.Triangles, sourceIds: set<string>, verticesIds: set<string>)
  {
    var inputs := InputsBySemantic(src.inputs);
    && LinkedCollada.NORMAL in inputs && FragmentIn(inputs[LinkedCollada.NORMAL].source, sourceIds)
    && (LinkedCollada.TEXTURE_COORDINATE in inputs ==>
          FragmentIn(inputs[LinkedCollada.TEXTURE_COORDINATE].source, sourceIds))
    && LinkedCollada.VERTEX in inputs && FragmentIn(inputs[LinkedCollada.VERTEX].source, verticesIds)
  }

  /** A linked triangles element: normal and vertices resolved from the NORMAL
      and VERTEX inputs, texcoord present exactly when a TEXCOORD input is, and
      the material looked up by the bare material attribute (possibly absent). */
  ghost predicate TrianglesLinked(
    t: LinkedCollada.Triangles,
    materials: map<string, LinkedCollada.Material>,
    sources: map<string, LinkedCollada.Source>,
    vertices: map<string, LinkedCollada.Vertices>)
  {
    && t.inputs == InputsBySemantic(t.src.inputs)
    && LinkedCollada.NORMAL in t.inputs
    && Resolve(sources, Fragment(t.inputs[LinkedCollada.NORMAL].source)) == Some(t.normal)
    && (t.texcoord.None? <==> LinkedCollada.TEXTURE_COORDINATE !in t.inputs)
    && (LinkedCollada.TEXTURE_COORDINATE in t.inputs ==>
          Resolve(sources, Fragment(t.inputs[LinkedCollada.TEXTURE_COORDINATE].source)) == t.texcoord)
    && LinkedCollada.VERTEX in t.inputs
    && Resolve(vertices, Fragment(t.inputs[LinkedCollada.VERTEX].source)) == Some(t.vertices)
    && t.material == Resolve(materials, t.src.material)
  }

  function LinkTriangles(
    src: Collada.Triangles,
    geometry: Collada.Geometry,
    materials: map<string, LinkedCollada.Material>,
    sources: map<string, LinkedCollada.Source>,
    vertices: map<string, LinkedCollada.Vertices>)
    : (r: Result<LinkedCollada.Triangles>)
    ensures r.Ok? <==> TrianglesResolvable(src, sources.Keys, vertices.Keys)
    ensures r.Ok? ==> r.value.src == src && TrianglesLinked(r.value, materials, sources, vertices)
    ensures r.Err? ==> IsTrianglesError(r.error)
    ensures r.Err? ==> r == TrianglesFailure(src, geometry, sources, vertices)
  {
    var inputs := InputsBySemantic(src.inputs);
    var normal :- PrepareSource(sources, LinkedCollada.NORMAL, inputs);
    if normal.None? then Err(NormalsAbsent(geometry.name))
    else
      var texcoord :- PrepareSource(sources, LinkedCollada.TEXTURE_COORDINATE, inputs);
      var material := Resolve(materials, src.material);
      var vertex :- PrepareVertex(vertices, inputs);
      Ok(LinkedCollada.Triangles(src, material, inputs, vertex, normal.value, texcoord))
  }

  /** The failure of an unlinkable triangles element, checks taken in the loader's
      order: the NORMAL input's source, its presence, the TEXCOORD input's
      source, the VERTEX input's presence, the vertices group it names. */
  ghost function TrianglesFailure(
    src: Collada.Triangles,
    geometry: Collada.Geometry,
    sources: map<string, LinkedCollada.Source>,
    vertices: map<string, LinkedCollada.Vertices>)
    : Result<LinkedCollada.Triangles>
  {
    var inputs := InputsBySemantic(src.inputs);
    var NORMAL, TEXCOORD, VERTEX := LinkedCollada.NORMAL, LinkedCollada.TEXTURE_COORDINATE, LinkedCollada.VERTEX;
    if NORMAL in inputs && !FragmentIn(inputs[NORMAL].source, sources.Keys) then
      Err(SourceNotFound(Fragment(inputs[NORMAL].source)))
    else if NORMAL !in inputs then
      Err(NormalsAbsent(geometry.name))
    else if TEXCOORD in inputs && !FragmentIn(inputs[TEXCOORD].source, sources.Keys) then
      Err(SourceNotFound(Fragment(inputs[TEXCOORD].source)))
    else if VERTEX !in inputs then
      Err(VertexInputMissing)
    else
      Err(VerticesNotFound(Fragment(inputs[VERTEX].source)))
  }

  /** The failures triangles linking can raise. */
  predicate IsTrianglesError(e: LinkError)
  {
    e.SourceNotFound? || e.NormalsAbsent? || e.VertexInputMissing? || e.VerticesNotFound?
  }

  /** The failures geometry linking can raise. */
  predicate IsGeometryError(e: LinkError)
  {
    IsTrianglesError(e) || e.PositionMissing?
  }

  // ----- Meshes and geometries

  ghost predicate MeshResolvable(m: Collada.Mesh)
  {
    && (forall i :: 0 <= i < |m.vertices| ==> VerticesResolvable(m.vertices[i], KeysOf(m.sources, SourceId)))
    && TrianglesResolvable(m.triangles, KeysOf(m.sources, SourceId), KeysOf(m.vertices, VerticesId))
  }

  /** Everything a linked mesh refers to lives in its own source and vertices tables. */
  ghost predicate MeshLinked(m: LinkedCollada.Mesh, materials: map<string, LinkedCollada.Material>)
  {
    && m.sources == LinkSources(m.src.sources)
    && VerticesTable(m.src.vertices, m.sources, m.vertices)
    && m.triangles.src == m.src.triangles
    && TrianglesLinked(m.triangles, materials, m.sources, m.vertices)
  }

  function LinkMesh(src: Collada.Mesh, geometry: Collada.Geometry, materials: map<string, LinkedCollada.Material>)
    : (r: Result<LinkedCollada.Mesh>)
    ensures r.Ok? <==> MeshResolvable(src)
    ensures r.Ok? ==> r.value.src == src && MeshLinked(r.value, materials)
    ensures r.Err? ==> IsGeometryError(r.error)
    ensures var vertices := LinkVerticesTable(src.vertices, LinkSources(src.sources));
      vertices.Err? ==> r == Err(vertices.error)
    ensures var sources := LinkSources(src.sources);
      var vertices := LinkVerticesTable(src.vertices, sources);
      vertices.Ok? && r.Err? ==> Err(r.error) == TrianglesFailure(src.triangles, geometry, sources, vertices.value)
  {
    var sources := LinkSources(src.sources);
    var vertices :- LinkVerticesTable(src.vertices, sources);
    var triangles :- LinkTriangles(src.triangles, geometry, materials, sources, vertices);
    Ok(LinkedCollada.Mesh(src, sources, vertices, triangles))
  }

  ghost predicate GeometryLinked(g: LinkedCollada.Geometry, materials: map<string, LinkedCollada.Material>)
  {
    g.mesh.src == g.src.mesh && MeshLinked(g.mesh, materials)
  }

  function LinkGeometryEntry(src: Collada.Geometry, materials: map<string, LinkedCollada.Material>)
    : (r: Result<LinkedCollada.Geometry>)
    ensures r.Ok? <==> MeshResolvable(src.mesh)
    ensures r.Ok? ==> r.value.src == src && GeometryLinked(r.value, materials)
    ensures r.Err? ==> IsGeometryError(r.error)
    ensures r.Err? ==> LinkMesh(src.mesh, src, materials) == Err(r.error)
  {
    var mesh :- LinkMesh(src.mesh, src, materials);
    Ok(LinkedCollada.Geometry(src, mesh))
  }

  /** A geometry table built from a library: keyed by exactly the library's
      geometry ids, and each entry is the last geometry with its key, linked. */
  ghost predicate GeometryTable(src: seq<Collada.Geometry>, materials: map<string, LinkedCollada.Material>, t: map<string, LinkedCollada.Geometry>)
  {
    && t.Keys == KeysOf(src, GeometryId)
    && (forall k :: k in t ==> t[k].src.id == k && GeometryLinked(t[k], materials))
    && (forall k :: k in t ==> exists i :: IsLastWith(src, GeometryId, k, i) && LinkGeometryEntry(src[i], materials) == Ok(t[k]))
  }

  /** The geometry table; each geometry resolves only against its own mesh's tables. */
  function LinkGeometries(src: seq<Collada.Geometry>, materials: map<string, LinkedCollada.Material>)
    : (r: Result<map<string, LinkedCollada.Geometry>>)
    ensures r.Ok? <==> forall i :: 0 <= i < |src| ==> MeshResolvable(src[i].mesh)
    ensures r.Ok? ==> GeometryTable(src, materials, r.value)
    ensures r.Err? ==> IsGeometryError(r.error)
    ensures r.Err? ==> exists i :: (0 <= i < |src| && LinkGeometryEntry(src[i], materials) == Err(r.error) &&
                                    forall j :: 0 <= j < i ==> MeshResolvable(src[j].mesh))
  {
    var convert := (g: Collada.Geometry) => LinkGeometryEntry(g, materials);
    var r := LinkTable(src, GeometryId, convert);
    LinkTableEntries(src, GeometryId, convert);
    assert r.Err? ==> exists i :: (0 <= i < |src| && convert(src[i]) == Err(r.error) &&
                                   forall j :: 0 <= j < i ==> convert(src[j]).Ok?);
    r
  }
}
