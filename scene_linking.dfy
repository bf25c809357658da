/** Linking of visual scenes (node geometries and bound materials, by URI
    fragment) and of the document's scene list (instance visual scenes). */
module SceneLinking {
  import opened Results
  import opened References
  import opened Tables
  import Collada
  import LinkedCollada

  function VisualSceneId(x: Collada.VisualScene): string { x.id }

  // ----- Nodes

  function LinkInstanceMaterial(src: Collada.InstanceMaterial, materials: map<string, LinkedCollada.Material>)
    : (r: Result<LinkedCollada.InstanceMaterial>)
    ensures r.Ok? <==> FragmentIn(src.target, materials.Keys)
    ensures r.Ok? ==> r.value.src == src && Resolve(materials, Fragment(src.target)) == Some(r.value.material)
    ensures r.Err? ==> r.error == MaterialNotFound(Fragment(src.target))
  {
    var materialId := Fragment(src.target);
    match Resolve(materials, materialId)
    case None => Err(MaterialNotFound(materialId))
    case Some(material) => Ok(LinkedCollada.InstanceMaterial(src, material))
  }

  function LinkMaterialTechnique(src: Collada.BindTechnique, materials: map<string, LinkedCollada.Material>)
    : (r: Result<LinkedCollada.BindTechnique>)
    ensures r.Ok? <==> FragmentIn(src.instanceMaterial.target, materials.Keys)
    ensures r.Ok? ==> r.value.src == src && r.value.instanceMaterial.src == src.instanceMaterial
    ensures r.Ok? ==> Resolve(materials, Fragment(src.instanceMaterial.target)) == Some(r.value.instanceMaterial.material)
    ensures r.Err? ==> r.error == MaterialNotFound(Fragment(src.instanceMaterial.target))
  {
    var instanceMaterial :- LinkInstanceMaterial(src.instanceMaterial, materials);
    Ok(LinkedCollada.BindTechnique(src, instanceMaterial))
  }

  function LinkBindMaterial(src: Collada.BindMaterial, materials: map<string, LinkedCollada.Material>)
    : (r: Result<LinkedCollada.BindMaterial>)
    ensures r.Ok? <==> FragmentIn(src.commonTechnique.instanceMaterial.target, materials.Keys)
    ensures r.Ok? ==> r.value.src == src && r.value.technique.src == src.commonTechnique
    ensures r.Ok? ==> r.value.technique.instanceMaterial.src == src.commonTechnique.instanceMaterial
    ensures r.Ok? ==> Resolve(materials, Fragment(src.commonTechnique.instanceMaterial.target))
                        == Some(r.value.technique.instanceMaterial.material)
    ensures r.Err? ==> r.error == MaterialNotFound(Fragment(src.commonTechnique.instanceMaterial.target))
  {
    var technique :- LinkMaterialTechnique(src.commonTechnique, materials);
    Ok(LinkedCollada.BindMaterial(src, technique))
  }

  /** What a node needs: an instance_geometry whose URL names a geometry and whose
      bound instance material's target names a material. */
  predicate NodeResolvable(n: Collada.Node, geometryIds: set<string>, materialIds: set<string>)
  {
    && n.geometry.Some?
    && FragmentIn(n.geometry.value.url, geometryIds)
    && FragmentIn(n.geometry.value.material.commonTechnique.instanceMaterial.target, materialIds)
  }

  predicate NodeLinked(
    n: LinkedCollada.Node,
    geometries: map<string, LinkedCollada.Geometry>,
    materials: map<string, LinkedCollada.Material>)
  {
    var g := n.geometry;
    && n.src.geometry == Some(g.src)
    && Resolve(geometries, Fragment(g.src.url)) == Some(g.geometry)
    && g.bindMaterial.src == g.src.material
    && g.bindMaterial.technique.src == g.src.material.commonTechnique
    && g.bindMaterial.technique.instanceMaterial.src == g.src.material.commonTechnique.instanceMaterial
    && Resolve(materials, Fragment(g.src.material.commonTechnique.instanceMaterial.target))
         == Some(g.bindMaterial.technique.instanceMaterial.material)
  }

  /** A node geometry: the geometry is looked up first, then the bound material. */
  function LinkNodeGeometry(
    src: Collada.NodeGeometry,
    geometries: map<string, LinkedCollada.Geometry>,
    materials: map<string, LinkedCollada.Material>)
    : (r: Result<LinkedCollada.NodeGeometry>)
    ensures r.Ok? <==> FragmentIn(src.url, geometries.Keys) && FragmentIn(src.material.commonTechnique.instanceMaterial.target, materials.Keys)
    ensures !FragmentIn(src.url, geometries.Keys) ==> r == Err(GeometryNotFound(src.url))
    ensures FragmentIn(src.url, geometries.Keys) && r.Err? ==>
      r == Err(MaterialNotFound(Fragment(src.material.commonTechnique.instanceMaterial.target)))
    ensures r.Ok? ==> r.value.src == src && Resolve(geometries, Fragment(src.url)) == Some(r.value.geometry)
    ensures r.Ok? ==> r.value.bindMaterial.src == src.material && r.value.bindMaterial.technique.src == src.material.commonTechnique
    ensures r.Ok? ==> r.value.bindMaterial.technique.instanceMaterial.src == src.material.commonTechnique.instanceMaterial
    ensures r.Ok? ==> Resolve(materials, Fragment(src.material.commonTechnique.instanceMaterial.target))
                        == Some(r.value.bindMaterial.technique.instanceMaterial.material)
  {
    match Resolve(geometries, Fragment(src.url))
    case None => Err(GeometryNotFound(src.url))
    case Some(geometry) =>
      var bindMaterial :- LinkBindMaterial(src.material, materials);
      Ok(LinkedCollada.NodeGeometry(src, bindMaterial, geometry))
  }

  /** The failures node linking can raise. */
  predicate IsNodeError(e: LinkError)
  {
    e.NodeGeometryMissing? || e.GeometryNotFound? || e.MaterialNotFound?
  }

  /** A node; a node without instance_geometry is a failure (the null geometry is dereferenced). */
  function LinkNode(
    src: Collada.Node,
    geometries: map<string, LinkedCollada.Geometry>,
    materials: map<string, LinkedCollada.Material>)
    : (r: Result<LinkedCollada.Node>)
    ensures r.Ok? <==> NodeResolvable(src, geometries.Keys, materials.Keys)
    ensures r.Ok? ==> r.value.src == src && NodeLinked(r.value, geometries, materials)
    ensures src.geometry.None? ==> r == Err(NodeGeometryMissing)
    ensures src.geometry.Some? && r.Err? ==> LinkNodeGeometry(src.geometry.value, geometries, materials) == Err(r.error)
    ensures r.Err? ==> IsNodeError(r.error)
  {
    if src.geometry.None? then Err(NodeGeometryMissing)
    else
      var geometry :- LinkNodeGeometry(src.geometry.value, geometries, materials);
      Ok(LinkedCollada.Node(src, geometry))
  }

  /** A visual scene's nodes, one per raw node and in order. */
  function LinkNodes(
    src: seq<Collada.Node>,
    geometries: map<string, LinkedCollada.Geometry>,
    materials: map<string, LinkedCollada.Material>)
    : (r: Result<seq<LinkedCollada.Node>>)
    ensures r.Ok? <==> forall i :: 0 <= i < |src| ==> NodeResolvable(src[i], geometries.Keys, materials.Keys)
    ensures r.Ok? ==> |r.value| == |src|
    ensures r.Ok? ==> forall i :: 0 <= i < |src| ==> r.value[i].src == src[i] && NodeLinked(r.value[i], geometries, materials)
    ensures r.Err? ==> IsNodeError(r.error)
    ensures r.Err? ==> exists i :: (0 <= i < |src| && LinkNode(src[i], geometries, materials) == Err(r.error) &&
                                    forall j :: 0 <= j < i ==> NodeResolvable(src[j], geometries.Keys, materials.Keys))
  {
    var convert := (n: Collada.Node) => LinkNode(n, geometries, materials);
    var r := MapAll(src, convert);
    assert r.Err? ==> exists i :: (0 <= i < |src| && convert(src[i]) == Err(r.error) &&
                                   forall j :: 0 <= j < i ==> convert(src[j]).Ok?);
    r
  }

  // ----- Visual scenes

  predicate VisualSceneResolvable(v: Collada.VisualScene, geometryIds: set<string>, materialIds: set<string>)
  {
    forall i :: 0 <= i < |v.nodes| ==> NodeResolvable(v.nodes[i], geometryIds, materialIds)
  }

  predicate VisualSceneLinked(
    v: LinkedCollada.VisualScene,
    geometries: map<string, LinkedCollada.Geometry>,
    materials: map<string, LinkedCollada.Material>)
  {
    && |v.nodes| == |v.src.nodes|
    && forall i :: 0 <= i < |v.nodes| ==> v.nodes[i].src == v.src.nodes[i] && NodeLinked(v.nodes[i], geometries, materials)
  }

  function LinkVisualScene(
    src: Collada.VisualScene,
    geometries: map<string, LinkedCollada.Geometry>,
    materials: map<string, LinkedCollada.Material>)
    : (r: Result<LinkedCollada.VisualScene>)
    ensures r.Ok? <==> VisualSceneResolvable(src, geometries.Keys, materials.Keys)
    ensures r.Ok? ==> r.value.src == src && VisualSceneLinked(r.value, geometries, materials)
    ensures r.Err? ==> IsNodeError(r.error)
    ensures r.Err? ==> exists i :: (0 <= i < |src.nodes| && LinkNode(src.nodes[i], geometries, materials) == Err(r.error) &&
                                    forall j :: 0 <= j < i ==> NodeResolvable(src.nodes[j], geometries.Keys, materials.Keys))
  {
    var nodes :- LinkNodes(src.nodes, geometries, materials);
    Ok(LinkedCollada.VisualScene(src, nodes))
  }

  /** A visual-scene table built from a library: keyed by exactly the library's
      visual-scene ids, and each entry is the last visual scene with its key, linked. */
  ghost predicate VisualSceneTable(
    src: seq<Collada.VisualScene>,
    geometries: map<string, LinkedCollada.Geometry>,
    materials: map<string, LinkedCollada.Material>,
    t: map<string, LinkedCollada.VisualScene>)
  {
    && t.Keys == KeysOf(src, VisualSceneId)
    && (forall k :: k in t ==> t[k].src.id == k && VisualSceneLinked(t[k], geometries, materials))
    && (forall k :: k in t ==>
          exists i :: IsLastWith(src, VisualSceneId, k, i) && LinkVisualScene(src[i], geometries, materials) == Ok(t[k]))
  }

  /** The visual scene table. */
  function LinkVisualScenes(
    src: seq<Collada.VisualScene>,
    geometries: map<string, LinkedCollada.Geometry>,
    materials: map<string, LinkedCollada.Material>)
    : (r: Result<map<string, LinkedCollada.VisualScene>>)
    ensures r.Ok? <==> forall i :: 0 <= i < |src| ==> VisualSceneResolvable(src[i], geometries.Keys, materials.Keys)
    ensures r.Ok? ==> VisualSceneTable(src, geometries, materials, r.value)
    ensures r.Err? ==> IsNodeError(r.error)
    ensures r.Err? ==> exists i :: (0 <= i < |src| && LinkVisualScene(src[i], geometries, materials) == Err(r.error) &&
                                    forall j :: 0 <= j < i ==> VisualSceneResolvable(src[j], geometries.Keys, materials.Keys))
  {
    var convert := (v: Collada.VisualScene) => LinkVisualScene(v, geometries, materials);
    var r := LinkTable(src, VisualSceneId, convert);
    LinkTableEntries(src, VisualSceneId, convert);
    assert r.Err? ==> exists i :: (0 <= i < |src| && convert(src[i]) == Err(r.error) &&
                                   forall j :: 0 <= j < i ==> convert(src[j]).Ok?);
    r
  }

  // ----- Scenes

  function LinkSceneInstance(src: Collada.InstanceVisualScene, visualScenes: map<string, LinkedCollada.VisualScene>)
    : (r: Result<LinkedCollada.InstanceVisualScene>)
    ensures r.Ok? <==> FragmentIn(src.url, visualScenes.Keys)
    ensures r.Ok? ==> r.value.src == src && Resolve(visualScenes, Fragment(src.url)) == Some(r.value.visualScene)
    ensures r.Err? ==> r.error == VisualSceneNotFound(Fragment(src.url))
  {
    var sceneId := Fragment(src.url);
    match Resolve(visualScenes, sceneId)
    case None => Err(VisualSceneNotFound(sceneId))
    case Some(visualScene) => Ok(LinkedCollada.InstanceVisualScene(src, visualScene))
  }

  /** A scene's instances, one per raw instance and in order. */
  function LinkSceneInstances(src: seq<Collada.InstanceVisualScene>, visualScenes: map<string, LinkedCollada.VisualScene>)
    : (r: Result<seq<LinkedCollada.InstanceVisualScene>>)
    ensures r.Ok? <==> forall i :: 0 <= i < |src| ==> FragmentIn(src[i].url, visualScenes.Keys)
    ensures r.Ok? ==> |r.value| == |src|
    ensures r.Ok? ==> forall i :: 0 <= i < |src| ==>
      r.value[i].src == src[i] && Resolve(visualScenes, Fragment(src[i].url)) == Some(r.value[i].visualScene)
    ensures r.Err? ==> exists i :: (0 <= i < |src| && !FragmentIn(src[i].url, visualScenes.Keys) &&
                                    r.error == VisualSceneNotFound(Fragment(src[i].url)) &&
                                    forall j :: 0 <= j < i ==> FragmentIn(src[j].url, visualScenes.Keys))
  {
    var convert := (x: Collada.InstanceVisualScene) => LinkSceneInstance(x, visualScenes);
    var r := MapAll(src, convert);
    assert r.Err? ==> exists i :: (0 <= i < |src| && convert(src[i]) == Err(r.error) &&
                                   forall j :: 0 <= j < i ==> convert(src[j]).Ok?);
    r
  }

  predicate SceneResolvable(s: Collada.Scene, visualSceneIds: set<string>)
  {
    forall i :: 0 <= i < |s.instanceScenes| ==> FragmentIn(s.instanceScenes[i].url, visualSceneIds)
  }

  predicate SceneLinked(s: LinkedCollada.Scene, visualScenes: map<string, LinkedCollada.VisualScene>)
  {
    && |s.instances| == |s.src.instanceScenes|
    && forall i :: 0 <= i < |s.instances| ==>
         && s.instances[i].src == s.src.instanceScenes[i]
         && Resolve(visualScenes, Fragment(s.src.instanceScenes[i].url)) == Some(s.instances[i].visualScene)
  }

  function LinkScene(src: Collada.Scene, visualScenes: map<string, LinkedCollada.VisualScene>)
    : (r: Result<LinkedCollada.Scene>)
    ensures r.Ok? <==> SceneResolvable(src, visualScenes.Keys)
    ensures r.Ok? ==> r.value.src == src && SceneLinked(r.value, visualScenes)
    ensures r.Err? ==> exists i :: (0 <= i < |src.instanceScenes| && !FragmentIn(src.instanceScenes[i].url, visualScenes.Keys) &&
                                    r.error == VisualSceneNotFound(Fragment(src.instanceScenes[i].url)) &&
                                    forall j :: 0 <= j < i ==> FragmentIn(src.instanceScenes[j].url, visualScenes.Keys))
  {
    var instances :- LinkSceneInstances(src.instanceScenes, visualScenes);
    Ok(LinkedCollada.Scene(src, instances))
  }

  /** A scene list: one linked scene per raw scene, in order. */
  predicate SceneList(src: seq<Collada.Scene>, visualScenes: map<string, LinkedCollada.VisualScene>, scenes: seq<LinkedCollada.Scene>)
  {
    && |scenes| == |src|
    && forall i :: 0 <= i < |src| ==> scenes[i].src == src[i] && SceneLinked(scenes[i], visualScenes)
  }

  /** The document's scene list: same length and order as the raw scenes. */
  function LinkScenes(src: seq<Collada.Scene>, visualScenes: map<string, LinkedCollada.VisualScene>)
    : (r: Result<seq<LinkedCollada.Scene>>)
    ensures r.Ok? <==> forall i :: 0 <= i < |src| ==> SceneResolvable(src[i], visualScenes.Keys)
    ensures r.Ok? ==> SceneList(src, visualScenes, r.value)
    ensures r.Err? ==> r.error.VisualSceneNotFound?
    ensures r.Err? ==> exists i :: (0 <= i < |src| && LinkScene(src[i], visualScenes) == Err(r.error) &&
                                    forall j :: 0 <= j < i ==> SceneResolvable(src[j], visualScenes.Keys))
  {
    var convert := (s: Collada.Scene) => LinkScene(s, visualScenes);
    var r := MapAll(src, convert);
    assert r.Err? ==> exists i :: (0 <= i < |src| && convert(src[i]) == Err(r.error) &&
                                   forall j :: 0 <= j < i ==> convert(src[j]).Ok?);
    r
  }
}
