/** The linked document: every record keeps the raw record it was made from
    (`src`) and holds direct references where the raw record held ids. */
module LinkedCollada {
  import opened Results
  import Collada

  /** Input semantics the loader looks for. The loader takes them from its
      `Semantic` enum, which is not part of this model; these are the format's
      standard semantic labels, assumed to be the enum's values. */
  const POSITION: string := "POSITION"
  const NORMAL: string := "NORMAL"
  const TEXTURE_COORDINATE: string := "TEXCOORD"
  const VERTEX: string := "VERTEX"

  datatype Image = Image(src: Collada.Image)
  datatype TextureParam = TextureParam(src: Collada.TextureParam, image: Image)
  datatype Phong = Phong(src: Collada.Phong, emission: TextureParam, diffuse: TextureParam)
  datatype Technique = Technique(src: Collada.Technique, phong: Phong)
  datatype Profile = Profile(src: Collada.Profile, techniques: map<string, Technique>)
  datatype Effect = Effect(src: Collada.Effect, profile: Profile)
  datatype Material = Material(src: Collada.Material, effects: seq<Effect>)

  datatype Source = Source(src: Collada.Source)
  datatype Vertices = Vertices(src: Collada.Vertices, semanticSources: map<string, Source>, position: Source)
  datatype Triangles = Triangles(
    src: Collada.Triangles,
    material: Option<Material>,
    inputs: map<string, Collada.Input>,
    vertices: Vertices,
    normal: Source,
    texcoord: Option<Source>)
  datatype Mesh = Mesh(
    src: Collada.Mesh,
    sources: map<string, Source>,
    vertices: map<string, Vertices>,
    triangles: Triangles)
  datatype Geometry = Geometry(src: Collada.Geometry, mesh: Mesh)

  datatype InstanceMaterial = InstanceMaterial(src: Collada.InstanceMaterial, material: Material)
  datatype BindTechnique = BindTechnique(src: Collada.BindTechnique, instanceMaterial: InstanceMaterial)
  datatype BindMaterial = BindMaterial(src: Collada.BindMaterial, technique: BindTechnique)
  datatype NodeGeometry = NodeGeometry(src: Collada.NodeGeometry, bindMaterial: BindMaterial, geometry: Geometry)
  datatype Node = Node(src: Collada.Node, geometry: NodeGeometry)
  datatype VisualScene = VisualScene(src: Collada.VisualScene, nodes: seq<Node>)
  datatype InstanceVisualScene = InstanceVisualScene(src: Collada.InstanceVisualScene, visualScene: VisualScene)
  datatype Scene = Scene(src: Collada.Scene, instances: seq<InstanceVisualScene>)

  datatype Document = Document(
    src: Collada.Document,
    images: map<string, Image>,
    materials: map<string, Material>,
    effects: map<string, Effect>,
    geometries: map<string, Geometry>,
    visualScenes: map<string, VisualScene>,
    scenes: seq<Scene>)
}
