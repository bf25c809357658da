/** The deserialised document as the loader receives it: records that refer to
    one another only by id strings. Only the fields the linking pass reads are
    modelled. */
module Collada {
  import opened Results

  /** The only document version the loader accepts. */
  const AllowedVersions: set<string> := {"1.4.1"}

  datatype Image = Image(id: string)

  /** `<texture texture="...">`: names an image by its bare id. */
  datatype Texture = Texture(texture: string)
  datatype TextureParam = TextureParam(texture: Texture)
  datatype Phong = Phong(emission: TextureParam, diffuse: TextureParam)
  datatype Technique = Technique(id: string, phong: Phong)
  datatype Profile = Profile(techniques: seq<Technique>)
  datatype Effect = Effect(id: string, commonProfile: Profile)

  /** `<instance_effect url="#...">`. */
  datatype InstanceEffect = InstanceEffect(url: string)
  datatype Material = Material(id: string, instanceEffects: seq<InstanceEffect>)

  datatype Source = Source(id: string)

  /** `<input semantic="..." source="#...">`. */
  datatype Input = Input(semantic: string, source: string)
  datatype Vertices = Vertices(id: string, inputs: seq<Input>)

  /** `<triangles material="...">`: the material attribute is a bare key and may be absent. */
  datatype Triangles = Triangles(material: Option<string>, inputs: seq<Input>)
  datatype Mesh = Mesh(sources: seq<Source>, vertices: seq<Vertices>, triangles: Triangles)
  datatype Geometry = Geometry(id: string, name: string, mesh: Mesh)

  /** `<instance_material target="#...">`. */
  datatype InstanceMaterial = InstanceMaterial(target: string)
  datatype BindTechnique = BindTechnique(instanceMaterial: InstanceMaterial)
  datatype BindMaterial = BindMaterial(commonTechnique: BindTechnique)

  /** `<instance_geometry url="#...">`. */
  datatype NodeGeometry = NodeGeometry(url: string, material: BindMaterial)

  /** A node's instance_geometry element may be missing from the document. */
  datatype Node = Node(geometry: Option<NodeGeometry>)
  datatype VisualScene = VisualScene(id: string, nodes: seq<Node>)

  /** `<instance_visual_scene url="#...">`. */
  datatype InstanceVisualScene = InstanceVisualScene(url: string)
  datatype Scene = Scene(instanceScenes: seq<InstanceVisualScene>)

  datatype Document = Document(
    version: string,
    libraryImages: seq<Image>,
    libraryEffects: seq<Effect>,
    libraryMaterials: seq<Material>,
    libraryGeometries: seq<Geometry>,
    libraryVisualScenes: seq<VisualScene>,
    scenes: seq<Scene>)
}
