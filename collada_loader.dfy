/** The linking pass as a whole: version gate, then the image, effect,
    material, geometry and visual-scene tables and the scene list, each stage
    resolving references only into the tables built before it. */
module ColladaLoader {
  import opened Results
  import opened References
  import opened Tables
  import Collada
  import LinkedCollada
  import opened EffectLinking
  import opened GeometryLinking
  import opened SceneLinking

  /** A raw document the pass accepts: a supported version, and every reference,
      in every library, naming a record that exists where it must. */
  ghost predicate Linkable(c: Collada.Document)
  {
    var imageIds := KeysOf(c.libraryImages, ImageId);
    var effectIds := KeysOf(c.libraryEffects, EffectId);
    var materialIds := KeysOf(c.libraryMaterials, MaterialId);
    var geometryIds := KeysOf(c.libraryGeometries, GeometryId);
    var visualSceneIds := KeysOf(c.libraryVisualScenes, VisualSceneId);
    && c.version in Collada.AllowedVersions
    && (forall i :: 0 <= i < |c.libraryEffects| ==> EffectResolvable(c.libraryEffects[i], imageIds))
    && (forall i :: 0 <= i < |c.libraryMaterials| ==> MaterialResolvable(c.libraryMaterials[i], effectIds))
    && (forall i :: 0 <= i < |c.libraryGeometries| ==> MeshResolvable(c.libraryGeometries[i].mesh))
    && (forall i :: 0 <= i < |c.libraryVisualScenes| ==>
          VisualSceneResolvable(c.libraryVisualScenes[i], geometryIds, materialIds))
    && (forall i :: 0 <= i < |c.scenes| ==> SceneResolvable(c.scenes[i], visualSceneIds))
  }

  /** Referential integrity of a linked document: every table is keyed by the ids
      of its raw library, every entry is the last record of that library with its
      key, linked, and every reference field holds the entry of the table its key
      names. */
  ghost predicate Integrity(d: LinkedCollada.Document)
  {
    && d.src.version in Collada.AllowedVersions
    && d.images == LinkImages(d.src.libraryImages)
    && EffectTable(d.src.libraryEffects, d.images, d.effects)
    && MaterialTable(d.src.libraryMaterials, d.effects, d.materials)
    && GeometryTable(d.src.libraryGeometries, d.materials, d.geometries)
    && VisualSceneTable(d.src.libraryVisualScenes, d.geometries, d.materials, d.visualScenes)
    && SceneList(d.src.scenes, d.visualScenes, d.scenes)
  }

  /** Links a document: fails with the version error before anything else when the
      version is unsupported, and otherwise links its libraries. */
  function LinkCollada(c: Collada.Document): (r: Result<LinkedCollada.Document>)
    ensures c.version !in Collada.AllowedVersions ==> r == Err(UnsupportedVersion(c.version))
    ensures r.Err? ==> (r.error.UnsupportedVersion? <==> c.version !in Collada.AllowedVersions)
  {
    if c.version !in Collada.AllowedVersions then
      Err(UnsupportedVersion(c.version))
    else
      LinkLibraries(c)
  }

  /** Links the libraries of a document, failing with the failure of the first stage
      that fails, stages taken in the order effects, materials, geometries, visual
      scenes, scenes (each stage's own contract names its first failing record);
      none of these failures is the version failure. */
  function LinkLibraries(c: Collada.Document): (r: Result<LinkedCollada.Document>)
    ensures r.Err? ==> !r.error.UnsupportedVersion?
  {
    var images := LinkImages(c.libraryImages);
    var effects := LinkEffects(c.libraryEffects, images);
    if effects.Err? then Err(effects.error) else
    LinkMaterialsOnward(c, images, effects.value)
  }

  /** The stages from materials on, given the images and effects already linked. */
  function LinkMaterialsOnward(
    c: Collada.Document,
    images: map<string, LinkedCollada.Image>,
    effects: map<string, LinkedCollada.Effect>)
    : (r: Result<LinkedCollada.Document>)
    ensures r.Err? ==> !r.error.UnsupportedVersion?
  {
    var materials := LinkMaterials(c.libraryMaterials, effects);
    if materials.Err? then Err(materials.error) else
    LinkGeometriesOnward(c, images, effects, materials.value)
  }

  /** The stages from geometries on. */
  function LinkGeometriesOnward(
    c: Collada.Document,
    images: map<string, LinkedCollada.Image>,
    effects: map<string, LinkedCollada.Effect>,
    materials: map<string, LinkedCollada.Material>)
    : (r: Result<LinkedCollada.Document>)
    ensures r.Err? ==> !r.error.UnsupportedVersion?
  {
    var geometries := LinkGeometries(c.libraryGeometries, materials);
    if geometries.Err? then Err(geometries.error) else
    LinkScenesOnward(c, images, effects, materials, geometries.value)
  }

  /** The last stages: visual scenes, then scenes, then the linked document. */
  function LinkScenesOnward(
    c: Collada.Document,
    images: map<string, LinkedCollada.Image>,
    effects: map<string, LinkedCollada.Effect>,
    materials: map<string, LinkedCollada.Material>,
    geometries: map<string, LinkedCollada.Geometry>)
    : (r: Result<LinkedCollada.Document>)
    ensures r.Err? ==> !r.error.UnsupportedVersion?
  {
    var visualScenes := LinkVisualScenes(c.libraryVisualScenes, geometries, materials);
    if visualScenes.Err? then Err(visualScenes.error) else
    var scenes := LinkScenes(c.scenes, visualScenes.value);
    if scenes.Err? then Err(scenes.error) else
    Ok(LinkedCollada.Document(c, images, materials, effects, geometries, visualScenes.value, scenes.value))
  }

  /** A supported document fails with the failure of the first stage that fails,
      stages taken in the order effects, materials, geometries, visual scenes, scenes. */
  lemma LinkColladaStageOrder(c: Collada.Document)
    ensures c.version in Collada.AllowedVersions ==>
      var effects := LinkEffects(c.libraryEffects, LinkImages(c.libraryImages));
      && (effects.Err? ==> LinkCollada(c) == Err(effects.error))
      && (effects.Ok? ==>
            var materials := LinkMaterials(c.libraryMaterials, effects.value);
            && (materials.Err? ==> LinkCollada(c) == Err(materials.error))
            && (materials.Ok? ==>
                  var geometries := LinkGeometries(c.libraryGeometries, materials.value);
                  && (geometries.Err? ==> LinkCollada(c) == Err(geometries.error))
                  && (geometries.Ok? ==>
                        var visualScenes := LinkVisualScenes(c.libraryVisualScenes, geometries.value, materials.value);
                        && (visualScenes.Err? ==> LinkCollada(c) == Err(visualScenes.error))
                        && (visualScenes.Ok? ==>
                              var scenes := LinkScenes(c.scenes, visualScenes.value);
                              scenes.Err? ==> LinkCollada(c) == Err(scenes.error)))))
  {
  }

  /** Linking succeeds exactly on linkable documents. The case split over the stages
      keeps the proof within the resource limit on every solver seed. */
  lemma LinkColladaSucceedsIffLinkable(c: Collada.Document)
    ensures LinkCollada(c).Ok? <==> Linkable(c)
  {
    if c.version in Collada.AllowedVersions {
      var images := LinkImages(c.libraryImages);
      var effects := LinkEffects(c.libraryEffects, images);
      if effects.Ok? {
        var materials := LinkMaterials(c.libraryMaterials, effects.value);
        if materials.Ok? {
          var geometries := LinkGeometries(c.libraryGeometries, materials.value);
          if geometries.Ok? {
            var visualScenes := LinkVisualScenes(c.libraryVisualScenes, geometries.value, materials.value);
            if visualScenes.Ok? {
              var scenes := LinkScenes(c.scenes, visualScenes.value);
              assert LinkCollada(c).Ok? <==> scenes.Ok?;
            } else {
              assert LinkCollada(c).Err?;
            }
          } else {
            assert LinkCollada(c).Err?;
          }
        } else {
          assert LinkCollada(c).Err?;
        }
      } else {
        assert LinkCollada(c).Err?;
      }
    }
  }

  /** A linked document keeps its raw document and has referential integrity. The
      stage values and the equation for the document cut the cost of the proof. */
  lemma LinkColladaIntegrity(c: Collada.Document)
    ensures LinkCollada(c).Ok? ==> LinkCollada(c).value.src == c && Integrity(LinkCollada(c).value)
  {
    if LinkCollada(c).Ok? {
      var images := LinkImages(c.libraryImages);
      var effects := LinkEffects(c.libraryEffects, images).value;
      var materials := LinkMaterials(c.libraryMaterials, effects).value;
      var geometries := LinkGeometries(c.libraryGeometries, materials).value;
      var visualScenes := LinkVisualScenes(c.libraryVisualScenes, geometries, materials).value;
      var scenes := LinkScenes(c.scenes, visualScenes).value;
      assert LinkCollada(c).value == LinkedCollada.Document(c, images, materials, effects, geometries, visualScenes, scenes);
    }
  }
}
