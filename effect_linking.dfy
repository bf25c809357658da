/** Linking of effects (texture parameters resolved by bare image id) and of
    materials (instance effects resolved by URI fragment). */
module EffectLinking {
  import opened Results
  import opened References
  import opened Tables
  import Collada
  import LinkedCollada

  function ImageId(x: Collada.Image): string { x.id }
  function TechniqueId(x: Collada.Technique): string { x.id }
  function EffectId(x: Collada.Effect): string { x.id }
  function MaterialId(x: Collada.Material): string { x.id }

  /** The image table: every image record wrapped, keyed by its id, last duplicate winning. */
  function LinkImages(src: seq<Collada.Image>): (r: map<string, LinkedCollada.Image>)
    ensures r.Keys == KeysOf(src, ImageId)
    ensures forall k :: k in r ==> r[k].src.id == k && r[k].src in src
    ensures forall k :: k in r ==> exists i :: IsLastWith(src, ImageId, k, i) && r[k] == LinkedCollada.Image(src[i])
  {
    var convert := (x: Collada.Image) => Ok(LinkedCollada.Image(x));
    LinkTableEntries(src, ImageId, convert);
    LinkTable(src, ImageId, convert).value
  }

  // ----- What a raw effect needs in order to link, and what a linked one guarantees.

  predicate PhongResolvable(p: Collada.Phong, imageIds: set<string>)
  {
    p.emission.texture.texture in imageIds && p.diffuse.texture.texture in imageIds
  }

  predicate EffectResolvable(e: Collada.Effect, imageIds: set<string>)
  {
    forall i :: 0 <= i < |e.commonProfile.techniques| ==> PhongResolvable(e.commonProfile.techniques[i].phong, imageIds)
  }

  /** A linked texture parameter holds the image its bare id names. */
  predicate TextureLinked(t: LinkedCollada.TextureParam, images: map<string, LinkedCollada.Image>)
  {
    Resolve(images, Some(t.src.texture.texture)) == Some(t.image)
  }

  predicate PhongLinked(p: LinkedCollada.Phong, images: map<string, LinkedCollada.Image>)
  {
    && p.emission.src == p.src.emission && TextureLinked(p.emission, images)
    && p.diffuse.src == p.src.diffuse && TextureLinked(p.diffuse, images)
  }

  /** A linked profile's technique table is keyed by its techniques' ids, and each
      entry is the last technique with that id, linked. */
  ghost predicate ProfileLinked(p: LinkedCollada.Profile, images: map<string, LinkedCollada.Image>)
  {
    && p.techniques.Keys == KeysOf(p.src.techniques, TechniqueId)
    && (forall k :: k in p.techniques ==>
          && p.techniques[k].src.id == k
          && p.techniques[k].phong.src == p.techniques[k].src.phong
          && PhongLinked(p.techniques[k].phong, images))
    && (forall k :: k in p.techniques ==>
          exists i :: IsLastWith(p.src.techniques, TechniqueId, k, i) &&
                      LinkTechnique(p.src.techniques[i], images) == Ok(p.techniques[k]))
  }

  ghost predicate EffectLinked(e: LinkedCollada.Effect, images: map<string, LinkedCollada.Image>)
  {
    e.profile.src == e.src.commonProfile && ProfileLinked(e.profile, images)
  }

  // ----- Effects

  function LinkTextureParam(src: Collada.TextureParam, images: map<string, LinkedCollada.Image>)
    : (r: Result<LinkedCollada.TextureParam>)
    ensures r.Ok? <==> src.texture.texture in images
    ensures r.Ok? ==> r.value.src == src && TextureLinked(r.value, images)
    ensures r.Err? ==> r.error == ImageNotFound(src.texture.texture)
  {
    var imageId := src.texture.texture;
    if imageId in images then Ok(LinkedCollada.TextureParam(src, images[imageId]))
    else Err(ImageNotFound(imageId))
  }

  function LinkPhong(src: Collada.Phong, images: map<string, LinkedCollada.Image>): (r: Result<LinkedCollada.Phong>)
    ensures r.Ok? <==> PhongResolvable(src, images.Keys)
    ensures r.Ok? ==> r.value.src == src && PhongLinked(r.value, images)
    ensures src.emission.texture.texture !in images ==> r == Err(ImageNotFound(src.emission.texture.texture))
    ensures src.emission.texture.texture in images && src.diffuse.texture.texture !in images ==>
      r == Err(ImageNotFound(src.diffuse.texture.texture))
  {
    var emission :- LinkTextureParam(src.emission, images);
    var diffuse :- LinkTextureParam(src.diffuse, images);
    Ok(LinkedCollada.Phong(src, emission, diffuse))
  }

  function LinkTechnique(src: Collada.Technique, images: map<string, LinkedCollada.Image>)
    : (r: Result<LinkedCollada.Technique>)
    ensures r.Ok? <==> PhongResolvable(src.phong, images.Keys)
    ensures r.Ok? ==> r.value.src == src && r.value.phong.src == src.phong && PhongLinked(r.value.phong, images)
    ensures src.phong.emission.texture.texture !in images ==> r == Err(ImageNotFound(src.phong.emission.texture.texture))
    ensures src.phong.emission.texture.texture in images && src.phong.diffuse.texture.texture !in images ==>
      r == Err(ImageNotFound(src.phong.diffuse.texture.texture))
  {
    var phong :- LinkPhong(src.phong, images);
    Ok(LinkedCollada.Technique(src, phong))
  }

  function LinkTechniques(src: seq<Collada.Technique>, images: map<string, LinkedCollada.Image>)
    : (r: Result<map<string, LinkedCollada.Technique>>)
    ensures r.Ok? <==> forall i :: 0 <= i < |src| ==> PhongResolvable(src[i].phong, images.Keys)
    ensures r.Ok? ==> r.value.Keys == KeysOf(src, TechniqueId)
    ensures r.Ok? ==> forall k :: k in r.value ==>
      && r.value[k].src.id == k
      && r.value[k].phong.src == r.value[k].src.phong
      && PhongLinked(r.value[k].phong, images)
    ensures r.Ok? ==> forall k :: k in r.value ==>
      exists i :: IsLastWith(src, TechniqueId, k, i) && LinkTechnique(src[i], images) == Ok(r.value[k])
    ensures r.Err? ==> r.error.ImageNotFound?
    ensures r.Err? ==> exists i :: (0 <= i < |src| && LinkTechnique(src[i], images) == Err(r.error) &&
                                    forall j :: 0 <= j < i ==> PhongResolvable(src[j].phong, images.Keys))
  {
    var convert := (t: Collada.Technique) => LinkTechnique(t, images);
    var r := LinkTable(src, TechniqueId, convert);
    LinkTableEntries(src, TechniqueId, convert);
    assert r.Err? ==> exists i :: (0 <= i < |src| && convert(src[i]) == Err(r.error) &&
                                   forall j :: 0 <= j < i ==> convert(src[j]).Ok?);
    r
  }

  function LinkCommonProfile(src: Collada.Profile, images: map<string, LinkedCollada.Image>)
    : (r: Result<LinkedCollada.Profile>)
    ensures r.Ok? <==> forall i :: 0 <= i < |src.techniques| ==> PhongResolvable(src.techniques[i].phong, images.Keys)
    ensures r.Ok? ==> r.value.src == src && ProfileLinked(r.value, images)
    ensures r.Err? ==> r.error.ImageNotFound?
    ensures r.Err? ==> exists i :: (0 <= i < |src.techniques| && LinkTechnique(src.techniques[i], images) == Err(r.error) &&
                                    forall j :: 0 <= j < i ==> PhongResolvable(src.techniques[j].phong, images.Keys))
  {
    var techniques :- LinkTechniques(src.techniques, images);
    Ok(LinkedCollada.Profile(src, techniques))
  }

  function LinkEffect(src: Collada.Effect, images: map<string, LinkedCollada.Image>): (r: Result<LinkedCollada.Effect>)
    ensures r.Ok? <==> EffectResolvable(src, images.Keys)
    ensures r.Ok? ==> r.value.src == src && EffectLinked(r.value, images)
    ensures r.Err? ==> r.error.ImageNotFound?
    ensures r.Err? ==> exists i :: (0 <= i < |src.commonProfile.techniques| &&
                                    LinkTechnique(src.commonProfile.techniques[i], images) == Err(r.error) &&
                                    forall j :: 0 <= j < i ==> PhongResolvable(src.commonProfile.techniques[j].phong, images.Keys))
  {
    var profile :- LinkCommonProfile(src.commonProfile, images);
    Ok(LinkedCollada.Effect(src, profile))
  }

  /** An effect table built from a library: keyed by exactly the library's effect
      ids, and each entry is the last effect with its key, linked. */
  ghost predicate EffectTable(src: seq<Collada.Effect>, images: map<string, LinkedCollada.Image>, t: map<string, LinkedCollada.Effect>)
  {
    && t.Keys == KeysOf(src, EffectId)
    && (forall k :: k in t ==> t[k].src.id == k && EffectLinked(t[k], images))
    && (forall k :: k in t ==> exists i :: IsLastWith(src, EffectId, k, i) && LinkEffect(src[i], images) == Ok(t[k]))
  }

  /** The effect table: fails on the first texture whose image id is not in the image table. */
  function LinkEffects(src: seq<Collada.Effect>, images: map<string, LinkedCollada.Image>)
    : (r: Result<map<string, LinkedCollada.Effect>>)
    ensures r.Ok? <==> forall i :: 0 <= i < |src| ==> EffectResolvable(src[i], images.Keys)
    ensures r.Ok? ==> EffectTable(src, images, r.value)
    ensures r.Err? ==> r.error.ImageNotFound?
    ensures r.Err? ==> exists i :: (0 <= i < |src| && LinkEffect(src[i], images) == Err(r.error) &&
                                    forall j :: 0 <= j < i ==> EffectResolvable(src[j], images.Keys))
  {
    var convert := (e: Collada.Effect) => LinkEffect(e, images);
    var r := LinkTable(src, EffectId, convert);
    LinkTableEntries(src, EffectId, convert);
    assert r.Err? ==> exists i :: (0 <= i < |src| && convert(src[i]) == Err(r.error) &&
                                   forall j :: 0 <= j < i ==> convert(src[j]).Ok?);
    r
  }

  // ----- Materials

  predicate MaterialResolvable(m: Collada.Material, effectIds: set<string>)
  {
    forall i :: 0 <= i < |m.instanceEffects| ==> FragmentIn(m.instanceEffects[i].url, effectIds)
  }

  /** A linked material's effect list follows its instance effects one for one. */
  predicate MaterialLinked(m: LinkedCollada.Material, effects: map<string, LinkedCollada.Effect>)
  {
    && |m.effects| == |m.src.instanceEffects|
    && forall i :: 0 <= i < |m.effects| ==> Resolve(effects, Fragment(m.src.instanceEffects[i].url)) == Some(m.effects[i])
  }

  function PrepareEffect(src: Collada.InstanceEffect, effects: map<string, LinkedCollada.Effect>)
    : (r: Result<LinkedCollada.Effect>)
    ensures r.Ok? <==> FragmentIn(src.url, effects.Keys)
    ensures r.Ok? ==> Resolve(effects, Fragment(src.url)) == Some(r.value)
    ensures r.Err? ==> r.error == EffectNotFound(src.url)
  {
    match Resolve(effects, Fragment(src.url))
    case None => Err(EffectNotFound(src.url))
    case Some(effect) => Ok(effect)
  }

  /** The effects of a material: one per instance effect, in order; the first
      instance whose URL fragment names no effect is the failure. */
  function PrepareEffects(src: seq<Collada.InstanceEffect>, effects: map<string, LinkedCollada.Effect>)
    : (r: Result<seq<LinkedCollada.Effect>>)
    ensures r.Ok? <==> forall i :: 0 <= i < |src| ==> FragmentIn(src[i].url, effects.Keys)
    ensures r.Ok? ==> |r.value| == |src|
    ensures r.Ok? ==> forall i :: 0 <= i < |src| ==> Resolve(effects, Fragment(src[i].url)) == Some(r.value[i])
    ensures r.Err? ==> exists i :: (0 <= i < |src| && !FragmentIn(src[i].url, effects.Keys) &&
                                    r.error == EffectNotFound(src[i].url) &&
                                    forall j :: 0 <= j < i ==> FragmentIn(src[j].url, effects.Keys))
  {
    var convert := (e: Collada.InstanceEffect) => PrepareEffect(e, effects);
    var r := MapAll(src, convert);
    assert r.Err? ==> exists i :: (0 <= i < |src| && PrepareEffect(src[i], effects) == Err(r.error) &&
                                   forall j :: 0 <= j < i ==> PrepareEffect(src[j], effects).Ok?);
    r
  }

  function LinkMaterial(src: Collada.Material, effects: map<string, LinkedCollada.Effect>)
    : (r: Result<LinkedCollada.Material>)
    ensures r.Ok? <==> MaterialResolvable(src, effects.Keys)
    ensures r.Ok? ==> r.value.src == src && MaterialLinked(r.value, effects)
    ensures r.Err? ==> exists i :: (0 <= i < |src.instanceEffects| &&
                                    !FragmentIn(src.instanceEffects[i].url, effects.Keys) &&
                                    r.error == EffectNotFound(src.instanceEffects[i].url) &&
                                    forall j :: 0 <= j < i ==> FragmentIn(src.instanceEffects[j].url, effects.Keys))
  {
    var linked :- PrepareEffects(src.instanceEffects, effects);
    Ok(LinkedCollada.Material(src, linked))
  }

  /** A material table built from a library: keyed by exactly the library's
      material ids, and each entry is the last material with its key, linked. */
  ghost predicate MaterialTable(src: seq<Collada.Material>, effects: map<string, LinkedCollada.Effect>, t: map<string, LinkedCollada.Material>)
  {
    && t.Keys == KeysOf(src, MaterialId)
    && (forall k :: k in t ==> t[k].src.id == k && MaterialLinked(t[k], effects))
    && (forall k :: k in t ==> exists i :: IsLastWith(src, MaterialId, k, i) && LinkMaterial(src[i], effects) == Ok(t[k]))
  }

  /** The material table: fails on the first instance effect whose fragment names no effect. */
  function LinkMaterials(src: seq<Collada.Material>, effects: map<string, LinkedCollada.Effect>)
    : (r: Result<map<string, LinkedCollada.Material>>)
    ensures r.Ok? <==> forall i :: 0 <= i < |src| ==> MaterialResolvable(src[i], effects.Keys)
    ensures r.Ok? ==> MaterialTable(src, effects, r.value)
    ensures r.Err? ==> r.error.EffectNotFound?
    ensures r.Err? ==> exists i :: (0 <= i < |src| && LinkMaterial(src[i], effects) == Err(r.error) &&
                                    forall j :: 0 <= j < i ==> MaterialResolvable(src[j], effects.Keys))
  {
    var convert := (m: Collada.Material) => LinkMaterial(m, effects);
    var r := LinkTable(src, MaterialId, convert);
    LinkTableEntries(src, MaterialId, convert);
    assert r.Err? ==> exists i :: (0 <= i < |src| && convert(src[i]) == Err(r.error) &&
                                   forall j :: 0 <= j < i ==> convert(src[j]).Ok?);
    r
  }
}
