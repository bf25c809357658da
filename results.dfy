/** Failure-compatible wrappers and the failures the linking pass can raise. */
module Results {

  /** A value that may be absent (a Java reference that may be null). */
  datatype Option<+T> = None | Some(value: T)

  /** One failure per fatal check of the linking pass; each carries what the
      corresponding exception message names. */
  datatype LinkError =
    | UnsupportedVersion(version: string)
    | ImageNotFound(imageId: string)
    | EffectNotFound(effectUrl: string)
    | SourceNotFound(sourceId: Option<string>)
    | PositionMissing
    | NormalsAbsent(geometryName: string)
    | VertexInputMissing
    | VerticesNotFound(verticesId: Option<string>)
    | NodeGeometryMissing
    | GeometryNotFound(geometryUrl: string)
    | MaterialNotFound(materialId: Option<string>)
    | VisualSceneNotFound(sceneId: Option<string>)

  /** Either a linked value or the first failure met while producing it. */
  datatype Result<+T> = Ok(value: T) | Err(error: LinkError) {
    predicate IsFailure() {
      Err?
    }

    function PropagateFailure<U>(): Result<U>
      requires Err?
    {
      Err(error)
    }

    function Extract(): T
      requires Ok?
    {
      value
    }
  }
}
