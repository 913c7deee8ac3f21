/** Value types shared by the editor's components (types.ts). */
module Types {

  /** A value that may be absent: `null` or `undefined` in the editor's state. */
  datatype Option<+T> = None | Some(value: T) {

    /** The value, or `default` when absent (the `??` operator). */
    function GetOr(default: T): (r: T)
      ensures Some? ==> r == value
      ensures None? ==> r == default
    {
      match this
      case Some(v) => v
      case None => default
    }
  }

  /** The uploaded (or cropped) image as a data URL, and its media type. */
  datatype ImageState = ImageState(originalImage: Option<string>, mimeType: string)

  /** The three strengths of the background-blur preset. */
  datatype BlurIntensity = Low | Medium | High

  /** The client-side display filters. */
  datatype FilterType = NoFilter | Grayscale | Sepia | Invert

  /** The string literal by which the source names each blur intensity. */
  function IntensityWord(b: BlurIntensity): (w: string)
    ensures w in {"low", "medium", "high"}
  {
    match b
    case Low => "low"
    case Medium => "medium"
    case High => "high"
  }

  /** Distinct intensities are named by distinct words. */
  lemma IntensityWordInjective(b: BlurIntensity, c: BlurIntensity)
    ensures IntensityWord(b) == IntensityWord(c) ==> b == c
  {
  }

  /**
    An image counts as loaded when `originalImage` is truthy in JavaScript:
    neither `null` nor the empty string.
   */
  function HasImage(s: ImageState): (loaded: bool)
    ensures loaded <==> s.originalImage !in {None, Some("")}
  {
    s.originalImage.Some? && s.originalImage.value != ""
  }

  /** The state the editor starts from and returns to on reset. */
  const NoImage: ImageState := ImageState(None, "")
}
