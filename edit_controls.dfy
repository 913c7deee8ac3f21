/**
  The control panel (components/EditControls.tsx): when each of its buttons
  is disabled, the guarded enhance-quality switch, and the blur intensity
  choices. The panel holds no state of its own; the editor passes it
  `isLoading`, `isImageLoaded`, `canUndo`, `canRedo` and the edited image.
 */
module EditControls {
  import opened Types

  /** One button of the intensity selector. */
  datatype IntensityOption = IntensityOption(caption: string, value: BlurIntensity)

  /** `intensityOptions`. */
  const IntensityOptions: seq<IntensityOption> := [
    IntensityOption("Low", Low),
    IntensityOption("Medium", Medium),
    IntensityOption("High", High)
  ]

  /** The selector offers every intensity, at exactly one position. */
  function OptionPosition(b: BlurIntensity): (k: nat)
    ensures k < |IntensityOptions| && IntensityOptions[k].value == b
    ensures forall j :: 0 <= j < |IntensityOptions| && IntensityOptions[j].value == b ==> j == k
  {
    match b
    case Low => 0
    case Medium => 1
    case High => 2
  }

  /** The options are low, medium and high, in that order. */
  lemma IntensityOrder()
    ensures |IntensityOptions| == 3
    ensures forall k :: 0 <= k < |IntensityOptions| ==> OptionPosition(IntensityOptions[k].value) == k
  {
  }

  /**
    `handleEnhanceToggle`: the new value of the enhance-quality flag. It
    flips exactly when nothing is loading and an image is loaded.
   */
  function EnhanceToggle(enhanceQuality: bool, isLoading: bool, isImageLoaded: bool): (r: bool)
    ensures r != enhanceQuality <==> !isLoading && isImageLoaded
  {
    if !isLoading && isImageLoaded then !enhanceQuality else enhanceQuality
  }

  /** The enhance switch and the prompt builder are disabled without an image or while loading. */
  function SwitchDisabled(isLoading: bool, isImageLoaded: bool): (d: bool)
    ensures !d <==> isImageLoaded && !isLoading
  {
    !isImageLoaded || isLoading
  }

  /** A click on an enabled switch always flips it; a disabled switch ignores clicks. */
  lemma EnabledSwitchFlips(enhanceQuality: bool, isLoading: bool, isImageLoaded: bool)
    ensures !SwitchDisabled(isLoading, isImageLoaded) <==>
      EnhanceToggle(enhanceQuality, isLoading, isImageLoaded) == !enhanceQuality
  {
  }

  /** "Apply Prompt Edit": disabled for an empty prompt, while loading, or without an image. */
  function EditDisabled(prompt: string, isLoading: bool, isImageLoaded: bool): (d: bool)
    ensures !d <==> |prompt| > 0 && !isLoading && isImageLoaded
  {
    prompt == "" || isLoading || !isImageLoaded
  }

  /** "Apply Blur" and the three intensity buttons share the switch's guard. */
  function BlurDisabled(isLoading: bool, isImageLoaded: bool): (d: bool)
    ensures !d <==> isImageLoaded && !isLoading
    ensures d == SwitchDisabled(isLoading, isImageLoaded)
  {
    isLoading || !isImageLoaded
  }

  /** "Undo": enabled exactly when there is something to undo and nothing is loading. */
  function UndoDisabled(canUndo: bool, isLoading: bool): (d: bool)
    ensures !d <==> canUndo && !isLoading
  {
    !canUndo || isLoading
  }

  /** "Redo": enabled exactly when there is something to redo and nothing is loading. */
  function RedoDisabled(canRedo: bool, isLoading: bool): (d: bool)
    ensures !d <==> canRedo && !isLoading
  {
    !canRedo || isLoading
  }

  /**
    The download button is disabled while loading and when `editedImage` is
    falsy in JavaScript: `null` or the empty string.
   */
  function DownloadDisabled(editedImage: Option<string>, isLoading: bool): (d: bool)
    ensures !d <==> editedImage !in {None, Some("")} && !isLoading
  {
    editedImage.None? || editedImage.value == "" || isLoading
  }

  /** "Clear & Start Over" carries no `disabled` attribute. */
  function ResetDisabled(isLoading: bool, isImageLoaded: bool): (d: bool)
    ensures !d
  {
    false
  }

  /**
    While a request is loading every button but reset is disabled; without a
    loaded image the edit and blur buttons and the switch are disabled too.
   */
  lemma LoadingDisablesRequests(prompt: string, isLoading: bool, isImageLoaded: bool, canUndo: bool, canRedo: bool, edited: Option<string>)
    ensures isLoading ==>
      && EditDisabled(prompt, isLoading, isImageLoaded) && BlurDisabled(isLoading, isImageLoaded)
      && UndoDisabled(canUndo, isLoading) && RedoDisabled(canRedo, isLoading)
      && DownloadDisabled(edited, isLoading) && SwitchDisabled(isLoading, isImageLoaded)
    ensures !isImageLoaded ==>
      && EditDisabled(prompt, isLoading, isImageLoaded) && BlurDisabled(isLoading, isImageLoaded)
      && SwitchDisabled(isLoading, isImageLoaded)
    ensures !ResetDisabled(isLoading, isImageLoaded)
  {
  }
}
