/**
  The editing session held by the editor's top-level component (App.tsx):
  the original image, the linear undo history of edit results with its
  cursor, the request guards and failure paths of an edit, the prompts sent
  for an edit, and the record the session is saved to and restored from.

  The external image-editing service is not modelled: an edit receives the
  service's answer as a parameter (`EditResponse`) and returns the request it
  would have sent (`EditRequest`), or `None` when it stops before the call.
 */
module App {
  import opened Types
  import DataUrl
  import PromptBuilder
  import EditControls

  /** The service's answer: the edited image's base64 payload, or a failure with its message. */
  datatype EditResponse = Edited(base64: string) | Failed(message: string)

  /** What an edit sends to the service: the payload of the image, its media type and the instruction. */
  datatype EditRequest = EditRequest(base64Data: string, mimeType: string, prompt: string)

  const NoImageError: string := "Please upload an image first."
  const EmptyPromptError: string := "Please enter an editing prompt."
  const ReadFailedError: string := "Failed to read the image file."
  const EditErrorPrefix: string := "An error occurred during editing: "
  const InvalidDataUrlMessage: string := "Invalid image data URL."
  /** The message of the `TypeError` JavaScript raises for `undefined.split(',')`. */
  const UndefinedImageMessage: string := "Cannot read properties of undefined (reading 'split')"
  const EnhancePrefix: string := "Enhance the quality, details, and resolution of the image. Then, "
  const BlurPromptHead: string := "Apply a "
  const BlurPromptTail: string := " intensity photographic background blur, keeping the main subject in sharp focus."
  /** A crop is rasterised on a canvas, whose output is always PNG. */
  const CroppedMimeType: string := "image/png"

  /**
    The instruction "Apply Prompt Edit" sends: the user's prompt, behind the
    fixed enhancement sentence exactly when enhance-quality is on. The user's
    prompt is always the tail of it.
   */
  function FinalPrompt(prompt: string, enhanceQuality: bool): (r: string)
    ensures enhanceQuality ==> r == EnhancePrefix + prompt
    ensures !enhanceQuality ==> r == prompt
    ensures |r| >= |prompt| && r[|r| - |prompt|..] == prompt
  {
    if enhanceQuality then EnhancePrefix + prompt else prompt
  }

  /** The instruction "Apply Blur" sends: the intensity word sits between a fixed head and tail. */
  function BlurPrompt(b: BlurIntensity): (r: string)
    ensures |r| == |BlurPromptHead| + |IntensityWord(b)| + |BlurPromptTail|
    ensures r[..|BlurPromptHead|] == BlurPromptHead
    ensures r[|BlurPromptHead|..|BlurPromptHead| + |IntensityWord(b)|] == IntensityWord(b)
    ensures r[|BlurPromptHead| + |IntensityWord(b)|..] == BlurPromptTail
  {
    BlurPromptHead + IntensityWord(b) + BlurPromptTail
  }

  /** Each intensity sends its own instruction. */
  lemma BlurPromptInjective(b: BlurIntensity, c: BlurIntensity)
    ensures BlurPrompt(b) == BlurPrompt(c) ==> b == c
  {
  }

  /**
    The persisted session. Every field may be absent: JSON drops the
    `undefined` ones, and a stored record may come from anywhere.
   */
  datatype SessionRecord = SessionRecord(
    savedImageState: Option<ImageState>,
    savedHistory: Option<seq<string>>,
    savedHistoryIndex: Option<int>,
    savedEnhanceQuality: Option<bool>,
    savedActiveFilter: Option<FilterType>)

  const EmptyRecord: SessionRecord := SessionRecord(None, None, None, None, None)

  /**
    `sessionData`: each field is stored only when an image is loaded. So a
    record is either complete or empty.
   */
  function SessionData(imageState: ImageState, history: seq<string>, historyIndex: int,
                       enhanceQuality: bool, activeFilter: FilterType): (r: SessionRecord)
    ensures HasImage(imageState) ==>
      r == SessionRecord(Some(imageState), Some(history), Some(historyIndex), Some(enhanceQuality), Some(activeFilter))
    ensures !HasImage(imageState) ==> r == EmptyRecord
  {
    var loaded := HasImage(imageState);
    SessionRecord(
      if loaded then Some(imageState) else None,
      if loaded then Some(history) else None,
      if loaded then Some(historyIndex) else None,
      if loaded then Some(enhanceQuality) else None,
      if loaded then Some(activeFilter) else None)
  }

  /** `savedImageState && savedImageState.originalImage`: the record is applied on load. */
  function Applies(r: SessionRecord): (b: bool)
    ensures b <==> r.savedImageState.Some? && r.savedImageState.value.originalImage !in {None, Some("")}
    ensures r == EmptyRecord ==> !b
  {
    r.savedImageState.Some? && HasImage(r.savedImageState.value)
  }

  /** The cursor a record restores points into the history it restores (or is -1). */
  predicate Consistent(r: SessionRecord) {
    -1 <= r.savedHistoryIndex.GetOr(-1) < |r.savedHistory.GetOr([])|
  }

  /**
    Saving and then loading gives back the session exactly when an image was
    loaded, and a record saved from a session whose cursor was in range
    restores a cursor in range.
   */
  lemma SaveThenRestore(imageState: ImageState, history: seq<string>, historyIndex: int,
                        enhanceQuality: bool, activeFilter: FilterType)
    ensures var r := SessionData(imageState, history, historyIndex, enhanceQuality, activeFilter);
      && (Applies(r) <==> HasImage(imageState))
      && (Applies(r) ==>
            && r.savedImageState.value == imageState
            && r.savedHistory.GetOr([]) == history
            && r.savedHistoryIndex.GetOr(-1) == historyIndex
            && r.savedEnhanceQuality.GetOr(false) == enhanceQuality
            && r.savedActiveFilter.GetOr(NoFilter) == activeFilter)
      && (-1 <= historyIndex < |history| ==> Consistent(r))
  {
  }

  /**
    Loading takes the saved cursor as it is: a record that is applied can
    still restore a cursor outside its history.
   */
  lemma LoadKeepsUncheckedCursor()
    ensures var r := SessionRecord(Some(ImageState(Some("data:,"), "")), Some([]), Some(3), None, None);
      Applies(r) && !Consistent(r)
  {
  }

  class Session {
    var imageState: ImageState
    var history: seq<string>
    /** The position in `history` on display; -1 shows the original. */
    var historyIndex: int
    var prompt: string
    var isLoading: bool
    var error: Option<string>
    var isCropping: bool
    var enhanceQuality: bool
    var blurIntensity: BlurIntensity
    var activeFilter: FilterType

    /** The history invariant: the cursor is -1 or points into the history. */
    predicate Valid()
      reads this
    {
      -1 <= historyIndex < |history|
    }

    /** The state the editor starts in. */
    constructor ()
      ensures imageState == NoImage && history == [] && historyIndex == -1
      ensures prompt == "" && !isLoading && error == None && !isCropping
      ensures !enhanceQuality && blurIntensity == Medium && activeFilter == NoFilter
      ensures Valid()
    {
      imageState := NoImage;
      history := [];
      historyIndex := -1;
      prompt := "";
      isLoading := false;
      error := None;
      isCropping := false;
      enhanceQuality := false;
      blurIntensity := Medium;
      activeFilter := NoFilter;
    }

    /**
      `editedImage`, shown in the "Edited" pane: the history entry under the
      cursor, absent when the cursor is -1 (or, in a restored record, points
      outside the history).
     */
    function EditedImage(): (e: Option<string>)
      reads this
      ensures e.Some? <==> 0 <= historyIndex < |history|
      ensures e.Some? ==> e.value == history[historyIndex]
    {
      if historyIndex >= 0 && historyIndex < |history| then Some(history[historyIndex]) else None
    }

    /**
      `imageToEdit`: the original when the cursor is -1, otherwise the entry
      under the cursor. It is defined exactly when the cursor is valid (and,
      at -1, an original exists).
     */
    function ImageToEdit(): (img: Option<string>)
      reads this
      ensures historyIndex == -1 ==> img == imageState.originalImage
      ensures historyIndex != -1 ==> img == EditedImage()
      ensures img.Some? ==> Valid()
    {
      if historyIndex == -1 then imageState.originalImage
      else if 0 <= historyIndex < |history| then Some(history[historyIndex])
      else None
    }

    /** `canUndo` as passed to the control panel. */
    function CanUndo(): (b: bool)
      reads this
      ensures Valid() ==> (b <==> EditedImage().Some?)
      ensures Valid() && !b ==> ImageToEdit() == imageState.originalImage
    {
      historyIndex >= 0
    }

    /** `canRedo` as passed to the control panel. */
    function CanRedo(): (b: bool)
      reads this
      ensures Valid() ==> (b <==> history[historyIndex + 1..] != [])
    {
      historyIndex < |history| - 1
    }

    /** The record the save effect writes for the current state. */
    function Snapshot(): (r: SessionRecord)
      reads this
      ensures HasImage(imageState) ==> Applies(r) && Consistent(r) == Valid()
      ensures !HasImage(imageState) ==> r == EmptyRecord
    {
      SessionData(imageState, history, historyIndex, enhanceQuality, activeFilter)
    }

    /**
      The load effect, given what the storage slot parsed to (`None` for a
      missing or unreadable slot). A record is applied only when it holds an
      image; missing fields take their defaults, and the cursor is not
      checked against the history.
     */
    method Load(saved: Option<SessionRecord>)
      modifies this
      ensures !(saved.Some? && Applies(saved.value)) ==> unchanged(this)
      ensures saved.Some? && Applies(saved.value) ==>
        && imageState == saved.value.savedImageState.value
        && history == saved.value.savedHistory.GetOr([])
        && historyIndex == saved.value.savedHistoryIndex.GetOr(-1)
        && enhanceQuality == saved.value.savedEnhanceQuality.GetOr(false)
        && activeFilter == saved.value.savedActiveFilter.GetOr(NoFilter)
        && prompt == old(prompt) && isLoading == old(isLoading) && error == old(error)
        && isCropping == old(isCropping) && blurIntensity == old(blurIntensity)
        && (Valid() <==> Consistent(saved.value))
    {
      if saved.Some? && Applies(saved.value) {
        var r := saved.value;
        imageState := r.savedImageState.value;
        history := r.savedHistory.GetOr([]);
        historyIndex := r.savedHistoryIndex.GetOr(-1);
        enhanceQuality := r.savedEnhanceQuality.GetOr(false);
        activeFilter := r.savedActiveFilter.GetOr(NoFilter);
      }
    }

    /**
      The file reader's `loadend` handler, which the browser runs after every
      read, failed or not. `result` is `reader.result`: the data URL of a
      successful read, `null` after a failed one. It becomes the new original
      and the whole session starts over.
     */
    method LoadEnd(result: Option<string>, fileType: string)
      modifies this
      ensures imageState == ImageState(result, fileType)
      ensures history == [] && historyIndex == -1
      ensures error == None && prompt == "" && !isCropping
      ensures !enhanceQuality && blurIntensity == Medium && activeFilter == NoFilter
      ensures isLoading == old(isLoading)
      ensures Valid()
    {
      imageState := ImageState(result, fileType);
      history := [];
      historyIndex := -1;
      error := None;
      prompt := "";
      isCropping := false;
      enhanceQuality := false;
      blurIntensity := Medium;
      activeFilter := NoFilter;
    }

    /** The file reader's `error` handler: only the error message changes. */
    method ReadError()
      modifies this`error
      ensures error == Some(ReadFailedError)
    {
      error := Some(ReadFailedError);
    }

    /**
      A successful read: only `loadend` runs, with the data URL read. The
      uploaded image becomes the new original and the session starts over.
     */
    method Upload(dataUrl: string, fileType: string)
      modifies this
      ensures imageState == ImageState(Some(dataUrl), fileType)
      ensures history == [] && historyIndex == -1
      ensures error == None && prompt == "" && !isCropping
      ensures !enhanceQuality && blurIntensity == Medium && activeFilter == NoFilter
      ensures isLoading == old(isLoading)
      ensures Valid()
    {
      LoadEnd(Some(dataUrl), fileType);
    }

    /**
      A failed read: `error` runs, then `loadend` with a `null` result. The
      second handler clears the read error the first one set, and it leaves
      no image loaded, the file's media type recorded, and the session reset.
      The save effect then writes the empty record.
     */
    method UploadFailed(fileType: string)
      modifies this
      ensures imageState == ImageState(None, fileType) && !HasImage(imageState)
      ensures history == [] && historyIndex == -1
      ensures error == None && prompt == "" && !isCropping
      ensures !enhanceQuality && blurIntensity == Medium && activeFilter == NoFilter
      ensures isLoading == old(isLoading)
      ensures Valid()
      ensures Snapshot() == EmptyRecord
    {
      ReadError();
      LoadEnd(None, fileType);
    }

    /**
      A finished crop: the cropped PNG becomes the new original and the
      history starts over; prompt, error and switches are kept.
     */
    method Crop(croppedUrl: string)
      modifies this
      ensures imageState == ImageState(Some(croppedUrl), CroppedMimeType)
      ensures history == [] && historyIndex == -1
      ensures !isCropping && activeFilter == NoFilter
      ensures prompt == old(prompt) && isLoading == old(isLoading) && error == old(error)
      ensures enhanceQuality == old(enhanceQuality) && blurIntensity == old(blurIntensity)
      ensures Valid()
    {
      imageState := ImageState(Some(croppedUrl), CroppedMimeType);
      history := [];
      historyIndex := -1;
      isCropping := false;
      activeFilter := NoFilter;
    }

    /**
      "Clear & Start Over": everything returns to the initial state, so the
      record saved afterwards is empty and a later load applies nothing.
     */
    method Reset()
      modifies this
      ensures imageState == NoImage && history == [] && historyIndex == -1
      ensures prompt == "" && error == None && !isLoading && !isCropping
      ensures !enhanceQuality && blurIntensity == Medium && activeFilter == NoFilter
      ensures Valid()
      ensures Snapshot() == EmptyRecord && !Applies(Snapshot())
    {
      imageState := NoImage;
      history := [];
      historyIndex := -1;
      prompt := "";
      error := None;
      isLoading := false;
      isCropping := false;
      enhanceQuality := false;
      blurIntensity := Medium;
      activeFilter := NoFilter;
    }

    /**
      Undo steps the cursor back by one, stopping at -1 (the original). The
      history is untouched, and an enabled undo button always moves the cursor.
     */
    method Undo()
      modifies this`historyIndex
      ensures old(historyIndex) >= 0 ==> historyIndex == old(historyIndex) - 1
      ensures old(historyIndex) < 0 ==> historyIndex == old(historyIndex)
      ensures !EditControls.UndoDisabled(old(CanUndo()), isLoading) ==> historyIndex == old(historyIndex) - 1
      ensures old(Valid()) ==> Valid()
    {
      if historyIndex >= 0 {
        historyIndex := historyIndex - 1;
      }
    }

    /**
      Redo steps the cursor forward by one, stopping at the last entry. The
      history is untouched, and an enabled redo button always moves the cursor.
     */
    method Redo()
      modifies this`historyIndex
      ensures old(historyIndex) < |history| - 1 ==> historyIndex == old(historyIndex) + 1
      ensures old(historyIndex) >= |history| - 1 ==> historyIndex == old(historyIndex)
      ensures !EditControls.RedoDisabled(old(CanRedo()), isLoading) ==> historyIndex == old(historyIndex) + 1
      ensures old(Valid()) ==> Valid()
    {
      if historyIndex < |history| - 1 {
        historyIndex := historyIndex + 1;
      }
    }

    /**
      Recording an edit result: the entries after the cursor (the redo tail)
      are dropped, the result is pushed and the cursor moves onto it. The
      entries up to the old cursor are kept.
     */
    method Append(newImage: string)
      requires Valid()
      modifies this`history, this`historyIndex
      ensures history == old(history[..historyIndex + 1]) + [newImage]
      ensures |history| == old(historyIndex) + 2 && historyIndex == |history| - 1
      ensures forall k :: 0 <= k <= old(historyIndex) ==> history[k] == old(history[k])
      ensures history[historyIndex] == newImage
      ensures Valid()
    {
      var newHistory := history[..historyIndex + 1];
      newHistory := newHistory + [newImage];
      history := newHistory;
      historyIndex := |newHistory| - 1;
    }

    /**
      What an edit call does to the session, from the state it starts in:
      - without a loaded image it only sets an error;
      - otherwise it ends not loading, and sends a request only when there is
        an image to edit whose data URL has a non-empty payload;
      - only a request answered by an edited image changes the history, by
        appending that image as a data URL of the original's media type;
      - every other path sets an error and leaves history and cursor alone.
     */
    twostate predicate EditApplied(editPrompt: string, response: EditResponse, new request: Option<EditRequest>)
      reads this
    {
      && imageState == old(imageState) && prompt == old(prompt) && isCropping == old(isCropping)
      && enhanceQuality == old(enhanceQuality) && blurIntensity == old(blurIntensity)
      && activeFilter == old(activeFilter)
      && if !HasImage(old(imageState)) then
           && error == Some(NoImageError) && request == None && isLoading == old(isLoading)
           && history == old(history) && historyIndex == old(historyIndex)
         else
           && !isLoading
           && match old(ImageToEdit())
              case None =>
                && request == None && error == Some(EditErrorPrefix + UndefinedImageMessage)
                && history == old(history) && historyIndex == old(historyIndex)
              case Some(img) =>
                var payload := DataUrl.Payload(img);
                if payload.None? || payload.value == "" then
                  && request == None && error == Some(EditErrorPrefix + InvalidDataUrlMessage)
                  && history == old(history) && historyIndex == old(historyIndex)
                else
                  && request == Some(EditRequest(payload.value, old(imageState).mimeType, editPrompt))
                  && match response
                     case Failed(message) =>
                       && error == Some(EditErrorPrefix + message)
                       && history == old(history) && historyIndex == old(historyIndex)
                     case Edited(base64) =>
                       && error == None
                       && history == old(history)[..old(historyIndex) + 1] + [DataUrl.Build(old(imageState).mimeType, base64)]
                       && historyIndex == |history| - 1
    }

    /** `processImageEdit`, with the service's answer given. */
    method ProcessImageEdit(editPrompt: string, response: EditResponse) returns (request: Option<EditRequest>)
      modifies this
      ensures EditApplied(editPrompt, response, request)
      ensures old(Valid()) ==> Valid()
    {
      request := None;
      if !HasImage(imageState) {
        error := Some(NoImageError);
        return;
      }
      isLoading := true;
      error := None;
      var imageToEdit := ImageToEdit();
      if imageToEdit.None? {
        error := Some(EditErrorPrefix + UndefinedImageMessage);
      } else {
        var base64Data := DataUrl.Payload(imageToEdit.value);
        if base64Data.None? || base64Data.value == "" {
          error := Some(EditErrorPrefix + InvalidDataUrlMessage);
        } else {
          request := Some(EditRequest(base64Data.value, imageState.mimeType, editPrompt));
          match response {
            case Failed(message) =>
              error := Some(EditErrorPrefix + message);
            case Edited(base64) =>
              var newEditedImage := DataUrl.Build(imageState.mimeType, base64);
              Append(newEditedImage);
          }
        }
      }
      isLoading := false;
    }

    /**
      "Apply Prompt Edit": an empty prompt only sets an error; otherwise the
      edit runs with the prompt, behind the enhancement sentence when
      enhance-quality is on.
     */
    method HandleEdit(response: EditResponse) returns (request: Option<EditRequest>)
      modifies this
      ensures old(prompt) == "" ==>
        && error == Some(EmptyPromptError) && request == None
        && imageState == old(imageState) && history == old(history) && historyIndex == old(historyIndex)
        && prompt == old(prompt) && isLoading == old(isLoading) && isCropping == old(isCropping)
        && enhanceQuality == old(enhanceQuality) && blurIntensity == old(blurIntensity)
        && activeFilter == old(activeFilter)
      ensures old(prompt) != "" ==> EditApplied(FinalPrompt(old(prompt), old(enhanceQuality)), response, request)
      ensures old(Valid()) ==> Valid()
    {
      if prompt == "" {
        error := Some(EmptyPromptError);
        request := None;
        return;
      }
      var finalPrompt := FinalPrompt(prompt, enhanceQuality);
      request := ProcessImageEdit(finalPrompt, response);
    }

    /** "Apply Blur": the edit runs with the blur instruction for the chosen intensity. */
    method HandleBlurBackground(response: EditResponse) returns (request: Option<EditRequest>)
      modifies this
      ensures EditApplied(BlurPrompt(old(blurIntensity)), response, request)
      ensures old(Valid()) ==> Valid()
    {
      var blurPrompt := BlurPrompt(blurIntensity);
      request := ProcessImageEdit(blurPrompt, response);
    }

    /** The enhance-quality switch, as guarded by the control panel. */
    method ToggleEnhance()
      modifies this`enhanceQuality
      ensures enhanceQuality == EditControls.EnhanceToggle(old(enhanceQuality), isLoading, HasImage(imageState))
    {
      enhanceQuality := EditControls.EnhanceToggle(enhanceQuality, isLoading, HasImage(imageState));
    }

    /** Typing in the prompt box. */
    method SetPrompt(text: string)
      modifies this`prompt
      ensures prompt == text
    {
      prompt := text;
    }

    /** A prompt-builder button: the fragment is joined onto the prompt. */
    method AddPromptElement(value: string)
      modifies this`prompt
      ensures prompt == PromptBuilder.AddElement(old(prompt), value)
    {
      prompt := PromptBuilder.AddElement(prompt, value);
    }

    /** The prompt builder's clear button. */
    method ClearPrompt()
      modifies this`prompt
      ensures prompt == ""
    {
      prompt := "";
    }

    /** An intensity button of the blur selector. */
    method SetBlurIntensity(b: BlurIntensity)
      modifies this`blurIntensity
      ensures blurIntensity == b
    {
      blurIntensity := b;
    }
  }
}
