# AI photo editor: editing session model

A Dafny model of the editing session kept by the photo editor's top-level
component, with the small pure pieces of its control panel, prompt builder and
loading overlay.

The session holds three things:

- the original image, a `data:` URL with its media type;
- a linear undo history of edit results, with a cursor (`historyIndex`, where
  -1 shows the original);
- a few display switches.

An edit sends the image on display to an external image-editing service. The
service's answer is then appended to the history, and any redo tail after the
cursor is dropped. Undo and redo move the cursor and stop at the ends. Upload,
crop and reset start the history over. The session is saved to a record and
restored from one.

Modules, one per source file, except that `DataUrl` and `App` both come from App.tsx and `Scenarios` from no single file:

- `Types` (types.ts): `Option`, `ImageState`, `BlurIntensity`, `FilterType`,
  and `HasImage`, which is JavaScript truthiness of `originalImage`.
- `DataUrl` (the data-URL template and `split(',')[1]` in App.tsx): builds the
  `data:<mime>;base64,<payload>` URL (RFC 2397, section 3). Also JavaScript's
  `split(',')` and the payload round trip.
- `PromptBuilder` (components/PromptBuilder.tsx): `trim`, the separator rule,
  `handleAddElement` and the fragment catalogue.
- `EditControls` (components/EditControls.tsx): the `disabled` predicates, the
  guarded enhance switch and the intensity options.
- `LoadingModal` (components/LoadingModal.tsx): the message cursor step and a
  tick-by-tick run of it.
- `App` (App.tsx): the class `Session`, with one field per piece of React state
  and one method per handler. Also the prompts an edit sends and the session
  record.
- `Scenarios`: client methods that check multi-step behaviour from the method
  contracts alone. They cover upload → edit → undo → edit discarding the redo
  tail, editing an edited image, and N edits, U undos and R redos.

The core invariant is `Session.Valid()`: `-1 <= historyIndex < |history|`. The
constructor and every handler establish or keep it. The one exception is
loading, which keeps it exactly when the saved record's cursor fits its saved
history. The handlers do not require `Valid()`, because the source runs them
on any state, including a restored state whose cursor is out of range. With
such a cursor, `history[historyIndex]` is `undefined` and an edit fails inside
its `try` block with a `TypeError`. The model takes that error path.

The external service is a parameter. `ProcessImageEdit` receives the answer
(`Edited(base64)` or `Failed(message)`). It returns the `EditRequest` it would
have sent, or `None` when a guard stopped it first. The two-state predicate
`Session.EditApplied` states the outcome of every path. `HandleEdit` and
`HandleBlurBackground` reuse that predicate.

Some behaviours of the code that the model keeps:

- Loading applies every saved record whose image is present. It does not
  check the saved cursor against the saved history
  (`App.LoadKeepsUncheckedCursor`).
- Reset removes the storage slot. The save effect then writes a record with
  every field absent (`Session.Reset` ensures `Snapshot() == EmptyRecord`). So
  after a reset the slot holds an empty record, not nothing.
- "Image loaded" means `originalImage` is neither `null` nor `""`. The
  download guard treats an empty edited image as absent, as JavaScript's `!`
  does.
- The file reader runs its `loadend` handler after every read, including a
  failed one, where `reader.result` is `null`. So a failed read runs the
  `error` handler and then `loadend`. The read error is cleared at once, and
  the session is reset with no image and the file's media type
  (`Session.UploadFailed`).

## Model

| member | source | states |
|---|---|---|
| `Types.IntensityWord` | types.ts:6 | each blur intensity is named by one of the literals `'low'`, `'medium'`, `'high'` |
| `Types.HasImage` | App.tsx:216 | an image counts as loaded exactly when `originalImage` is neither `null` nor `""` (`!!imageState.originalImage`) |
| `Types.IntensityWordInjective` | types.ts:6 | distinct blur intensities have distinct string names |
| `DataUrl.Split` | App.tsx:104 | `split(',')` always gives at least one piece, and no piece contains a comma |
| `DataUrl.JoinSplit` | App.tsx:104 | joining the pieces with commas gives back the string, so splitting loses nothing |
| `DataUrl.SplitNoComma` | App.tsx:104 | a string with no comma splits into itself alone |
| `DataUrl.SplitAtFirstComma` | App.tsx:104 | the text before the first comma is the first piece, and the rest splits on its own |
| `DataUrl.Base64HasNoComma` | App.tsx:104-115 | base64 text contains no comma |
| `DataUrl.Payload` | App.tsx:104-107 | `split(',')[1]` is undefined exactly when the URL has no comma; when defined it contains no comma |
| `DataUrl.Build` | App.tsx:115 | the result is `data:`, then the media type, then `;base64,`, then the payload, and nothing else |
| `DataUrl.PayloadAfterFirstComma` | App.tsx:104-106 | for any URL, the payload is the text after the first comma, up to the next comma or the end |
| `DataUrl.PayloadOfBuild` | App.tsx:104-115 | for a comma-free media type and a base64 payload, cutting the payload out of the built data URL gives back that payload |
| `PromptBuilder.TrimStart` | components/PromptBuilder.tsx:61 | the result is the longest suffix that does not start with whitespace; everything dropped is whitespace |
| `PromptBuilder.TrimEnd` | components/PromptBuilder.tsx:61 | the result is the longest prefix that does not end with whitespace; everything dropped is whitespace |
| `PromptBuilder.Trim` | components/PromptBuilder.tsx:61 | the result is the prompt with its leading and trailing whitespace cut: only whitespace comes before it and after it in the prompt, and neither of its ends is whitespace |
| `PromptBuilder.TrimEmptyIffBlank` | components/PromptBuilder.tsx:61 | `prompt.trim() === ''` holds exactly when the prompt is whitespace only (or empty) |
| `PromptBuilder.Separator` | components/PromptBuilder.tsx:61 | the separator is empty exactly for a blank prompt, and `", "` otherwise |
| `PromptBuilder.AddElement` | components/PromptBuilder.tsx:60-63 | a blank prompt becomes prompt + value (its whitespace kept); otherwise prompt + ", " + value; the old prompt is a prefix, the value a suffix, and the length is the sum of the three parts |
| `PromptBuilder.AddToEmpty` | components/PromptBuilder.tsx:61-62 | adding a fragment to the empty prompt gives exactly the fragment |
| `PromptBuilder.CatalogueShape` | components/PromptBuilder.tsx:14-51 | four categories of four fragments each, no fragment blank |
| `PromptBuilder.AddCatalogueElement` | components/PromptBuilder.tsx:14-62 | after any catalogue fragment is added the prompt is not blank, so the next fragment is joined with ", " |
| `EditControls.OptionPosition` | components/EditControls.tsx:26-30 | each blur intensity is offered at exactly one position of the selector |
| `EditControls.IntensityOrder` | components/EditControls.tsx:26-30 | the selector holds exactly low, medium and high, in that order |
| `EditControls.EnhanceToggle` | components/EditControls.tsx:50-54 | the enhance flag flips exactly when nothing is loading and an image is loaded; otherwise it is kept |
| `EditControls.SwitchDisabled` | components/EditControls.tsx:75 | the enhance switch is enabled exactly when an image is loaded and nothing is loading |
| `EditControls.EnabledSwitchFlips` | components/EditControls.tsx:50-75 | a click on the enabled switch always flips it, and a click on the disabled switch changes nothing |
| `EditControls.EditDisabled` | components/EditControls.tsx:90 | "Apply Prompt Edit" is enabled exactly when the prompt is non-empty, nothing is loading and an image is loaded |
| `EditControls.BlurDisabled` | components/EditControls.tsx:110-124 | the intensity buttons and "Apply Blur" are enabled exactly when an image is loaded and nothing is loading, the same guard as the switch |
| `EditControls.UndoDisabled` | components/EditControls.tsx:138 | "Undo" is enabled exactly when undo is possible and nothing is loading |
| `EditControls.RedoDisabled` | components/EditControls.tsx:146 | "Redo" is enabled exactly when redo is possible and nothing is loading |
| `EditControls.DownloadDisabled` | components/EditControls.tsx:152 | "Download" is enabled exactly when the edited image is neither `null` nor `""` and nothing is loading |
| `EditControls.ResetDisabled` | components/EditControls.tsx:153-158 | "Clear & Start Over" is never disabled |
| `EditControls.LoadingDisablesRequests` | components/EditControls.tsx:75-158 | while loading, edit, blur, undo, redo, download and the switch are disabled; without an image, edit, blur and the switch are disabled; reset is never disabled |
| `LoadingModal.Step` | components/LoadingModal.tsx:17 | one tick gives the next message index, wrapping from the last to 0, and always stays inside the six messages |
| `LoadingModal.IterateIsShift` | components/LoadingModal.tsx:17 | n ticks from a valid index i give (i + n) mod 6 |
| `LoadingModal.FullCycle` | components/LoadingModal.tsx:17 | six ticks return the index to where it started |
| `LoadingModal.CurrentMessage` | components/LoadingModal.tsx:35 | the message shown for a valid index is one of the list's messages |
| `LoadingModal.RunTimer` | components/LoadingModal.tsx:13-20 | starting at 0, after `ticks` ticks the index is `ticks mod 6`, so `loadingMessages[messageIndex]` is always defined |
| `App.FinalPrompt` | App.tsx:135-137 | the prompt sent is the user prompt behind the fixed enhancement sentence exactly when enhance-quality is on; the user prompt is always its tail |
| `App.BlurPrompt` | App.tsx:142 | the blur instruction is the fixed head, then the chosen intensity word, then the fixed tail |
| `App.BlurPromptInjective` | App.tsx:142 | different intensities send different blur instructions |
| `App.SessionData` | App.tsx:53-59 | with an image loaded every field is saved; without one every field is absent |
| `App.Applies` | App.tsx:36 | a record is applied on load exactly when its image state is present and its `originalImage` is neither `null` nor `""`; the empty record never is |
| `App.SaveThenRestore` | App.tsx:36-59 | a saved record is applied on load exactly when an image was loaded; it then restores the same image state, history, cursor, enhance flag and filter; a valid cursor is restored valid |
| `App.LoadKeepsUncheckedCursor` | App.tsx:36-41 | a record that loading applies can carry a cursor outside its history |
| `App.Session.constructor` | App.tsx:16-28 | the initial state: no image, empty history, cursor -1, medium blur, no filter; the invariant holds |
| `App.Session.EditedImage` | App.tsx:66 | the edited view is `history[historyIndex]` when the cursor points into the history, and null otherwise |
| `App.Session.ImageToEdit` | App.tsx:99-101 | the image sent for editing is the original at cursor -1, and otherwise the edited view; it is defined only when the invariant holds |
| `App.Session.CanUndo` | App.tsx:218 | with a valid cursor, undo is possible exactly when an edited image is on display; when it is not, the image to edit is the original |
| `App.Session.CanRedo` | App.tsx:219 | with a valid cursor, redo is possible exactly when entries follow the cursor in the history |
| `App.Session.Snapshot` | App.tsx:53-59 | with an image, the record written is applied on load and is consistent exactly when the session is valid; without one it is empty |
| `App.Session.Load` | App.tsx:31-48 | a missing record, or one without an image, changes nothing; otherwise image state, history, cursor, enhance and filter are taken with defaults [], -1, false and none; the rest is kept; the invariant holds exactly when the record's cursor fits its history |
| `App.Session.LoadEnd` | App.tsx:70-83 | the reader's result (a data URL, or `null`) and the file type become the image state; history [], cursor -1, error, prompt, cropping, enhance, blur and filter reset; loading kept |
| `App.Session.ReadError` | App.tsx:84-86 | the error handler only sets the read error |
| `App.Session.Upload` | App.tsx:68-83 | a successful read: the read data URL and file type become the original; history [], cursor -1, error, prompt, cropping, enhance, blur and filter reset; loading kept |
| `App.Session.UploadFailed` | App.tsx:68-88 | a failed read runs the error handler, then `loadend` with a `null` result: no image is loaded, the file type is kept, the read error is cleared, the session is reset as on upload, and the record saved is empty |
| `App.Session.Crop` | App.tsx:172-181 | the cropped image becomes the original with media type image/png; history [], cursor -1, not cropping, filter none; everything else kept |
| `App.Session.Reset` | App.tsx:146-158 | everything returns to the initial state, and the record saved afterwards is empty, so nothing is restored from it |
| `App.Session.Undo` | App.tsx:160-164 | the cursor drops by one exactly when it is at least 0; the history is untouched; an enabled undo button always moves the cursor; the invariant is kept |
| `App.Session.Redo` | App.tsx:166-170 | the cursor rises by one exactly when it is below the last entry; the history is untouched; an enabled redo button always moves the cursor; the invariant is kept |
| `App.Session.Append` | App.tsx:115-120 | history becomes old history up to the cursor plus the new image; the new length is the old cursor + 2; entries up to the old cursor are unchanged; the cursor is on the new last entry |
| `App.Session.ProcessImageEdit` | App.tsx:90-128 | no image: only an error is set. Otherwise loading ends false. An undefined image to edit, or a URL with an empty or missing payload, sets an error and sends nothing. A failed call sets the error with the service's message. In all these cases history and cursor are unchanged. Only an answered request appends `data:<mime>;base64,<result>` and clears the error. The invariant is kept. |
| `App.Session.HandleEdit` | App.tsx:130-139 | an empty prompt only sets an error; otherwise the edit runs with the final prompt |
| `App.Session.HandleBlurBackground` | App.tsx:141-144 | the edit runs with the blur instruction for the chosen intensity |
| `App.Session.ToggleEnhance` | components/EditControls.tsx:50-54 | the session's enhance flag follows the guarded toggle |
| `App.Session.SetPrompt` | App.tsx:210 | typing replaces the prompt |
| `App.Session.AddPromptElement` | components/PromptBuilder.tsx:60-63 | a catalogue button joins its fragment onto the session's prompt |
| `App.Session.ClearPrompt` | components/PromptBuilder.tsx:65-67 | clearing always leaves the empty prompt |
| `App.Session.SetBlurIntensity` | App.tsx:223 | an intensity button sets the blur intensity |
| `Scenarios.UploadAndEdit` | App.tsx:68-139 | after an upload and one answered edit, the history is the single result and the cursor is 0 |
| `Scenarios.BranchDiscard` | App.tsx:116-170 | upload A, edit to B, undo, edit to C: the history is [C] with cursor 0, so B is gone |
| `Scenarios.EditTwice` | App.tsx:104-115 | editing an edited image sends the payload the service returned for it |
| `Scenarios.AppendsUndosRedos` | App.tsx:116-170 | after N appends, U undos and R redos (R ≤ U ≤ N), the cursor is N − U + R − 1 and the image to edit is that entry, or the original at −1 |

## Left out

- `services/geminiService` (`editImageWithPrompt`) is not part of this model. Its answer is the `EditResponse` parameter, and the call is the returned `EditRequest`.
- Browser I/O is not modelled: `FileReader`, `localStorage` and `JSON.parse`/`JSON.stringify`. A read is given by its outcome: `Upload` takes the data URL a successful read produced, and `UploadFailed` stands for a failed read. Load receives the parsed record (`None` for a missing or unparseable slot). The removal of a corrupt slot (App.tsx:44-47) and the `removeItem` in reset are storage side effects and are left out.
- A saved record's fields are typed. A stored field of the wrong JSON type (say, a string `savedHistoryIndex`) cannot be expressed, nor can a non-integer number such as a `savedHistoryIndex` of 0.5, since the cursor is an `int`.
- Asynchrony and React effect ordering are left out. An edit is one atomic step on the state at call time, so `isLoading == true` during the request is not visible. Overlapping requests are not modelled, nor the save effect's run on the first render before the loaded state arrives.
- `console.error` logging is left out.
- `UndefinedImageMessage` is V8's wording of the `TypeError` for `undefined.split`. Other engines word it differently.
- `PromptBuilder.IsWhitespace` recognises tab, line feed, vertical tab, form feed, carriage return, space, U+00A0, U+FEFF, U+2028 and U+2029. It does not recognise the other Unicode space separators that `trim` strips: U+1680, U+2000–U+200A, U+202F, U+205F and U+3000.
- The `setInterval` timer of the loading overlay is left out. A tick is one call of `LoadingModal.Step`.
- The plain setters `setIsCropping` (App.tsx:190, 203) and `setActiveFilter` (the filter controls) are left out. They assign one field and nothing else.
- Presentation and DOM plumbing are left out. This covers cropping geometry (components/Cropper.tsx), the uploader, the download link and its timestamped name, the image viewer, the filter controls, the header, the error alert and the spinner.
