/**
  Clients of the editing session that check, from the method contracts
  alone, the behaviour the editor is meant to show across several steps.
 */
module Scenarios {
  import opened Types
  import DataUrl
  import opened App

  /** Upload A and edit it ("add a hat") into B: B is recorded and on display. */
  method UploadAndEdit(mime: string, a: string, b: string) returns (s: Session)
    requires DataUrl.Comma !in mime
    requires DataUrl.IsBase64(a) && a != ""
    ensures fresh(s)
    ensures s.history == [DataUrl.Build(mime, b)] && s.historyIndex == 0
    ensures s.imageState == ImageState(Some(DataUrl.Build(mime, a)), mime)
    ensures !s.enhanceQuality && s.error == None && !s.isLoading
  {
    s := new Session();
    var original := DataUrl.Build(mime, a);
    s.Upload(original, mime);
    DataUrl.PayloadOfBuild(mime, a);
    assert original[0] == 'd';
    assert HasImage(s.imageState) && s.ImageToEdit() == Some(original);

    s.SetPrompt("add a hat");
    assert s.prompt != "" && !s.enhanceQuality;
    assert FinalPrompt(s.prompt, s.enhanceQuality) == "add a hat";
    var request := s.HandleEdit(Edited(b));
    assert request == Some(EditRequest(a, mime, "add a hat"));
  }

  /**
    Upload A, edit into B, undo back to A, edit ("add sunglasses") into C:
    the history is then just C, since B was the redo tail the second edit
    discarded. The second request again carries A's payload.
   */
  method BranchDiscard(mime: string, a: string, b: string, c: string) returns (s: Session)
    requires DataUrl.Comma !in mime
    requires DataUrl.IsBase64(a) && a != ""
    ensures s.history == [DataUrl.Build(mime, c)] && s.historyIndex == 0
    ensures s.imageState == ImageState(Some(DataUrl.Build(mime, a)), mime)
    ensures s.error == None && !s.isLoading
  {
    s := UploadAndEdit(mime, a, b);
    var original := DataUrl.Build(mime, a);
    s.Undo();
    assert s.ImageToEdit() == Some(original) && s.EditedImage() == None;
    DataUrl.PayloadOfBuild(mime, a);
    assert original[0] == 'd';

    s.SetPrompt("add sunglasses");
    assert s.prompt != "" && !s.enhanceQuality;
    assert FinalPrompt(s.prompt, s.enhanceQuality) == "add sunglasses";
    var request := s.HandleEdit(Edited(c));
    assert request == Some(EditRequest(a, mime, "add sunglasses"));
  }

  /**
    Editing an edited image sends the payload the service returned for it:
    the result is stored as a data URL and cut back out unchanged.
   */
  method EditTwice(mime: string, a: string, b: string, p: string, q: string, response: EditResponse)
    returns (second: Option<EditRequest>)
    requires DataUrl.Comma !in mime
    requires DataUrl.IsBase64(a) && a != ""
    requires DataUrl.IsBase64(b) && b != ""
    ensures second == Some(EditRequest(b, mime, q))
  {
    var s := new Session();
    s.Upload(DataUrl.Build(mime, a), mime);
    DataUrl.PayloadOfBuild(mime, a);
    DataUrl.PayloadOfBuild(mime, b);
    var first := s.ProcessImageEdit(p, Edited(b));
    assert s.ImageToEdit() == Some(DataUrl.Build(mime, b));
    second := s.ProcessImageEdit(q, response);
  }

  /**
    After `|results|` recorded edits, `undos` undos and `redos` redos (no
    more redos than undos), the image on display is the entry at
    `|results| - undos + redos - 1`, or the original when that is -1.
   */
  method AppendsUndosRedos(s: Session, results: seq<string>, undos: nat, redos: nat)
    requires s.history == [] && s.historyIndex == -1
    requires undos <= |results| && redos <= undos
    modifies s
    ensures s.history == results
    ensures s.historyIndex == |results| - undos + redos - 1
    ensures s.historyIndex == -1 ==> s.ImageToEdit() == s.imageState.originalImage
    ensures s.historyIndex >= 0 ==> s.ImageToEdit() == Some(results[|results| - undos + redos - 1])
    ensures s.imageState == old(s.imageState)
  {
    var k := 0;
    while k < |results|
      invariant k <= |results|
      invariant s.history == results[..k] && s.historyIndex == k - 1
      invariant s.imageState == old(s.imageState)
    {
      s.Append(results[k]);
      assert results[..k + 1] == results[..k] + [results[k]];
      k := k + 1;
    }
    assert results[..|results|] == results;
    var u := 0;
    while u < undos
      invariant u <= undos
      invariant s.history == results && s.historyIndex == |results| - u - 1
      invariant s.imageState == old(s.imageState)
    {
      s.Undo();
      u := u + 1;
    }
    var r := 0;
    while r < redos
      invariant r <= redos
      invariant s.history == results && s.historyIndex == |results| - undos + r - 1
      invariant s.imageState == old(s.imageState)
    {
      s.Redo();
      r := r + 1;
    }
  }
}
