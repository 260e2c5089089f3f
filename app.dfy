/**
 * The application component's interaction state: the five state fields,
 * the image-change handler, the recognise handler split at its awaits into
 * a beginning and a completion, the two enabling predicates the markup
 * uses, and the data-URL step of `fileToBase64`. A trace model at the end
 * composes these with the upload component's handler.
 */
module App {
  import opened Common
  import opened JsString
  import opened ImageUploader
  import opened GeminiService

  const SelectImageFirst: string := "Please select an image first."
  const NoPlateDetected: string := "Could not detect a number plate in the image."
  const RecognitionFailed: string := "An error occurred during recognition. Please try again."

  /** The five state fields at one moment. */
  datatype Snapshot = Snapshot(
    imageFile: Option<ImageFile>,
    imagePreview: Option<string>,
    result: Option<RecognitionResult>,
    isLoading: bool,
    error: Option<string>)
  {
    /** The recognise button is enabled: `!(!imageFile || isLoading)`. */
    predicate ButtonEnabled()
    {
      imageFile.Some? && !isLoading
    }

    /** The uploader shows the preview and its remove button, rather than
        the upload area that opens the file picker: `imagePreview ? ...`. */
    predicate PreviewShown()
    {
      imagePreview.Some? && imagePreview.value != ""
    }

    /** The result panel is rendered: `result && imagePreview`. */
    predicate ResultShown()
    {
      result.Some? && imagePreview.Some? && imagePreview.value != ""
    }

    /** The error banner is rendered: `error && ...`. */
    predicate ErrorShown()
    {
      error.Some? && error.value != ""
    }
  }

  /** The state on first render. */
  const Initial: Snapshot := Snapshot(None, None, None, false, None)

  /** `handleImageChange(file, preview)`. */
  function AfterImageChange(s: Snapshot, file: Option<ImageFile>, preview: Option<string>): (r: Snapshot)
    ensures !r.ErrorShown() && !r.ResultShown()
    ensures r.ButtonEnabled() <==> file.Some? && !s.isLoading
  {
    s.(imageFile := file, imagePreview := preview, result := None, error := None)
  }

  /** `handleRecognize` up to its first await: the guard, or the reset. */
  function AfterBegin(s: Snapshot): (r: Snapshot)
    ensures !r.ButtonEnabled()
    ensures s.imageFile.Some? ==> !r.ResultShown()
    ensures r.isLoading <==> s.isLoading || s.imageFile.Some?
    ensures r.ErrorShown() <==> s.imageFile.None?
  {
    if s.imageFile.None? then s.(error := Some(SelectImageFirst))
    else s.(isLoading := true, error := None, result := None)
  }

  /** `handleRecognize` after its awaits: the try, catch and finally blocks.
      `outcome` is what the awaited data-URL read and service call produced. */
  function AfterComplete(s: Snapshot, outcome: Result<RecognitionResult, string>): (r: Snapshot)
    ensures !r.isLoading
    ensures r.ButtonEnabled() <==> s.imageFile.Some?
    ensures r.ErrorShown() <==> outcome.Failure? || !Truthy(outcome.value.found) || s.ErrorShown()
    ensures outcome.Success? ==> (r.ResultShown() <==> s.imagePreview.Some? && s.imagePreview.value != "")
  {
    match outcome
    case Success(r) =>
      s.(result := Some(r),
         error := if !Truthy(r.found) then Some(NoPlateDetected) else s.error,
         isLoading := false)
    case Failure(_) =>
      s.(error := Some(RecognitionFailed), isLoading := false)
  }

  /** The component's state, held in mutable fields. */
  class Controller {
    var imageFile: Option<ImageFile>
    var imagePreview: Option<string>
    var result: Option<RecognitionResult>
    var isLoading: bool
    var error: Option<string>

    function State(): Snapshot
      reads this
    {
      Snapshot(imageFile, imagePreview, result, isLoading, error)
    }

    constructor ()
      ensures State() == Initial
    {
      imageFile := None;
      imagePreview := None;
      result := None;
      isLoading := false;
      error := None;
    }

    method HandleImageChange(file: Option<ImageFile>, preview: Option<string>)
      modifies this
      ensures State() == AfterImageChange(old(State()), file, preview)
      ensures isLoading == old(isLoading)
    {
      imageFile := file;
      imagePreview := preview;
      result := None;
      error := None;
    }

    /** Returns whether the call to the service is made. */
    method BeginRecognize() returns (started: bool)
      modifies this
      ensures started <==> old(imageFile).Some?
      ensures State() == AfterBegin(old(State()))
      ensures !State().ButtonEnabled()
    {
      if imageFile.None? {
        error := Some(SelectImageFirst);
        return false;
      }
      isLoading := true;
      error := None;
      result := None;
      started := true;
    }

    method CompleteRecognize(outcome: Result<RecognitionResult, string>)
      modifies this
      ensures State() == AfterComplete(old(State()), outcome)
      ensures !isLoading
    {
      match outcome {
        case Success(r) =>
          result := Some(r);
          if !Truthy(r.found) {
            error := Some(NoPlateDetected);
          }
        case Failure(_) =>
          error := Some(RecognitionFailed);
      }
      isLoading := false;
    }
  }

  // ---------------------------------------------------------------------
  // properties of the transitions
  // ---------------------------------------------------------------------

  /** Changing the image stages the new file and preview, clears the result
      and the error, and leaves the loading flag alone. */
  lemma ImageChangeResets(s: Snapshot, file: Option<ImageFile>, preview: Option<string>)
    ensures var t := AfterImageChange(s, file, preview);
      t.imageFile == file && t.imagePreview == preview
      && t.result.None? && t.error.None? && t.isLoading == s.isLoading
  {
  }

  /** Recognising without a staged file only shows a message. */
  lemma BeginWithoutFile(s: Snapshot)
    requires s.imageFile.None?
    ensures var t := AfterBegin(s);
      t.error == Some(SelectImageFirst)
      && t.isLoading == s.isLoading && t.result == s.result
      && t.imageFile == s.imageFile && t.imagePreview == s.imagePreview
  {
  }

  /** Recognising with a staged file starts loading and clears the old
      result and error, and the button is then disabled. */
  lemma BeginWithFile(s: Snapshot)
    requires s.imageFile.Some?
    ensures var t := AfterBegin(s);
      t.isLoading && t.error.None? && t.result.None?
      && t.imageFile == s.imageFile && t.imagePreview == s.imagePreview
      && !t.ButtonEnabled()
  {
  }

  /** Whatever the outcome, loading stops, and the staged file and preview
      are untouched. */
  lemma CompletionStopsLoading(s: Snapshot, outcome: Result<RecognitionResult, string>)
    ensures var t := AfterComplete(s, outcome);
      !t.isLoading && t.imageFile == s.imageFile && t.imagePreview == s.imagePreview
      && (t.ButtonEnabled() <==> s.imageFile.Some?)
  {
  }

  /** The three outcomes of one attempt, started from a staged file. */
  lemma AttemptOutcomes(s: Snapshot, outcome: Result<RecognitionResult, string>)
    requires s.imageFile.Some?
    ensures var t := AfterComplete(AfterBegin(s), outcome);
      && !t.isLoading
      && (outcome.Success? && Truthy(outcome.value.found) ==>
            t.result == Some(outcome.value) && t.error.None?)
      && (outcome.Success? && !Truthy(outcome.value.found) ==>
            t.result == Some(outcome.value) && t.error == Some(NoPlateDetected))
      && (outcome.Failure? ==> t.result.None? && t.error == Some(RecognitionFailed))
  {
  }

  /** The result panel needs both a result and a (non-empty) preview. */
  lemma ResultShownNeedsPreview(s: Snapshot)
    ensures s.ResultShown() ==> s.result.Some? && s.imagePreview.Some?
    ensures s.imagePreview.None? ==> !s.ResultShown()
  {
  }

  // ---------------------------------------------------------------------
  // fileToBase64: the payload of a data URL
  // ---------------------------------------------------------------------

  /** `dataUrl.split(',')[1]`: the text between the first comma and the
      next one (or the end); `None` (undefined) when there is no comma. */
  function Base64Payload(dataUrl: string): (r: Option<string>)
    ensures r.None? <==> ',' !in dataUrl
    ensures r.Some? ==> ',' !in r.value
  {
    var parts := Split(dataUrl, ',');
    SplitHasSecondPiece(dataUrl, ',');
    SplitPiecesFree(dataUrl, ',');
    if |parts| >= 2 then Some(parts[1]) else None
  }

  /** For a comma at index i with none before it, the payload is the text
      that follows it, up to the next comma or the end. */
  lemma {:induction false} PayloadFollowsFirstComma(dataUrl: string, i: nat)
    requires i < |dataUrl| && dataUrl[i] == ',' && ',' !in dataUrl[..i]
    ensures Base64Payload(dataUrl).Some?
    ensures var p := Base64Payload(dataUrl).value;
      && i + 1 + |p| <= |dataUrl|
      && p == dataUrl[i + 1..i + 1 + |p|]
      && (i + 1 + |p| == |dataUrl| || dataUrl[i + 1 + |p|] == ',')
  {
    var rest := dataUrl[i + 1..];
    assert dataUrl == dataUrl[..i] + [','] + rest;
    SplitAtFirstSeparator(dataUrl[..i], rest, ',');
    SplitFirstPiece(rest, ',');
  }

  /** A data URL `data:<mime>;base64,<payload>` yields its payload. */
  lemma {:induction false} DataUrlPayload(mime: string, payload: string)
    requires ',' !in mime && ',' !in payload
    ensures Base64Payload("data:" + mime + ";base64," + payload) == Some(payload)
  {
    var head := "data:" + mime + ";base64";
    assert "data:" + mime + ";base64," + payload == head + [','] + payload;
    assert ',' !in head by {
      assert head == "data:" + mime + ";base64";
      forall k | 0 <= k < |head| ensures head[k] != ',' {
        if 5 <= k < 5 + |mime| {
          assert head[k] == mime[k - 5];
        }
      }
    }
    SplitAtFirstSeparator(head, payload, ',');
    SplitWithoutSeparator(payload, ',');
  }

  // ---------------------------------------------------------------------
  // sessions: the component together with the upload handler
  // ---------------------------------------------------------------------

  /** What can happen to the page: a file selection, the remove button, a
      click on the recognise button, or the completion of a pending call. */
  datatype Event =
    | PickFiles(files: Option<seq<ImageFile>>, previewUrl: string)
    | RemoveImage
    | ClickRecognize
    | Settle(outcome: Result<RecognitionResult, string>)

  /** The component's state and the number of service calls not yet settled. */
  datatype Session = Session(ui: Snapshot, pending: nat)

  function ApplyUpload(s: Snapshot, e: UploadEffect): Snapshot
  {
    match e
    case Rejected => s
    case Changed(file, preview) => AfterImageChange(s, file, preview)
  }

  /** One event. The file picker opens only from the upload area and the
      remove button exists only beside a preview; a disabled button delivers
      no click; only a pending call can settle. */
  function Step(ss: Session, e: Event): Session
  {
    match e
    case PickFiles(files, url) =>
      if !ss.ui.PreviewShown() then ss.(ui := ApplyUpload(ss.ui, HandleFileChange(files, url))) else ss
    case RemoveImage =>
      if ss.ui.PreviewShown() then ss.(ui := ApplyUpload(ss.ui, HandleRemoveImage())) else ss
    case ClickRecognize =>
      if ss.ui.ButtonEnabled() then Session(AfterBegin(ss.ui), ss.pending + 1) else ss
    case Settle(outcome) =>
      if ss.pending > 0 then Session(AfterComplete(ss.ui, outcome), ss.pending - 1) else ss
  }

  function Run(ss: Session, events: seq<Event>): Session
    decreases |events|
  {
    if events == [] then ss else Run(Step(ss, events[0]), events[1..])
  }

  /** What holds in every session reachable from the first render. */
  predicate Consistent(ss: Session)
  {
    var s := ss.ui;
    && ss.pending <= 1
    && (s.isLoading <==> ss.pending == 1)
    && (s.isLoading ==> s.result.None? && s.error.None?)
    && (s.error.None? || s.error == Some(NoPlateDetected) || s.error == Some(RecognitionFailed))
    && (s.error == Some(NoPlateDetected) <==> s.result.Some? && !Truthy(s.result.value.found))
    && (s.error == Some(RecognitionFailed) ==> s.result.None?)
  }

  lemma StepKeepsConsistent(ss: Session, e: Event)
    requires Consistent(ss)
    ensures Consistent(Step(ss, e))
  {
  }

  lemma {:induction false} RunKeepsConsistent(ss: Session, events: seq<Event>)
    requires Consistent(ss)
    ensures Consistent(Run(ss, events))
    decreases |events|
  {
    if events != [] {
      StepKeepsConsistent(ss, events[0]);
      RunKeepsConsistent(Step(ss, events[0]), events[1..]);
    }
  }

  /** At most one recognition call is ever in flight, the loading flag says
      exactly whether one is, a loading page shows no result panel and no
      error banner,
      and "select an image first" is never shown through the page. */
  lemma {:induction false} AtMostOneCallInFlight(events: seq<Event>)
    ensures var ss := Run(Session(Initial, 0), events);
      && ss.pending <= 1
      && (ss.ui.isLoading <==> ss.pending == 1)
      && (ss.ui.isLoading ==> ss.ui.result.None? && ss.ui.error.None?)
      && (ss.ui.isLoading ==> !ss.ui.ErrorShown() && !ss.ui.ResultShown())
      && ss.ui.error != Some(SelectImageFirst)
  {
    RunKeepsConsistent(Session(Initial, 0), events);
  }

  /** A call that settles after the image was removed and another picked
      still writes its result: there is no check that the answer belongs to
      the current image. */
  lemma LateAnswerOverwrites(a: ImageFile, b: ImageFile, r: RecognitionResult)
    requires a.size <= MaxImageBytes && b.size <= MaxImageBytes
    ensures var ss := Run(Session(Initial, 0),
      [PickFiles(Some([a]), "blob:a"), ClickRecognize, RemoveImage, PickFiles(Some([b]), "blob:b"), Settle(Success(r))]);
      ss.ui.imageFile == Some(b) && ss.ui.result == Some(r) && ss.ui.ResultShown()
  {
    var s0 := Session(Initial, 0);
    var s1 := Step(s0, PickFiles(Some([a]), "blob:a"));
    assert s1.ui.imageFile == Some(a) && s1.ui.ButtonEnabled();
    var s2 := Step(s1, ClickRecognize);
    assert s2.pending == 1;
    var s2' := Step(s2, RemoveImage);
    assert s2'.ui.imagePreview.None? && s2'.pending == 1;
    var s3 := Step(s2', PickFiles(Some([b]), "blob:b"));
    assert s3.ui.imagePreview == Some("blob:b") && s3.pending == 1;
    var s4 := Step(s3, Settle(Success(r)));
    var events := [PickFiles(Some([a]), "blob:a"), ClickRecognize, RemoveImage, PickFiles(Some([b]), "blob:b"), Settle(Success(r))];
    assert Run(s0, events) == Run(s1, events[1..]);
    assert Run(s1, events[1..]) == Run(s2, events[2..]);
    assert Run(s2, events[2..]) == Run(s2', events[3..]);
    assert Run(s2', events[3..]) == Run(s3, events[4..]);
    assert Run(s3, events[4..]) == Run(s4, []);
  }
}
