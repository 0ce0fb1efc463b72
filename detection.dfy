/** The `ParkinsonsDetectionApp` page component (app/page.js): the
    NIfTI-only variant of the upload workflow, whose service answers with a
    numeric prediction and a confidence. */
module DetectionPage {
  import opened Browser
  import Text
  import HomePage

  const NiftiMime := "application/x-nifti"
  const InvalidFileMessage := "Please upload a valid NIfTI file (.nii or .nii.gz)"
  const FailureMessage := "Failed to process the image. Please try again."
  const Detected := "Parkinson's Detected"
  const NotDetected := "No Parkinson's Detected"

  // ---------------------------------------------------------------------
  // File validation

  /** The check `handleFileChange` applies to a chosen file. */
  predicate IsNiftiFile(f: SelectedFile)
  {
    f.mimeType == NiftiMime || Text.EndsWith(f.name, ".nii.gz")
  }

  /** A file is accepted exactly when its declared type is the NIfTI type
      or its name ends in `.nii.gz`. */
  lemma IsNiftiFileIff(f: SelectedFile)
    ensures IsNiftiFile(f) <==> f.mimeType == NiftiMime || Text.IsSuffix(".nii.gz", f.name)
  {
    Text.EndsWithIsSuffix(f.name, ".nii.gz");
  }

  /** A name ending in plain `.nii` never ends in `.nii.gz`: such a file is
      accepted only on its declared type, although the message and the
      input's `accept` list name `.nii`. */
  lemma PlainNiiNeedsNiftiType(f: SelectedFile)
    requires Text.EndsWith(f.name, ".nii")
    ensures IsNiftiFile(f) <==> f.mimeType == NiftiMime
  {
    Text.EndsWithIsSuffix(f.name, ".nii");
    Text.EndsWithIsSuffix(f.name, ".nii.gz");
  }

  /** The two variants on "scan.nii" with no declared type: this one
      rejects it, the `Home` page accepts it. */
  lemma PlainNiiRejected()
    ensures !IsNiftiFile(SelectedFile("scan.nii", ""))
    ensures HomePage.IsScanFile(SelectedFile("scan.nii", ""))
  {
    Text.EndsWithIsSuffix("scan.nii", ".nii");
    PlainNiiNeedsNiftiType(SelectedFile("scan.nii", ""));
  }

  /** Every file this variant accepts is accepted by the `Home` page too. */
  lemma NarrowerThanHome(f: SelectedFile)
    ensures IsNiftiFile(f) ==> HomePage.IsScanFile(f)
  {
  }

  // ---------------------------------------------------------------------
  // The service response and how it is displayed

  /** The decoded body of a successful response (`data`). */
  datatype DetectionResult = DetectionResult(prediction: JsValue, confidence: JsValue)

  /** The prediction field: `result.prediction === 1`. Strict equality, so
      the string "1" or `true` does not count as a detection. */
  function PredictionText(data: DetectionResult): (text: string)
    ensures text == Detected <==> data.prediction == Number(1.0)
    ensures text == NotDetected <==> data.prediction != Number(1.0)
  {
    if data.prediction == Number(1.0) then Detected else NotDetected
  }

  // ---------------------------------------------------------------------
  // The component state

  /** Where the pending `handleUpload` call is suspended. */
  datatype Phase =
    | Idle                // no upload in flight
    | AwaitingResponse    // suspended at `await fetch(...)`
    | AwaitingJson        // suspended at `await response.json()`

  /** The state of the component. `file` ... `uploadProgress` are the React
      state fields; `previewURL` holds the file whose object URL it is, and
      `objectUrls` every file an object URL was created for (none is ever
      revoked). `phase` stands for the pending continuation. The
      `onUploadProgress` callback is not an option `fetch` knows, so it is
      never called: the progress stays 0. */
  class ParkinsonsDetectionApp {
    var file: Option<SelectedFile>
    var previewURL: Option<SelectedFile>
    var objectUrls: seq<SelectedFile>
    var loading: bool
    var result: Option<DetectionResult>
    var error: Option<string>
    var uploadProgress: int
    var phase: Phase

    ghost predicate Valid()
      reads this
    {
      && Consistent()
      && (!phase.Idle? ==> result.None?)
      && (!phase.Idle? && error.Some? ==> error == Some(InvalidFileMessage) && file.None?)
    }

    /** Everything `Valid` says except what it says of an upload in flight
        (the try block may just have set a result or an error). */
    ghost predicate Consistent()
      reads this
    {
      && (loading <==> !phase.Idle?)
      && (result.Some? && error.Some? ==> error == Some(InvalidFileMessage) && file.None?)
      && uploadProgress == 0
      && (file.Some? ==> IsNiftiFile(file.value) && previewURL == file)
      && (previewURL.Some? ==> objectUrls != [] && previewURL.value == objectUrls[|objectUrls| - 1])
    }

    constructor ()
      ensures Valid()
      ensures file.None? && previewURL.None? && objectUrls == []
      ensures !loading && result.None? && error.None? && uploadProgress == 0 && phase.Idle?
    {
      file, previewURL, objectUrls := None, None, [];
      loading, result, error, uploadProgress := false, None, None, 0;
      phase := Idle;
    }

    // ----- what is rendered

    /** The progress bar is rendered while loading. */
    predicate ShowsProgress()
      reads this
    {
      loading
    }

    /** The error alert is rendered when `error` is truthy. */
    predicate ShowsError()
      reads this
    {
      error.Some? && error.value != ""
    }

    /** The result panel (`result && !error`). */
    predicate ShowsResult()
      reads this
    {
      result.Some? && !(error.Some? && error.value != "")
    }

    /** The Analyze button is enabled (`disabled={loading || !file}`). */
    predicate AnalyzeEnabled()
      reads this
    {
      !(loading || file.None?)
    }

    /** The result panel and the error alert are never rendered together,
        and the button is enabled only with a file held and nothing loading. */
    lemma PanelsExclusive()
      ensures !(ShowsResult() && ShowsError())
      ensures AnalyzeEnabled() <==> file.Some? && !loading
    {
    }

    /** A result and an error are held together only after a file was
        rejected during an upload: the error is then the rejection message
        and no file is held. While an upload is in flight the only possible
        error is that message. */
    lemma BothSetOnlyAfterRejection()
      requires Valid()
      ensures result.Some? && error.Some? ==> error == Some(InvalidFileMessage) && file.None?
      ensures !phase.Idle? && error.Some? ==> error == Some(InvalidFileMessage) && file.None?
    {
    }

    // ----- file input

    /** `handleFileChange` with `e.target.files[0]` (None when the dialog
        was cancelled). */
    method HandleFileChange(selected: Option<SelectedFile>)
      requires Valid()
      modifies this
      ensures Valid()
      ensures result.None?
      ensures selected.None? ==>
        file.None? && error.None? && previewURL == old(previewURL) && objectUrls == old(objectUrls)
      ensures selected.Some? && IsNiftiFile(selected.value) ==>
        file == selected && error.None? && previewURL == selected &&
        objectUrls == old(objectUrls) + [selected.value]
      ensures selected.Some? && !IsNiftiFile(selected.value) ==>
        file.None? && error == Some(InvalidFileMessage) &&
        previewURL == old(previewURL) && objectUrls == old(objectUrls)
      ensures loading == old(loading) && uploadProgress == old(uploadProgress) && phase == old(phase)
    {
      file := selected;
      error := None;
      result := None;
      if selected.Some? {
        if IsNiftiFile(selected.value) {
          objectUrls := objectUrls + [selected.value];
          previewURL := selected;
        } else {
          error := Some(InvalidFileMessage);
          file := None;
        }
      }
    }

    // ----- handleUpload

    /** The synchronous start of `handleUpload`, up to `await fetch`. Its
        only caller is the Analyze button, which is disabled while loading. */
    method HandleUpload()
      requires Valid() && !loading
      modifies this
      ensures Valid()
      ensures old(file).None? ==> unchanged(this)
      ensures old(file).Some? ==>
        loading && result.None? && error.None? && uploadProgress == 0 && phase == AwaitingResponse
      ensures file == old(file) && previewURL == old(previewURL) && objectUrls == old(objectUrls)
    {
      if file.None? {
        return;
      }
      loading := true;
      result := None;
      error := None;
      uploadProgress := 0;
      phase := AwaitingResponse;
    }

    /** `fetch` returned a response. A non-ok status throws at once and
        ends in the catch and finally blocks; an ok one suspends on the
        body. */
    method FetchResolved(ok: bool)
      requires Valid() && phase == AwaitingResponse
      modifies this
      ensures Valid()
      ensures ok ==> phase == AwaitingJson && loading && error == old(error)
      ensures !ok ==> phase.Idle? && !loading && error == Some(FailureMessage)
      ensures !ok ==> ShowsError() && !ShowsResult()
      ensures result.None? && uploadProgress == 0
      ensures file == old(file) && previewURL == old(previewURL) && objectUrls == old(objectUrls)
    {
      if !ok {
        error := Some(FailureMessage);
        Finally();
      } else {
        phase := AwaitingJson;
      }
    }

    /** `fetch` rejected (no response): the catch block sets the failure
        message. */
    method FetchRejected()
      requires Valid() && phase == AwaitingResponse
      modifies this
      ensures Valid()
      ensures error == Some(FailureMessage) && result.None? && ShowsError() && !ShowsResult()
      ensures !loading && phase.Idle? && uploadProgress == 0
      ensures file == old(file) && previewURL == old(previewURL) && objectUrls == old(objectUrls)
    {
      error := Some(FailureMessage);
      Finally();
    }

    /** `response.json()` resolved with `data` (None for a JSON `null`):
        it becomes the result; `error` is left as it is. */
    method JsonResolved(data: Option<DetectionResult>)
      requires Valid() && phase == AwaitingJson
      modifies this
      ensures Valid()
      ensures result == data && error == old(error)
      ensures old(error).None? && data.Some? ==> ShowsResult() && !ShowsError()
      ensures !loading && phase.Idle? && uploadProgress == 0
      ensures file == old(file) && previewURL == old(previewURL) && objectUrls == old(objectUrls)
    {
      result := data;
      Finally();
    }

    /** `response.json()` rejected (the body is not JSON). */
    method JsonRejected()
      requires Valid() && phase == AwaitingJson
      modifies this
      ensures Valid()
      ensures error == Some(FailureMessage) && result.None?
      ensures !loading && phase.Idle? && uploadProgress == 0
      ensures file == old(file) && previewURL == old(previewURL) && objectUrls == old(objectUrls)
    {
      error := Some(FailureMessage);
      Finally();
    }

    /** The finally block: loading ends and the progress is reset at once. */
    method Finally()
      requires Consistent() && !phase.Idle?
      modifies this
      ensures Valid()
      ensures !loading && phase.Idle? && uploadProgress == 0
      ensures file == old(file) && previewURL == old(previewURL) && objectUrls == old(objectUrls)
      ensures result == old(result) && error == old(error)
    {
      loading := false;
      uploadProgress := 0;
      phase := Idle;
    }
  }

  // ---------------------------------------------------------------------
  // Runs of the component

  /** A run that chooses "scan.nii.gz" and gets prediction 1 back: the
      panel shows a detection. */
  method DetectionRun() returns (text: string, shown: bool, progress: int)
    ensures text == Detected && shown && progress == 0
  {
    var app := new ParkinsonsDetectionApp();
    app.HandleFileChange(Some(SelectedFile("scan.nii.gz", "")));
    Text.EndsWithIsSuffix("scan.nii.gz", ".nii.gz");
    app.HandleUpload();
    app.FetchResolved(true);
    app.JsonResolved(Some(DetectionResult(Number(1.0), Number(0.93))));
    text := PredictionText(app.result.value);
    shown := app.ShowsResult();
    progress := app.uploadProgress;
  }

  /** A run that chooses "scan.nii" with no declared type: the file is
      rejected and the Analyze button stays disabled. */
  method PlainNiiRun() returns (held: bool, message: Option<string>, enabled: bool)
    ensures !held && message == Some(InvalidFileMessage) && !enabled
  {
    var app := new ParkinsonsDetectionApp();
    PlainNiiRejected();
    app.HandleFileChange(Some(SelectedFile("scan.nii", "")));
    held, message, enabled := app.file.Some?, app.error, app.AnalyzeEnabled();
  }
}
