/** The `Home` page component (src/pages/home.jsx): validates a NIfTI or
    DICOM scan chosen by the user, posts it to the analysis service with a
    simulated progress bar, and renders the diagnosis it gets back. */
module HomePage {
  import opened Browser
  import Text

  const NiftiMime := "application/x-nifti"
  const DicomMime := "application/dicom"
  const InvalidFileMessage := "Please upload a valid NIfTI (.nii, .nii.gz) or DICOM (.dcm) file"
  const FailureMessage := "Failed to process the image. Please try again."
  const NotAvailable := "N/A"

  // ---------------------------------------------------------------------
  // File validation

  /** The check `handleFileChange` applies to a chosen file. */
  predicate IsScanFile(f: SelectedFile)
  {
    || f.mimeType == NiftiMime
    || Text.EndsWith(f.name, ".nii.gz")
    || Text.EndsWith(f.name, ".nii")
    || f.mimeType == DicomMime
    || Text.EndsWith(f.name, ".dcm")
  }

  /** A file is accepted exactly when its declared type is the NIfTI or the
      DICOM type, or its name ends in `.nii.gz`, `.nii` or `.dcm`. */
  lemma IsScanFileIff(f: SelectedFile)
    ensures IsScanFile(f) <==>
      || f.mimeType in {NiftiMime, DicomMime}
      || Text.IsSuffix(".nii.gz", f.name)
      || Text.IsSuffix(".nii", f.name)
      || Text.IsSuffix(".dcm", f.name)
  {
    Text.EndsWithIsSuffix(f.name, ".nii.gz");
    Text.EndsWithIsSuffix(f.name, ".nii");
    Text.EndsWithIsSuffix(f.name, ".dcm");
  }

  // ---------------------------------------------------------------------
  // The service response and how it is displayed

  /** `data.prediction`: `probabilities` holds the entries of the
      probabilities object in the order `Object.entries` yields them. */
  datatype Prediction = Prediction(className: string, confidence: JsValue,
                                   probabilities: Option<seq<(string, real)>>)

  /** The decoded body of a successful response (`data`). */
  datatype AnalysisResult = AnalysisResult(prediction: Option<Prediction>, processingTimeMs: JsValue)

  /** The display name of a raw class label, used both for the diagnosis
      and for the keys of the probability table. */
  function ClassLabel(className: string): (display: string)
    ensures className == "PD" ==> display == "Parkinson's Disease"
    ensures className == "SWEDD" ==> display == "SWEDD"
    ensures className == "Control" ==> display == "No Parkinson's (Control)"
    ensures className !in {"PD", "SWEDD", "Control"} ==> display == className
    ensures display == className <==> className != "PD" && className != "Control"
  {
    if className == "PD" then "Parkinson's Disease"
    else if className == "SWEDD" then "SWEDD"
    else if className == "Control" then "No Parkinson's (Control)"
    else className
  }

  /** `getClassNameDisplay()`: the text of the diagnosis field. */
  function DiagnosisText(result: Option<AnalysisResult>): (text: string)
    ensures result.None? ==> text == NotAvailable
    ensures result.Some? && result.value.prediction.None? ==> text == NotAvailable
    ensures result.Some? && result.value.prediction.Some? ==>
      text == ClassLabel(result.value.prediction.value.className)
  {
    match result
    case None => NotAvailable
    case Some(data) =>
      match data.prediction
      case None => NotAvailable
      case Some(p) => ClassLabel(p.className)
  }

  /** The confidence field: "N/A", or the value shown as a percentage (the
      formatting itself, `(parseFloat(value) * 100).toFixed(2)`, is not
      modelled and `Percent` keeps the value it formats). */
  datatype ConfidenceText = ConfidenceUnavailable | Percent(value: JsValue)

  /** `formatConfidence(value)`: "N/A" for every falsy value except the
      number 0, which is formatted like any other number. */
  function FormatConfidence(value: JsValue): (text: ConfidenceText)
    ensures text.ConfidenceUnavailable? <==> value in {Undefined, Null, Bool(false), NaN, Str("")}
    ensures text.Percent? ==> text.value == value
  {
    if !Truthy(value) && value != Number(0.0) then ConfidenceUnavailable else Percent(value)
  }

  /** The confidence field of the result panel: "N/A" when there is no
      prediction, otherwise the formatted confidence. */
  function ConfidenceDisplay(data: AnalysisResult): (text: ConfidenceText)
    ensures data.prediction.None? ==> text.ConfidenceUnavailable?
    ensures data.prediction.Some? ==> text == FormatConfidence(data.prediction.value.confidence)
    ensures text.ConfidenceUnavailable? <==>
      data.prediction.None? ||
      data.prediction.value.confidence in {Undefined, Null, Bool(false), NaN, Str("")}
    ensures text.Percent? ==> data.prediction.Some? && text.value == data.prediction.value.confidence
  {
    match data.prediction
    case None => ConfidenceUnavailable
    case Some(p) => FormatConfidence(p.confidence)
  }

  /** The rows of the probability table: each key replaced by its display
      name, each value kept, in order. */
  function ProbabilityRows(entries: seq<(string, real)>): (rows: seq<(string, real)>)
    ensures |rows| == |entries|
    ensures forall i :: 0 <= i < |entries| ==> rows[i] == (ClassLabel(entries[i].0), entries[i].1)
  {
    if entries == [] then []
    else [(ClassLabel(entries[0].0), entries[0].1)] + ProbabilityRows(entries[1..])
  }

  /** The probability table is rendered exactly when the response has a
      prediction with a probabilities object; it then has one row per entry. */
  function ProbabilityTable(data: AnalysisResult): (table: Option<seq<(string, real)>>)
    ensures table.Some? <==> data.prediction.Some? && data.prediction.value.probabilities.Some?
    ensures table.Some? ==> table.value == ProbabilityRows(data.prediction.value.probabilities.value)
    ensures table.Some? ==>
      var entries := data.prediction.value.probabilities.value;
      |table.value| == |entries| &&
      forall i :: 0 <= i < |entries| ==> table.value[i] == (ClassLabel(entries[i].0), entries[i].1)
  {
    match data.prediction
    case None => None
    case Some(p) =>
      match p.probabilities
      case None => None
      case Some(entries) => Some(ProbabilityRows(entries))
  }

  /** What `{result.processing_time_ms && (...)}` renders. A falsy value
      short-circuits the `&&`: React renders nothing for undefined, null,
      false and "", but the text of 0 and NaN. A truthy value reaches
      `processing_time_ms.toFixed(0)`, which only numbers have: for any
      other value the render throws. */
  datatype ProcessingTimeView =
    | NothingRendered
    | FalsyText(text: string)
    | TimeLine(ms: real)
    | RenderThrows

  function ProcessingTimeDisplay(data: AnalysisResult): (view: ProcessingTimeView)
    ensures view == NothingRendered <==> data.processingTimeMs in {Undefined, Null, Bool(false), Str("")}
    ensures view == FalsyText("0") <==> data.processingTimeMs == Number(0.0)
    ensures view == FalsyText("NaN") <==> data.processingTimeMs == NaN
    ensures view == RenderThrows <==>
      data.processingTimeMs == Bool(true) || data.processingTimeMs == Object ||
      (data.processingTimeMs.Str? && data.processingTimeMs.s != "")
  {
    var t := data.processingTimeMs;
    if !Truthy(t) then
      (match t
       case Number(_) => FalsyText("0")
       case NaN => FalsyText("NaN")
       case _ => NothingRendered)
    else if t.Number? then TimeLine(t.n)
    else RenderThrows
  }

  /** The processing-time line appears exactly for a non-zero number, and
      it shows that number. */
  lemma ProcessingTimeShown(data: AnalysisResult)
    ensures ProcessingTimeDisplay(data).TimeLine? <==>
      data.processingTimeMs.Number? && data.processingTimeMs.n != 0.0
    ensures ProcessingTimeDisplay(data).TimeLine? ==>
      ProcessingTimeDisplay(data).ms == data.processingTimeMs.n
  {
  }

  // ---------------------------------------------------------------------
  // Simulated progress

  /** The functional update the progress interval applies on each tick
      (`prev >= 90 ? 90 : prev + 10`); the tick that finds 90 or more also
      stops the interval. A tick never reports completion. */
  function NextProgress(prev: int): (next: int)
    ensures next < 100
    ensures prev < 90 ==> next == prev + 10
    ensures prev % 10 == 0 ==> next % 10 == 0
    ensures 0 <= prev <= 90 && prev % 10 == 0 ==> prev <= next <= 90
    ensures prev >= 90 ==> next == 90
  {
    if prev >= 90 then 90 else prev + 10
  }

  /** The progress after `n` ticks starting from `start`. */
  function Ticks(start: int, n: nat): int
    decreases n
  {
    if n == 0 then start else Ticks(NextProgress(start), n - 1)
  }

  function Min(a: int, b: int): int
  {
    if a <= b then a else b
  }

  /** From a step of 10 at or below 90, the progress climbs by 10 per tick
      and then holds at 90. */
  lemma {:induction false} TicksClimbToNinety(start: int, n: nat)
    requires 0 <= start <= 90 && start % 10 == 0
    ensures Ticks(start, n) == Min(start + 10 * n, 90)
    decreases n
  {
    if n > 0 {
      TicksClimbToNinety(NextProgress(start), n - 1);
    }
  }

  /** Ticks never decrease a progress that is a step of 10 at or below 90,
      and never take it above 90. */
  lemma {:induction false} TicksMonotone(start: int, m: nat, n: nat)
    requires 0 <= start <= 90 && start % 10 == 0
    requires m <= n
    ensures start <= Ticks(start, m) <= Ticks(start, n) <= 90
  {
    TicksClimbToNinety(start, m);
    TicksClimbToNinety(start, n);
  }

  // ---------------------------------------------------------------------
  // The component state

  /** Where the pending `handleUpload` call is suspended. */
  datatype Phase =
    | Idle                      // no upload in flight
    | AwaitingResponse          // suspended at `await fetch(...)`
    | AwaitingBody(ok: bool)    // suspended at `await response.text()` / `response.json()`

  /** The state of the component. `file` ... `uploadProgress` are the React
      state fields; `previewURL` holds the file whose object URL it is, and
      `objectUrls` every file an object URL was created for (none is ever
      revoked). `phase`, `ownInterval`, `strayIntervals` and `pendingResets`
      stand for the pending continuation and timers. */
  class Home {
    var file: Option<SelectedFile>
    var previewURL: Option<SelectedFile>
    var objectUrls: seq<SelectedFile>
    var loading: bool
    var result: Option<AnalysisResult>
    var error: Option<string>
    var uploadProgress: int
    var phase: Phase
    var ownInterval: bool       // the progress interval of the upload in flight is running
    var strayIntervals: nat     // intervals left running by earlier uploads
    var pendingResets: nat      // scheduled `setUploadProgress(0)` timeouts

    ghost predicate Valid()
      reads this
    {
      && Consistent()
      && (!phase.Idle? ==> result.None?)
      && (!phase.Idle? && error.Some? ==> error == Some(InvalidFileMessage) && file.None?)
    }

    /** Everything `Valid` says except what it says of an upload in flight
        (the try block may just have set a result or an error). */
    ghost predicate Consistent()
      reads this
    {
      && (loading <==> !phase.Idle?)
      && (result.Some? && error.Some? ==> error == Some(InvalidFileMessage) && file.None?)
      && (ownInterval ==> phase.AwaitingResponse?)
      && 0 <= uploadProgress <= 100 && uploadProgress % 10 == 0
      && (phase.AwaitingResponse? ==> uploadProgress <= 90)
      && (file.Some? ==> IsScanFile(file.value) && previewURL == file)
      && (previewURL.Some? ==> objectUrls != [] && previewURL.value == objectUrls[|objectUrls| - 1])
    }

    constructor ()
      ensures Valid()
      ensures file.None? && previewURL.None? && objectUrls == []
      ensures !loading && result.None? && error.None? && uploadProgress == 0
      ensures phase.Idle? && !ownInterval && strayIntervals == 0 && pendingResets == 0
    {
      file, previewURL, objectUrls := None, None, [];
      loading, result, error, uploadProgress := false, None, None, 0;
      phase, ownInterval, strayIntervals, pendingResets := Idle, false, 0, 0;
    }

    // ----- what is rendered

    /** The progress bar is rendered while loading. */
    predicate ShowsProgress()
      reads this
    {
      loading
    }

    /** The error alert is rendered when `error` is truthy. */
    predicate ShowsError()
      reads this
    {
      error.Some? && error.value != ""
    }

    /** The result panel (`result && !error`). */
    predicate ShowsResult()
      reads this
    {
      result.Some? && !(error.Some? && error.value != "")
    }

    /** The Analyze button is enabled (`disabled={loading || !file}`). */
    predicate AnalyzeEnabled()
      reads this
    {
      !(loading || file.None?)
    }

    /** The result panel and the error alert are never rendered together,
        and the button is enabled only with a file held and nothing loading. */
    lemma PanelsExclusive()
      ensures !(ShowsResult() && ShowsError())
      ensures AnalyzeEnabled() <==> file.Some? && !loading
    {
    }

    /** A result and an error are held together only after a file was
        rejected during an upload: the error is then the rejection message
        and no file is held. While an upload is in flight the only possible
        error is that message. */
    lemma BothSetOnlyAfterRejection()
      requires Valid()
      ensures result.Some? && error.Some? ==> error == Some(InvalidFileMessage) && file.None?
      ensures !phase.Idle? && error.Some? ==> error == Some(InvalidFileMessage) && file.None?
    {
    }

    // ----- file input

    /** `handleFileChange` with `e.target.files[0]` (None when the dialog
        was cancelled). */
    method HandleFileChange(selected: Option<SelectedFile>)
      requires Valid()
      modifies this
      ensures Valid()
      ensures result.None?
      ensures selected.None? ==>
        file.None? && error.None? && previewURL == old(previewURL) && objectUrls == old(objectUrls)
      ensures selected.Some? && IsScanFile(selected.value) ==>
        file == selected && error.None? && previewURL == selected &&
        objectUrls == old(objectUrls) + [selected.value]
      ensures selected.Some? && !IsScanFile(selected.value) ==>
        file.None? && error == Some(InvalidFileMessage) &&
        previewURL == old(previewURL) && objectUrls == old(objectUrls)
      ensures loading == old(loading) && uploadProgress == old(uploadProgress) && phase == old(phase)
      ensures ownInterval == old(ownInterval) && strayIntervals == old(strayIntervals)
      ensures pendingResets == old(pendingResets)
    {
      file := selected;
      error := None;
      result := None;
      if selected.Some? {
        if IsScanFile(selected.value) {
          objectUrls := objectUrls + [selected.value];
          previewURL := selected;
        } else {
          error := Some(InvalidFileMessage);
          file := None;
        }
      }
    }

    // ----- handleUpload

    /** The synchronous start of `handleUpload`, up to `await fetch`. Its
        only caller is the Analyze button, which is disabled while loading. */
    method HandleUpload()
      requires Valid() && !loading
      modifies this
      ensures Valid()
      ensures old(file).None? ==> unchanged(this)
      ensures old(file).Some? ==>
        && loading && result.None? && error.None? && uploadProgress == 0
        && phase == AwaitingResponse && ownInterval
      ensures file == old(file) && previewURL == old(previewURL) && objectUrls == old(objectUrls)
      ensures strayIntervals == old(strayIntervals) && pendingResets == old(pendingResets)
    {
      if file.None? {
        return;
      }
      loading := true;
      result := None;
      error := None;
      uploadProgress := 0;
      ownInterval := true;
      phase := AwaitingResponse;
    }

    /** A tick of the interval started by the upload in flight. */
    method ProgressTick()
      requires Valid() && ownInterval
      modifies this
      ensures Valid()
      ensures uploadProgress == NextProgress(old(uploadProgress))
      ensures old(uploadProgress) <= uploadProgress <= 90
      ensures ownInterval == (old(uploadProgress) < 90)
      ensures file == old(file) && previewURL == old(previewURL) && objectUrls == old(objectUrls)
      ensures loading == old(loading) && result == old(result) && error == old(error)
      ensures phase == old(phase) && strayIntervals == old(strayIntervals)
      ensures pendingResets == old(pendingResets)
    {
      if uploadProgress >= 90 {
        ownInterval := false;
      }
      uploadProgress := NextProgress(uploadProgress);
    }

    /** A tick of an interval an earlier upload left running: it applies
        the same update to the shared progress. */
    method StrayTick()
      requires Valid() && strayIntervals > 0
      modifies this
      ensures Valid()
      ensures uploadProgress == NextProgress(old(uploadProgress))
      ensures strayIntervals == if old(uploadProgress) >= 90 then old(strayIntervals) - 1 else old(strayIntervals)
      ensures file == old(file) && previewURL == old(previewURL) && objectUrls == old(objectUrls)
      ensures loading == old(loading) && result == old(result) && error == old(error)
      ensures phase == old(phase) && ownInterval == old(ownInterval)
      ensures pendingResets == old(pendingResets)
    {
      if uploadProgress >= 90 {
        strayIntervals := strayIntervals - 1;
      }
      uploadProgress := NextProgress(uploadProgress);
    }

    /** `fetch` returned a response: the interval is cleared and the
        progress jumps to 100; the call is then suspended on the body. */
    method FetchResolved(ok: bool)
      requires Valid() && phase == AwaitingResponse
      modifies this
      ensures Valid()
      ensures uploadProgress == 100 && !ownInterval && phase == AwaitingBody(ok)
      ensures file == old(file) && previewURL == old(previewURL) && objectUrls == old(objectUrls)
      ensures loading == old(loading) && result == old(result) && error == old(error)
      ensures strayIntervals == old(strayIntervals) && pendingResets == old(pendingResets)
    {
      ownInterval := false;
      uploadProgress := 100;
      phase := AwaitingBody(ok);
    }

    /** `fetch` rejected (no response): the catch block sets the failure
        message; the interval is not cleared and keeps running. */
    method FetchRejected()
      requires Valid() && phase == AwaitingResponse
      modifies this
      ensures Valid()
      ensures error == Some(FailureMessage) && result.None?
      ensures uploadProgress == old(uploadProgress) && uploadProgress <= 90
      ensures !loading && phase.Idle? && !ownInterval
      ensures strayIntervals == old(strayIntervals) + (if old(ownInterval) then 1 else 0)
      ensures pendingResets == old(pendingResets) + 1
      ensures file == old(file) && previewURL == old(previewURL) && objectUrls == old(objectUrls)
    {
      error := Some(FailureMessage);
      Finally();
    }

    /** A non-ok status: once `response.text()` settles, the thrown error
        lands in the catch block. */
    method ErrorBodySettled()
      requires Valid() && phase == AwaitingBody(false)
      modifies this
      ensures Valid()
      ensures error == Some(FailureMessage) && result.None? && ShowsError() && !ShowsResult()
      ensures !loading && phase.Idle? && uploadProgress == old(uploadProgress)
      ensures pendingResets == old(pendingResets) + 1
      ensures ownInterval == old(ownInterval) && strayIntervals == old(strayIntervals)
      ensures file == old(file) && previewURL == old(previewURL) && objectUrls == old(objectUrls)
    {
      error := Some(FailureMessage);
      Finally();
    }

    /** `response.json()` resolved with `data` (None for a JSON `null`):
        it becomes the result; `error` is left as it is. */
    method JsonResolved(data: Option<AnalysisResult>)
      requires Valid() && phase == AwaitingBody(true)
      modifies this
      ensures Valid()
      ensures result == data && error == old(error)
      ensures old(error).None? && data.Some? ==> ShowsResult() && !ShowsError()
      ensures !loading && phase.Idle? && uploadProgress == old(uploadProgress)
      ensures pendingResets == old(pendingResets) + 1
      ensures ownInterval == old(ownInterval) && strayIntervals == old(strayIntervals)
      ensures file == old(file) && previewURL == old(previewURL) && objectUrls == old(objectUrls)
    {
      result := data;
      Finally();
    }

    /** `response.json()` rejected (the body is not JSON). */
    method JsonRejected()
      requires Valid() && phase == AwaitingBody(true)
      modifies this
      ensures Valid()
      ensures error == Some(FailureMessage) && result.None?
      ensures !loading && phase.Idle? && uploadProgress == old(uploadProgress)
      ensures pendingResets == old(pendingResets) + 1
      ensures ownInterval == old(ownInterval) && strayIntervals == old(strayIntervals)
      ensures file == old(file) && previewURL == old(previewURL) && objectUrls == old(objectUrls)
    {
      error := Some(FailureMessage);
      Finally();
    }

    /** The finally block: loading ends and a reset of the progress is
        scheduled one second later. An interval the upload did not clear
        outlives it. */
    method Finally()
      requires Consistent() && !phase.Idle?
      modifies this
      ensures Valid()
      ensures !loading && phase.Idle? && !ownInterval
      ensures strayIntervals == old(strayIntervals) + (if old(ownInterval) then 1 else 0)
      ensures pendingResets == old(pendingResets) + 1
      ensures file == old(file) && previewURL == old(previewURL) && objectUrls == old(objectUrls)
      ensures result == old(result) && error == old(error) && uploadProgress == old(uploadProgress)
    {
      loading := false;
      if ownInterval {
        strayIntervals := strayIntervals + 1;
        ownInterval := false;
      }
      pendingResets := pendingResets + 1;
      phase := Idle;
    }

    /** One of the scheduled resets fires. */
    method ResetFires()
      requires Valid() && pendingResets > 0
      modifies this
      ensures Valid()
      ensures uploadProgress == 0 && pendingResets == old(pendingResets) - 1
      ensures file == old(file) && previewURL == old(previewURL) && objectUrls == old(objectUrls)
      ensures loading == old(loading) && result == old(result) && error == old(error)
      ensures phase == old(phase) && ownInterval == old(ownInterval)
      ensures strayIntervals == old(strayIntervals)
    {
      uploadProgress := 0;
      pendingResets := pendingResets - 1;
    }
  }

  // ---------------------------------------------------------------------
  // Runs of the component

  /** A run that chooses "scan.nii.gz" with no declared type and gets a PD
      diagnosis back: the file is accepted, the progress reaches 90 and
      stays there until the response, and the panel shows the mapped label. */
  method PdScanRun() returns (progressBeforeResponse: int, diagnosis: string, shown: bool, rows: nat)
    ensures progressBeforeResponse == 90
    ensures diagnosis == "Parkinson's Disease" && shown && rows == 3
  {
    var h := new Home();
    h.HandleFileChange(Some(SelectedFile("scan.nii.gz", "")));
    Text.EndsWithIsSuffix("scan.nii.gz", ".nii.gz");
    h.HandleUpload();
    var i := 0;
    while i < 10
      invariant 0 <= i <= 10
      invariant h.Valid() && h.phase == AwaitingResponse && h.loading
      invariant h.uploadProgress == Min(10 * i, 90)
      invariant h.ownInterval == (i < 10)
      invariant h.error.None? && h.result.None?
    {
      h.ProgressTick();
      i := i + 1;
    }
    progressBeforeResponse := h.uploadProgress;
    h.FetchResolved(true);
    var probabilities := [("PD", 0.87), ("SWEDD", 0.1), ("Control", 0.03)];
    h.JsonResolved(Some(AnalysisResult(Some(Prediction("PD", Number(0.87), Some(probabilities))), Number(420.0))));
    diagnosis := DiagnosisText(h.result);
    shown := h.ShowsResult();
    rows := |ProbabilityTable(h.result.value).value|;
  }

  /** A run whose service answers with a non-ok status: the error alert is
      shown and no result. */
  method ServerErrorRun() returns (errorShown: bool, resultShown: bool, message: Option<string>)
    ensures errorShown && !resultShown && message == Some(FailureMessage)
  {
    var h := new Home();
    h.HandleFileChange(Some(SelectedFile("brain.dcm", "")));
    Text.EndsWithIsSuffix("brain.dcm", ".dcm");
    h.HandleUpload();
    h.FetchResolved(false);
    h.ErrorBodySettled();
    errorShown, resultShown, message := h.ShowsError(), h.ShowsResult(), h.error;
  }

  /** The reset scheduled by one upload is not tied to it: started within
      the second, the next upload can see its progress drop back to 0 while
      it is still in flight. */
  method StaleResetRun() returns (before: int, after: int, inFlight: bool)
    ensures inFlight && before == 10 && after == 0
  {
    var h := new Home();
    h.HandleFileChange(Some(SelectedFile("scan.nii", "")));
    Text.EndsWithIsSuffix("scan.nii", ".nii");
    h.HandleUpload();
    h.FetchResolved(true);
    h.JsonResolved(None);
    h.HandleUpload();
    h.ProgressTick();
    before := h.uploadProgress;
    h.ResetFires();
    after := h.uploadProgress;
    inFlight := h.loading && h.phase == AwaitingResponse;
  }

  /** The file input stays usable during an upload: a rejected file chosen
      while the request is in flight, followed by a successful response,
      leaves both `result` and `error` set, and only the error is shown. */
  method SelectionDuringUploadRun() returns (bothSet: bool, errorShown: bool, resultShown: bool)
    ensures bothSet && errorShown && !resultShown
  {
    var h := new Home();
    h.HandleFileChange(Some(SelectedFile("scan.nii.gz", NiftiMime)));
    h.HandleUpload();
    h.HandleFileChange(Some(SelectedFile("readme.txt", "text/plain")));
    h.FetchResolved(true);
    h.JsonResolved(Some(AnalysisResult(None, Undefined)));
    bothSet := h.result.Some? && h.error.Some?;
    errorShown, resultShown := h.ShowsError(), h.ShowsResult();
  }

  /** An interval left running by an upload whose request failed keeps
      ticking through the next upload: after that upload's response has
      set the progress to 100, a stray tick pulls it back to 90 while the
      body is still awaited. */
  method StrayTickAfterResponseRun() returns (atResponse: int, afterTick: int, stillLoading: bool)
    ensures atResponse == 100 && afterTick == 90 && stillLoading
  {
    var h := new Home();
    h.HandleFileChange(Some(SelectedFile("scan.nii.gz", NiftiMime)));
    h.HandleUpload();
    h.FetchRejected();
    h.HandleUpload();
    h.FetchResolved(true);
    atResponse := h.uploadProgress;
    h.StrayTick();
    afterTick := h.uploadProgress;
    stillLoading := h.loading;
  }
}
