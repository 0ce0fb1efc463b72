# Scan upload workflow of the Parkinson's detection front-end

This project models, in Dafny, the upload-and-analysis workflow of a browser
front-end that sends a 3D SPECT brain scan (NIfTI or DICOM) to a prediction
service and shows the diagnosis it returns. The repository holds two
near-duplicate React components. The model keeps them separate, because they
behave differently:

- `Home` (src/pages/home.jsx) accepts NIfTI and DICOM files. It shows a
  simulated progress bar and renders a class label, a confidence, a
  probability table and a processing time. It is module `HomePage`, file
  `home.dfy`.
- `ParkinsonsDetectionApp` (app/page.js) accepts NIfTI files only. It
  renders a numeric prediction and a confidence. It is module
  `DetectionPage`, file `detection.dfy`.

Shared pieces:

- `Browser` (`browser.dfy`) holds the chosen `File` (name and declared
  MIME type) and the JavaScript values of a decoded response, with
  JavaScript truthiness.
- `Text` (`text.dfy`) holds `endsWith`.

Each component is a class. Its fields are the React state fields: `file`,
`previewURL`, `loading`, `result`, `error` and `uploadProgress`. There is
one method per event.

`handleUpload` is an `async` function, so it runs in pieces. The part up to
`await fetch` is `HandleUpload`. Each later piece is its own method:
`FetchResolved`, `FetchRejected`, `JsonResolved` and so on. A `phase` field
records which `await` the call is waiting at, and each such method requires
its phase. Each completion method calls `Finally`, the model of the
`finally` block.

In `Home`, the timers are explicit events:
- `ProgressTick` is the upload's own `setInterval`.
- `StrayTick` is an interval left running by an earlier upload.
- `ResetFires` is the one-second `setTimeout` that puts the progress back
  to 0.

The pure display logic is functions, each with lemmas:
- `ClassLabel`, `DiagnosisText`, `FormatConfidence` and `ProbabilityRows`
  in `Home`;
- `PredictionText` in `ParkinsonsDetectionApp`.

Reading the code as written shows these behaviours, which the model keeps:

- app/page.js rejects a plain `.nii` name unless the declared type is the
  NIfTI type (`PlainNiiNeedsNiftiType`). Its error message and its `accept`
  list both name `.nii`.
- app/page.js passes `onUploadProgress` to `fetch`, but `fetch` has no such
  option and never calls it. Its progress is therefore 0 in every state
  (`ParkinsonsDetectionApp.Valid`).
- In home.jsx, if `fetch` rejects, `clearInterval` at line 71 is skipped.
  That upload's interval keeps running, becomes a stray interval, and
  keeps changing the shared progress.
- The reset timeout at line 88 is not tied to its upload. If the next
  upload starts within that second, its progress drops back to 0 while it
  is still in flight (`StaleResetRun`). Within a single upload, progress
  grows and stays at or below 90 only while no timer from an earlier
  upload fires (`TicksMonotone`).
- The file input stays usable during an upload. Choosing a rejected file
  while a request is in flight, and then getting a successful response,
  leaves both `result` and `error` set. Only the error is rendered,
  because the panel checks `result && !error` (`SelectionDuringUploadRun`).
  So `result` and `error` can both be non-null, but only in this way: the
  error is then the rejection message and no file is held
  (`BothSetOnlyAfterRejection`). The result panel and the error alert are
  never shown together (`PanelsExclusive`).
- A stray interval that ticks after the next upload's response has
  arrived pulls the shown progress from 100 back to 90 while the body is
  still awaited, since the update holds 90 whenever it finds 90 or more
  (`StrayTickAfterResponseRun`).
- A successful response whose JSON body is `null` leaves neither a result
  nor an error (`JsonResolved` with `None`).
- In home.jsx a `processing_time_ms` of 0 renders a bare "0". A truthy
  value that is not a number makes `toFixed` throw during rendering, and
  no component above the page catches the error
  (`ProcessingTimeDisplay`).

## Model

| member | source | states |
|---|---|---|
| Text.EndsWithIsSuffix | src/pages/home.jsx:28-31 | `endsWith`, compared character by character, holds exactly when the suffix is the tail of the name |
| Browser.FalsyValues | src/pages/home.jsx:119 | the falsy JavaScript values are exactly undefined, null, false, 0, NaN and "" |
| HomePage.IsScanFileIff | src/pages/home.jsx:26-32 | a file is accepted exactly when its type is `application/x-nifti` or `application/dicom`, or its name ends in `.nii.gz`, `.nii` or `.dcm` |
| HomePage.ClassLabel | src/pages/home.jsx:110-112 | PD becomes "Parkinson's Disease", SWEDD stays, Control becomes "No Parkinson's (Control)", any other label passes through; the label is unchanged exactly when it is neither PD nor Control |
| HomePage.DiagnosisText | src/pages/home.jsx:93-115 | "N/A" when there is no result or no prediction, otherwise the display name of the class label |
| HomePage.FormatConfidence | src/pages/home.jsx:118-121 | "N/A" exactly for undefined, null, false, NaN and "" (0 is formatted); otherwise the value itself is formatted |
| HomePage.ConfidenceDisplay | src/pages/home.jsx:207 | "N/A" without a prediction, otherwise `formatConfidence` of the confidence: "N/A" exactly when there is no prediction or the confidence is undefined, null, false, NaN or "", and otherwise the confidence itself is formatted |
| HomePage.ProbabilityRows | src/pages/home.jsx:217-236 | one row per probability entry, in order, with the key mapped by the class-label table and the value kept |
| HomePage.ProbabilityTable | src/pages/home.jsx:213-236 | the table is rendered exactly when the prediction carries probabilities; its rows are the entries in order, each key mapped by the class-label table and each value kept |
| HomePage.ProcessingTimeDisplay | src/pages/home.jsx:246-251 | nothing is rendered for undefined, null, false and ""; a bare "0" for 0 and "NaN" for NaN; the render throws for true, a non-empty string or an object, which have no `toFixed` |
| HomePage.ProcessingTimeShown | src/pages/home.jsx:246-251 | the processing-time line appears exactly for a non-zero number, and shows that number |
| HomePage.NextProgress | src/pages/home.jsx:57-63 | a tick adds 10 below 90, keeps the progress a step of 10, never lowers a step at or below 90, never goes above 90 from there, holds 90 from 90 or more, and never reaches 100 |
| HomePage.TicksClimbToNinety | src/pages/home.jsx:56-64 | after n ticks from a step s at or below 90, the progress is min(s + 10n, 90) |
| HomePage.TicksMonotone | src/pages/home.jsx:56-64 | ticks never lower such a progress, and never take it above 90 |
| HomePage.Home.constructor | src/pages/home.jsx:11-16 | no file, not loading, no result or error, progress 0, no timers |
| HomePage.Home.PanelsExclusive | src/pages/home.jsx:178-186 | the result panel and the error alert are never rendered together; the Analyze button is enabled exactly when a file is held and nothing is loading (line 258) |
| HomePage.Home.BothSetOnlyAfterRejection | src/pages/home.jsx:18-37 | in every valid state, result and error are held together only with the rejection message and no file; during an upload that message is the only possible error |
| HomePage.Home.HandleFileChange | src/pages/home.jsx:18-39 | result and error are cleared; an accepted file is held and gets an object URL; a rejected one leaves no file and the fixed NIfTI-or-DICOM message; a cancelled dialog leaves no file; nothing else changes |
| HomePage.Home.HandleUpload | src/pages/home.jsx:41-46 | without a file nothing changes; otherwise loading is set, result and error are cleared, the progress is 0 and the interval runs |
| HomePage.Home.ProgressTick | src/pages/home.jsx:56-64 | the progress goes up by 10 and holds at 90; the tick that finds 90 or more stops the interval |
| HomePage.Home.StrayTick | src/pages/home.jsx:56-64 | an interval left by an earlier upload applies the same update and stops itself at 90 |
| HomePage.Home.FetchResolved | src/pages/home.jsx:66-72 | the interval is cleared and the progress becomes 100, only once a response has arrived |
| HomePage.Home.FetchRejected | src/pages/home.jsx:66-69 | no response: the fixed failure message is set, there is no result, the progress stays at or below 90, and the interval keeps running |
| HomePage.Home.ErrorBodySettled | src/pages/home.jsx:74-78 | a non-ok status sets the failure message and leaves no result; only the error alert is shown |
| HomePage.Home.JsonResolved | src/pages/home.jsx:80-81 | the decoded body becomes the result; when no error was set, the result panel is shown and the error alert is not |
| HomePage.Home.JsonRejected | src/pages/home.jsx:83-85 | a body that is not JSON sets the failure message and leaves no result |
| HomePage.Home.Finally | src/pages/home.jsx:86-89 | loading ends and a reset of the progress is scheduled; result and error are kept |
| HomePage.Home.ResetFires | src/pages/home.jsx:88 | the delayed reset puts the progress to 0 |
| HomePage.PdScanRun | src/pages/home.jsx:18-112 | "scan.nii.gz" with no type is accepted, the progress stops at 90 before the response, and a PD answer shows "Parkinson's Disease" with three probability rows |
| HomePage.ServerErrorRun | src/pages/home.jsx:74-85 | a non-ok status shows the failure message and no result panel |
| HomePage.StaleResetRun | src/pages/home.jsx:86-89 | a reset scheduled by the previous upload drops the progress of the upload in flight from 10 to 0 |
| HomePage.SelectionDuringUploadRun | src/pages/home.jsx:18-37 | a rejected file chosen mid-upload, then a success, leaves result and error both set, with only the error shown |
| HomePage.StrayTickAfterResponseRun | src/pages/home.jsx:56-72 | after a failed request, its interval pulls the next upload's progress from 100 back to 90 while that upload's body is awaited |
| DetectionPage.IsNiftiFileIff | app/page.js:25 | a file is accepted exactly when its type is `application/x-nifti` or its name ends in `.nii.gz` |
| DetectionPage.PlainNiiNeedsNiftiType | app/page.js:25-29 | a name ending in `.nii` is accepted exactly when its type is the NIfTI type, although the message and `accept` (line 91) name `.nii` |
| DetectionPage.PlainNiiRejected | app/page.js:25-29 | "scan.nii" with no type is rejected here and accepted by the `Home` page |
| DetectionPage.NarrowerThanHome | app/page.js:25 | every file this variant accepts is accepted by the `Home` page |
| DetectionPage.PredictionText | app/page.js:134 | "Parkinson's Detected" exactly when the prediction is strictly equal to the number 1, otherwise "No Parkinson's Detected" |
| DetectionPage.ParkinsonsDetectionApp.constructor | app/page.js:11-16 | no file, not loading, no result or error, progress 0 |
| DetectionPage.ParkinsonsDetectionApp.PanelsExclusive | app/page.js:117-125 | the result panel and the error alert are never rendered together; the button is enabled exactly when a file is held and nothing is loading (line 150) |
| DetectionPage.ParkinsonsDetectionApp.BothSetOnlyAfterRejection | app/page.js:18-30 | in every valid state, result and error are held together only with the NIfTI-only rejection message and no file; during an upload that message is the only possible error |
| DetectionPage.ParkinsonsDetectionApp.HandleFileChange | app/page.js:18-32 | result and error are cleared; an accepted file is held; a rejected one leaves no file and the NIfTI-only message |
| DetectionPage.ParkinsonsDetectionApp.HandleUpload | app/page.js:34-39 | without a file nothing changes; otherwise loading is set and result, error and progress are cleared |
| DetectionPage.ParkinsonsDetectionApp.FetchResolved | app/page.js:54-56 | a non-ok status sets the failure message and ends the upload with no result; an ok one waits for the body |
| DetectionPage.ParkinsonsDetectionApp.FetchRejected | app/page.js:60-66 | no response: the failure message is set, there is no result, loading ends and the progress is 0 |
| DetectionPage.ParkinsonsDetectionApp.JsonResolved | app/page.js:58-59 | the decoded body becomes the result with the error untouched; the panel is shown when no error was set |
| DetectionPage.ParkinsonsDetectionApp.JsonRejected | app/page.js:58-62 | a body that is not JSON sets the failure message and leaves no result |
| DetectionPage.ParkinsonsDetectionApp.Finally | app/page.js:63-66 | loading is false and the progress is 0 after every upload |
| DetectionPage.DetectionRun | app/page.js:18-66 | "scan.nii.gz" with prediction 1 shows "Parkinson's Detected" and ends with progress 0 |
| DetectionPage.PlainNiiRun | app/page.js:18-32 | "scan.nii" with no type is rejected with the NIfTI-only message and the button stays disabled |

## Left out

- Rendering, CSS classes, icons and the colour chosen for each class label (src/pages/home.jsx:97-106, 227-231): these are presentational.
- `fetch`, `FormData`, the endpoint URLs and form field names, and `response.text()` / `response.json()`: a response is modelled only as an ok/not-ok status, a decoded body or a rejection. `URL.createObjectURL` is modelled as a record of the file a URL was made for, and `console` logging is left out.
- Scheduling by `setInterval` / `setTimeout` and React's batching of updates: ticks and the delayed reset are explicit events in any order the model allows. React applies the state updates of one event handler together, so the order of updates inside a method does not matter.
- HomePage.FormatConfidence: the number formatting (`parseFloat`, `* 100`, `toFixed(2)`) is not modelled; the result only records which value would be formatted. The same holds for the probability percentages and the processing time (`toFixed(0)`).
- The confidence of app/page.js (`(result.confidence * 100).toFixed(2)`, line 140) and the progress ratio `loaded / total` (line 49) are floating-point formatting. That progress callback is never called, as described above.
- HomePage.Home.HandleUpload and DetectionPage.ParkinsonsDetectionApp.HandleUpload require that nothing is loading: their only caller is the Analyze button, which is disabled while loading. A second upload started by other means is not modelled.
- A class name that is not a string (`class_name` missing or of another type) is not modelled: `Prediction.className` is a string.
- The order of `Object.entries` (integer-like keys first) is not modelled: the probabilities are given in the order they are displayed.
- app/page.js has no `"use client"` directive, although it calls `useState` and sits under an App Router root layout (app/layout.js). Read as written, it would be refused as a Server Component. The model describes it as if it ran in the browser.
- The static pages and chrome are not part of this model: src/pages/about.jsx, src/pages/contact.jsx, src/components/footer.jsx, src/components/navbar.jsx, src/components/layout.jsx, src/App.js and app/layout.js. Their only logic is a path equality for the active link.
