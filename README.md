# SkinGuard upload workflow, modelled in Dafny

SkinGuard's web page lets a user pick a skin-lesion image, checks it, shows a preview,
sends it to a prediction service and shows the answer together with a short log of recent
predictions. This project models the `App` component that drives that workflow
(`frontend/src/App.jsx`). The JSX markup is left aside. What remains is a small state machine
over the component's slots: `file`, `previewUrl`, `isLoading`, `error`, `result`, `history`
and `showInfo`. It also involves the browser's object URLs, which the component creates for
the preview and revokes later.

Layout:

- `wrappers.dfy`: `Option`, standing for JavaScript's `null`.
- `file_validation.dfy`: the four accepted MIME types and the inclusive 10 MiB limit. The
  type is checked before the size.
- `confidence.dfy`: `formatConfidence`. It clamps the value to [0, 1] and rounds half up
  to hundredths of a percent. The result is kept as an integer (8235 means "82.35%").
- `history.dfy`: the five-entry, newest-first log and what it holds after any number of
  successes.
- `prediction_client.dfy`: the three ways a request can settle, and the message shown for
  each failure.
- `upload_workflow.dfy`: the component state as a value. It has one function per
  transition, the page's guards (`Enabled`), the invariant `Inv` and the lemmas that state
  what each transition promises. It also has worked scenarios.
- `app.dfy`: class `Workflow`. Its fields are the `useState` slots. Each handler performs the
  source's setter calls in order, and its contract proves that it ends in the state the
  matching transition function gives.

Object URLs are `Handle` values taken from a counter. `previewUrl == ''` is `None`. The
effect keyed on `previewUrl` (lines 61-67) is modelled as a cleanup step. Whenever the URL
changes, the cleanup revokes the previous URL. So a superseded or cleared URL is revoked
twice: once by the handler and once by the cleanup. The second revoke changes nothing. Over a
lifetime that ends in unmounting, the number of revoke calls is therefore at least the number
of create calls. It is larger as soon as a URL has been superseded or cleared. The no-leak promise is
stated about the set of live URLs instead: in every reachable state at most one URL is live,
it is the current preview, and after unmounting none is live.

Behaviour of the code that the model keeps, even where a tidier design would differ:

- `error` and `result` can both be set. An invalid selection only sets `error`, and a failed
  request never clears `result` (`ErrorBesideResult`, `FailRecords`).
- Most "not while loading" guards exist only in the page: disabled buttons and the
  `!isLoading` checks. The transition functions do not check loading. `Enabled` records
  exactly the controls the page offers in each state. For example, Run Prediction needs a file
  and no request in flight, and the close controls need the modal on screen. The class methods
  `requires` only the loading guards, plus a present result for `OpenInfo`. `Workflow.SubmitStart` keeps the handler's own no-file
  branch, which the disabled button never reaches. Dropping a file on the drop zone
  (lines 99-103) is not guarded. A selection can therefore happen while a request is in
  flight, and the late answer then becomes the result shown beside the new file
  (`DropDuringRequest`).
- `showInfo` is reset only by closing the modal. Clear hides the modal only by removing the
  result. The next successful prediction shows the modal again (`InfoFlagOutlivesResult`).

## Model

| member | source | states |
|---|---|---|
| `FileValidation.Validate` | frontend/src/App.jsx:74-88 | rejected as an unsupported type exactly when the type is not one of the four; rejected as too large exactly when the type is accepted and the size exceeds 10 MiB |
| `FileValidation.RejectionMessage` | frontend/src/App.jsx:80-87 | each rejection has a non-empty message, and the unsupported-type message belongs to that rejection only |
| `FileValidation.IsAccepted` | frontend/src/App.jsx:69-88 | a file is accepted if and only if its type is listed and its size is at most 10 MiB |
| `FileValidation.UnsupportedWhateverSize` | frontend/src/App.jsx:80-83 | an unlisted type is refused as unsupported whatever its size |
| `FileValidation.SizeBoundary` | frontend/src/App.jsx:85-88 | 10485760 bytes pass and 10485761 bytes are refused as too large |
| `FileValidation.ExactTypeMatch` | frontend/src/App.jsx:69-72 | the type comparison is exact: `image/gif` and `IMAGE/PNG` are refused, `image/jpg` is accepted |
| `ConfidenceFormat.Clamp` | frontend/src/App.jsx:46 | the result lies in [0, 1]; it equals the input inside the interval, 1 at or above 1, and 0 at or below 0 |
| `ConfidenceFormat.RoundHalfUp` | frontend/src/App.jsx:47 | the result is an integer within a half-open window of one half around the input, halves going up |
| `ConfidenceFormat.RoundingIsUnique` | frontend/src/App.jsx:47 | that window determines the rounded integer uniquely |
| `ConfidenceFormat.FormatConfidence` | frontend/src/App.jsx:44-48 | an absent confidence gives the dash, and only then; a present one gives between 0 and 10000 hundredths of a percent |
| `ConfidenceFormat.FormatIsNearest` | frontend/src/App.jsx:46-47 | the shown hundredths are the nearest integer to the clamped value times 10000 |
| `ConfidenceFormat.FormatSaturates` | frontend/src/App.jsx:46-47 | every input at or above 1 shows 100%, and every input at or below 0 shows 0% |
| `ConfidenceFormat.FormatMonotone` | frontend/src/App.jsx:44-48 | a larger confidence never shows a smaller percentage |
| `ConfidenceFormat.FormatExamples` | frontend/src/App.jsx:44-48 | 0.8234567 shows 82.35%, 0.87 shows 87%, 1.2 shows 100%, and null shows the dash |
| `PredictionHistory.PushHistory` | frontend/src/App.jsx:161 | the new log has min(5, old length + 1) entries, starts with the new entry, and continues with a prefix of the old log |
| `PredictionHistory.PushTruncated` | frontend/src/App.jsx:161 | pushing onto a log that was already cut to five equals cutting the longer sequence once |
| `PredictionHistory.ReplayNewestFirst` | frontend/src/App.jsx:161 | after any run of successes the log is the new entries, newest first, followed by the old log, cut to five |
| `PredictionHistory.LastFiveNewestFirst` | frontend/src/App.jsx:161 | from an empty log, n successes leave min(n, 5) entries, and entry i is the i-th most recent success |
| `PredictionHistory.Replay` | frontend/src/App.jsx:161 | a run of successes keeps a log of at most five and puts the latest answer first; no success leaves the log as it was |
| `PredictionHistory.SixSubmissions` | frontend/src/App.jsx:155-161 | six successes leave exactly the last five entries in reverse order of submission |
| `PredictionClient.ThrownMessage` | frontend/src/App.jsx:149-151 | the error thrown for a non-2xx answer carries its body, or a non-empty fallback when the body is empty; any other thrown error keeps its own message |
| `PredictionClient.ErrorMessage` | frontend/src/App.jsx:149-163 | every failure shows a non-empty message |
| `PredictionClient.ErrorMessageCases` | frontend/src/App.jsx:149-163 | a non-2xx answer shows its body, or "Prediction failed" when the body is empty; a thrown error shows its message, or "Unable to reach the prediction service." when that is empty |
| `PredictionClient.ServerErrorShowsBody` | frontend/src/App.jsx:149-151 | a 500 answer "model unavailable" is shown verbatim |
| `UploadWorkflow.Create` | frontend/src/App.jsx:96 | creating an object URL adds exactly the new handle to the live set; the handle is new, at or beyond every earlier identity |
| `UploadWorkflow.Revoke` | frontend/src/App.jsx:93 | revoking removes exactly that handle from the live set, so every other URL stays live; revoking a handle that is no longer live changes nothing |
| `UploadWorkflow.RevokePreview` | frontend/src/App.jsx:92-94 | only the current preview URL, if any, stops being live |
| `UploadWorkflow.Cleanup` | frontend/src/App.jsx:61-67 | the effect cleanup changes nothing when `previewUrl` is unchanged; otherwise only the previous URL stops being live |
| `UploadWorkflow.AfterSelect` | frontend/src/App.jsx:74-97 | a selection never touches the log, loading, the info flag or the request count; a rejected candidate keeps the file, preview, result and URLs; the file changes only to an accepted first candidate |
| `UploadWorkflow.AfterClear` | frontend/src/App.jsx:249-258 | Clear empties the file, preview, result and error and releases only the current URL; the log, loading and info flag are kept |
| `UploadWorkflow.AfterSubmitStart` | frontend/src/App.jsx:131-138 | one request is sent, and loading starts, exactly when a file is held; an error remains exactly when no file is held; file, preview, URLs, result and log are kept |
| `UploadWorkflow.AfterResponse` | frontend/src/App.jsx:149-165 | loading always ends and the request is settled; file, preview and URLs are kept; a success sets a result, leaves the error alone and gives a non-empty log; a failure sets a non-empty error and keeps the result and log; the info flag is never touched |
| `UploadWorkflow.AfterOpenInfo` | frontend/src/App.jsx:277 | sets the info flag and changes nothing else |
| `UploadWorkflow.AfterCloseInfo` | frontend/src/App.jsx:321-351 | clears the info flag and changes nothing else |
| `UploadWorkflow.AfterTeardown` | frontend/src/App.jsx:61-67 | unmounting releases only the current URL and changes nothing else in the state |
| `UploadWorkflow.Enabled` | frontend/src/App.jsx:242 | nothing is possible after unmounting; Run Prediction needs a file and no request in flight |
| `UploadWorkflow.Inv` | frontend/src/App.jsx:51-96 | a state satisfying the invariant has at most one live URL and at most one outstanding request |
| `UploadWorkflow.InitInv` | frontend/src/App.jsx:51-58 | the initial state satisfies the invariant and has no live object URL |
| `UploadWorkflow.StepKeepsInv` | frontend/src/App.jsx:74-165 | every transition the page allows preserves the invariant: one live URL at most, the held file valid, a log of five at most, one request in flight at most |
| `UploadWorkflow.RunKeepsInv` | frontend/src/App.jsx:74-165 | any sequence of allowed actions preserves the invariant |
| `UploadWorkflow.RunSnoc` | frontend/src/App.jsx:74-165 | running one more action is one more step, and it is allowed exactly when the prefix and the last step are |
| `UploadWorkflow.Reachable` | frontend/src/App.jsx:61-96 | in every reachable state at most one object URL is live and at most one request is outstanding |
| `UploadWorkflow.TeardownLeavesNothingLive` | frontend/src/App.jsx:61-67 | whatever the user did, unmounting leaves no object URL live |
| `UploadWorkflow.RunAppend` | frontend/src/App.jsx:74-165 | running two action sequences one after the other equals running their concatenation, and both must be allowed |
| `UploadWorkflow.CyclesReplay` | frontend/src/App.jsx:131-165 | with a file held, any run of successful predictions is allowed, keeps the file, ends with the last answer as the result, and leaves the log that `Replay` gives |
| `UploadWorkflow.SixPredictions` | frontend/src/App.jsx:155-161 | six successful predictions on a selected file leave exactly the last five answers, newest first, with the sixth as the result |
| `UploadWorkflow.SelectNothing` | frontend/src/App.jsx:75-78 | an absent or empty file list changes nothing |
| `UploadWorkflow.SelectRejected` | frontend/src/App.jsx:80-88 | a rejected candidate changes only `error`, to the unsupported-type message or the size-limit message |
| `UploadWorkflow.SelectAccepted` | frontend/src/App.jsx:90-96 | an accepted candidate clears the error and result and becomes the file; its new preview URL has never been issued before and is the only live one, and the previous URL is revoked; the log is kept |
| `UploadWorkflow.ClearResets` | frontend/src/App.jsx:249-258 | Clear empties the file, result, preview and error, leaves no live URL, and keeps the log |
| `UploadWorkflow.SubmitWithoutFile` | frontend/src/App.jsx:132-135 | without a file, only the "Please choose an image first." message is set, and no request is sent |
| `UploadWorkflow.SubmitWithFile` | frontend/src/App.jsx:137-147 | with a file, exactly one request is sent, loading starts, the error is cleared and the result is kept |
| `UploadWorkflow.SucceedRecords` | frontend/src/App.jsx:154-165 | a success makes the new entry the result and the head of a log of at most five whose tail is a prefix of the old log; loading ends and the file, preview, error and info flag are kept |
| `UploadWorkflow.FailRecords` | frontend/src/App.jsx:149-165 | a failure shows its message, ends loading, and keeps the file, preview, log, earlier result and info flag |
| `UploadWorkflow.InfoTogglesOnlyFlag` | frontend/src/App.jsx:320-326 | opening and closing the information modal change only `showInfo`; the modal shows only beside a result |
| `UploadWorkflow.InfoFlagOutlivesResult` | frontend/src/App.jsx:249-258 | Clear hides the modal but keeps `showInfo`; the allowed sequence Clear, select, submit, success then shows the modal again unasked |
| `UploadWorkflow.TeardownReleases` | frontend/src/App.jsx:61-67 | unmounting revokes the current preview URL and keeps the invariant |
| `UploadWorkflow.OversizedPng` | frontend/src/App.jsx:85-88 | a 12 MB PNG is refused for its size; nothing is selected and the log stays empty |
| `UploadWorkflow.SuccessfulJpeg` | frontend/src/App.jsx:131-165 | a 2 MB JPEG answered "Melanoma (mel)" at 0.87 ends with that result, shown as 87%, one log entry, no error and one request |
| `UploadWorkflow.ServerErrorKeepsFile` | frontend/src/App.jsx:149-165 | a 500 answer "model unavailable" is shown, and the file is kept for a retry |
| `UploadWorkflow.ErrorBesideResult` | frontend/src/App.jsx:80-83 | a bad file selected after a success sets the error and leaves the result in place |
| `UploadWorkflow.DropDuringRequest` | frontend/src/App.jsx:99-103 | a drop is allowed while a request is in flight, and the late answer becomes the result beside the new file |
| `App.Workflow.constructor` | frontend/src/App.jsx:51-58 | the component starts in the initial state, with the invariant |
| `App.Workflow.RevokeCurrent` | frontend/src/App.jsx:92-94 | revokes the current preview URL, if there is one |
| `App.Workflow.RunEffectCleanup` | frontend/src/App.jsx:61-67 | revokes the previous URL exactly when `previewUrl` changed |
| `App.Workflow.Select` | frontend/src/App.jsx:74-97 | the handler's setter calls end in the selection transition's state and keep the invariant |
| `App.Workflow.Clear` | frontend/src/App.jsx:249-258 | the Clear handler ends in the clear transition's state and keeps the invariant |
| `App.Workflow.SubmitStart` | frontend/src/App.jsx:131-147 | ends in the submit transition's state; it reports that a request went out exactly when a file was held |
| `App.Workflow.SubmitSucceed` | frontend/src/App.jsx:154-165 | ends in the success transition's state and keeps the invariant |
| `App.Workflow.SubmitFail` | frontend/src/App.jsx:149-165 | ends in the failure transition's state and keeps the invariant |
| `App.Workflow.OpenInfo` | frontend/src/App.jsx:277 | sets only `showInfo` |
| `App.Workflow.CloseInfo` | frontend/src/App.jsx:325 | clears only `showInfo` |
| `App.Workflow.Teardown` | frontend/src/App.jsx:61-67 | unmounting leaves no object URL live and keeps the invariant |

## Left out

- The network request (`FormData`, `fetch`, `response.text()`, `response.json()`, lines 140-154) is left out. Its outcome is a `Response` argument. A body that `response.json()` cannot parse arrives as `NetworkError` with the parser's message.
- Timestamps (`new Date().toISOString()`, `toLocaleTimeString`) are opaque string arguments.
- `ConfidenceFormat.FormatConfidence`: the number-to-string step and IEEE double arithmetic are not modelled. The result is exact hundredths of a percent computed over reals, not the string "82.35%".
- The width of the confidence bar (line 291) is left out, because it only affects rendering.
- A response that arrives after unmounting is left out. React drops such updates; every action here requires the component to be mounted.
- Drag-highlight state (lines 99-112 apart from the drop itself), the keyboard and file-dialog handlers (lines 118-129) and all markup and styling are left out. Their only effect on the workflow is which controls are usable, and `Enabled` records that.
- The `LESION_INFO` texts (lines 6-42) and the modal's lookup by label (line 330) are left out. The model only records whether the modal is visible.
- Whether the modal's overlay blocks clicks on other controls depends on styling that is not part of this model. So Clear and selection stay enabled while the modal is open.
- The backend (`backend/app.py`) is not part of this model: model loading, image preprocessing, the prediction and the HTTP routing. The labels a success carries are arbitrary strings.
- The file's content is not represented. Only its name, MIME type and size are carried, and the name is never inspected, as in the source.
