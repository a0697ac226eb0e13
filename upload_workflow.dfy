/**
 * The state of the `App` component (frontend/src/App.jsx:51-58) as a value, together with
 * the browser's registry of object URLs, and one function per transition. The class
 * `App.Workflow` performs the same transitions field by field and is proved against these
 * functions; the lemmas below state what each transition promises.
 */
module UploadWorkflow {
  import opened Wrappers
  import opened FileValidation
  import opened PredictionHistory
  import opened PredictionClient
  import opened ConfidenceFormat

  /** An object URL made by `URL.createObjectURL`; `previewUrl == ''` is `None`. */
  datatype Handle = Handle(id: nat)

  /** The browser's object URLs: the ones not yet revoked, and the next fresh identity. */
  datatype Urls = Urls(live: set<Handle>, next: nat)

  datatype State = State(
    file: Option<FileInfo>,
    previewUrl: Option<Handle>,
    isLoading: bool,
    error: string,
    result: Option<Entry>,
    history: seq<Entry>,
    showInfo: bool,
    urls: Urls,
    mounted: bool,     // false once the component has been unmounted
    issued: nat,       // prediction requests sent so far
    settled: nat)      // prediction requests whose outcome has been applied

  const NoFileMessage: string := "Please choose an image first."

  // ---------------------------------------------------------------------------
  // Object URLs

  /** `URL.createObjectURL`: a handle never issued before, now live. */
  function Create(u: Urls): (r: (Urls, Handle))
    ensures r.0.live == u.live + {r.1}
    ensures r.0.next > r.1.id >= u.next
  {
    (Urls(u.live + {Handle(u.next)}, u.next + 1), Handle(u.next))
  }

  /** `URL.revokeObjectURL`; revoking a handle that is no longer live changes nothing. */
  function Revoke(u: Urls, h: Handle): (r: Urls)
    ensures r.live == u.live - {h} && r.next == u.next
    ensures h !in u.live ==> r == u
  {
    Urls(u.live - {h}, u.next)
  }

  /** `if (previewUrl) URL.revokeObjectURL(previewUrl)`. */
  function RevokePreview(u: Urls, p: Option<Handle>): (r: Urls)
    ensures r.live == u.live - HandleSet(p) && r.next == u.next
  {
    if p.Some? then Revoke(u, p.value) else u
  }

  /** The cleanup of the effect keyed on `previewUrl` (lines 61-67): when the URL changed,
      the cleanup registered for the previous URL runs and revokes it. */
  function Cleanup(u: Urls, before: Option<Handle>, after: Option<Handle>): (r: Urls)
    ensures before == after ==> r == u
    ensures before != after ==> r.live == u.live - HandleSet(before)
    ensures r.next == u.next
  {
    if before != after then RevokePreview(u, before) else u
  }

  function HandleSet(p: Option<Handle>): (hs: set<Handle>)
  {
    if p.Some? then {p.value} else {}
  }

  // ---------------------------------------------------------------------------
  // Transitions

  /** The state right after the first render: nothing selected, nothing live. */
  function Init(): (s: State)
  {
    State(None, None, false, "", None, [], false, Urls({}, 0), true, 0, 0)
  }

  /** `handleFileSelection(fileList)` (lines 74-97); an absent or empty list is `[]`. */
  function AfterSelect(s: State, files: seq<FileInfo>): (r: State)
    ensures r.history == s.history && r.isLoading == s.isLoading && r.showInfo == s.showInfo
    ensures r.mounted == s.mounted && r.issued == s.issued && r.settled == s.settled
    ensures files != [] && !IsAccepted(files[0].mime, files[0].size) ==>
      r.file == s.file && r.previewUrl == s.previewUrl && r.result == s.result && r.urls == s.urls
    ensures r.file != s.file ==>
      files != [] && r.file == Some(files[0]) && IsAccepted(files[0].mime, files[0].size)
  {
    if files == [] then s
    else
      var f := files[0];
      match Validate(f.mime, f.size)
      case Rejected(reason) => s.(error := RejectionMessage(reason))
      case Accepted =>
        var (u, h) := Create(RevokePreview(s.urls, s.previewUrl));
        s.(error := "", result := None, file := Some(f), previewUrl := Some(h),
           urls := Cleanup(u, s.previewUrl, Some(h)))
  }

  /** The Clear button's handler (lines 249-258). */
  function AfterClear(s: State): (r: State)
    ensures r.urls.live == s.urls.live - HandleSet(s.previewUrl) && r.urls.next == s.urls.next
    ensures r.file.None? && r.previewUrl.None? && r.result.None? && r.error == ""
    ensures r.history == s.history && r.isLoading == s.isLoading && r.showInfo == s.showInfo
  {
    var u := RevokePreview(s.urls, s.previewUrl);
    s.(file := None, result := None, previewUrl := None, error := "",
       urls := Cleanup(u, s.previewUrl, None))
  }

  /** `submitPrediction` up to its `await` (lines 131-147). */
  function AfterSubmitStart(s: State): (r: State)
    ensures r.issued == s.issued + (if s.file.Some? then 1 else 0)
    ensures r.isLoading == (s.isLoading || s.file.Some?)
    ensures r.error != ""  <==> s.file.None?
    ensures r.file == s.file && r.previewUrl == s.previewUrl && r.urls == s.urls
    ensures r.result == s.result && r.history == s.history
  {
    if s.file.None? then s.(error := NoFileMessage)
    else s.(isLoading := true, error := "", issued := s.issued + 1)
  }

  /** `submitPrediction` after the request settled (lines 149-165), with the ISO time of
      completion as an opaque argument. */
  function AfterResponse(s: State, response: Response, timestamp: string): (r: State)
    ensures !r.isLoading && r.settled == s.settled + 1 && r.issued == s.issued
    ensures r.showInfo == s.showInfo && r.mounted == s.mounted
    ensures r.file == s.file && r.previewUrl == s.previewUrl && r.urls == s.urls
    ensures response.Ok? ==> r.result.Some? && r.error == s.error && |r.history| > 0
    ensures !response.Ok? ==> r.error != "" && r.result == s.result && r.history == s.history
  {
    var s' := s.(isLoading := false, settled := s.settled + 1);
    match response
    case Ok(prediction, confidence) =>
      var entry := Entry(prediction, confidence, timestamp);
      s'.(result := Some(entry), history := PushHistory(entry, s.history))
    case _ =>
      s'.(error := ErrorMessage(response))
  }

  /** The Info button (line 277). */
  function AfterOpenInfo(s: State): (r: State)
    ensures r.showInfo && r.(showInfo := s.showInfo) == s
  {
    s.(showInfo := true)
  }

  /** The modal's close controls (lines 321, 325, 351). */
  function AfterCloseInfo(s: State): (r: State)
    ensures !r.showInfo && r.(showInfo := s.showInfo) == s
  {
    s.(showInfo := false)
  }

  /** Unmounting the component: the pending effect cleanup revokes the current URL. */
  function AfterTeardown(s: State): (r: State)
    ensures !r.mounted && r.urls.live == s.urls.live - HandleSet(s.previewUrl)
    ensures r.(urls := s.urls, mounted := s.mounted) == s
  {
    s.(urls := RevokePreview(s.urls, s.previewUrl), mounted := false)
  }

  /** The information modal is on screen (line 320). */
  predicate ModalVisible(s: State)
  {
    s.showInfo && s.result.Some?
  }

  // ---------------------------------------------------------------------------
  // Actions and when the page lets the user take them

  datatype Action =
    | Select(files: seq<FileInfo>)
    | Clear
    | SubmitStart
    | Complete(response: Response, timestamp: string)
    | OpenInfo
    | CloseInfo
    | Teardown

  function Step(s: State, a: Action): (r: State)
  {
    match a
    case Select(files) => AfterSelect(s, files)
    case Clear => AfterClear(s)
    case SubmitStart => AfterSubmitStart(s)
    case Complete(response, timestamp) => AfterResponse(s, response, timestamp)
    case OpenInfo => AfterOpenInfo(s)
    case CloseInfo => AfterCloseInfo(s)
    case Teardown => AfterTeardown(s)
  }

  /** Guards enforced only by the page: Clear is disabled while loading (line 259) and Run
      Prediction while loading or without a file (line 242); the Info button exists only beside
      a result (lines 267-281) and the close controls only while the modal shows (lines 320-351);
      a completion needs a request in flight. Selection has no loading guard, because dropping
      a file on the drop zone (lines 99-103) is not disabled. Nothing happens after unmounting. */
  predicate Enabled(s: State, a: Action)
    ensures Enabled(s, a) ==> s.mounted
    ensures Enabled(s, a) && a.SubmitStart? ==> s.file.Some? && !s.isLoading
  {
    s.mounted &&
    match a
    case Clear => !s.isLoading
    case SubmitStart => !s.isLoading && s.file.Some?
    case Complete(_, _) => s.isLoading
    case OpenInfo => s.result.Some?
    case CloseInfo => ModalVisible(s)
    case _ => true
  }

  function Run(s: State, actions: seq<Action>): (r: State)
    decreases |actions|
  {
    if actions == [] then s else Run(Step(s, actions[0]), actions[1..])
  }

  predicate AllEnabled(s: State, actions: seq<Action>)
    decreases |actions|
  {
    actions == [] || (Enabled(s, actions[0]) && AllEnabled(Step(s, actions[0]), actions[1..]))
  }

  // ---------------------------------------------------------------------------
  // The invariant

  /** A file is held exactly when a preview URL is; the held file passed validation; while
      mounted the only live object URL is the current preview, and after unmounting none is;
      the log holds at most five entries; at most one request is outstanding, and one is
      exactly while loading. */
  predicate Inv(s: State)
    ensures Inv(s) ==> |s.urls.live| <= 1 && s.issued <= s.settled + 1
  {
    (s.file.Some? <==> s.previewUrl.Some?) &&
    (s.file.Some? ==> IsAccepted(s.file.value.mime, s.file.value.size)) &&
    (s.previewUrl.Some? ==> s.previewUrl.value.id < s.urls.next) &&
    s.urls.live == (if s.mounted then HandleSet(s.previewUrl) else {}) &&
    |s.history| <= HistoryLimit &&
    s.issued == s.settled + (if s.isLoading then 1 else 0)
  }

  lemma InitInv()
    ensures Inv(Init()) && Init().urls.live == {}
  {
  }

  lemma {:induction false} StepKeepsInv(s: State, a: Action)
    requires Inv(s) && Enabled(s, a)
    ensures Inv(Step(s, a))
  {
    match a
    case Select(files) =>
      if files != [] && Validate(files[0].mime, files[0].size).Accepted? {
        SelectAccepted(s, files);
      }
    case Clear => ClearResets(s);
    case _ =>
  }

  lemma {:induction false} RunKeepsInv(s: State, actions: seq<Action>)
    requires Inv(s) && AllEnabled(s, actions)
    ensures Inv(Run(s, actions))
    decreases |actions|
  {
    if actions != [] {
      StepKeepsInv(s, actions[0]);
      RunKeepsInv(Step(s, actions[0]), actions[1..]);
    }
  }

  lemma {:induction false} RunSnoc(s: State, actions: seq<Action>, a: Action)
    ensures Run(s, actions + [a]) == Step(Run(s, actions), a)
    ensures AllEnabled(s, actions + [a]) <==> AllEnabled(s, actions) && Enabled(Run(s, actions), a)
    decreases |actions|
  {
    if actions == [] {
      assert actions + [a] == [a];
    } else {
      assert (actions + [a])[1..] == actions[1..] + [a];
      RunSnoc(Step(s, actions[0]), actions[1..], a);
    }
  }

  /** In every state the page can reach, at most one object URL is live and at most one
      prediction request is outstanding. */
  lemma Reachable(actions: seq<Action>)
    requires AllEnabled(Init(), actions)
    ensures |Run(Init(), actions).urls.live| <= 1
    ensures Run(Init(), actions).issued - Run(Init(), actions).settled <= 1
  {
    InitInv();
    RunKeepsInv(Init(), actions);
  }

  /** No leak: whatever the user did, unmounting leaves no object URL live. */
  lemma TeardownLeavesNothingLive(actions: seq<Action>)
    requires AllEnabled(Init(), actions + [Teardown])
    ensures Run(Init(), actions + [Teardown]).urls.live == {}
  {
    RunSnoc(Init(), actions, Teardown);
    InitInv();
    RunKeepsInv(Init(), actions);
  }

  // ---------------------------------------------------------------------------
  // Successive predictions

  /** Pressing Run Prediction and receiving `e` as the answer. */
  function Cycle(e: Entry): (actions: seq<Action>)
  {
    [SubmitStart, Complete(Ok(e.prediction, e.confidence), e.timestamp)]
  }

  /** One successful prediction per entry, oldest first. */
  function Cycles(entries: seq<Entry>): (actions: seq<Action>)
    decreases |entries|
  {
    if entries == [] then []
    else Cycles(entries[..|entries| - 1]) + Cycle(entries[|entries| - 1])
  }

  lemma {:induction false} RunAppend(s: State, a: seq<Action>, b: seq<Action>)
    ensures Run(s, a + b) == Run(Run(s, a), b)
    ensures AllEnabled(s, a + b) <==> AllEnabled(s, a) && AllEnabled(Run(s, a), b)
    decreases |a|
  {
    if a == [] {
      assert a + b == b;
    } else {
      assert (a + b)[0] == a[0] && (a + b)[1..] == a[1..] + b;
      RunAppend(Step(s, a[0]), a[1..], b);
    }
  }

  /** With a file held and no request in flight, any run of successful predictions is allowed
      by the page, keeps the file, ends with the last answer as the result, and leaves the log
      that replaying those answers gives. */
  lemma {:induction false} CyclesReplay(s: State, entries: seq<Entry>)
    requires s.mounted && s.file.Some? && !s.isLoading
    ensures AllEnabled(s, Cycles(entries))
    ensures var r := Run(s, Cycles(entries));
      r.history == Replay(s.history, entries) && r.file == s.file && !r.isLoading && r.mounted &&
      (entries != [] ==> r.result == Some(entries[|entries| - 1]))
    decreases |entries|
  {
    if entries != [] {
      var init, e := entries[..|entries| - 1], entries[|entries| - 1];
      CyclesReplay(s, init);
      var m := Run(s, Cycles(init));
      RunAppend(s, Cycles(init), Cycle(e));
      var m1 := Step(m, SubmitStart);
      var m2 := Step(m1, Complete(Ok(e.prediction, e.confidence), e.timestamp));
      assert Cycle(e)[1..] == [Complete(Ok(e.prediction, e.confidence), e.timestamp)];
      assert Run(m1, Cycle(e)[1..]) == Run(m2, []);
      assert AllEnabled(m2, []);
    }
  }

  /** Six successful predictions on a freshly selected file: the log holds exactly the last five
      answers, newest first. */
  lemma SixPredictions(f: FileInfo, e1: Entry, e2: Entry, e3: Entry, e4: Entry, e5: Entry, e6: Entry)
    requires IsAccepted(f.mime, f.size)
    ensures var s := AfterSelect(Init(), [f]);
      var actions := Cycles([e1, e2, e3, e4, e5, e6]);
      AllEnabled(s, actions) && Run(s, actions).history == [e6, e5, e4, e3, e2] &&
      Run(s, actions).result == Some(e6)
  {
    var s := AfterSelect(Init(), [f]);
    CyclesReplay(s, [e1, e2, e3, e4, e5, e6]);
    SixSubmissions(e1, e2, e3, e4, e5, e6);
  }

  // ---------------------------------------------------------------------------
  // What each transition promises

  /** An absent or empty file list changes nothing at all. */
  lemma SelectNothing(s: State)
    ensures AfterSelect(s, []) == s
  {
  }

  /** A rejected candidate sets only the error message: the file, the preview, the earlier
      result, the log and the object URLs stay as they were. An unlisted type is rejected as
      such whatever its size. */
  lemma SelectRejected(s: State, files: seq<FileInfo>)
    requires files != [] && !IsAccepted(files[0].mime, files[0].size)
    ensures files[0].mime !in AcceptedTypes ==>
      AfterSelect(s, files) == s.(error := UnsupportedTypeMessage)
    ensures files[0].mime in AcceptedTypes ==>
      AfterSelect(s, files) == s.(error := TooLargeMessage)
  {
  }

  /** An accepted candidate clears the error and the result, becomes the file, and gets a new
      preview URL that is then the only live one; the previous URL is revoked. */
  lemma {:induction false} SelectAccepted(s: State, files: seq<FileInfo>)
    requires Inv(s) && s.mounted
    requires files != [] && IsAccepted(files[0].mime, files[0].size)
    ensures var r := AfterSelect(s, files);
      r.error == "" && r.result.None? && r.file == Some(files[0]) &&
      r.previewUrl.Some? && r.previewUrl != s.previewUrl && r.previewUrl.value.id >= s.urls.next &&
      r.urls.live == {r.previewUrl.value} &&
      (s.previewUrl.Some? ==> s.previewUrl.value !in r.urls.live) &&
      r.history == s.history && r.isLoading == s.isLoading && r.showInfo == s.showInfo &&
      Inv(r)
  {
    var u0 := RevokePreview(s.urls, s.previewUrl);
    assert u0.live == {} && u0.next == s.urls.next;
    var (u1, h) := Create(u0);
    if s.previewUrl.Some? {
      assert s.previewUrl.value.id < h.id;
    }
  }

  /** Clear empties the selection, the result, the preview and the error, leaves no object URL
      live, and keeps the log. */
  lemma {:induction false} ClearResets(s: State)
    requires Inv(s) && s.mounted
    ensures var r := AfterClear(s);
      r.file.None? && r.result.None? && r.previewUrl.None? && r.error == "" &&
      r.urls.live == {} && r.history == s.history && Inv(r)
  {
  }

  /** Without a file, submitting only sets the "choose an image" message: no request is sent,
      and loading, the result and the log are untouched. */
  lemma SubmitWithoutFile(s: State)
    requires s.file.None?
    ensures AfterSubmitStart(s) == s.(error := NoFileMessage)
    ensures AfterSubmitStart(s).issued == s.issued
  {
  }

  /** With a file, submitting sends exactly one request, shows loading and clears the error,
      but keeps any earlier result. */
  lemma SubmitWithFile(s: State)
    requires s.file.Some?
    ensures AfterSubmitStart(s) == s.(isLoading := true, error := "", issued := s.issued + 1)
    ensures AfterSubmitStart(s).result == s.result
  {
  }

  /** A success makes the new entry the result and the head of the log; the rest of the log is
      a prefix of the old log, at most five entries are kept, and loading ends. */
  lemma {:induction false} SucceedRecords(s: State, prediction: string, confidence: Option<real>, timestamp: string)
    ensures var r := AfterResponse(s, Ok(prediction, confidence), timestamp);
      var e := Entry(prediction, confidence, timestamp);
      r.result == Some(e) && r.history == PushHistory(e, s.history) &&
      |r.history| <= HistoryLimit && r.history[0] == e && r.history[1..] <= s.history &&
      !r.isLoading && r.file == s.file && r.previewUrl == s.previewUrl &&
      r.error == s.error && r.urls == s.urls && r.showInfo == s.showInfo && r.mounted == s.mounted
  {
  }

  /** A failure shows the server's text or the thrown message (with their fallbacks), ends
      loading, and keeps the file, the preview, the log and any earlier result. */
  lemma FailRecords(s: State, response: Response, timestamp: string)
    requires !response.Ok?
    ensures var r := AfterResponse(s, response, timestamp);
      r.error == ErrorMessage(response) && r.error != "" && !r.isLoading &&
      r.file == s.file && r.previewUrl == s.previewUrl && r.history == s.history &&
      r.result == s.result && r.urls == s.urls && r.showInfo == s.showInfo && r.mounted == s.mounted
  {
  }

  /** The two toggles of the information flag change nothing else. */
  lemma InfoTogglesOnlyFlag(s: State)
    ensures AfterOpenInfo(s) == s.(showInfo := true) && ModalVisible(AfterOpenInfo(s)) == s.result.Some?
    ensures AfterCloseInfo(s) == s.(showInfo := false) && !ModalVisible(AfterCloseInfo(s))
  {
  }

  /** Clear does not reset the information flag: the modal disappears with the result, and
      after a new selection the next successful prediction brings it back without the Info
      button being pressed. Every step is one the page allows. */
  lemma InfoFlagOutlivesResult(s: State, f: FileInfo, timestamp: string)
    requires Inv(s) && s.mounted && !s.isLoading && s.showInfo
    requires IsAccepted(f.mime, f.size)
    ensures !ModalVisible(AfterClear(s)) && AfterClear(s).showInfo
    ensures var actions := [Clear, Select([f]), SubmitStart, Complete(Ok("Melanoma (mel)", Some(0.87)), timestamp)];
      AllEnabled(s, actions) && ModalVisible(Run(s, actions))
  {
    var s1 := AfterClear(s);
    var s2 := AfterSelect(s1, [f]);
    var s3 := AfterSubmitStart(s2);
    var s4 := AfterResponse(s3, Ok("Melanoma (mel)", Some(0.87)), timestamp);
    var actions := [Clear, Select([f]), SubmitStart, Complete(Ok("Melanoma (mel)", Some(0.87)), timestamp)];
    assert actions[1..] == [Select([f]), SubmitStart, Complete(Ok("Melanoma (mel)", Some(0.87)), timestamp)];
    assert actions[1..][1..] == [SubmitStart, Complete(Ok("Melanoma (mel)", Some(0.87)), timestamp)];
    assert actions[1..][1..][1..] == [Complete(Ok("Melanoma (mel)", Some(0.87)), timestamp)];
    assert s2.file == Some(f) && s3.isLoading && s4.showInfo && s4.result.Some?;
    assert Run(s3, actions[1..][1..][1..]) == s4 && AllEnabled(s3, actions[1..][1..][1..]);
    assert Run(s2, actions[1..][1..]) == s4 && AllEnabled(s2, actions[1..][1..]);
    assert Run(s1, actions[1..]) == s4 && AllEnabled(s1, actions[1..]);
    assert Run(s, actions) == s4;
  }

  /** Unmounting revokes the current preview URL, so nothing is left live. */
  lemma TeardownReleases(s: State)
    requires Inv(s) && s.mounted
    ensures AfterTeardown(s).urls.live == {} && Inv(AfterTeardown(s))
  {
  }

  // ---------------------------------------------------------------------------
  // Worked scenarios

  /** A 12 MB PNG on a fresh page is refused for its size; nothing is selected and the log is
      still empty. */
  lemma OversizedPng()
    ensures var s := AfterSelect(Init(), [FileInfo("scan.png", "image/png", 12 * 1024 * 1024)]);
      s.file.None? && s.error == TooLargeMessage && s.history == []
  {
  }

  /** A 2 MB JPEG, submitted, answered with "Melanoma (mel)" at 0.87: one log entry, no error,
      and the result shows 87%. */
  lemma SuccessfulJpeg(timestamp: string)
    ensures var s1 := AfterSelect(Init(), [FileInfo("lesion.jpg", "image/jpeg", 2 * 1024 * 1024)]);
      var s2 := AfterSubmitStart(s1);
      var s3 := AfterResponse(s2, Ok("Melanoma (mel)", Some(0.87)), timestamp);
      s3.result == Some(Entry("Melanoma (mel)", Some(0.87), timestamp)) &&
      FormatConfidence(s3.result.value.confidence) == Percent(8700) &&
      |s3.history| == 1 && s3.error == "" && !s3.isLoading && s3.issued == 1
  {
    FormatExamples();
  }

  /** A 500 answer "model unavailable": the message is shown and the file is kept for a retry. */
  lemma ServerErrorKeepsFile(timestamp: string)
    ensures var f := FileInfo("lesion.jpg", "image/jpeg", 2 * 1024 * 1024);
      var s2 := AfterSubmitStart(AfterSelect(Init(), [f]));
      var s3 := AfterResponse(s2, HttpError("model unavailable"), timestamp);
      s3.error == "model unavailable" && s3.file == Some(f) && s3.history == [] && !s3.isLoading
  {
  }

  /** Error and result are not exclusive: a bad file dropped while a result is on screen leaves
      the result displayed beside the new error. */
  lemma ErrorBesideResult(timestamp: string)
    ensures var f := FileInfo("lesion.jpg", "image/jpeg", 2 * 1024 * 1024);
      var s3 := AfterResponse(AfterSubmitStart(AfterSelect(Init(), [f])), Ok("Dermatofibroma (df)", Some(0.5)), timestamp);
      var s4 := AfterSelect(s3, [FileInfo("notes.pdf", "application/pdf", 100)]);
      s4.error == UnsupportedTypeMessage && s4.result.Some?
  {
  }

  /** A file dropped while a request is in flight is accepted, and the answer for the earlier
      file then becomes the result shown beside the new file's preview. */
  lemma DropDuringRequest(timestamp: string)
    ensures var a := FileInfo("a.jpg", "image/jpeg", 1000);
      var b := FileInfo("b.png", "image/png", 2000);
      var s2 := AfterSubmitStart(AfterSelect(Init(), [a]));
      var s3 := AfterSelect(s2, [b]);
      var s4 := AfterResponse(s3, Ok("Melanoma (mel)", Some(0.9)), timestamp);
      Enabled(s2, Select([b])) && s4.file == Some(b) && s4.result.Some?
  {
  }
}
