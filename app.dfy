/**
 * The `App` component (frontend/src/App.jsx:50-167, 249-258, 277, 321-351) as an object
 * whose fields are its `useState` slots. Each handler updates the fields one setter at a
 * time, in the order the source calls them, and is proved to end in the state that the
 * matching `UploadWorkflow` transition describes.
 */
module App {
  import opened Wrappers
  import opened FileValidation
  import opened PredictionHistory
  import opened PredictionClient
  import opened UploadWorkflow

  class Workflow {
    var file: Option<FileInfo>
    var previewUrl: Option<Handle>
    var isLoading: bool
    var error: string
    var result: Option<Entry>
    var history: seq<Entry>
    var showInfo: bool
    /** The browser's object-URL registry, which the component creates in and revokes from. */
    var urls: Urls
    ghost var mounted: bool
    ghost var issued: nat
    ghost var settled: nat

    ghost function View(): State
      reads this
    {
      State(file, previewUrl, isLoading, error, result, history, showInfo, urls,
            mounted, issued, settled)
    }

    ghost predicate Valid()
      reads this
    {
      Inv(View())
    }

    /** The first render: every slot at its `useState` initial value. */
    constructor ()
      ensures Valid() && View() == Init()
    {
      file, previewUrl, isLoading, error := None, None, false, "";
      result, history, showInfo := None, [], false;
      urls := Urls({}, 0);
      mounted, issued, settled := true, 0, 0;
    }

    /** `URL.revokeObjectURL(previewUrl)` when a preview URL is set. */
    method RevokeCurrent()
      modifies this`urls
      ensures urls == RevokePreview(old(urls), previewUrl)
    {
      if previewUrl.Some? {
        urls := Revoke(urls, previewUrl.value);
      }
    }

    /** Runs the cleanup of the `[previewUrl]` effect after `previewUrl` changed from `before`. */
    method RunEffectCleanup(before: Option<Handle>)
      modifies this`urls
      ensures urls == Cleanup(old(urls), before, previewUrl)
    {
      if before != previewUrl && before.Some? {
        urls := Revoke(urls, before.value);
      }
    }

    /** `handleFileSelection(fileList)`. */
    method Select(files: seq<FileInfo>)
      requires Valid() && mounted
      modifies this
      ensures Valid()
      ensures View() == AfterSelect(old(View()), files)
    {
      if files == [] {
        return;
      }
      var next := files[0];
      if next.mime !in AcceptedTypes {
        error := UnsupportedTypeMessage;
        return;
      }
      if next.size > MaxUploadBytes {
        error := TooLargeMessage;
        return;
      }
      ghost var before := View();
      error := "";
      result := None;
      RevokeCurrent();
      file := Some(next);
      var previous := previewUrl;
      var (u, h) := Create(urls);
      urls := u;
      previewUrl := Some(h);
      RunEffectCleanup(previous);
      SelectAccepted(before, files);
    }

    /** The Clear button. */
    method Clear()
      requires Valid() && mounted && !isLoading
      modifies this
      ensures Valid()
      ensures View() == AfterClear(old(View()))
    {
      ghost var before := View();
      RevokeCurrent();
      var previous := previewUrl;
      file := None;
      result := None;
      previewUrl := None;
      error := "";
      RunEffectCleanup(previous);
      ClearResets(before);
    }

    /** `submitPrediction` up to the `await`; `sent` tells whether a request went out. */
    method SubmitStart() returns (sent: bool)
      requires Valid() && mounted && !isLoading
      modifies this
      ensures Valid()
      ensures View() == AfterSubmitStart(old(View()))
      ensures sent <==> old(file).Some?
    {
      if file.None? {
        error := NoFileMessage;
        return false;
      }
      isLoading := true;
      error := "";
      issued := issued + 1;
      sent := true;
    }

    /** The `try` block after a successful response, then `finally`. */
    method SubmitSucceed(prediction: string, confidence: Option<real>, timestamp: string)
      requires Valid() && mounted && isLoading
      modifies this
      ensures Valid()
      ensures View() == AfterResponse(old(View()), Ok(prediction, confidence), timestamp)
    {
      var entry := Entry(prediction, confidence, timestamp);
      result := Some(entry);
      history := PushHistory(entry, history);
      isLoading := false;
      settled := settled + 1;
    }

    /** The `catch` block for an HTTP or thrown error, then `finally`. */
    method SubmitFail(response: Response, timestamp: string)
      requires Valid() && mounted && isLoading && !response.Ok?
      modifies this
      ensures Valid()
      ensures View() == AfterResponse(old(View()), response, timestamp)
    {
      error := ErrorMessage(response);
      isLoading := false;
      settled := settled + 1;
    }

    /** The Info button beside a result. */
    method OpenInfo()
      requires Valid() && mounted && result.Some?
      modifies this`showInfo
      ensures Valid()
      ensures View() == AfterOpenInfo(old(View()))
    {
      showInfo := true;
    }

    /** Any of the modal's close controls. */
    method CloseInfo()
      requires Valid() && mounted
      modifies this`showInfo
      ensures Valid()
      ensures View() == AfterCloseInfo(old(View()))
    {
      showInfo := false;
    }

    /** Unmounting: the effect cleanup revokes the current preview URL. */
    method Teardown()
      requires Valid() && mounted
      modifies this
      ensures Valid() && urls.live == {}
      ensures View() == AfterTeardown(old(View()))
    {
      RevokeCurrent();
      mounted := false;
    }
  }
}
