/**
 * The `App` component's state and the handlers that change it: file
 * selection, removal, clearing, reset, "process again", tab switching,
 * submission, and the engine's line callback and completion. Creating and
 * revoking object URLs is modelled by adding to and removing from `live`.
 */
module Ui {
  import opened Wrappers
  import opened Dispatch
  import opened Naming
  import opened Progress
  import opened Validation

  datatype UiState = Init | Selected | Loading | ToBeDownloaded | Error

  /** The form, with the file picker, the roster's buttons and the submit button, is rendered only in these states. */
  predicate FormShown(s: UiState) {
    s != Loading && s != ToBeDownloaded && s != Error
  }

  datatype Link = Link(url: Url, filename: string, operation: Operation)

  function LinkUrls(links: seq<Link>): set<Url> {
    set l | l in links :: l.url
  }

  /** Every object URL in the roster was created for that entry alone. */
  predicate DistinctUrls(files: seq<Staged>) {
    forall i, j :: 0 <= i < j < |files| ==> files[i].url != files[j].url
  }

  /** How one awaited engine call ends, as `processPDF` sees it. */
  datatype Outcome =
    | EngineError(error: string)  // the result carries a (non-empty, so truthy) `error`
    | Thrown(message: string)     // the call or the download of its output threw; "" for no message
    | Produced(pdfUrl: Url)       // the output was fetched and given a fresh object URL

  const FallbackError := "An unexpected error occurred during processing"

  /** What the completion of a run keeps from the moment it was dispatched. */
  datatype Run = Run(request: Request, filename: string, splitRange: SplitRange)

  /** Appending a disjoint selection keeps every URL distinct and adds exactly its URLs. */
  lemma Appended(files: seq<Staged>, selected: seq<Staged>)
    requires DistinctUrls(files) && DistinctUrls(selected) && FileUrls(files) !! FileUrls(selected)
    ensures DistinctUrls(files + selected)
    ensures FileUrls(files + selected) == FileUrls(files) + FileUrls(selected)
  {
    var all := files + selected;
    forall a, b | 0 <= a < b < |all| ensures all[a].url != all[b].url {
      if b < |files| {
      } else if a >= |files| {
        assert all[a] == selected[a - |files|] && all[b] == selected[b - |files|];
      } else {
        assert all[a] == files[a] && all[a].url in FileUrls(files);
        assert all[b] == selected[b - |files|] && all[b].url in FileUrls(selected);
      }
    }
  }

  /** Entry k of the roster without entry i is entry k, or k + 1 from i on, of the roster. */
  lemma RemovedIndex(files: seq<Staged>, i: nat, k: nat)
    requires i < |files| && k < |files| - 1
    ensures (files[..i] + files[i + 1..])[k] == files[if k < i then k else k + 1]
  {
  }

  /** Dropping entry i of a roster with distinct URLs keeps them distinct and loses exactly that URL. */
  lemma RemovedEntry(files: seq<Staged>, i: nat)
    requires DistinctUrls(files) && i < |files|
    ensures DistinctUrls(files[..i] + files[i + 1..])
    ensures FileUrls(files[..i] + files[i + 1..]) == FileUrls(files) - {files[i].url}
  {
    var kept := files[..i] + files[i + 1..];
    forall a, b | 0 <= a < b < |kept| ensures kept[a].url != kept[b].url {
      RemovedIndex(files, i, a);
      RemovedIndex(files, i, b);
    }
    forall u | u in FileUrls(files) - {files[i].url} ensures u in FileUrls(kept) {
      var k :| 0 <= k < |files| && files[k].url == u;
      var k' := if k < i then k else k - 1;
      RemovedIndex(files, i, k');
      assert kept[k'] in kept;
    }
    forall u | u in FileUrls(kept) ensures u in FileUrls(files) - {files[i].url} {
      var k :| 0 <= k < |kept| && kept[k].url == u;
      RemovedIndex(files, i, k);
      var k' := if k < i then k else k + 1;
      assert files[k'] in files;
    }
  }

  class App {
    var activeTab: Operation
    var state: UiState
    var files: seq<Staged>
    var downloadLinks: seq<Link>
    var options: Options
    var errorMessage: string
    var terminalData: string
    var progressInfo: ProgressInfo
    /** The object URLs created and not yet revoked. */
    var live: set<Url>

    /**
     * Exactly the URLs held by the roster and the download links are live,
     * each held once; only the result screen can show links, and the
     * initial screen has an empty roster.
     */
    ghost predicate Valid()
      reads this
    {
      live == FileUrls(files) + LinkUrls(downloadLinks) &&
      DistinctUrls(files) && FileUrls(files) !! LinkUrls(downloadLinks) &&
      |downloadLinks| <= 1 &&
      (state == Init ==> files == []) &&
      (FormShown(state) || state == Loading ==> downloadLinks == [])
    }

    constructor ()
      ensures Valid()
      ensures activeTab == Compress && state == Init && files == [] && downloadLinks == [] && live == {}
      ensures options == InitialOptions && errorMessage == "" && terminalData == "" && progressInfo == Zero
    {
      activeTab := Compress;
      state := Init;
      files := [];
      downloadLinks := [];
      options := InitialOptions;
      errorMessage := "";
      terminalData := "";
      progressInfo := Zero;
      live := {};
    }

    /** `files.forEach(file => revokeObjectURL(file.url))` */
    method RevokeFiles(fs: seq<Staged>)
      modifies this`live
      ensures live == old(live) - FileUrls(fs)
    {
      var i := 0;
      while i < |fs|
        invariant 0 <= i <= |fs|
        invariant live == old(live) - FileUrls(fs[..i])
      {
        assert FileUrls(fs[..i + 1]) == FileUrls(fs[..i]) + {fs[i].url} by {
          assert fs[..i + 1] == fs[..i] + [fs[i]];
        }
        live := live - {fs[i].url};
        i := i + 1;
      }
      assert fs[..i] == fs;
    }

    /** `downloadLinks.forEach(link => revokeObjectURL(link.url))` */
    method RevokeLinks(ls: seq<Link>)
      modifies this`live
      ensures live == old(live) - LinkUrls(ls)
    {
      var i := 0;
      while i < |ls|
        invariant 0 <= i <= |ls|
        invariant live == old(live) - LinkUrls(ls[..i])
      {
        assert LinkUrls(ls[..i + 1]) == LinkUrls(ls[..i]) + {ls[i].url} by {
          assert ls[..i + 1] == ls[..i] + [ls[i]];
        }
        live := live - {ls[i].url};
        i := i + 1;
      }
      assert ls[..i] == ls;
    }

    /**
     * `changeHandler`: the picked files, each with a fresh object URL. A
     * merge appends them and revokes nothing; the other tabs revoke every
     * staged URL and keep only the first pick (their picker takes one file).
     */
    method SelectFiles(selected: seq<Staged>)
      requires Valid() && FormShown(state)
      requires DistinctUrls(selected) && FileUrls(selected) !! live
      requires activeTab != Merge ==> |selected| <= 1
      modifies this
      ensures Valid()
      ensures state == Selected
      ensures activeTab == Merge ==> files == old(files) + selected && live == old(live) + FileUrls(selected)
      ensures activeTab != Merge ==> files == selected && live == FileUrls(selected)
      ensures activeTab != Merge ==> old(live) !! live
      ensures activeTab == old(activeTab) && downloadLinks == old(downloadLinks) && options == old(options)
      ensures errorMessage == old(errorMessage) && terminalData == old(terminalData) && progressInfo == old(progressInfo)
    {
      live := live + FileUrls(selected);
      if activeTab == Merge {
        Appended(files, selected);
        files := files + selected;
      } else {
        RevokeFiles(files);
        files := if |selected| > 0 then selected[..1] else [];
        assert files == selected;
      }
      state := Selected;
    }

    /** `removeFile(i)`: entry i goes, the others keep their order, and only its URL is revoked. */
    method RemoveFile(i: nat)
      requires Valid() && FormShown(state) && i < |files|
      modifies this
      ensures Valid()
      ensures files == old(files[..i] + files[i + 1..])
      ensures live == old(live) - {old(files[i].url)}
      ensures state == if |old(files)| == 1 then Init else old(state)
      ensures activeTab == old(activeTab) && downloadLinks == old(downloadLinks) && options == old(options)
      ensures errorMessage == old(errorMessage) && terminalData == old(terminalData) && progressInfo == old(progressInfo)
    {
      var gone := files[i].url;
      var kept := files[..i] + files[i + 1..];
      RemovedEntry(files, i);
      if |files| == 1 {
        state := Init;
      }
      files := kept;
      live := live - {gone};
    }

    /** `clearAllFiles`: every staged URL is revoked and the roster emptied. */
    method ClearAllFiles()
      requires Valid() && FormShown(state)
      modifies this
      ensures Valid()
      ensures files == [] && state == Init
      ensures live == old(live) - old(FileUrls(files)) && live == {}
      ensures activeTab == old(activeTab) && downloadLinks == old(downloadLinks) && options == old(options)
      ensures errorMessage == old(errorMessage) && terminalData == old(terminalData) && progressInfo == old(progressInfo)
    {
      RevokeFiles(files);
      files := [];
      state := Init;
    }

    /**
     * `resetForm`: every staged and every download URL is revoked, both
     * lists emptied, the range, the advanced settings, the message, the
     * terminal text and the counters reset; the other options are kept.
     */
    method ResetForm()
      requires Valid()
      modifies this
      ensures Valid()
      ensures files == [] && downloadLinks == [] && state == Init
      ensures live == old(live) - old(FileUrls(files)) - old(LinkUrls(downloadLinks)) && live == {}
      ensures options == old(options).(splitRange := EmptyRange, useAdvancedSettings := false, advancedSettings := DefaultAdvanced)
      ensures errorMessage == "" && terminalData == "" && progressInfo == Zero
      ensures activeTab == old(activeTab)
    {
      RevokeFiles(files);
      RevokeLinks(downloadLinks);
      files := [];
      downloadLinks := [];
      state := Init;
      options := options.(splitRange := EmptyRange, useAdvancedSettings := false, advancedSettings := DefaultAdvanced);
      errorMessage := "";
      terminalData := "";
      progressInfo := Zero;
    }

    /** `processAgain`: the roster is kept, the download URLs revoked and dropped, and the form shown again. */
    method ProcessAgain()
      requires Valid() && state == ToBeDownloaded
      modifies this
      ensures Valid()
      ensures files == old(files) && downloadLinks == [] && state == Selected
      ensures live == old(live) - old(LinkUrls(downloadLinks)) && live == FileUrls(files)
      ensures errorMessage == "" && terminalData == "" && progressInfo == Zero
      ensures activeTab == old(activeTab) && options == old(options)
    {
      RevokeLinks(downloadLinks);
      downloadLinks := [];
      state := Selected;
      errorMessage := "";
      terminalData := "";
      progressInfo := Zero;
    }

    /** A tab button: choosing another tab resets the form; choosing the active one does nothing. */
    method SwitchTab(tab: Operation)
      requires Valid()
      modifies this
      ensures Valid()
      ensures activeTab == tab
      ensures old(activeTab) != tab ==>
        files == [] && downloadLinks == [] && live == {} && state == Init &&
        options == old(options).(splitRange := EmptyRange, useAdvancedSettings := false, advancedSettings := DefaultAdvanced) &&
        errorMessage == "" && terminalData == "" && progressInfo == Zero
      ensures old(activeTab) == tab ==>
        files == old(files) && downloadLinks == old(downloadLinks) && live == old(live) && state == old(state) &&
        options == old(options) && errorMessage == old(errorMessage) && terminalData == old(terminalData) &&
        progressInfo == old(progressInfo)
    {
      if activeTab != tab {
        activeTab := tab;
        ResetForm();
      }
    }

    /** The settings controls, each of which replaces one option. */
    method SetOptions(o: Options)
      requires Valid() && FormShown(state)
      modifies this`options
      ensures Valid()
      ensures options == o
    {
      options := o;
    }

    /**
     * `onSubmit`: the checks decide; only an accepted submission starts a
     * run, which shows the loading screen with empty terminal text and zero
     * counters and sends the request built from the current state.
     */
    method Submit() returns (verdict: Verdict, run: Option<Run>)
      requires Valid() && FormShown(state)
      modifies this
      ensures Valid()
      ensures verdict == Validate(activeTab, |files|, options.splitRange, options.useCustomCommand, options.customCommand)
      ensures files == old(files) && downloadLinks == old(downloadLinks) && live == old(live)
      ensures activeTab == old(activeTab) && options == old(options) && errorMessage == old(errorMessage)
      ensures verdict != Accepted ==>
        run == None && state == old(state) && terminalData == old(terminalData) && progressInfo == old(progressInfo)
      ensures verdict == Accepted ==>
        files != [] && state == Loading && terminalData == "" && progressInfo == Zero &&
        run == Some(Run(BuildRequest(activeTab, options, files), PrimaryFilename(files), options.splitRange))
    {
      verdict := Validate(activeTab, |files|, options.splitRange, options.useCustomCommand, options.customCommand);
      if verdict != Accepted {
        return verdict, None;
      }
      var filename := PrimaryFilename(files);
      state := Loading;
      terminalData := "";
      progressInfo := Zero;
      var request := BuildRequest(activeTab, options, files);
      run := Some(Run(request, filename, options.splitRange));
    }

    /** The line callback of a run: echo the line and/or feed it to the progress reducer, as the run was asked to. */
    method OnOutputLine(run: Run, line: string)
      requires Valid()
      modifies this`terminalData, this`progressInfo
      ensures Valid()
      ensures terminalData == if run.request.showTerminalOutput then old(terminalData) + line + "\n" else old(terminalData)
      ensures progressInfo == if run.request.showProgressBar then Step(old(progressInfo), line) else old(progressInfo)
    {
      if run.request.showTerminalOutput {
        terminalData := terminalData + line + "\n";
      }
      if run.request.showProgressBar {
        progressInfo := Step(progressInfo, line);
      }
    }

    /**
     * The end of a run. An engine error or a thrown exception shows the
     * error screen with its message; a produced output becomes the single
     * download link, named for the run's operation. Either way the terminal
     * text and the counters are cleared.
     */
    method Finish(run: Run, outcome: Outcome, now: nat)
      requires Valid()
      requires outcome.EngineError? ==> outcome.error != ""
      requires outcome.Produced? ==> outcome.pdfUrl !in live && downloadLinks == []
      modifies this
      ensures Valid()
      ensures terminalData == "" && progressInfo == Zero
      ensures files == old(files) && activeTab == old(activeTab) && options == old(options)
      ensures outcome.EngineError? ==>
        state == Error && errorMessage == outcome.error && downloadLinks == old(downloadLinks) && live == old(live)
      ensures outcome.Thrown? ==>
        state == Error && downloadLinks == old(downloadLinks) && live == old(live) &&
        errorMessage == (if outcome.message != "" then outcome.message else FallbackError)
      ensures outcome.Produced? ==>
        state == ToBeDownloaded && errorMessage == old(errorMessage) && live == old(live) + {outcome.pdfUrl} &&
        downloadLinks == [Link(outcome.pdfUrl, OutputFilename(run.filename, run.request.operation.Name(), run.splitRange, now), run.request.operation)]
    {
      terminalData := "";
      progressInfo := Zero;
      match outcome
      case EngineError(e) =>
        state := Error;
        errorMessage := e;
      case Thrown(m) =>
        state := Error;
        errorMessage := if m != "" then m else FallbackError;
      case Produced(url) =>
        live := live + {url};
        var op := run.request.operation;
        downloadLinks := [Link(url, OutputFilename(run.filename, op.Name(), run.splitRange, now), op)];
        state := ToBeDownloaded;
    }
  }
}
