# ckeditor5-file upload core in Dafny

This project models the behaviour of the CKEditor 5 file-upload plugin and
proves properties of that model. The plugin inserts an inline `file` node into
the document and uploads the file through a FileRepository loader. It keeps the
node's attributes and its editing view in step with the upload.

Four modules make up the model:

- `Engine` (`engine.dfy`) holds the framework values the plugin touches:
  - JavaScript attribute values (`undefined`, strings, booleans, integers), with truthiness and `String()`;
  - model attribute maps, where a missing key reads as `undefined`;
  - view nodes and picked files;
  - the decimal text of numbers, with a proved parse-back.
- `UploadCommand` (`upload_command.dfy`) models the `fileUpload` command.
  - One upload session is a state machine on values. `Step` moves it by one settlement of its promise chain: `read()` resolves, `upload()` resolves, or the chain rejects with the loader's status at that moment. `Run` applies a whole trace of settlements.
  - The class `FileUploadCommand` holds the shared editor state:
    - the inserted `file` nodes (a sequence of attribute maps);
    - the FileRepository's loader registry (a set of ids);
    - the notification log.
  - The class has the methods `Execute`, `UploadFile` and `InsertFile`. Each settlement has its own method (`ReadDone`, `UploadResolved`, `Rejected`), and `Clean` is the inner `clean()`. Each settlement method is proved to do to its node what `Step` says, and to leave every other node and session alone.
- `UploadProgress` (`upload_progress.dfy`) models the progress projector. It covers `uploadStatusChange` and its helpers over a view element, a class with a child sequence and a class set. Progress bars and completion icons are UI element objects with a mutable style map.
- `UploadEditing` (`upload_editing.dfy`) models the editing plugin:
  - `isHtmlIncluded`;
  - the clipboard-input listener's skip-and-filter rule;
  - the `file` schema;
  - the converter pair `createFileView` / upcast.

Three behaviours of the code differ from what one might expect, and the model
follows the code in each:

- **Rethrow.** A rejection whose loader status is neither `error` nor `aborted` rethrows before `clean()` (src/fileuploadcommand.js:86-88). The node keeps `uploadId` (and `uploadStatus`, if it was set), and the loader stays registered. This is the `Rethrown` phase.
- **`uploadId` without `uploadStatus`.** The code sets `uploadId` at insertion but sets `uploadStatus` only once `read()` resolves (src/fileuploadcommand.js:41-46, 67-72). So the two attributes are not present together in every state. What the model proves instead is that `uploadStatus` never stands without `uploadId`, and that `uploadId` is present exactly while the session has not cleaned up.
- **`href` is always text.** A view element stores every attribute value through `String()`. `createFileView` therefore writes `String(linkHref)`, and the round trip holds as an identity only for a string `linkHref`.

## Model

| member | source | states |
|---|---|---|
| UploadCommand.WithoutUploadAttributes | src/fileuploadcommand.js:101-105 | `clean()` drops exactly `uploadId` and `uploadStatus`; every other attribute keeps its value and none is added |
| UploadCommand.Start | src/fileuploadcommand.js:41-46 | the fresh placeholder satisfies the session invariant (name, empty `linkHref`, downloadable, `uploadId` = loader id), waits for `read()` and has no `uploadStatus` |
| UploadCommand.Step | src/fileuploadcommand.js:67-99 | each settlement cleans up exactly when it ends in a completed or cleaned phase, and rethrows exactly when the error is re-thrown; a clean-up leaves neither upload attribute; it shows at most one warning, and only when it cleans up; it changes no attribute other than `linkHref`, `uploadId` and `uploadStatus`; a rejection never touches `linkHref` |
| UploadCommand.StepPreservesInv | src/fileuploadcommand.js:67-108 | every settlement the promise chain can deliver preserves the session invariant |
| UploadCommand.ReadDoneMarksUploading | src/fileuploadcommand.js:67-74 | in every run from the placeholder, the settlement of `read()` leaves the node as the placeholder plus `uploadStatus` = 'uploading' while `upload()` is still pending; no clean-up has run and no warning has been shown |
| UploadCommand.SuccessOutcome | src/fileuploadcommand.js:76-82 | on success `linkHref` is the response's `default` URL, `name` is unchanged, both upload attributes are gone, and one clean-up ran with no warning |
| UploadCommand.ErrorOutcome | src/fileuploadcommand.js:91-98 | in every run from the placeholder ending with a rejection under loader status `error`: `clean()` has run exactly once; the node keeps only `name`, the empty `linkHref` and `linkIsDownloadable`; the run shows one warning titled "Upload failed" in namespace `upload` when the error is truthy, and none otherwise |
| UploadCommand.AbortedOutcome | src/fileuploadcommand.js:90-98 | in every run from the placeholder ending with a rejection under loader status `aborted`: `clean()` has run exactly once, the run shows no warning, and the node keeps only `name`, the empty `linkHref` and `linkIsDownloadable` |
| UploadCommand.UnexpectedRejectionOutcome | src/fileuploadcommand.js:84-88 | with any other loader status the error is rethrown; the node keeps all its attributes, including `uploadId`, and no clean-up runs |
| UploadCommand.FailedNode | src/fileuploadcommand.js:101-105 | cleaning a session that has not settled yet leaves exactly `name`, the empty `linkHref` and `linkIsDownloadable` |
| UploadCommand.RunFrom | src/fileuploadcommand.js:67-108 | over any feasible trace the invariant holds; the clean-up count equals the change in the cleaned-up state; warnings never outnumber clean-ups |
| UploadCommand.CleanupAtMostOnce | src/fileuploadcommand.js:76-108 | from the placeholder, any trace runs `clean()` at most once, and exactly once when the session ends completed or cleaned; it shows at most one warning |
| UploadCommand.NoUploadingWithoutRead | src/fileuploadcommand.js:67-74 | a trace without a `read()` resolution never sets `uploadStatus` |
| UploadCommand.UploadingOnlyAfterRead | src/fileuploadcommand.js:67-74 | if `uploadStatus` reads 'uploading' after a trace from the placeholder, `read()` resolved in that trace |
| UploadCommand.AtMostTwoSettlements | src/fileuploadcommand.js:67-99 | each promise of the chain settles once, so a session takes at most two settlements; a second one comes only after `read()` resolved, and it is not another `read()` |
| UploadCommand.RunSnoc | src/fileuploadcommand.js:67-99 | a feasible trace followed by one more settlement is feasible only if that settlement is enabled where the trace ended; the run then goes exactly one `Step` further |
| UploadCommand.Enabled | src/fileuploadcommand.js:67-99 | defines which settlement can arrive in each phase. Pending `read()`: it resolves, or the chain rejects. Pending `upload()`: it resolves, or the chain rejects. Once the session is completed, cleaned or has rethrown: nothing |
| UploadCommand.Placeholder | src/fileuploadcommand.js:41-46 | defines the attributes of the inserted node: `name`, `linkHref` = '', `linkIsDownloadable` = true and `uploadId` |
| UploadCommand.FilesToUpload | src/fileuploadcommand.js:13 | defines the list of files: a single file becomes a list of one, and a list is taken as it is |
| UploadCommand.FileUploadCommand.CreateLoader | src/fileuploadcommand.js:22-27 | without an upload adapter there is no loader and nothing changes; otherwise a fresh id is registered |
| UploadCommand.FileUploadCommand.Execute | src/fileuploadcommand.js:10-18 | one session per file of the list, in order (a single file counts as a list of one): each file gets a new placeholder node and its own loader id, with consecutive ids. The registry gains exactly those ids, and the next id moves past them. Without an upload adapter, no node is inserted, no loader is created and the next id stays. Earlier sessions stay tracked |
| UploadCommand.FileUploadCommand.UploadFile | src/fileuploadcommand.js:21-30 | without a loader, nothing is inserted and nothing is thrown; otherwise one placeholder is inserted for the new loader |
| UploadCommand.FileUploadCommand.InsertFile | src/fileuploadcommand.js:32-48 | the new node has `name` = file name, `linkHref` = '', `linkIsDownloadable` = true, `uploadId` = loader id and no `uploadStatus`, and is appended after the existing nodes |
| UploadCommand.FileUploadCommand.ReadDone | src/fileuploadcommand.js:67-75 | the node becomes what `Step` gives for a `read()` resolution; the other nodes and sessions are unaffected |
| UploadCommand.FileUploadCommand.UploadResolved | src/fileuploadcommand.js:76-82 | the node becomes what `Step` gives for the response; the loader is destroyed; the other nodes and sessions are unaffected |
| UploadCommand.FileUploadCommand.Rejected | src/fileuploadcommand.js:83-99 | the node becomes what `Step` gives for the rejection; the notification log grows by exactly `Step`'s warnings; the loader is destroyed exactly when the session cleaned up; the other nodes are unaffected |
| UploadCommand.FileUploadCommand.Clean | src/fileuploadcommand.js:101-108 | the node loses `uploadId` and `uploadStatus` and nothing else; the loader leaves the registry; the other sessions stay tracked |
| UploadProgress.FirstProgressBar | src/fileuploadprogress.js:160-166 | the index of the first child that is a `div` with class `ck-progress-bar`, or none when no child is one |
| UploadProgress.WithoutFirstProgressBar | src/fileuploadprogress.js:174-180 | exactly the first progress bar is removed and the other children keep their order; without a bar the children are unchanged |
| UploadProgress.IndexOf | src/fileuploadprogress.js:136 | the position of the first occurrence of a child, absent exactly when the child is not among the children |
| UploadProgress.StartAppearEffect | src/fileuploadprogress.js:84-88 | `ck-appear` is in the class set afterwards, and only it was added, so it is never duplicated |
| UploadProgress.StopAppearEffect | src/fileuploadprogress.js:94-96 | `ck-appear` is absent afterwards, and removing it when it is already absent changes nothing |
| UploadProgress.CreateProgressBar | src/fileuploadprogress.js:145-151 | a fresh `div` with class `ck-progress-bar`, carrying the `progressBar` custom property and no style |
| UploadProgress.ShowProgressBar | src/fileuploadprogress.js:105-115 | the new bar is appended as the last child; it listens for progress exactly when a loader is registered |
| UploadProgress.UploadedPercentChanged | src/fileuploadprogress.js:110-113 | the bar's `width` style becomes the percentage followed by `%`, and reads back as that percentage; other styles are kept |
| UploadProgress.ShowCompleteIcon | src/fileuploadprogress.js:130-134 | a fresh completion icon, which is not a progress bar, is appended as the last child |
| UploadProgress.GetUIElement | src/fileuploadprogress.js:160-166 | the loop returns the first child matched by tag and class, whatever `uniqueProperty` is, or nothing |
| UploadProgress.RemoveUIElement | src/fileuploadprogress.js:174-180 | the children become those with the first progress bar removed |
| UploadProgress.HideProgressBar | src/fileuploadprogress.js:121-123 | the children become those with the first progress bar removed |
| UploadProgress.UploadStatusChange | src/fileuploadprogress.js:44-77 | without the consumption token the view is unchanged. On 'uploading', `ck-appear` is added and a bar appended, and nothing is removed. On any other value, an icon is appended exactly when the value is 'complete' and the loader is registered; then the first bar and `ck-appear` are removed |
| UploadProgress.CompleteIconTimerFired | src/fileuploadprogress.js:135-137 | the timer removes the icon at its position and keeps the other children in order; it fails exactly when the icon is no longer a child |
| UploadProgress.PercentReadsBack | src/fileuploadprogress.js:112 | the `width` text written for a percentage parses back to that percentage |
| UploadProgress.NonBarsSurviveRemoval | src/fileuploadprogress.js:174-180 | a child that is not a progress bar is still present after the removal |
| UploadProgress.CompleteIconSurvivesRemoval | src/fileuploadprogress.js:160-166 | the completion icon is never matched as a progress bar, so it survives the clean-up |
| UploadProgress.RemovalSkipsAppended | src/fileuploadprogress.js:70-75 | appending a non-bar child (the icon) before the removal does not change which bar is removed |
| UploadProgress.DecorationsDoNotOutliveUpload | src/fileuploadprogress.js:60-77 | over a successful upload, 'uploading' adds a bar and 'complete' swaps it for the icon. The later removal of the status changes nothing, and the timer finds the icon and removes it, which restores the original children |
| UploadProgress.IconRemovalRestores | src/fileuploadprogress.js:135-137 | when the timer fires, the icon appended last (and absent before) is found at the end; removing it there gives back the earlier children |
| UploadProgress.BarSwappedForIcon | src/fileuploadprogress.js:70-76 | with one bar present, 'complete' leaves the children followed by the icon |
| UploadProgress.RemovalOfLastBar | src/fileuploadprogress.js:121-123 | when the only bar is the last child, the removal gives back the children before it |
| UploadProgress.NoBarAppended | src/fileuploadprogress.js:160-166 | appending a non-bar to children without a bar leaves no bar to find |
| UploadProgress.IndexOfAppended | src/fileuploadprogress.js:133-136 | the icon appended last is found at the last position |
| UploadProgress.IsProgressBar | src/fileuploadprogress.js:162 | defines the lookup test: a child element named `div` with class `ck-progress-bar`, whether content or a UI decoration |
| UploadProgress.LoaderRegistered | src/fileuploadprogress.js:61-70 | defines whether `fileRepository.loaders.get( uploadId )` finds a loader: the id is a registered loader id |
| UploadProgress.RepeatedUploadingLeavesABar | src/fileuploadprogress.js:60-67 | two 'uploading' changes append two bars, and one clean-up removes only the first |
| UploadEditing.TruthyFiles | src/fileuploadediting.js:48-51 | the filtered list holds exactly the present files, and is no longer than the input |
| UploadEditing.TruthyFilesAppend | src/fileuploadediting.js:48-51 | the filter keeps order: it distributes over concatenation |
| UploadEditing.TruthyFilesKeepsAll | src/fileuploadediting.js:48-51 | a list with no falsy entry passes the filter whole and in order |
| UploadEditing.OnClipboardInput | src/fileuploadediting.js:41-53 | with HTML included, no upload starts and the command is unchanged. Otherwise `fileUpload` runs with the filtered files in order, even when none is left. With an adapter, it starts one tracked session per file and registers exactly their loader ids. Without one, nothing changes |
| UploadEditing.IsHtmlIncluded | src/fileuploadediting.js:175-177 | defines the test: 'text/html' is among the declared types and the data stored for it is not the empty string |
| UploadEditing.HtmlInclusionFollowsHtmlData | src/fileuploadediting.js:175-177 | only the HTML payload decides. Storing HTML makes it included exactly when that HTML is non-empty. Storing any other type leaves the answer as it was. A transfer that carries only files never includes HTML |
| UploadEditing.FileAllowedIn | src/fileuploadediting.js:104-106 | defines placement: a `file` may stand exactly where text may |
| UploadEditing.FileAllowsAttribute | src/fileuploadediting.js:111-115 | defines the allowed attributes: `uploadStatus`, `uploadId` and `name`, plus any attribute text may carry |
| UploadEditing.PlaceholderAllowedIff | src/fileuploadediting.js:112-115 | every placeholder attribute is allowed exactly when text allows `linkHref` and `linkIsDownloadable` |
| UploadEditing.CreateFileView | src/fileuploadediting.js:152-167 | defines the view: an `a` element with class `file`, `href` = `String(linkHref)`, and a single text child holding `name` |
| UploadEditing.Upcast | src/fileuploadediting.js:122-133 | defines the upcast. An `a.file` element becomes a node with `linkHref` = `href` and `name` = the first child's data (undefined when that child is an element). An element with no children fails, because `getChild(0)` is undefined. Any other element is not matched |
| UploadEditing.RoundTrip | src/fileuploadediting.js:127-133 | upcasting the view of a node with a string `linkHref` gives back the same `linkHref` and `name` and no other attribute, so no upload attribute is carried |
| UploadEditing.RoundTripStringifiesHref | src/fileuploadediting.js:163 | any other `linkHref` comes back as its `String()` text, e.g. `undefined` as "undefined" |
| UploadEditing.ViewStableAfterRoundTrip | src/fileuploadediting.js:122-167 | downcasting the upcast of a view rebuilds the same view, whatever `linkHref` held |
| Engine.ToJsString | src/fileuploadediting.js:163 | `String()` keeps a string as it is, and writes a non-negative number as decimal digits that parse back to it |
| Engine.NatToString | src/fileuploadprogress.js:112 | a number's decimal text is non-empty, all digits and has no leading zero |
| Engine.ParseNatToString | src/fileuploadprogress.js:112 | the decimal text of a number parses back to that number |
| Engine.NatToStringInjective | src/fileuploadprogress.js:112 | different numbers never have the same decimal text |

## Left out

- The toolbar button and file dialog (src/fileuploadui.js) and plugin registration (src/index.js) are not part of this model.
- Framework internals are abstracted:
  - `model.change` / `enqueueChange` batching;
  - the mapper and `viewToModelPositionOutsideModelElement`;
  - the downcast dispatcher;
  - `toWidget` and the editing-only widget classes.
- The consumption token is a boolean parameter of `UploadStatusChange`. The view element is a parameter rather than being found through the mapper.
- The document is the sequence of inserted `file` nodes. The insertion position (the selection), other content, undo and the graveyard are not modelled. The commented-out re-upload block is dead code.
- Loader ids are integers handed out in order. FileRepository uses unique strings, so `uploadId` is a number here. `Collection.get` throwing on an id of the wrong type is not modelled.
- Promises, asynchronous scheduling and interleaving are left out. Each settlement is an event method on one session, and sessions touch disjoint nodes.
- The network upload, the upload adapter and the loader's own status changes are left out. The loader's status is a parameter of `Rejected`.
- The `read()` result and the response's `fileName` are not used by the code beyond the `default` URL, so they carry no meaning here.
- The 3000 ms timer is an explicit `CompleteIconTimerFired` event.
- Listener subscription lifetimes are left out. The progress listener of a bar is reported as `listening` rather than kept. The `TypeError` raised by `loader.on` when no loader is registered is that flag being false.
- `UploadedPercentChanged` takes a whole-number percentage. Fractional percentages and JavaScript's text for non-integers are not modelled.
- `Truthy` has no `NaN`, because numbers are unbounded integers.
- The `dragover` handler's `preventDefault`, CSS, the icon SVG and the localisation function `t()` are left out. The warning title is the untranslated text.
- `execute` with an `undefined` `options.file` is not modelled; the code wraps it into a one-element list holding `undefined`. `FileOption` holds only real files.
- `UploadEditing.OnClipboardInput`: the event's propagation and other listeners on `clipboardInput` are not modelled.
- The Collection/loader bookkeeping that FileRepository itself performs on `destroyLoader` is reduced to removing the id from the registry.
