/**
 * The `fileUpload` command: one upload session per file, each binding a
 * placeholder `file` node to a FileRepository loader and driving the node's
 * attributes as the loader's promises settle.
 *
 * The promise chain of one session
 *   read().then(start upload, mark 'uploading').then(success).catch(failure)
 * is modelled as a state machine whose events are the three ways a pending
 * promise can settle: `read()` resolves, `upload()` resolves, or the chain
 * rejects. `Step` is that machine on values; the class `FileUploadCommand`
 * keeps the shared editor state (document nodes, loader registry,
 * notification log) and has one method per event, each proved to do what
 * `Step` says to the session's own node and nothing to any other node.
 */
module UploadCommand {
  import opened Engine

  // Attribute keys of a `file` node.
  const NAME := "name"
  const LINK_HREF := "linkHref"
  const LINK_IS_DOWNLOADABLE := "linkIsDownloadable"
  const UPLOAD_ID := "uploadId"
  const UPLOAD_STATUS := "uploadStatus"

  // Values of `uploadStatus`.
  const UPLOADING := "uploading"
  const COMPLETE := "complete"

  // The warning shown when an upload fails.
  const UPLOAD_FAILED := "Upload failed"
  const UPLOAD_NAMESPACE := "upload"

  /** `options.file`: a single file or an array of files. */
  datatype FileOption = One(file: File) | Many(files: seq<File>)

  /** A non-array `options.file` is wrapped into a one-element list. */
  function FilesToUpload(option: FileOption): seq<File> {
    match option
    case One(f) => [f]
    case Many(fs) => fs
  }

  /** The `status` of a FileRepository loader. */
  datatype LoaderStatus = Idle | Reading | Uploading | Error | Aborted

  /** What `upload()` resolves with: `{ default: url, fileName }`. */
  datatype UploadResponse = UploadResponse(defaultUrl: Value, fileName: Value)

  /** A notification shown with `showWarning( message, { title, namespace } )`. */
  datatype Notification = Warning(message: Value, title: string, namespace: string)

  datatype Phase =
    | AwaitingRead    // placeholder inserted, `read()` pending
    | AwaitingUpload  // `read()` resolved, `upload()` pending
    | Completed       // `upload()` resolved; cleaned up
    | Cleaned         // rejected while the loader was 'error' or 'aborted'; cleaned up
    | Rethrown        // rejected with any other loader status; error re-thrown, no clean-up

  /** The ways one pending promise of the chain can settle. */
  datatype Event =
    | ReadDone
    | UploadResolved(response: UploadResponse)
    | Rejected(status: LoaderStatus, error: Value)

  /** What a step does outside the node: warnings shown, whether `clean()` ran, whether the error escaped. */
  datatype Effect = Effect(warnings: seq<Notification>, cleaned: bool, rethrown: bool)

  /** One session as its node sees it: the node's attributes and how far the chain has got. */
  datatype Session = Session(attrs: Attributes, phase: Phase)

  /** The attributes `insertFile` creates the `file` element with. */
  function Placeholder(file: File, loaderId: int): Attributes {
    map[NAME := Str(file.name), LINK_HREF := Str(""), LINK_IS_DOWNLOADABLE := Bool(true), UPLOAD_ID := Num(loaderId)]
  }

  /** `clean()` on the node: `uploadId` and `uploadStatus` go, every other attribute stays as it was. */
  function WithoutUploadAttributes(attrs: Attributes): (r: Attributes)
    ensures UPLOAD_ID !in r && UPLOAD_STATUS !in r
    ensures forall k :: k in attrs && k != UPLOAD_ID && k != UPLOAD_STATUS ==> k in r && r[k] == attrs[k]
    ensures forall k :: k in r ==> k in attrs
  {
    attrs - {UPLOAD_ID, UPLOAD_STATUS}
  }

  predicate IsCleanedUp(p: Phase) {
    p == Completed || p == Cleaned
  }

  /** Which settlements the promise chain can deliver in each phase (a `read()` rejection also reaches `.catch`). */
  predicate Enabled(p: Phase, e: Event) {
    match p
    case AwaitingRead => e.ReadDone? || e.Rejected?
    case AwaitingUpload => e.UploadResolved? || e.Rejected?
    case _ => false
  }

  /** The rejection handler's first test: a loader status other than 'error' or 'aborted' re-throws. */
  predicate IsExpectedFailure(status: LoaderStatus) {
    status == Error || status == Aborted
  }

  /** One settlement of the session's promise chain. */
  function Step(s: Session, e: Event): (r: (Session, Effect))
    requires Enabled(s.phase, e)
    ensures r.1.cleaned <==> IsCleanedUp(r.0.phase)
    ensures r.1.rethrown <==> r.0.phase == Rethrown
    ensures r.1.cleaned ==> UPLOAD_ID !in r.0.attrs && UPLOAD_STATUS !in r.0.attrs
    ensures !r.1.cleaned ==> forall k :: k in s.attrs ==> k in r.0.attrs
    ensures |r.1.warnings| <= 1 && (r.1.warnings != [] ==> r.1.cleaned)
    ensures forall k :: k in s.attrs && k != LINK_HREF && k != UPLOAD_ID && k != UPLOAD_STATUS
                        ==> k in r.0.attrs && r.0.attrs[k] == s.attrs[k]
    ensures e.Rejected? ==> GetAttribute(r.0.attrs, LINK_HREF) == GetAttribute(s.attrs, LINK_HREF)
  {
    match e
    case ReadDone =>
      (Session(s.attrs[UPLOAD_STATUS := Str(UPLOADING)], AwaitingUpload), Effect([], false, false))
    case UploadResolved(response) =>
      var done := s.attrs[LINK_HREF := response.defaultUrl][UPLOAD_STATUS := Str(COMPLETE)];
      (Session(WithoutUploadAttributes(done), Completed), Effect([], true, false))
    case Rejected(status, error) =>
      if !IsExpectedFailure(status) then
        (Session(s.attrs, Rethrown), Effect([], false, true))
      else
        var warnings := if status == Error && Truthy(error) then [Warning(error, UPLOAD_FAILED, UPLOAD_NAMESPACE)] else [];
        (Session(WithoutUploadAttributes(s.attrs), Cleaned), Effect(warnings, true, false))
  }

  /**
   * What holds of a session's node in every phase: it carries no attribute
   * beyond the five the plugin writes; the name and the download flag never
   * change; `uploadStatus` never stands without
   * `uploadId`; `uploadId` is present exactly while the session has not
   * cleaned up, and then holds the loader's id; `linkHref` is empty unless
   * the upload resolved.
   */
  predicate Inv(s: Session, file: File, loaderId: int) {
    && s.attrs.Keys <= {NAME, LINK_HREF, LINK_IS_DOWNLOADABLE, UPLOAD_ID, UPLOAD_STATUS}
    && GetAttribute(s.attrs, NAME) == Str(file.name)
    && GetAttribute(s.attrs, LINK_IS_DOWNLOADABLE) == Bool(true)
    && (UPLOAD_STATUS in s.attrs ==> UPLOAD_ID in s.attrs)
    && (UPLOAD_ID in s.attrs <==> !IsCleanedUp(s.phase))
    && (UPLOAD_ID in s.attrs ==> s.attrs[UPLOAD_ID] == Num(loaderId))
    && (s.phase != Completed ==> GetAttribute(s.attrs, LINK_HREF) == Str(""))
    && match s.phase
       case AwaitingRead => UPLOAD_STATUS !in s.attrs
       case AwaitingUpload => GetAttribute(s.attrs, UPLOAD_STATUS) == Str(UPLOADING)
       case Rethrown => GetAttribute(s.attrs, UPLOAD_STATUS) in {Undefined, Str(UPLOADING)}
       case _ => true
  }

  /** The session right after `insertFile`: the placeholder node, `read()` pending, no `uploadStatus` yet. */
  function Start(file: File, loaderId: int): (s: Session)
    ensures Inv(s, file, loaderId) && s.phase == AwaitingRead
    ensures UPLOAD_STATUS !in s.attrs
  {
    Session(Placeholder(file, loaderId), AwaitingRead)
  }

  lemma StepPreservesInv(s: Session, e: Event, file: File, loaderId: int)
    requires Inv(s, file, loaderId) && Enabled(s.phase, e)
    ensures Inv(Step(s, e).0, file, loaderId)
  {
  }

  // ---------------------------------------------------------------------
  // The single-event outcomes of the success and rethrow handlers.
  // ---------------------------------------------------------------------

  lemma SuccessOutcome(s: Session, file: File, loaderId: int, response: UploadResponse)
    requires Inv(s, file, loaderId) && s.phase == AwaitingUpload
    ensures var (t, eff) := Step(s, UploadResolved(response));
      && t.phase == Completed
      && GetAttribute(t.attrs, LINK_HREF) == response.defaultUrl
      && GetAttribute(t.attrs, NAME) == Str(file.name)
      && UPLOAD_ID !in t.attrs && UPLOAD_STATUS !in t.attrs
      && eff == Effect([], true, false)
  {
  }

  lemma UnexpectedRejectionOutcome(s: Session, file: File, loaderId: int, status: LoaderStatus, error: Value)
    requires Inv(s, file, loaderId) && Enabled(s.phase, Rejected(status, error))
    requires status != Error && status != Aborted
    ensures var (t, eff) := Step(s, Rejected(status, error));
      && t.attrs == s.attrs
      && GetAttribute(t.attrs, UPLOAD_ID) == Num(loaderId)
      && eff == Effect([], false, true)
  {
  }

  // ---------------------------------------------------------------------
  // Whole runs of one session.
  // ---------------------------------------------------------------------

  /** The events can be delivered, one after another, by the promise chain. */
  predicate Feasible(s: Session, events: seq<Event>)
    decreases |events|
  {
    events == [] || (Enabled(s.phase, events[0]) && Feasible(Step(s, events[0]).0, events[1..]))
  }

  /** The session after the events, with the effect of each step in order. */
  function Run(s: Session, events: seq<Event>): (r: (Session, seq<Effect>))
    requires Feasible(s, events)
    ensures |r.1| == |events|
    decreases |events|
  {
    if events == [] then (s, [])
    else
      var (next, effect) := Step(s, events[0]);
      var (last, effects) := Run(next, events[1..]);
      (last, [effect] + effects)
  }

  /** How many steps called `clean()`. */
  function Cleanups(effects: seq<Effect>): nat {
    if effects == [] then 0 else (if effects[0].cleaned then 1 else 0) + Cleanups(effects[1..])
  }

  /** How many warnings the steps showed. */
  function WarningCount(effects: seq<Effect>): nat {
    if effects == [] then 0 else |effects[0].warnings| + WarningCount(effects[1..])
  }

  lemma {:induction false} RunFrom(s: Session, events: seq<Event>, file: File, loaderId: int)
    requires Inv(s, file, loaderId) && Feasible(s, events)
    ensures var (last, effects) := Run(s, events);
      && Inv(last, file, loaderId)
      && Cleanups(effects) + (if IsCleanedUp(s.phase) then 1 else 0) == (if IsCleanedUp(last.phase) then 1 else 0)
      && WarningCount(effects) <= Cleanups(effects)
    decreases |events|
  {
    if events != [] {
      StepPreservesInv(s, events[0], file, loaderId);
      RunFrom(Step(s, events[0]).0, events[1..], file, loaderId);
    }
  }

  /**
   * Every run of a session keeps `Inv`; `clean()` runs at most once, and
   * exactly once when the session ends completed or cleaned; at most one
   * warning is ever shown.
   */
  lemma {:induction false} CleanupAtMostOnce(file: File, loaderId: int, events: seq<Event>)
    requires Feasible(Start(file, loaderId), events)
    ensures var (last, effects) := Run(Start(file, loaderId), events);
      && Inv(last, file, loaderId)
      && Cleanups(effects) <= 1
      && (Cleanups(effects) == 1 <==> IsCleanedUp(last.phase))
      && WarningCount(effects) <= 1
  {
    RunFrom(Start(file, loaderId), events, file, loaderId);
  }

  lemma {:induction false} NoUploadingWithoutRead(s: Session, events: seq<Event>)
    requires Feasible(s, events) && UPLOAD_STATUS !in s.attrs && ReadDone !in events
    ensures UPLOAD_STATUS !in Run(s, events).0.attrs
    decreases |events|
  {
    if events != [] {
      assert events[0] != ReadDone;
      assert ReadDone !in events[1..] by {
        forall i | 0 <= i < |events[1..]| ensures events[1..][i] != ReadDone {
          assert events[1..][i] == events[i + 1];
        }
      }
      NoUploadingWithoutRead(Step(s, events[0]).0, events[1..]);
    }
  }

  /** `uploadStatus` reads 'uploading' only in runs where `read()` has resolved. */
  lemma UploadingOnlyAfterRead(file: File, loaderId: int, events: seq<Event>)
    requires Feasible(Start(file, loaderId), events)
    requires GetAttribute(Run(Start(file, loaderId), events).0.attrs, UPLOAD_STATUS) == Str(UPLOADING)
    ensures ReadDone in events
  {
    if ReadDone !in events {
      NoUploadingWithoutRead(Start(file, loaderId), events);
    }
  }

  /** Running one more settlement after a feasible trace takes the run one `Step` further. */
  lemma {:induction false} RunSnoc(s: Session, events: seq<Event>, e: Event)
    requires Feasible(s, events + [e])
    ensures Feasible(s, events) && Enabled(Run(s, events).0.phase, e)
    ensures Run(s, events + [e]) ==
              (Step(Run(s, events).0, e).0, Run(s, events).1 + [Step(Run(s, events).0, e).1])
    decreases |events|
  {
    if events == [] {
      assert events + [e] == [e] && [e][1..] == [];
      assert [Step(s, e).1] + [] == [] + [Step(s, e).1];
    } else {
      assert (events + [e])[0] == events[0];
      assert (events + [e])[1..] == events[1..] + [e];
      var (next, effect) := Step(s, events[0]);
      RunSnoc(next, events[1..], e);
      var (mid, effects) := Run(next, events[1..]);
      assert Run(s, events) == (mid, [effect] + effects);
      assert [effect] + (effects + [Step(mid, e).1]) == ([effect] + effects) + [Step(mid, e).1];
    }
  }

  lemma {:induction false} CountsAppend(a: seq<Effect>, b: seq<Effect>)
    ensures Cleanups(a + b) == Cleanups(a) + Cleanups(b)
    ensures WarningCount(a + b) == WarningCount(a) + WarningCount(b)
    decreases |a|
  {
    if a == [] {
      assert a + b == b;
    } else {
      assert (a + b)[0] == a[0];
      assert (a + b)[1..] == a[1..] + b;
      CountsAppend(a[1..], b);
    }
  }

  /**
   * Each promise of the chain settles once: a session takes at most two
   * settlements, and a second one only after `read()` resolved.
   */
  lemma {:induction false} AtMostTwoSettlements(file: File, loaderId: int, events: seq<Event>)
    requires Feasible(Start(file, loaderId), events)
    ensures |events| <= 2
    ensures |events| == 2 ==> events[0] == ReadDone && !events[1].ReadDone?
  {
    if events != [] {
      var s1 := Step(Start(file, loaderId), events[0]).0;
      var rest := events[1..];
      if rest != [] {
        assert Enabled(s1.phase, rest[0]);
        assert events[0] == ReadDone && s1.phase == AwaitingUpload;
        var s2 := Step(s1, rest[0]).0;
        assert Feasible(s2, rest[1..]);
        assert rest[1..] == [];
        assert events == [events[0], rest[0]];
      }
    }
  }

  /**
   * Whatever came before it, the settlement of `read()` marks the node
   * 'uploading' while `upload()` is still pending: the node is the
   * placeholder plus `uploadStatus`, and nothing has been cleaned or shown.
   */
  lemma ReadDoneMarksUploading(file: File, loaderId: int, events: seq<Event>)
    requires Feasible(Start(file, loaderId), events + [ReadDone])
    ensures var (last, effects) := Run(Start(file, loaderId), events + [ReadDone]);
      && last.phase == AwaitingUpload
      && last.attrs == Placeholder(file, loaderId)[UPLOAD_STATUS := Str(UPLOADING)]
      && Cleanups(effects) == 0 && WarningCount(effects) == 0
  {
    var s0 := Start(file, loaderId);
    RunSnoc(s0, events, ReadDone);
    var (mid, effects) := Run(s0, events);
    RunFrom(s0, events, file, loaderId);
    CountsAppend(effects, [Step(mid, ReadDone).1]);
    assert mid.attrs == Placeholder(file, loaderId);
  }

  /**
   * A rejection while the loader's status is 'error', whenever it comes:
   * the session cleans up exactly once and ends with only the name, the
   * empty link and the download flag; one "Upload failed" warning in the
   * `upload` namespace is shown when the error is truthy, none otherwise.
   */
  lemma ErrorOutcome(file: File, loaderId: int, events: seq<Event>, error: Value)
    requires Feasible(Start(file, loaderId), events + [Rejected(Error, error)])
    ensures var (last, effects) := Run(Start(file, loaderId), events + [Rejected(Error, error)]);
      && last.phase == Cleaned
      && last.attrs == map[NAME := Str(file.name), LINK_HREF := Str(""), LINK_IS_DOWNLOADABLE := Bool(true)]
      && Cleanups(effects) == 1
      && WarningCount(effects) == (if Truthy(error) then 1 else 0)
      && effects[|events|].warnings == (if Truthy(error) then [Warning(error, "Upload failed", "upload")] else [])
  {
    var s0 := Start(file, loaderId);
    RunSnoc(s0, events, Rejected(Error, error));
    var (mid, effects) := Run(s0, events);
    RunFrom(s0, events, file, loaderId);
    CountsAppend(effects, [Step(mid, Rejected(Error, error)).1]);
    FailedNode(mid, file, loaderId);
  }

  /**
   * A rejection while the loader's status is 'aborted', whenever it comes:
   * the session cleans up exactly once, silently, and ends with only the
   * name, the empty link and the download flag.
   */
  lemma AbortedOutcome(file: File, loaderId: int, events: seq<Event>, error: Value)
    requires Feasible(Start(file, loaderId), events + [Rejected(Aborted, error)])
    ensures var (last, effects) := Run(Start(file, loaderId), events + [Rejected(Aborted, error)]);
      && last.phase == Cleaned
      && last.attrs == map[NAME := Str(file.name), LINK_HREF := Str(""), LINK_IS_DOWNLOADABLE := Bool(true)]
      && Cleanups(effects) == 1
      && WarningCount(effects) == 0
  {
    var s0 := Start(file, loaderId);
    RunSnoc(s0, events, Rejected(Aborted, error));
    var (mid, effects) := Run(s0, events);
    RunFrom(s0, events, file, loaderId);
    CountsAppend(effects, [Step(mid, Rejected(Aborted, error)).1]);
    FailedNode(mid, file, loaderId);
  }

  /** A pending session's node, cleaned, keeps only the name, the empty link and the download flag. */
  lemma FailedNode(s: Session, file: File, loaderId: int)
    requires Inv(s, file, loaderId) && (s.phase == AwaitingRead || s.phase == AwaitingUpload)
    ensures WithoutUploadAttributes(s.attrs) ==
              map[NAME := Str(file.name), LINK_HREF := Str(""), LINK_IS_DOWNLOADABLE := Bool(true)]
  {
    var r := WithoutUploadAttributes(s.attrs);
    assert r.Keys == {NAME, LINK_HREF, LINK_IS_DOWNLOADABLE};
  }

  // ---------------------------------------------------------------------
  // The editor state shared by all sessions, and the command's methods.
  // ---------------------------------------------------------------------

  /** A running session: its node, its file, its loader and how far its promise chain has got. */
  datatype Handle = Handle(node: nat, file: File, loaderId: int, phase: Phase)

  class FileUploadCommand {
    /** The `file` nodes inserted so far, in insertion order; the index is the node's identity. */
    var nodes: seq<Attributes>
    /** The ids of the loaders FileRepository holds. */
    var loaders: set<int>
    /** The id FileRepository gives its next loader. */
    var nextLoaderId: int
    /** The warnings shown through the Notification plugin, oldest first. */
    var notifications: seq<Notification>
    /** Whether an upload adapter is configured; without one `createLoader` gives no loader. */
    const hasUploadAdapter: bool

    /**
     * Every node bound to a loader (`uploadId`) is bound to a registered one,
     * no two nodes share a loader, `uploadStatus` never stands without
     * `uploadId`, and the registry only holds ids it has handed out.
     */
    ghost predicate Valid()
      reads this
    {
      && (forall id :: id in loaders ==> id < nextLoaderId)
      && (forall i :: 0 <= i < |nodes| && UPLOAD_ID in nodes[i] ==>
            nodes[i][UPLOAD_ID].Num? && nodes[i][UPLOAD_ID].n in loaders)
      && (forall i :: 0 <= i < |nodes| && UPLOAD_STATUS in nodes[i] ==> UPLOAD_ID in nodes[i])
      && (forall i, j :: 0 <= i < j < |nodes| && UPLOAD_ID in nodes[i] && UPLOAD_ID in nodes[j] ==>
            nodes[i][UPLOAD_ID] != nodes[j][UPLOAD_ID])
    }

    function SessionOf(h: Handle): Session
      reads this
      requires h.node < |nodes|
    {
      Session(nodes[h.node], h.phase)
    }

    /** The handle describes its node: `Inv` holds, and the loader is registered exactly while the node keeps `uploadId`. */
    ghost predicate Tracks(h: Handle)
      reads this
    {
      && h.node < |nodes|
      && Inv(SessionOf(h), h.file, h.loaderId)
      && h.loaderId < nextLoaderId
      && (UPLOAD_ID !in nodes[h.node] ==> h.loaderId !in loaders)
    }

    constructor (hasUploadAdapter: bool)
      ensures Valid()
      ensures this.hasUploadAdapter == hasUploadAdapter
      ensures nodes == [] && loaders == {} && notifications == [] && nextLoaderId == 0
    {
      this.hasUploadAdapter := hasUploadAdapter;
      nodes, loaders, nextLoaderId, notifications := [], {}, 0, [];
    }

    /** `writer.setAttribute( key, value, node )`. */
    method SetAttribute(node: nat, key: string, value: Value)
      requires node < |nodes|
      modifies this`nodes
      ensures nodes == old(nodes)[node := old(nodes[node])[key := value]]
    {
      nodes := nodes[node := nodes[node][key := value]];
    }

    /** `writer.removeAttribute( key, node )`. */
    method RemoveAttribute(node: nat, key: string)
      requires node < |nodes|
      modifies this`nodes
      ensures nodes == old(nodes)[node := old(nodes[node]) - {key}]
    {
      nodes := nodes[node := nodes[node] - {key}];
    }

    /** `fileRepository.createLoader( file )`: a fresh loader, or none without an upload adapter. */
    method CreateLoader(file: File) returns (loaderId: Option<int>)
      modifies this`loaders, this`nextLoaderId
      ensures !hasUploadAdapter ==> loaderId == None && loaders == old(loaders) && nextLoaderId == old(nextLoaderId)
      ensures hasUploadAdapter ==> && loaderId == Some(old(nextLoaderId))
                                   && loaders == old(loaders) + {old(nextLoaderId)}
                                   && nextLoaderId == old(nextLoaderId) + 1
    {
      if !hasUploadAdapter {
        return None;
      }
      loaderId := Some(nextLoaderId);
      loaders := loaders + {nextLoaderId};
      nextLoaderId := nextLoaderId + 1;
    }

    /** `execute( { file } )`: one `uploadFile` per file, in order. */
    method Execute(option: FileOption) returns (started: seq<Handle>)
      requires Valid()
      modifies this`nodes, this`loaders, this`nextLoaderId
      ensures Valid()
      ensures |nodes| == old(|nodes|) + |started| && nodes[..old(|nodes|)] == old(nodes)
      ensures hasUploadAdapter ==> |started| == |FilesToUpload(option)|
      ensures !hasUploadAdapter ==> started == [] && nodes == old(nodes) && loaders == old(loaders)
      ensures hasUploadAdapter ==>
                && nextLoaderId == old(nextLoaderId) + |started|
                && forall id :: id in loaders <==> id in old(loaders) || old(nextLoaderId) <= id < nextLoaderId
      ensures !hasUploadAdapter ==> nextLoaderId == old(nextLoaderId)
      ensures forall k :: 0 <= k < |started| ==>
                && started[k] == Handle(old(|nodes|) + k, FilesToUpload(option)[k], old(nextLoaderId) + k, AwaitingRead)
                && nodes[started[k].node] == Placeholder(started[k].file, started[k].loaderId)
                && Tracks(started[k])
      ensures forall g :: old(Tracks(g)) ==> Tracks(g)
    {
      var files := FilesToUpload(option);
      started := [];
      var i := 0;
      while i < |files|
        invariant 0 <= i <= |files|
        invariant Valid()
        invariant |nodes| == old(|nodes|) + |started| && nodes[..old(|nodes|)] == old(nodes)
        invariant hasUploadAdapter ==> |started| == i && nextLoaderId == old(nextLoaderId) + i
        invariant hasUploadAdapter ==>
                    forall id :: id in loaders <==> id in old(loaders) || old(nextLoaderId) <= id < nextLoaderId
        invariant !hasUploadAdapter ==> started == [] && nodes == old(nodes) && loaders == old(loaders)
        invariant !hasUploadAdapter ==> nextLoaderId == old(nextLoaderId)
        invariant forall k :: 0 <= k < |started| ==>
                    && started[k] == Handle(old(|nodes|) + k, files[k], old(nextLoaderId) + k, AwaitingRead)
                    && nodes[started[k].node] == Placeholder(started[k].file, started[k].loaderId)
                    && Tracks(started[k])
        invariant forall g :: old(Tracks(g)) ==> Tracks(g)
      {
        var h := UploadFile(files[i]);
        if h.Some? {
          started := started + [h.value];
        }
        i := i + 1;
      }
    }

    /** `uploadFile( fileRepository, file )`: no loader means no node and no error. */
    method UploadFile(file: File) returns (h: Option<Handle>)
      requires Valid()
      modifies this`nodes, this`loaders, this`nextLoaderId
      ensures Valid()
      ensures !hasUploadAdapter ==> && h == None && nodes == old(nodes)
                                    && loaders == old(loaders) && nextLoaderId == old(nextLoaderId)
      ensures hasUploadAdapter ==> && h == Some(Handle(old(|nodes|), file, old(nextLoaderId), AwaitingRead))
                                   && nodes == old(nodes) + [Placeholder(file, old(nextLoaderId))]
                                   && loaders == old(loaders) + {old(nextLoaderId)}
                                   && nextLoaderId == old(nextLoaderId) + 1
                                   && Tracks(h.value)
      ensures forall g :: old(Tracks(g)) ==> Tracks(g)
    {
      var loaderId := CreateLoader(file);
      if loaderId.None? {
        return None;
      }
      var handle := InsertFile(file, loaderId.value);
      h := Some(handle);
    }

    /** `insertFile( file, fileRepository, loader )`, up to the start of the promise chain. */
    method InsertFile(file: File, loaderId: int) returns (h: Handle)
      requires loaderId in loaders && loaderId == nextLoaderId - 1
      requires forall id :: id in loaders ==> id < nextLoaderId
      requires forall i :: 0 <= i < |nodes| && UPLOAD_ID in nodes[i] ==>
                 nodes[i][UPLOAD_ID].Num? && nodes[i][UPLOAD_ID].n in loaders - {loaderId}
      requires forall i :: 0 <= i < |nodes| && UPLOAD_STATUS in nodes[i] ==> UPLOAD_ID in nodes[i]
      requires forall i, j :: 0 <= i < j < |nodes| && UPLOAD_ID in nodes[i] && UPLOAD_ID in nodes[j] ==>
                 nodes[i][UPLOAD_ID] != nodes[j][UPLOAD_ID]
      modifies this`nodes
      ensures Valid()
      ensures h == Handle(old(|nodes|), file, loaderId, AwaitingRead) && Tracks(h)
      ensures nodes == old(nodes) + [Placeholder(file, loaderId)]
      ensures var node := nodes[h.node];
        && node[NAME] == Str(file.name) && node[LINK_HREF] == Str("")
        && node[LINK_IS_DOWNLOADABLE] == Bool(true) && node[UPLOAD_ID] == Num(loaderId)
        && UPLOAD_STATUS !in node
      ensures forall g :: old(Tracks(g)) && g.loaderId != loaderId ==> Tracks(g)
    {
      nodes := nodes + [Placeholder(file, loaderId)];
      h := Handle(|nodes| - 1, file, loaderId, AwaitingRead);
    }

    /** `read()` resolved: `upload()` starts and the node is marked 'uploading' without waiting for it. */
    method ReadDone(h: Handle) returns (next: Handle)
      requires Valid() && Tracks(h) && h.phase == AwaitingRead
      modifies this`nodes
      ensures Valid() && Tracks(next)
      ensures next == h.(phase := AwaitingUpload)
      ensures (SessionOf(next), Effect([], false, false)) == Step(old(SessionOf(h)), Event.ReadDone)
      ensures |nodes| == old(|nodes|)
      ensures forall i :: 0 <= i < |nodes| && i != h.node ==> nodes[i] == old(nodes[i])
      ensures forall g :: old(Tracks(g)) && g.node != h.node ==> Tracks(g)
    {
      SetAttribute(h.node, UPLOAD_STATUS, Str(UPLOADING));
      next := h.(phase := AwaitingUpload);
    }

    /** `upload()` resolved with `{ default: url }`: the link is set, the node completed, then cleaned. */
    method UploadResolved(h: Handle, response: UploadResponse) returns (next: Handle)
      requires Valid() && Tracks(h) && h.phase == AwaitingUpload
      modifies this`nodes, this`loaders
      ensures Valid() && Tracks(next)
      ensures next == h.(phase := Completed)
      ensures (SessionOf(next), Effect([], true, false)) == Step(old(SessionOf(h)), Event.UploadResolved(response))
      ensures loaders == old(loaders) - {h.loaderId}
      ensures |nodes| == old(|nodes|)
      ensures forall i :: 0 <= i < |nodes| && i != h.node ==> nodes[i] == old(nodes[i])
      ensures forall g :: old(Tracks(g)) && g.node != h.node ==> Tracks(g)
    {
      SetAttribute(h.node, LINK_HREF, response.defaultUrl);
      SetAttribute(h.node, UPLOAD_STATUS, Str(COMPLETE));
      Clean(h);
      next := h.(phase := Completed);
    }

    /** The `.catch` handler, given the loader's status at that moment and the rejection value. */
    method Rejected(h: Handle, status: LoaderStatus, error: Value) returns (next: Handle, rethrown: bool)
      requires Valid() && Tracks(h) && (h.phase == AwaitingRead || h.phase == AwaitingUpload)
      modifies this`nodes, this`loaders, this`notifications
      ensures Valid() && Tracks(next)
      ensures var (s, effect) := Step(old(SessionOf(h)), Event.Rejected(status, error));
        && next == h.(phase := s.phase)
        && SessionOf(next) == s
        && rethrown == effect.rethrown
        && notifications == old(notifications) + effect.warnings
        && loaders == if effect.cleaned then old(loaders) - {h.loaderId} else old(loaders)
      ensures |nodes| == old(|nodes|)
      ensures forall i :: 0 <= i < |nodes| && i != h.node ==> nodes[i] == old(nodes[i])
      ensures forall g :: old(Tracks(g)) && g.node != h.node ==> Tracks(g)
    {
      if status != Error && status != Aborted {
        return h.(phase := Rethrown), true;
      }
      if status == Error && Truthy(error) {
        notifications := notifications + [Warning(error, UPLOAD_FAILED, UPLOAD_NAMESPACE)];
      }
      Clean(h);
      next, rethrown := h.(phase := Cleaned), false;
    }

    /** `clean()`: drop `uploadId` and `uploadStatus` from the node, then destroy the loader. */
    method Clean(h: Handle)
      requires Valid() && h.node < |nodes| && GetAttribute(nodes[h.node], UPLOAD_ID) == Num(h.loaderId)
      modifies this`nodes, this`loaders
      ensures Valid()
      ensures nodes == old(nodes)[h.node := WithoutUploadAttributes(old(nodes[h.node]))]
      ensures loaders == old(loaders) - {h.loaderId}
      ensures forall g :: old(Tracks(g)) && g.node != h.node ==> Tracks(g)
    {
      RemoveAttribute(h.node, UPLOAD_ID);
      RemoveAttribute(h.node, UPLOAD_STATUS);
      assert old(nodes[h.node]) - {UPLOAD_ID} - {UPLOAD_STATUS} == WithoutUploadAttributes(old(nodes[h.node]));
      loaders := loaders - {h.loaderId};
    }
  }
}
