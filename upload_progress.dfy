/**
 * The upload progress projector: every change of a `file` node's
 * `uploadStatus` decorates or un-decorates that node's view element. The
 * view element is an object whose ordered children and class set are edited
 * in place; the decorations (progress bar, completion icon) are UI elements,
 * objects of their own, so that the progress listener and the auto-hide
 * timer can reach them after they were inserted.
 */
module UploadProgress {
  import opened Engine
  import UploadCommand

  const APPEAR := "ck-appear"
  const PROGRESS_BAR_CLASS := "ck-progress-bar"
  const COMPLETE_ICON_CLASS := "ck-image-upload-complete-icon"
  const PROGRESS_BAR_PROPERTY := "progressBar"
  const WIDTH := "width"

  /** A UI element made by `createUIElement`: a decoration that never reaches the data. */
  class UiElement {
    const name: string
    const classes: set<string>
    const customProperties: set<string>
    var styles: map<string, string>

    constructor (name: string, classes: set<string>, customProperties: set<string>)
      ensures this.name == name && this.classes == classes && this.customProperties == customProperties
      ensures styles == map[]
    {
      this.name := name;
      this.classes := classes;
      this.customProperties := customProperties;
      styles := map[];
    }
  }

  /** A child of the file's view element: converted content, or a decoration. */
  datatype ViewChild = Content(node: ViewNode) | Decoration(element: UiElement)

  /** The view element of a `file` node (what the mapper returns for the model node). */
  class ViewFigure {
    var children: seq<ViewChild>
    var classes: set<string>

    constructor (classes: set<string>, children: seq<ViewChild>)
      ensures this.classes == classes && this.children == children
    {
      this.classes := classes;
      this.children := children;
    }
  }

  /** The lookup test of `_getUIElement`: an element named `div` with class `ck-progress-bar`. */
  predicate IsProgressBar(child: ViewChild) {
    match child
    case Content(node) => node.Element? && node.name == "div" && PROGRESS_BAR_CLASS in node.classes
    case Decoration(e) => e.name == "div" && PROGRESS_BAR_CLASS in e.classes
  }

  /** The decoration `_showCompleteIcon` inserts. */
  predicate IsCompleteIcon(e: UiElement) {
    e.name == "div" && e.classes == {COMPLETE_ICON_CLASS}
  }

  /** Whether `fileRepository.loaders.get( uploadId )` finds a loader. */
  predicate LoaderRegistered(uploadId: Value, loaders: set<int>) {
    uploadId.Num? && uploadId.n in loaders
  }

  /** The index of the first progress bar among the children, if any. */
  function FirstProgressBar(children: seq<ViewChild>): (r: Option<nat>)
    ensures r.Some? ==> && r.value < |children| && IsProgressBar(children[r.value])
                        && forall j :: 0 <= j < r.value ==> !IsProgressBar(children[j])
    ensures r.None? ==> forall j :: 0 <= j < |children| ==> !IsProgressBar(children[j])
  {
    if children == [] then None
    else if IsProgressBar(children[0]) then Some(0)
    else match FirstProgressBar(children[1..])
      case None => None
      case Some(k) => Some(k + 1)
  }

  /** The children with the first progress bar taken out; the same children when there is none. */
  function WithoutFirstProgressBar(children: seq<ViewChild>): (r: seq<ViewChild>)
    ensures FirstProgressBar(children).None? ==> r == children
    ensures FirstProgressBar(children).Some? ==>
              var k := FirstProgressBar(children).value;
              && |r| == |children| - 1
              && (forall j :: 0 <= j < k ==> r[j] == children[j])
              && (forall j :: k <= j < |r| ==> r[j] == children[j + 1])
  {
    match FirstProgressBar(children)
    case None => children
    case Some(k) => children[..k] + children[k + 1..]
  }

  /** The children with a decoration appended, when there is one. */
  function Appended(children: seq<ViewChild>, decoration: Option<UiElement>): seq<ViewChild> {
    match decoration
    case None => children
    case Some(e) => children + [Decoration(e)]
  }

  /** The index of the first occurrence of `child`, if any. */
  function IndexOf(children: seq<ViewChild>, child: ViewChild): (r: Option<nat>)
    ensures r.Some? ==> r.value < |children| && children[r.value] == child
                        && forall j :: 0 <= j < r.value ==> children[j] != child
    ensures r.None? <==> child !in children
  {
    if children == [] then None
    else if children[0] == child then Some(0)
    else match IndexOf(children[1..], child)
      case None => None
      case Some(k) => Some(k + 1)
  }

  /** Reads a `width` style written as digits followed by `%`. */
  function ParsePercent(width: string): Option<nat> {
    if |width| >= 2 && width[|width| - 1] == '%' && AllDigits(width[..|width| - 1])
    then Some(ParseNat(width[..|width| - 1]))
    else None
  }

  /** What one call of `uploadStatusChange` did. */
  datatype StatusOutcome =
    | NotConsumed
      // 'uploading': a progress bar was appended; `listening` is false when no loader
      // was registered, where `loader.on` raises a TypeError after the insertion
    | ProgressShown(bar: UiElement, listening: bool)
      // any other status: clean-up, after appending a completion icon when `icon` holds one
    | CleanedUp(icon: Option<UiElement>)

  // ---------------------------------------------------------------------
  // The helpers of fileuploadprogress.js.
  // ---------------------------------------------------------------------

  /** `_startAppearEffect`: `ck-appear` is added only when absent. */
  method StartAppearEffect(view: ViewFigure)
    modifies view`classes
    ensures view.classes == old(view.classes) + {APPEAR}
  {
    if APPEAR !in view.classes {
      view.classes := view.classes + {APPEAR};
    }
  }

  /** `_stopAppearEffect`: `ck-appear` is removed, a no-op when absent. */
  method StopAppearEffect(view: ViewFigure)
    modifies view`classes
    ensures view.classes == old(view.classes) - {APPEAR}
  {
    view.classes := view.classes - {APPEAR};
  }

  /** `_createProgressBar`: a `div.ck-progress-bar` UI element marked with the `progressBar` property. */
  method CreateProgressBar() returns (bar: UiElement)
    ensures fresh(bar)
    ensures IsProgressBar(Decoration(bar)) && bar.classes == {PROGRESS_BAR_CLASS}
    ensures bar.customProperties == {PROGRESS_BAR_PROPERTY} && bar.styles == map[]
  {
    bar := new UiElement("div", {PROGRESS_BAR_CLASS}, {PROGRESS_BAR_PROPERTY});
  }

  /** `_showProgressBar`: the bar goes in as the last child, then the percent listener is attached. */
  method ShowProgressBar(view: ViewFigure, loaderRegistered: bool) returns (bar: UiElement, listening: bool)
    modifies view`children
    ensures fresh(bar) && IsProgressBar(Decoration(bar)) && bar.styles == map[]
    ensures view.children == old(view.children) + [Decoration(bar)]
    ensures listening == loaderRegistered
  {
    bar := CreateProgressBar();
    view.children := view.children + [Decoration(bar)];
    listening := loaderRegistered;
  }

  /** The progress listener: `setStyle( 'width', value + '%', progressBar )`. */
  method UploadedPercentChanged(bar: UiElement, percent: nat)
    modifies bar`styles
    ensures bar.styles == old(bar.styles)[WIDTH := NatToString(percent) + "%"]
    ensures ParsePercent(bar.styles[WIDTH]) == Some(percent)
  {
    bar.styles := bar.styles[WIDTH := NatToString(percent) + "%"];
    PercentReadsBack(percent);
  }

  /** `_showCompleteIcon`: a `div.ck-image-upload-complete-icon` goes in as the last child. */
  method ShowCompleteIcon(view: ViewFigure) returns (icon: UiElement)
    modifies view`children
    ensures fresh(icon) && IsCompleteIcon(icon) && !IsProgressBar(Decoration(icon))
    ensures view.children == old(view.children) + [Decoration(icon)]
  {
    icon := new UiElement("div", {COMPLETE_ICON_CLASS}, {});
    view.children := view.children + [Decoration(icon)];
  }

  /**
   * `_getUIElement`: the first child that is a `div` with class
   * `ck-progress-bar`; `uniqueProperty` plays no part in the match.
   */
  method GetUIElement(view: ViewFigure, uniqueProperty: string) returns (found: Option<nat>)
    ensures found.Some? ==> && found.value < |view.children| && IsProgressBar(view.children[found.value])
                            && forall j :: 0 <= j < found.value ==> !IsProgressBar(view.children[j])
    ensures found.None? ==> forall j :: 0 <= j < |view.children| ==> !IsProgressBar(view.children[j])
    ensures found == FirstProgressBar(view.children)
  {
    var i := 0;
    while i < |view.children|
      invariant 0 <= i <= |view.children|
      invariant forall j :: 0 <= j < i ==> !IsProgressBar(view.children[j])
    {
      if IsProgressBar(view.children[i]) {
        return Some(i);
      }
      i := i + 1;
    }
    return None;
  }

  /** `_removeUIElement`: the child `_getUIElement` finds is removed, if there is one. */
  method RemoveUIElement(view: ViewFigure, uniqueProperty: string)
    modifies view`children
    ensures view.children == WithoutFirstProgressBar(old(view.children))
  {
    var found := GetUIElement(view, uniqueProperty);
    if found.Some? {
      var k := found.value;
      view.children := view.children[..k] + view.children[k + 1..];
    }
  }

  /** `_hideProgressBar`. */
  method HideProgressBar(view: ViewFigure)
    modifies view`children
    ensures view.children == WithoutFirstProgressBar(old(view.children))
  {
    RemoveUIElement(view, PROGRESS_BAR_PROPERTY);
  }

  /**
   * `uploadStatusChange`, called on every change of `uploadStatus`. Without
   * the consumption token the view is left alone. 'uploading' adds the
   * appear class and a progress bar and nothing else; any other value
   * (including removal) appends a completion icon when the status is
   * 'complete' and the loader is still registered, then removes the first
   * progress bar and the appear class.
   */
  method UploadStatusChange(view: ViewFigure, consumable: bool, status: Value, uploadId: Value, loaders: set<int>)
    returns (outcome: StatusOutcome)
    modifies view
    ensures !consumable ==> outcome == NotConsumed && unchanged(view)
    ensures consumable && status == Str(UploadCommand.UPLOADING) ==>
              && outcome.ProgressShown?
              && fresh(outcome.bar) && IsProgressBar(Decoration(outcome.bar))
              && outcome.listening == LoaderRegistered(uploadId, loaders)
              && view.children == old(view.children) + [Decoration(outcome.bar)]
              && view.classes == old(view.classes) + {APPEAR}
    ensures consumable && status != Str(UploadCommand.UPLOADING) ==>
              && outcome.CleanedUp?
              && (outcome.icon.Some? <==> status == Str(UploadCommand.COMPLETE) && LoaderRegistered(uploadId, loaders))
              && (outcome.icon.Some? ==> fresh(outcome.icon.value) && IsCompleteIcon(outcome.icon.value))
              && view.children == WithoutFirstProgressBar(Appended(old(view.children), outcome.icon))
              && view.classes == old(view.classes) - {APPEAR}
  {
    if !consumable {
      return NotConsumed;
    }
    if status == Str(UploadCommand.UPLOADING) {
      var registered := LoaderRegistered(uploadId, loaders);
      StartAppearEffect(view);
      var bar, listening := ShowProgressBar(view, registered);
      return ProgressShown(bar, listening);
    }
    var icon: Option<UiElement> := None;
    if status == Str(UploadCommand.COMPLETE) && LoaderRegistered(uploadId, loaders) {
      var shown := ShowCompleteIcon(view);
      icon := Some(shown);
    }
    HideProgressBar(view);
    StopAppearEffect(view);
    outcome := CleanedUp(icon);
  }

  /**
   * The auto-hide timer of the completion icon firing: the icon is removed;
   * when it is no longer a child, `createRangeOn` has no position to start
   * from and raises an error instead.
   */
  method CompleteIconTimerFired(view: ViewFigure, icon: UiElement) returns (threw: bool)
    modifies view`children
    ensures threw <==> Decoration(icon) !in old(view.children)
    ensures !threw ==> var k := IndexOf(old(view.children), Decoration(icon)).value;
                       view.children == old(view.children)[..k] + old(view.children)[k + 1..]
    ensures threw ==> view.children == old(view.children)
  {
    var at := IndexOf(view.children, Decoration(icon));
    if at.None? {
      return true;
    }
    view.children := view.children[..at.value] + view.children[at.value + 1..];
    threw := false;
  }

  // ---------------------------------------------------------------------
  // Properties of the projection.
  // ---------------------------------------------------------------------

  lemma PercentReadsBack(percent: nat)
    ensures ParsePercent(NatToString(percent) + "%") == Some(percent)
  {
    var w := NatToString(percent) + "%";
    assert w[..|w| - 1] == NatToString(percent);
    ParseNatToString(percent);
  }

  /** A child that is not a progress bar survives the clean-up, and so does every child before it. */
  lemma {:induction false} NonBarsSurviveRemoval(children: seq<ViewChild>, i: nat)
    requires i < |children| && !IsProgressBar(children[i])
    ensures children[i] in WithoutFirstProgressBar(children)
  {
    var r := WithoutFirstProgressBar(children);
    match FirstProgressBar(children)
    case None =>
    case Some(k) =>
      if i < k {
        assert r[i] == children[i];
      } else {
        assert i != k;
        assert r[i - 1] == children[i];
      }
  }

  /** The completion icon is never taken for a progress bar, so the clean-up never removes it. */
  lemma CompleteIconSurvivesRemoval(children: seq<ViewChild>, icon: UiElement)
    requires IsCompleteIcon(icon) && Decoration(icon) in children
    ensures Decoration(icon) in WithoutFirstProgressBar(children)
  {
    var i :| 0 <= i < |children| && children[i] == Decoration(icon);
    NonBarsSurviveRemoval(children, i);
  }

  /** Appending a non-bar after the children does not change which bar the clean-up removes. */
  lemma {:induction false} RemovalSkipsAppended(children: seq<ViewChild>, extra: ViewChild)
    requires !IsProgressBar(extra)
    ensures WithoutFirstProgressBar(children + [extra]) == WithoutFirstProgressBar(children) + [extra]
  {
    var all := children + [extra];
    match FirstProgressBar(children)
    case None =>
      assert forall j :: 0 <= j < |all| ==> !IsProgressBar(all[j]) by {
        forall j | 0 <= j < |all| ensures !IsProgressBar(all[j]) {
          if j < |children| { assert all[j] == children[j]; }
        }
      }
      assert FirstProgressBar(all).None?;
    case Some(k) =>
      assert all[k] == children[k];
      assert forall j :: 0 <= j < k ==> all[j] == children[j];
      assert FirstProgressBar(all) == Some(k);
      assert all[..k] == children[..k];
      assert all[k + 1..] == children[k + 1..] + [extra];
  }

  /**
   * The decorations of one successful upload do not outlive it: starting
   * from children without a progress bar, 'uploading' adds the bar,
   * 'complete' swaps it for the completion icon, the removal of the status
   * by the clean-up changes nothing more, and the timer's removal of the
   * icon gives back the children the element started with.
   */
  lemma DecorationsDoNotOutliveUpload(children: seq<ViewChild>, bar: UiElement, icon: UiElement)
    requires FirstProgressBar(children).None? && Decoration(icon) !in children
    requires IsProgressBar(Decoration(bar)) && IsCompleteIcon(icon)
    ensures WithoutFirstProgressBar(Appended(children + [Decoration(bar)], Some(icon))) == children + [Decoration(icon)]
    ensures WithoutFirstProgressBar(Appended(children + [Decoration(icon)], None)) == children + [Decoration(icon)]
    ensures IndexOf(children + [Decoration(icon)], Decoration(icon)).Some?
    ensures var k := IndexOf(children + [Decoration(icon)], Decoration(icon)).value;
            (children + [Decoration(icon)])[..k] + (children + [Decoration(icon)])[k + 1..] == children
  {
    IconRemovalRestores(children, icon);
    BarSwappedForIcon(children, bar, icon);
    NoBarAppended(children, Decoration(icon));
  }

  /**
   * When the timer fires, the icon appended last (and not among the earlier
   * children) is found at the end, and removing it at that position gives
   * back the earlier children.
   */
  lemma IconRemovalRestores(children: seq<ViewChild>, icon: UiElement)
    requires Decoration(icon) !in children
    ensures IndexOf(children + [Decoration(icon)], Decoration(icon)) == Some(|children|)
    ensures (children + [Decoration(icon)])[..|children|] + (children + [Decoration(icon)])[|children| + 1..] == children
  {
    IndexOfAppended(children, Decoration(icon));
    assert (children + [Decoration(icon)])[..|children|] == children;
  }

  lemma BarSwappedForIcon(children: seq<ViewChild>, bar: UiElement, icon: UiElement)
    requires FirstProgressBar(children).None?
    requires IsProgressBar(Decoration(bar)) && IsCompleteIcon(icon)
    ensures WithoutFirstProgressBar(children + [Decoration(bar)] + [Decoration(icon)]) == children + [Decoration(icon)]
  {
    RemovalSkipsAppended(children + [Decoration(bar)], Decoration(icon));
    RemovalOfLastBar(children, bar);
  }

  lemma {:induction false} RemovalOfLastBar(children: seq<ViewChild>, bar: UiElement)
    requires FirstProgressBar(children).None? && IsProgressBar(Decoration(bar))
    ensures WithoutFirstProgressBar(children + [Decoration(bar)]) == children
  {
    var all := children + [Decoration(bar)];
    assert all[|children|] == Decoration(bar);
    assert forall j :: 0 <= j < |children| ==> all[j] == children[j];
    assert FirstProgressBar(all) == Some(|children|);
    assert all[..|children|] == children;
  }

  lemma {:induction false} NoBarAppended(children: seq<ViewChild>, extra: ViewChild)
    requires FirstProgressBar(children).None? && !IsProgressBar(extra)
    ensures FirstProgressBar(children + [extra]).None?
  {
    var all := children + [extra];
    forall j | 0 <= j < |all| ensures !IsProgressBar(all[j]) {
      if j < |children| { assert all[j] == children[j]; }
    }
  }

  lemma {:induction false} IndexOfAppended(children: seq<ViewChild>, child: ViewChild)
    requires child !in children
    ensures IndexOf(children + [child], child) == Some(|children|)
  {
    assert (children + [child])[|children|] == child;
  }

  /** Two 'uploading' changes in a row put two bars in, and one clean-up takes out only the first. */
  lemma {:induction false} RepeatedUploadingLeavesABar(children: seq<ViewChild>, bar1: UiElement, bar2: UiElement)
    requires FirstProgressBar(children).None? && bar1 != bar2
    requires IsProgressBar(Decoration(bar1)) && IsProgressBar(Decoration(bar2))
    ensures WithoutFirstProgressBar(children + [Decoration(bar1)] + [Decoration(bar2)]) == children + [Decoration(bar2)]
  {
    var all := children + [Decoration(bar1)] + [Decoration(bar2)];
    assert all[|children|] == Decoration(bar1);
    assert forall j :: 0 <= j < |children| ==> all[j] == children[j];
    assert FirstProgressBar(all) == Some(|children|);
    assert all[..|children|] == children;
    assert all[|children| + 1..] == [Decoration(bar2)];
  }
}
