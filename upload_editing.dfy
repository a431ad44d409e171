/**
 * The editing side of the plugin: which clipboard inputs start an upload,
 * how the `file` element is registered in the schema, and the converter
 * pair between a `file` node and its `<a class="file">` view element.
 */
module UploadEditing {
  import opened Engine
  import opened UploadCommand

  const HTML_TYPE := "text/html"
  const FILE_CLASS := "file"
  const HREF := "href"
  const TEXT := "$text"

  /**
   * A clipboard DataTransfer: the declared types, the data stored per type,
   * and the file list, where `None` stands for a falsy entry.
   */
  datatype DataTransfer = DataTransfer(types: seq<string>, data: map<string, string>, files: seq<Option<File>>)

  /** `getData( type )`: the empty string when nothing is stored for the type. */
  function GetData(transfer: DataTransfer, mimeType: string): string {
    if mimeType in transfer.data then transfer.data[mimeType] else ""
  }

  /** `isHtmlIncluded`: 'text/html' is among the types and its data is not the empty string. */
  predicate IsHtmlIncluded(transfer: DataTransfer) {
    HTML_TYPE in transfer.types && GetData(transfer, HTML_TYPE) != ""
  }

  /** `setData( type, value )`: the type is declared, once, and the value stored under it. */
  function WithData(transfer: DataTransfer, mimeType: string, value: string): DataTransfer {
    transfer.(types := if mimeType in transfer.types then transfer.types else transfer.types + [mimeType],
              data := transfer.data[mimeType := value])
  }

  /**
   * Only the HTML payload decides: storing HTML makes it included exactly
   * when the HTML is non-empty, storing any other type changes nothing, and
   * a transfer carrying only files never includes HTML.
   */
  lemma HtmlInclusionFollowsHtmlData(transfer: DataTransfer, mimeType: string, value: string)
    ensures IsHtmlIncluded(WithData(transfer, HTML_TYPE, value)) <==> value != ""
    ensures mimeType != HTML_TYPE ==>
              (IsHtmlIncluded(WithData(transfer, mimeType, value)) <==> IsHtmlIncluded(transfer))
    ensures !IsHtmlIncluded(DataTransfer([], map[], transfer.files))
  {
    if mimeType != HTML_TYPE {
      var t := WithData(transfer, mimeType, value);
      assert HTML_TYPE in t.types <==> HTML_TYPE in transfer.types;
    }
  }

  /** `Array.from( files ).filter( file => !!file )`. */
  function TruthyFiles(files: seq<Option<File>>): (r: seq<File>)
    ensures |r| <= |files|
    ensures forall f :: f in r <==> Some(f) in files
  {
    if files == [] then []
    else (if files[0].Some? then [files[0].value] else []) + TruthyFiles(files[1..])
  }

  /** The filter keeps the order of the files: filtering a concatenation concatenates the filtered parts. */
  lemma {:induction false} TruthyFilesAppend(a: seq<Option<File>>, b: seq<Option<File>>)
    ensures TruthyFiles(a + b) == TruthyFiles(a) + TruthyFiles(b)
    decreases |a|
  {
    if a == [] {
      assert a + b == b;
    } else {
      assert (a + b)[0] == a[0];
      assert (a + b)[1..] == a[1..] + b;
      TruthyFilesAppend(a[1..], b);
    }
  }

  /** A list without falsy entries passes the filter whole, in order. */
  lemma {:induction false} TruthyFilesKeepsAll(files: seq<Option<File>>)
    requires forall i :: 0 <= i < |files| ==> files[i].Some?
    ensures |TruthyFiles(files)| == |files|
    ensures forall i :: 0 <= i < |files| ==> TruthyFiles(files)[i] == files[i].value
    decreases |files|
  {
    if files != [] {
      TruthyFilesKeepsAll(files[1..]);
    }
  }

  /**
   * The `clipboardInput` listener: nothing when non-empty HTML is included;
   * otherwise `fileUpload` is executed with the truthy files, even when
   * none are left.
   */
  method OnClipboardInput(command: FileUploadCommand, transfer: DataTransfer) returns (started: seq<Handle>)
    requires command.Valid()
    modifies command`nodes, command`loaders, command`nextLoaderId
    ensures command.Valid()
    ensures IsHtmlIncluded(transfer) ==> started == [] && unchanged(command)
    ensures !IsHtmlIncluded(transfer) ==>
              && (command.hasUploadAdapter ==> |started| == |TruthyFiles(transfer.files)|)
              && (!command.hasUploadAdapter ==>
                    && started == [] && command.nodes == old(command.nodes) && command.loaders == old(command.loaders)
                    && command.nextLoaderId == old(command.nextLoaderId))
              && (command.hasUploadAdapter ==>
                    && command.nextLoaderId == old(command.nextLoaderId) + |started|
                    && forall id :: id in command.loaders <==>
                         id in old(command.loaders) || old(command.nextLoaderId) <= id < command.nextLoaderId)
              && |command.nodes| == old(|command.nodes|) + |started|
              && command.nodes[..old(|command.nodes|)] == old(command.nodes)
              && forall k :: 0 <= k < |started| ==>
                   && started[k] == Handle(old(|command.nodes|) + k, TruthyFiles(transfer.files)[k],
                                           old(command.nextLoaderId) + k, AwaitingRead)
                   && command.nodes[started[k].node] == Placeholder(started[k].file, started[k].loaderId)
                   && command.Tracks(started[k])
    ensures forall g :: old(command.Tracks(g)) ==> command.Tracks(g)
  {
    if IsHtmlIncluded(transfer) {
      return [];
    }
    var files := TruthyFiles(transfer.files);
    started := command.Execute(Many(files));
  }

  // ---------------------------------------------------------------------
  // Schema.
  // ---------------------------------------------------------------------

  /** The definition `schema.register( 'file', … )` is given. */
  datatype SchemaDefinition = SchemaDefinition(
    allowWhere: string, isInline: bool, allowAttributesOf: string, allowAttributes: seq<string>)

  const FileSchema := SchemaDefinition(TEXT, true, TEXT, [UPLOAD_STATUS, UPLOAD_ID, NAME])

  /** Whether a `file` may stand in `parent`, given where text may stand. */
  predicate FileAllowedIn(textParents: set<string>, parent: string) {
    FileSchema.allowWhere == TEXT && parent in textParents
  }

  /** Whether a `file` may carry `key`, given the attributes text may carry. */
  predicate FileAllowsAttribute(textAttributes: set<string>, key: string) {
    key in FileSchema.allowAttributes || (FileSchema.allowAttributesOf == TEXT && key in textAttributes)
  }

  /**
   * Every attribute of the placeholder `insertFile` creates is allowed
   * exactly when text may carry `linkHref` and `linkIsDownloadable`: the
   * schema itself lists neither.
   */
  lemma PlaceholderAllowedIff(textAttributes: set<string>, file: File, loaderId: int)
    ensures (forall k :: k in Placeholder(file, loaderId) ==> FileAllowsAttribute(textAttributes, k)) <==>
              (LINK_HREF in textAttributes && LINK_IS_DOWNLOADABLE in textAttributes)
  {
    var p := Placeholder(file, loaderId);
    assert LINK_HREF in p && LINK_IS_DOWNLOADABLE in p;
    assert LINK_HREF !in FileSchema.allowAttributes;
    assert LINK_IS_DOWNLOADABLE !in FileSchema.allowAttributes;
  }

  // ---------------------------------------------------------------------
  // Converters.
  // ---------------------------------------------------------------------

  /**
   * `createFileView`: an `a` element with class `file`, `href` set from
   * `linkHref` (a view element stores `String( value )`), and the name as
   * its only child, a text node.
   */
  function CreateFileView(attrs: Attributes): ViewNode {
    Element("a", {FILE_CLASS}, map[HREF := ToJsString(GetAttribute(attrs, LINK_HREF))], [Text(GetAttribute(attrs, NAME))])
  }

  /** The upcast matcher `{ name: 'a', classes: [ 'file' ] }`. */
  predicate IsFileLink(view: ViewNode) {
    view.Element? && view.name == "a" && FILE_CLASS in view.classes
  }

  /** The upcast of one view element. */
  datatype UpcastResult =
    | NotMatched
    | Converted(attrs: Attributes)
      // the element has no child, so `getChild( 0 ).data` raises a TypeError
    | ChildMissing

  /**
   * The upcast: an `a.file` element becomes a `file` node whose `linkHref`
   * is the `href` attribute and whose `name` is the `data` of the first
   * child (undefined when that child is an element).
   */
  function Upcast(view: ViewNode): UpcastResult {
    if !IsFileLink(view) then NotMatched
    else if |view.children| == 0 then ChildMissing
    else
      var href := if HREF in view.attrs then Str(view.attrs[HREF]) else Undefined;
      var name := match view.children[0]
        case Text(data) => data
        case Element(_, _, _, _) => Undefined;
      Converted(map[LINK_HREF := href, NAME := name])
  }

  /**
   * Round trip: upcasting the view of a node with a string `linkHref` gives
   * a node with the same `linkHref` and `name`, and with nothing else — the
   * upload attributes are not carried.
   */
  lemma RoundTrip(attrs: Attributes)
    requires GetAttribute(attrs, LINK_HREF).Str?
    ensures Upcast(CreateFileView(attrs)).Converted?
    ensures var back := Upcast(CreateFileView(attrs)).attrs;
            && GetAttribute(back, LINK_HREF) == GetAttribute(attrs, LINK_HREF)
            && GetAttribute(back, NAME) == GetAttribute(attrs, NAME)
            && back.Keys == {LINK_HREF, NAME}
  {
  }

  /** A `linkHref` that is not a string comes back as its `String()` text. */
  lemma RoundTripStringifiesHref(attrs: Attributes)
    ensures GetAttribute(Upcast(CreateFileView(attrs)).attrs, LINK_HREF) == Str(ToJsString(GetAttribute(attrs, LINK_HREF)))
    ensures GetAttribute(attrs, LINK_HREF) == Undefined ==>
              GetAttribute(Upcast(CreateFileView(attrs)).attrs, LINK_HREF) == Str("undefined")
  {
  }

  /** After one round trip the view is stable: downcasting the upcast node rebuilds the same element. */
  lemma ViewStableAfterRoundTrip(attrs: Attributes)
    ensures Upcast(CreateFileView(attrs)).Converted?
    ensures CreateFileView(Upcast(CreateFileView(attrs)).attrs) == CreateFileView(attrs)
  {
  }

}
