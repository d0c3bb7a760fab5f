/** The `mcp` workflow node: one tool call on a remote MCP server, the
    extraction of its text, the optional UI resource of an MCP app, and the
    client lifecycle (initialize, call, optionally read, close). The
    server's answers are parameters; `Err` stands for a throw. */
module McpNode {
  import opened Wrappers
  import opened Text
  import opened NodeCommon

  /** One content item of a tool result; `text` is `""` when missing. */
  datatype ContentItem = ContentItem(kind: string, text: string)

  /** A tool result: its content and the UI resource URI of its metadata
      (`""` when there is none). */
  datatype CallResult = CallResult(content: seq<ContentItem>, resourceUri: string)

  /** A UI resource as read back; missing fields are `""`. */
  datatype UiResource = UiResource(mimeType: string, text: string, blob: string)

  /** The record saved to `saveUiTo`. */
  datatype UiRecord = UiRecord(serverUrl: string, resourceUri: string, mimeType: string, content: string)

  /** What the node returns for an MCP app. */
  datatype AppInfo = AppInfo(serverUrl: string, content: seq<ContentItem>, resourceUri: string, uiResource: Option<UiResource>)

  /** The calls made on the MCP client, in order. */
  datatype ClientOp = Initialize | CallTool(tool: string, args: Option<string>) | ReadResource(uri: string) | Close

  /** The server's side of one run. */
  datatype Server = Server(
    initialize: Option<string>,              // the error `initialize` throws, if any
    call: Result<CallResult>,
    read: Result<Option<UiResource>>,        // `Err` when reading throws; `None` for a null resource
    parses: string -> bool,                  // whether `JSON.parse` accepts the text
    stringifyContent: seq<ContentItem> -> string,
    stringifyUi: UiRecord -> string)

  datatype McpResult = McpResult(vars: Vars, app: Option<AppInfo>)

  /** A run: the client calls made, and the node's result or error. */
  datatype McpRun = McpRun(ops: seq<ClientOp>, result: Result<McpResult>)

  const MissingUrl := "MCP node missing 'url' property"
  const MissingTool := "MCP node missing 'tool' property"

  // ---------------------------------------------------------------------
  // Result text

  /** The non-empty texts of the `text` items, in order. */
  function TextItems(content: seq<ContentItem>): (r: seq<string>)
    ensures |r| <= |content|
    ensures forall i :: 0 <= i < |r| ==> r[i] != ""
    ensures |r| == 0 <==> forall i :: 0 <= i < |content| ==> content[i].kind != "text" || content[i].text == ""
  {
    if |content| == 0 then []
    else
      var rest := TextItems(content[1..]);
      assert forall i :: 1 <= i < |content| ==> content[i] == content[1..][i - 1];
      (if content[0].kind == "text" && content[0].text != "" then [content[0].text] else []) + rest
  }

  /** A join of non-empty pieces is empty only when there are none. */
  lemma JoinEmpty(parts: seq<string>, sep: char)
    requires forall i :: 0 <= i < |parts| ==> parts[i] != ""
    ensures Join(parts, sep) == "" <==> |parts| == 0
  {
    if |parts| > 1 {
      assert |Join(parts, sep)| >= |parts[0]|;
    }
  }

  /** The text saved to `saveTo`: the text items joined by newlines, or
      the serialized content when there is no text item. */
  function ResultText(content: seq<ContentItem>, stringify: seq<ContentItem> -> string): (r: string)
    ensures |TextItems(content)| > 0 ==> r == Join(TextItems(content), '\n') && r != ""
    ensures |TextItems(content)| == 0 ==> r == stringify(content)
  {
    JoinEmpty(TextItems(content), '\n');
    var joined := Join(TextItems(content), '\n');
    if joined != "" then joined else stringify(content)
  }

  // ---------------------------------------------------------------------
  // The node

  function InvalidJson(what: string, text: string): string {
    "Invalid JSON in MCP " + what + ": " + text
  }

  /** The substituted JSON text of an optional property, or its parse error. */
  function JsonProp(props: Props, key: string, what: string, subst: string -> string, parses: string -> bool): (r: Result<Option<string>>)
    ensures !HasProp(props, key) ==> r == Ok(None)
    ensures HasProp(props, key) && parses(subst(props[key])) ==> r == Ok(Some(subst(props[key])))
    ensures HasProp(props, key) && !parses(subst(props[key])) ==> r == Err(InvalidJson(what, subst(props[key])))
  {
    if !HasProp(props, key) then Ok(None)
    else if parses(subst(props[key])) then Ok(Some(subst(props[key])))
    else Err(InvalidJson(what, subst(props[key])))
  }

  /** The part of a run after the client is built. */
  function Session(props: Props, vars: Vars, url: string, tool: string, args: Option<string>, server: Server): (r: McpRun)
    ensures |r.ops| >= 2 && r.ops[0] == Initialize && r.ops[|r.ops| - 1] == Close
    ensures server.initialize.Some? ==> r == McpRun([Initialize, Close], Err(server.initialize.value))
    ensures server.initialize.None? ==> r.ops[1] == CallTool(tool, args)
    ensures r.result.Ok? ==> server.initialize.None? && server.call.Ok?
    ensures r.result.Ok? ==>
              var res := server.call.value;
              && (r.result.value.app.Some? <==> res.resourceUri != "")
              && (HasProp(props, "saveTo") && PropOr(props, "saveUiTo") != props["saveTo"] ==>
                    props["saveTo"] in r.result.value.vars
                    && r.result.value.vars[props["saveTo"]] == Str(ResultText(res.content, server.stringifyContent)))
              && (res.resourceUri != "" <==> ReadResource(res.resourceUri) in r.ops)
  {
    if server.initialize.Some? then McpRun([Initialize, Close], Err(server.initialize.value))
    else
      match server.call
      case Err(e) => McpRun([Initialize, CallTool(tool, args), Close], Err(e))
      case Ok(res) =>
        var text := ResultText(res.content, server.stringifyContent);
        var vars1 := if HasProp(props, "saveTo") then vars[props["saveTo"] := Str(text)] else vars;
        if res.resourceUri == "" then
          McpRun([Initialize, CallTool(tool, args), Close], Ok(McpResult(vars1, None)))
        else
          var ui := if server.read.Ok? then server.read.value else None;
          var vars2 := if ui.Some? && HasProp(props, "saveUiTo") then
                         vars1[props["saveUiTo"] := Str(server.stringifyUi(UiRecordOf(url, res.resourceUri, ui.value)))]
                       else vars1;
          McpRun([Initialize, CallTool(tool, args), ReadResource(res.resourceUri), Close],
                 Ok(McpResult(vars2, Some(AppInfo(url, res.content, res.resourceUri, ui)))))
  }

  /** The saved UI record: MIME type defaulting to `text/html`, content the
      resource's text, else its blob, else `""`. */
  function UiRecordOf(url: string, uri: string, ui: UiResource): (r: UiRecord)
    ensures r.serverUrl == url && r.resourceUri == uri
    ensures r.mimeType == (if ui.mimeType != "" then ui.mimeType else "text/html")
    ensures r.content == (if ui.text != "" then ui.text else ui.blob)
  {
    UiRecord(url, uri, if ui.mimeType != "" then ui.mimeType else "text/html", if ui.text != "" then ui.text else ui.blob)
  }

  /** `handleMcpNode`. */
  function HandleMcp(props: Props, vars: Vars, subst: string -> string, server: Server): (r: McpRun)
    // validation and parsing happen before any client call
    ensures subst(PropOr(props, "url")) == "" ==> r == McpRun([], Err(MissingUrl))
    ensures subst(PropOr(props, "url")) != "" && subst(PropOr(props, "tool")) == "" ==> r == McpRun([], Err(MissingTool))
    ensures r.ops == [] <==>
              || subst(PropOr(props, "url")) == "" || subst(PropOr(props, "tool")) == ""
              || JsonProp(props, "headers", "headers", subst, server.parses).Err?
              || JsonProp(props, "args", "args", subst, server.parses).Err?
    ensures r.ops == [] ==> r.result.Err?
    // once the client exists it is closed, on success and on failure alike
    ensures r.ops != [] ==> r.ops[0] == Initialize && r.ops[|r.ops| - 1] == Close
    ensures r.ops != [] && server.initialize.None? ==>
              JsonProp(props, "args", "args", subst, server.parses).Ok?
              && r.ops[1] == CallTool(subst(PropOr(props, "tool")), JsonProp(props, "args", "args", subst, server.parses).value)
  {
    var url := subst(PropOr(props, "url"));
    var tool := subst(PropOr(props, "tool"));
    if url == "" then McpRun([], Err(MissingUrl))
    else if tool == "" then McpRun([], Err(MissingTool))
    else
      match JsonProp(props, "headers", "headers", subst, server.parses)
      case Err(e) => McpRun([], Err(e))
      case Ok(_) =>
        match JsonProp(props, "args", "args", subst, server.parses)
        case Err(e) => McpRun([], Err(e))
        case Ok(args) =>
          Session(props, vars, url, tool, args, server)
  }

  /** A failed read of the UI resource does not fail the node: the app is
      still reported, without a resource, and `saveUiTo` is not written. */
  lemma UiReadFailureNonFatal(props: Props, vars: Vars, url: string, tool: string, args: Option<string>, server: Server)
    requires server.initialize.None? && server.call.Ok? && server.call.value.resourceUri != ""
    requires server.read.Err? || server.read == Ok(None)
    ensures var r := Session(props, vars, url, tool, args, server).result;
            r.Ok? && r.value.app.Some? && r.value.app.value.uiResource.None?
            && (HasProp(props, "saveUiTo") && PropOr(props, "saveTo") != props["saveUiTo"] ==>
                  (props["saveUiTo"] in r.value.vars <==> props["saveUiTo"] in vars))
  {
  }

  /** `saveUiTo` is written exactly when a UI resource was obtained. */
  lemma SaveUiOnlyWithResource(props: Props, vars: Vars, url: string, tool: string, args: Option<string>, server: Server)
    requires server.initialize.None? && server.call.Ok? && HasProp(props, "saveUiTo")
    requires props["saveUiTo"] !in vars && PropOr(props, "saveTo") != props["saveUiTo"]
    ensures var r := Session(props, vars, url, tool, args, server).result;
            r.Ok? && (props["saveUiTo"] in r.value.vars <==>
                        server.call.value.resourceUri != "" && server.read.Ok? && server.read.value.Some?)
  {
  }
}
