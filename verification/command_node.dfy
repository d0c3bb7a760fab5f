/** The `command` workflow node: one LLM request built from the node's
    properties and the settings (model, grounding, tools, attachments),
    the tool dispatcher handed to the chat loop, and the fold of the
    streamed answer into the `saveTo` variable. The model's answer is the
    chunk sequence it streams; tool calls are the names it asks for. */
module CommandNode {
  import opened Wrappers
  import opened Text
  import opened NodeCommon

  datatype RagSetting = RagSetting(storeIds: seq<string>, storeId: string)   // `storeId` is `""` when unset

  datatype McpServer = McpServer(name: string, url: string)

  /** The settings the node consults; `selectedModel` is `""` when unset. */
  datatype Settings = Settings(selectedModel: string, apiPlan: Option<string>,
                               ragSettings: map<string, RagSetting>, mcpServers: seq<McpServer>)

  const MissingPrompt := "Command node missing 'prompt' property"

  // ---------------------------------------------------------------------
  // Model and grounding

  /** The model: the node's `model` property (substituted), else the
      selected model of the settings, else the plan's default model, the
      plan being `paid` when the settings name none. */
  function ModelFor(props: Props, subst: string -> string, settings: Option<Settings>,
                    planDefault: string -> string): (r: string)
    ensures HasProp(props, "model") ==> r == subst(props["model"])
    ensures !HasProp(props, "model") && settings.Some? && settings.value.selectedModel != "" ==> r == settings.value.selectedModel
    ensures !HasProp(props, "model") && settings.None? ==> r == planDefault("paid")
    ensures !HasProp(props, "model") && settings.Some? && settings.value.selectedModel == "" ==>
              r == planDefault(settings.value.apiPlan.GetOr("paid"))
  {
    if HasProp(props, "model") then subst(props["model"])
    else if settings.Some? && settings.value.selectedModel != "" then settings.value.selectedModel
    else planDefault(if settings.Some? then settings.value.apiPlan.GetOr("paid") else "paid")
  }

  const WebSearch := "__websearch__"
  const NoRag := "__none__"

  /** The RAG stores the request searches: none for `""`, `__none__` and
      `__websearch__` or an unknown setting; else the setting's store ids,
      or its single legacy store id, or none. */
  function StoresFor(props: Props, settings: Option<Settings>): (r: Option<seq<string>>)
    ensures var name := PropOr(props, "ragSetting");
            r.Some? <==> name != "" && name != NoRag && name != WebSearch && settings.Some?
                         && name in settings.value.ragSettings
                         && (|settings.value.ragSettings[name].storeIds| > 0 || settings.value.ragSettings[name].storeId != "")
    ensures r.Some? ==> |r.value| > 0
    ensures r.Some? ==>
              var rag := settings.value.ragSettings[PropOr(props, "ragSetting")];
              r.value == if |rag.storeIds| > 0 then rag.storeIds else [rag.storeId]
  {
    var name := PropOr(props, "ragSetting");
    if name != "" && name != NoRag && name != WebSearch && settings.Some? && name in settings.value.ragSettings then
      var rag := settings.value.ragSettings[name];
      if |rag.storeIds| > 0 then Some(rag.storeIds)
      else if rag.storeId != "" then Some([rag.storeId])
      else None
    else None
  }

  /** Web search and RAG stores never go together. */
  lemma WebSearchExcludesStores(props: Props, settings: Option<Settings>)
    requires PropOr(props, "ragSetting") == WebSearch
    ensures StoresFor(props, settings).None?
  {
  }

  // ---------------------------------------------------------------------
  // Tools

  /** The tools offered from `all` when search tools are withheld. */
  function WithoutSearch(all: seq<string>, searchNames: set<string>): (r: seq<string>)
    ensures forall t :: t in r <==> t in all && t !in searchNames
    ensures |r| <= |all|
  {
    if |all| == 0 then []
    else (if all[0] in searchNames then [] else [all[0]]) + WithoutSearch(all[1..], searchNames)
  }

  /** The Drive tools for `driveToolMode` (default `none`): none, all but
      the search tools for `noSearch`, and all of them for anything else. */
  function DriveTools(props: Props, all: seq<string>, searchNames: set<string>): (r: seq<string>)
    ensures var mode := PropOr(props, "driveToolMode");
            (mode == "" || mode == "none" ==> r == [])
            && (mode == "noSearch" ==> forall t :: t in r <==> t in all && t !in searchNames)
            && (mode != "" && mode != "none" && mode != "noSearch" ==> r == all)
  {
    var mode := PropOr(props, "driveToolMode");
    if mode == "" || mode == "none" then []
    else if mode == "noSearch" then WithoutSearch(all, searchNames)
    else all
  }

  /** `s.split(",").map(trim).filter(Boolean)`. */
  function CommaList(s: string): (r: seq<string>)
    ensures forall i :: 0 <= i < |r| ==> r[i] != ""
    ensures forall p :: p in Split(s, ',') && Trim(p) != "" ==> Trim(p) in r
  {
    var parts := Split(s, ',');
    var trimmed := TrimAll(parts);
    var r := NonEmpty(trimmed);
    assert forall p :: p in parts && Trim(p) != "" ==> Trim(p) in r by {
      forall p | p in parts && Trim(p) != "" ensures Trim(p) in r {
        var k :| 0 <= k < |parts| && parts[k] == p;
        assert trimmed[k] == Trim(p);
      }
    }
    r
  }

  /** Every part trimmed. */
  function TrimAll(parts: seq<string>): seq<string> {
    seq(|parts|, i requires 0 <= i < |parts| => Trim(parts[i]))
  }

  /** The non-empty strings, in order. */
  function NonEmpty(xs: seq<string>): (r: seq<string>)
    ensures |r| <= |xs|
    ensures forall i :: 0 <= i < |r| ==> r[i] != ""
    ensures forall x :: x in r <==> x in xs && x != ""
  {
    if |xs| == 0 then []
    else
      assert xs == [xs[0]] + xs[1..];
      (if xs[0] != "" then [xs[0]] else []) + NonEmpty(xs[1..])
  }

  /** The configured servers the node names, in the settings' order. */
  function EnabledServers(props: Props, settings: Option<Settings>): (r: seq<McpServer>)
    ensures forall s :: s in r <==> settings.Some? && s in settings.value.mcpServers
                                     && s.name in CommaList(PropOr(props, "mcpServers"))
  {
    var names := if PropOr(props, "mcpServers") == "" then [] else CommaList(PropOr(props, "mcpServers"));
    assert PropOr(props, "mcpServers") == "" ==> CommaList(PropOr(props, "mcpServers")) == [] by {
      if PropOr(props, "mcpServers") == "" {
        assert Split("", ',') == [""];
      }
    }
    if |names| > 0 && settings.Some? then ServersNamed(settings.value.mcpServers, names) else []
  }

  function ServersNamed(servers: seq<McpServer>, names: seq<string>): (r: seq<McpServer>)
    ensures forall s :: s in r <==> s in servers && s.name in names
    ensures |r| <= |servers|
  {
    if |servers| == 0 then []
    else (if servers[0].name in names then [servers[0]] else []) + ServersNamed(servers[1..], names)
  }

  /** Where a tool call goes. */
  datatype Route = ToDrive | ToMcp | UnknownTool

  /** The dispatcher: any Drive tool name goes to Drive (whether or not it
      was offered), a listed MCP tool to MCP while some server is enabled,
      anything else answers `Unknown tool`. */
  function RouteFor(name: string, driveNames: set<string>, mcpNames: set<string>, mcpEnabled: bool): (r: Route)
    ensures r == ToDrive <==> name in driveNames
    ensures r == ToMcp <==> name !in driveNames && name in mcpNames && mcpEnabled
  {
    if name in driveNames then ToDrive
    else if name in mcpNames && mcpEnabled then ToMcp
    else UnknownTool
  }

  /** What one MCP tool call returns: text, and optionally an MCP app. */
  datatype McpToolResult = McpToolResult(text: string, app: Option<string>)

  /** What the dispatcher hands back to the chat loop. */
  datatype ToolAnswer = DriveAnswer(name: string) | McpAnswer(text: string) | UnknownAnswer(error: string)

  /** `executeToolCall`: Drive answers Drive names, MCP answers listed MCP
      names while a server is enabled, and any other name gets an error
      object naming the tool. */
  function Dispatch(name: string, driveNames: set<string>, mcpNames: set<string>, mcpEnabled: bool,
                    mcp: string -> McpToolResult): (r: ToolAnswer)
    ensures r.DriveAnswer? <==> name in driveNames
    ensures r.UnknownAnswer? <==> name !in driveNames && (name !in mcpNames || !mcpEnabled)
    ensures r.UnknownAnswer? ==> r.error == "Unknown tool: " + name
    ensures r.McpAnswer? ==> r.text == mcp(name).text
  {
    match RouteFor(name, driveNames, mcpNames, mcpEnabled)
    case ToDrive => DriveAnswer(name)
    case ToMcp => McpAnswer(mcp(name).text)
    case UnknownTool => UnknownAnswer("Unknown tool: " + name)
  }

  /** The MCP apps collected over the calls, in call order. */
  function CollectedApps(calls: seq<string>, driveNames: set<string>, mcpNames: set<string>, mcpEnabled: bool,
                         mcp: string -> McpToolResult): (r: seq<string>)
    ensures |r| <= |calls|
    ensures forall a :: a in r ==> exists i :: 0 <= i < |calls| && RouteFor(calls[i], driveNames, mcpNames, mcpEnabled) == ToMcp
                                              && mcp(calls[i]).app == Some(a)
    decreases |calls|
  {
    if |calls| == 0 then []
    else
      var init := CollectedApps(calls[..|calls| - 1], driveNames, mcpNames, mcpEnabled, mcp);
      var last := calls[|calls| - 1];
      assert forall i :: 0 <= i < |calls| - 1 ==> calls[..|calls| - 1][i] == calls[i];
      if RouteFor(last, driveNames, mcpNames, mcpEnabled) == ToMcp && mcp(last).app.Some? then init + [mcp(last).app.value]
      else init
  }

  // ---------------------------------------------------------------------
  // Attachments

  datatype AttachKind = Image | Pdf | TextFile

  /** The fields of `FileExplorerData` used here, `""` when missing. */
  datatype FileFields = FileFields(data: string, mimeType: string, basename: string, name: string)

  datatype Attachment = Attachment(name: string, kind: AttachKind, mimeType: string, data: string)

  function KindOf(mimeType: string): (r: AttachKind)
    ensures r == Image <==> StartsWith(mimeType, "image/")
    ensures r == Pdf <==> mimeType == "application/pdf"
  {
    assert !StartsWith("application/pdf", "image/") by {
      assert "application/pdf"[..6][0] == 'a';
    }
    if StartsWith(mimeType, "image/") then Image
    else if mimeType == "application/pdf" then Pdf
    else TextFile
  }

  /** The attachment a variable yields, if any: the variable must hold a
      non-empty string that parses, with non-empty data and MIME type. */
  function AttachmentOf(vars: Vars, varName: string, parse: string -> Option<FileFields>): (r: Option<Attachment>)
    ensures r.Some? ==> StringVar(vars, varName).Some? && parse(StringVar(vars, varName).value).Some?
    ensures r.Some? ==>
              var f := parse(StringVar(vars, varName).value).value;
              && f.data != "" && f.mimeType != ""
              && r.value.data == f.data && r.value.mimeType == f.mimeType && r.value.kind == KindOf(f.mimeType)
              && r.value.name == (if f.basename != "" then f.basename else if f.name != "" then f.name else "file")
    ensures (StringVar(vars, varName).Some? && parse(StringVar(vars, varName).value).Some?
             && parse(StringVar(vars, varName).value).value.data != ""
             && parse(StringVar(vars, varName).value).value.mimeType != "") ==> r.Some?
  {
    match StringVar(vars, varName)
    case None => None
    case Some(text) =>
      match parse(text)
      case None => None
      case Some(f) =>
        if f.data != "" && f.mimeType != "" then
          Some(Attachment(if f.basename != "" then f.basename else if f.name != "" then f.name else "file",
                          KindOf(f.mimeType), f.mimeType, f.data))
        else None
  }

  /** The attachments of the listed variables, skipping the unusable ones, in order. */
  function Attachments(names: seq<string>, vars: Vars, parse: string -> Option<FileFields>): (r: seq<Attachment>)
    ensures |r| <= |names|
    ensures forall a :: a in r <==> exists n :: n in names && AttachmentOf(vars, n, parse) == Some(a)
  {
    if |names| == 0 then []
    else
      var rest := Attachments(names[1..], vars, parse);
      assert forall n :: n in names <==> n == names[0] || n in names[1..];
      match AttachmentOf(vars, names[0], parse)
      case Some(a) => [a] + rest
      case None => rest
  }

  // ---------------------------------------------------------------------
  // The streamed answer

  datatype GeneratedImage = GeneratedImage(mimeType: string, data: string)

  /** One chunk of the stream; `error` is `""` when the chunk carries none. */
  datatype Chunk = TextChunk(content: string) | ImageChunk(image: GeneratedImage) | ErrorChunk(error: string) | OtherChunk

  function TextPart(c: Chunk): string {
    match c
    case TextChunk(t) => t
    case _ => ""
  }

  /** The answer text: the text chunks concatenated, cut short by the first
      error chunk, whose message (or `fallback`) becomes the node's error. */
  function Fold(chunks: seq<Chunk>, fallback: string): (r: Result<string>)
    ensures r.Ok? <==> forall i :: 0 <= i < |chunks| ==> !chunks[i].ErrorChunk?
    ensures r.Err? ==> exists i :: 0 <= i < |chunks| && chunks[i].ErrorChunk?
                                   && r.error == (if chunks[i].error != "" then chunks[i].error else fallback)
                                   && forall j :: 0 <= j < i ==> !chunks[j].ErrorChunk?
  {
    if |chunks| == 0 then Ok("")
    else match chunks[0]
      case ErrorChunk(e) => Err(if e != "" then e else fallback)
      case _ =>
        var rest := Fold(chunks[1..], fallback);
        assert forall i :: 1 <= i < |chunks| ==> chunks[i] == chunks[1..][i - 1];
        match rest
        case Err(e) =>
          var k :| 0 <= k < |chunks[1..]| && chunks[1..][k].ErrorChunk?
                   && e == (if chunks[1..][k].error != "" then chunks[1..][k].error else fallback)
                   && forall j :: 0 <= j < k ==> !chunks[1..][j].ErrorChunk?;
          assert chunks[k + 1] == chunks[1..][k];
          Err(e)
        case Ok(t) => Ok(TextPart(chunks[0]) + t)
  }

  /** The text of the text chunks, in order. */
  function TextOf(chunks: seq<Chunk>): string {
    if |chunks| == 0 then ""
    else TextPart(chunks[0]) + TextOf(chunks[1..])
  }

  /** Without an error chunk the answer is all the text, in stream order;
      chunks of other kinds add nothing. */
  lemma {:induction false} FoldIsText(chunks: seq<Chunk>, fallback: string)
    requires forall i :: 0 <= i < |chunks| ==> !chunks[i].ErrorChunk?
    ensures Fold(chunks, fallback) == Ok(TextOf(chunks))
  {
    if |chunks| > 0 {
      FoldIsText(chunks[1..], fallback);
    }
  }

  /** Splitting the stream splits the text. */
  lemma {:induction false} TextOfAppend(a: seq<Chunk>, b: seq<Chunk>)
    ensures TextOf(a + b) == TextOf(a) + TextOf(b)
  {
    if |a| > 0 {
      assert (a + b)[1..] == a[1..] + b;
      TextOfAppend(a[1..], b);
    } else {
      assert a + b == b;
    }
  }

  /** The last generated image of the stream, if any. */
  function LastImage(chunks: seq<Chunk>): (r: Option<GeneratedImage>)
    ensures r.Some? ==> exists i :: 0 <= i < |chunks| && chunks[i] == ImageChunk(r.value)
                                    && forall j :: i < j < |chunks| ==> !chunks[j].ImageChunk?
    ensures r.None? <==> forall i :: 0 <= i < |chunks| ==> !chunks[i].ImageChunk?
  {
    if |chunks| == 0 then None
    else if chunks[|chunks| - 1].ImageChunk? then Some(chunks[|chunks| - 1].image)
    else
      var r := LastImage(chunks[..|chunks| - 1]);
      assert forall i :: 0 <= i < |chunks| - 1 ==> chunks[..|chunks| - 1][i] == chunks[i];
      r
  }

  /** The `FileExplorerData` saved for a generated image: a binary
      `generated.png` for PNG, `generated.jpg` for anything else. */
  datatype ImageFile = ImageFile(path: string, basename: string, name: string, extension: string,
                                 mimeType: string, contentType: string, data: string)

  function ImageFileOf(img: GeneratedImage): (r: ImageFile)
    ensures r.extension == (if img.mimeType == "image/png" then "png" else "jpg")
    ensures r.path == "generated." + r.extension && r.basename == r.path && r.name == "generated"
    ensures r.contentType == "binary" && r.data == img.data && r.mimeType == img.mimeType
  {
    var ext := if img.mimeType == "image/png" then "png" else "jpg";
    ImageFile("generated." + ext, "generated." + ext, "generated", ext, img.mimeType, "binary", img.data)
  }

  // ---------------------------------------------------------------------
  // The node

  /** What the node asks of the model. */
  datatype Request = Request(model: string, prompt: string, attachments: seq<Attachment>, systemPrompt: Option<string>,
                             tools: seq<string>, withExecutor: bool, stores: Option<seq<string>>, webSearch: bool)

  datatype LastCommand = LastCommand(nodeId: string, originalPrompt: string, saveTo: string)

  datatype CommandOutcome = CommandOutcome(request: Request, vars: Vars, lastCommand: Option<LastCommand>,
                                           mcpApps: Option<seq<string>>)

  /** The collaborators of the node: the plan defaults, the tool catalogues,
      the image-model test, JSON, and the model's behaviour (`stream` and
      the tool calls it makes). */
  datatype Env = Env(
    planDefault: string -> string,
    driveToolNames: seq<string>, searchToolNames: set<string>,
    mcpDefs: seq<McpServer> -> Option<seq<string>>,   // `None` when listing the MCP tools throws
    isImageModel: string -> bool,
    parse: string -> Option<FileFields>,
    stringifyImage: ImageFile -> string,
    stream: Request -> seq<Chunk>,
    toolCalls: Request -> seq<string>,
    mcp: string -> McpToolResult)

  /** The request built from the node (before any streaming). */
  function RequestFor(props: Props, vars: Vars, subst: string -> string, settings: Option<Settings>, env: Env): (r: Request)
    requires HasProp(props, "prompt")
    ensures r.prompt == subst(props["prompt"])
    ensures r.model == ModelFor(props, subst, settings, env.planDefault)
    ensures r.webSearch <==> PropOr(props, "ragSetting") == WebSearch
    ensures r.webSearch ==> r.stores.None?
    ensures r.withExecutor <==> |r.tools| > 0
    ensures r.systemPrompt == (if HasProp(props, "systemPrompt") then Some(subst(props["systemPrompt"])) else None)
    ensures forall t :: t in r.tools <==>
              t in DriveTools(props, env.driveToolNames, env.searchToolNames)
              || (|EnabledServers(props, settings)| > 0 && env.mcpDefs(EnabledServers(props, settings)).Some?
                  && t in env.mcpDefs(EnabledServers(props, settings)).value)
  {
    var servers := EnabledServers(props, settings);
    var mcpTools := if |servers| > 0 then env.mcpDefs(servers).GetOr([]) else [];
    var tools := DriveTools(props, env.driveToolNames, env.searchToolNames) + mcpTools;
    var names := if HasProp(props, "attachments") then CommaList(subst(props["attachments"])) else [];
    Request(ModelFor(props, subst, settings, env.planDefault), subst(props["prompt"]), Attachments(names, vars, env.parse),
            if HasProp(props, "systemPrompt") then Some(subst(props["systemPrompt"])) else None,
            tools, |tools| > 0, StoresFor(props, settings), PropOr(props, "ragSetting") == WebSearch)
  }

  /** The variables after a successful stream: the generated image (if
      any) under `saveImageTo`, then the answer text under `saveTo`. */
  function Outputs(props: Props, vars: Vars, text: string, image: Option<Value>): (r: Vars)
    requires image.Some? ==> HasProp(props, "saveImageTo")
    ensures HasProp(props, "saveTo") ==> props["saveTo"] in r && r[props["saveTo"]] == Str(text)
    ensures image.Some? && PropOr(props, "saveTo") != props["saveImageTo"] ==>
              props["saveImageTo"] in r && r[props["saveImageTo"]] == image.value
    ensures forall k :: k in r && k != PropOr(props, "saveTo") && (image.None? || k != props["saveImageTo"]) ==>
              k in vars && r[k] == vars[k]
  {
    var withImage := if image.Some? then vars[props["saveImageTo"] := image.value] else vars;
    if HasProp(props, "saveTo") then withImage[props["saveTo"] := Str(text)] else withImage
  }

  /** The image a run saves, as the text of its `FileExplorerData`. */
  function SavedImage(props: Props, chunks: seq<Chunk>, image: bool, env: Env): (r: Option<Value>)
    ensures r.Some? ==> HasProp(props, "saveImageTo") && image && LastImage(chunks).Some?
    ensures r.Some? ==> r.value == Str(env.stringifyImage(ImageFileOf(LastImage(chunks).value)))
    ensures image && HasProp(props, "saveImageTo") && LastImage(chunks).Some? ==> r.Some?
  {
    if image && HasProp(props, "saveImageTo") && LastImage(chunks).Some?
    then Some(Str(env.stringifyImage(ImageFileOf(LastImage(chunks).value))))
    else None
  }

  /** `handleCommandNode`; `apiKey` is `""` when none is configured. */
  function HandleCommand(nodeId: string, props: Props, vars: Vars, subst: string -> string, apiKey: string,
                         settings: Option<Settings>, env: Env): (r: Result<CommandOutcome>)
    ensures !HasProp(props, "prompt") ==> r == Err(MissingPrompt)
    ensures HasProp(props, "prompt") && apiKey == "" ==> r == Err(NoApiKey)
    ensures r.Ok? ==> HasProp(props, "prompt") && r.value.request == RequestFor(props, vars, subst, settings, env)
    ensures r.Ok? ==>
              var chunks := env.stream(r.value.request);
              && (forall i :: 0 <= i < |chunks| ==> !chunks[i].ErrorChunk?)
              && r.value.vars == Outputs(props, vars, TextOf(chunks), SavedImage(props, chunks, env.isImageModel(r.value.request.model), env))
              && (r.value.lastCommand.Some? <==> HasProp(props, "saveTo"))
              && (r.value.lastCommand.Some? ==> r.value.lastCommand.value == LastCommand(nodeId, subst(props["prompt"]), props["saveTo"]))
    ensures r.Ok? && env.isImageModel(r.value.request.model) ==> r.value.mcpApps.None?
  {
    if !HasProp(props, "prompt") then Err(MissingPrompt)
    else if apiKey == "" then Err(NoApiKey)
    else
      var request := RequestFor(props, vars, subst, settings, env);
      var chunks := env.stream(request);
      var image := env.isImageModel(request.model);
      match Fold(chunks, if image then "Image generation error" else "LLM error")
      case Err(e) => Err(e)
      case Ok(text) =>
        FoldIsText(chunks, if image then "Image generation error" else "LLM error");
        var last := if HasProp(props, "saveTo") then Some(LastCommand(nodeId, subst(props["prompt"]), props["saveTo"])) else None;
        var apps := if image then [] else
                      CollectedApps(env.toolCalls(request), ToSet(env.driveToolNames),
                                    ToSet(McpToolsOf(props, settings, env)), |EnabledServers(props, settings)| > 0, env.mcp);
        Ok(CommandOutcome(request, Outputs(props, vars, text, SavedImage(props, chunks, image, env)), last,
                          if |apps| > 0 then Some(apps) else None))
  }

  /** The MCP tools listed for the node's servers (none when listing failed). */
  function McpToolsOf(props: Props, settings: Option<Settings>, env: Env): seq<string> {
    var servers := EnabledServers(props, settings);
    if |servers| > 0 then env.mcpDefs(servers).GetOr([]) else []
  }

  function ToSet(s: seq<string>): (r: set<string>)
    ensures forall x :: x in r <==> x in s
  {
    set x | x in s
  }

  /** An image model saves the last generated image as binary
      `FileExplorerData` under `saveImageTo` (unless `saveTo` names the same
      variable), and never reports MCP apps. */
  lemma ImageModelSavesLastImage(nodeId: string, props: Props, vars: Vars, subst: string -> string, apiKey: string,
                                 settings: Option<Settings>, env: Env)
    requires HandleCommand(nodeId, props, vars, subst, apiKey, settings, env).Ok?
    requires var o := HandleCommand(nodeId, props, vars, subst, apiKey, settings, env).value;
             env.isImageModel(o.request.model) && HasProp(props, "saveImageTo")
             && LastImage(env.stream(o.request)).Some? && PropOr(props, "saveTo") != props["saveImageTo"]
    ensures var o := HandleCommand(nodeId, props, vars, subst, apiKey, settings, env).value;
            var img := LastImage(env.stream(o.request)).value;
            props["saveImageTo"] in o.vars
            && o.vars[props["saveImageTo"]] == Str(env.stringifyImage(ImageFileOf(img)))
            && ImageFileOf(img).contentType == "binary"
  {
  }

  /** Every MCP app reported comes from a call the dispatcher sent to MCP. */
  lemma AppsComeFromMcpCalls(nodeId: string, props: Props, vars: Vars, subst: string -> string, apiKey: string,
                             settings: Option<Settings>, env: Env, a: string)
    requires HandleCommand(nodeId, props, vars, subst, apiKey, settings, env).Ok?
    requires var o := HandleCommand(nodeId, props, vars, subst, apiKey, settings, env).value;
             o.mcpApps.Some? && a in o.mcpApps.value
    ensures var o := HandleCommand(nodeId, props, vars, subst, apiKey, settings, env).value;
            var calls := env.toolCalls(o.request);
            |EnabledServers(props, settings)| > 0
            && exists i :: 0 <= i < |calls| && calls[i] !in env.driveToolNames
                           && calls[i] in McpToolsOf(props, settings, env) && env.mcp(calls[i]).app == Some(a)
  {
  }
}
