/** The dialog that asks the model for a workflow: the guard on generating,
    the framing of the server-sent event stream into lines, the handling of
    `event:` and `data:` lines, the extraction of the YAML from the model's
    text, and the history kept for regenerating. The fetch, the stream
    reader and `JSON.parse` are parameters. */
module AiWorkflowDialog {
  import opened Wrappers
  import opened Text

  // ---------------------------------------------------------------------
  // State

  datatype Phase = Input | Generating | Preview
  datatype Role = User | Model
  datatype Turn = Turn(role: Role, text: string)
  datatype DialogMode = Create | Modify

  /** An error shown to the user: a server message, or a message of the
      interface looked up by key. */
  datatype Message = Literal(text: string) | Localized(key: string)

  const GenerationFailed := "workflow.ai.generationFailed"
  const NoResponseStream := "workflow.ai.noResponseStream"
  const GenerationError := "workflow.ai.generationError"
  const EmptyResponse := "workflow.ai.emptyResponse"

  /** The dialog's state. The selected model is not kept: it only goes into
      the request body, and the reply is a parameter. */
  datatype Dialog = Dialog(mode: DialogMode, name: string, description: string, phase: Phase,
                           thinking: string, generatedText: string, error: Option<Message>,
                           showThinking: bool, history: seq<Turn>, lastDescription: string)

  /** Generating needs a description, and a name when creating. */
  predicate CanGenerate(d: Dialog) {
    Trim(d.description) != "" && !(d.mode == Create && Trim(d.name) == "")
  }

  /** The state set before the request is sent. */
  function Begin(d: Dialog): (r: Dialog)
    ensures r.phase == Generating && r.thinking == "" && r.generatedText == "" && r.error.None? && !r.showThinking
    ensures r.lastDescription == Trim(d.description)
    ensures r.history == d.history && r.mode == d.mode && r.name == d.name && r.description == d.description
  {
    d.(phase := Generating, thinking := "", generatedText := "", error := None, showThinking := false,
       lastDescription := Trim(d.description))
  }

  // ---------------------------------------------------------------------
  // Framing

  /** The text of the reads, one after the other. */
  function Concat(received: seq<string>): string {
    if |received| == 0 then "" else received[0] + Concat(received[1..])
  }

  /** The lines completed by each read: the buffer and the read are split
      on `\n`, and the last piece is kept back as the new buffer. */
  function Batches(buffer: string, received: seq<string>): (r: seq<seq<string>>)
    ensures |r| == |received|
    decreases |received|
  {
    if |received| == 0 then []
    else
      var pieces := Split(buffer + received[0], '\n');
      [pieces[..|pieces| - 1]] + Batches(pieces[|pieces| - 1], received[1..])
  }

  /** The buffer left when the stream ends. */
  function Leftover(buffer: string, received: seq<string>): (r: string)
    requires '\n' !in buffer
    ensures '\n' !in r
    decreases |received|
  {
    if |received| == 0 then buffer
    else
      var pieces := Split(buffer + received[0], '\n');
      Leftover(pieces[|pieces| - 1], received[1..])
  }

  function Flatten(batches: seq<seq<string>>): seq<string> {
    if |batches| == 0 then [] else batches[0] + Flatten(batches[1..])
  }

  lemma ConcatFirst(buffer: string, received: seq<string>)
    requires |received| > 0
    ensures buffer + Concat(received) == (buffer + received[0]) + Concat(received[1..])
  {
    assert Concat(received) == received[0] + Concat(received[1..]);
  }

  /** The first read: its completed lines, then whatever the rest of the
      stream makes of the piece kept back. */
  lemma FramingFirstRead(buffer: string, received: seq<string>)
    requires |received| > 0 && '\n' !in buffer
    ensures var pieces := Split(buffer + received[0], '\n');
            && Flatten(Batches(buffer, received)) == pieces[..|pieces| - 1] + Flatten(Batches(pieces[|pieces| - 1], received[1..]))
            && Leftover(buffer, received) == Leftover(pieces[|pieces| - 1], received[1..])
  {
    var pieces := Split(buffer + received[0], '\n');
    var done := pieces[..|pieces| - 1];
    var batches := Batches(pieces[|pieces| - 1], received[1..]);
    assert Batches(buffer, received) == [done] + batches;
    assert ([done] + batches)[0] == done && ([done] + batches)[1..] == batches;
  }

  /** However the stream is cut into reads, the lines handed on are the
      `\n`-separated lines of the whole text, except the last, unterminated,
      piece, which is what remains in the buffer. */
  lemma {:induction false} Framing(buffer: string, received: seq<string>)
    requires '\n' !in buffer
    ensures Flatten(Batches(buffer, received)) + [Leftover(buffer, received)] == Split(buffer + Concat(received), '\n')
    decreases |received|
  {
    if |received| == 0 {
      assert buffer + Concat(received) == buffer;
      SplitWhole(buffer, '\n');
    } else {
      var pieces := Split(buffer + received[0], '\n');
      var last := pieces[|pieces| - 1];
      var later := received[1..];
      var done := pieces[..|pieces| - 1];
      Framing(last, later);
      SplitAppend(buffer + received[0], Concat(later), '\n');
      FramingFirstRead(buffer, received);
      ConcatFirst(buffer, received);
      var b := Flatten(Batches(last, later));
      var l := Leftover(last, later);
      assert (done + b) + [l] == done + (b + [l]);
    }
  }

  /** No line handed on contains a line break. */
  lemma {:induction false} BatchLinesSingle(buffer: string, received: seq<string>)
    ensures forall i, j :: 0 <= i < |Batches(buffer, received)| && 0 <= j < |Batches(buffer, received)[i]| ==>
              '\n' !in Batches(buffer, received)[i][j]
    decreases |received|
  {
    if |received| > 0 {
      var pieces := Split(buffer + received[0], '\n');
      BatchLinesSingle(pieces[|pieces| - 1], received[1..]);
      var b := Batches(buffer, received);
      forall i, j | 0 <= i < |b| && 0 <= j < |b[i]|
        ensures '\n' !in b[i][j]
      {
        if i == 0 {
          assert b[0][j] == pieces[j];
        } else {
          assert b[i] == Batches(pieces[|pieces| - 1], received[1..])[i - 1];
        }
      }
    }
  }

  // ---------------------------------------------------------------------
  // Lines

  /** A parsed `data:` payload: its `type` and `content` fields. */
  datatype Payload = Payload(kind: Option<string>, content: Option<string>)

  /** The dialog as a batch is read, the event type of the batch, and
      whether an error has ended generation. `shownAtClick` is the
      `showThinking` flag the generate callback captured when it was
      invoked: the handler tests that value, not the current one. */
  datatype Scan = Scan(dialog: Dialog, eventType: string, stopped: bool, shownAtClick: bool)

  /** `parsed.content || ""`. */
  function ContentOf(p: Payload): string {
    if p.content.Some? then p.content.value else ""
  }

  predicate IsKind(s: Scan, p: Payload, kind: string) {
    s.eventType == kind || p.kind == Some(kind)
  }

  /** A `data:` payload that parsed: thinking and text are appended, an
      error ends generation; any other kind is ignored. A thinking chunk
      opens the thinking panel only when the captured flag says it was
      closed. */
  function OnPayload(s: Scan, p: Payload): (r: Scan)
    requires !s.stopped
    ensures IsKind(s, p, "thinking") ==>
              r == s.(dialog := s.dialog.(thinking := s.dialog.thinking + ContentOf(p),
                                          showThinking := if s.shownAtClick then s.dialog.showThinking else true))
    ensures !IsKind(s, p, "thinking") && IsKind(s, p, "text") ==>
              r == s.(dialog := s.dialog.(generatedText := s.dialog.generatedText + ContentOf(p)))
    ensures r.stopped <==> !IsKind(s, p, "thinking") && !IsKind(s, p, "text") && IsKind(s, p, "error")
    ensures r.stopped ==> r.dialog.phase == Input && r.dialog.error.Some?
                          && r.dialog.thinking == s.dialog.thinking && r.dialog.generatedText == s.dialog.generatedText
    ensures !IsKind(s, p, "thinking") && !IsKind(s, p, "text") && !IsKind(s, p, "error") ==> r == s
  {
    if IsKind(s, p, "thinking") then
      s.(dialog := s.dialog.(thinking := s.dialog.thinking + ContentOf(p),
                             showThinking := if s.shownAtClick then s.dialog.showThinking else true))
    else if IsKind(s, p, "text") then
      s.(dialog := s.dialog.(generatedText := s.dialog.generatedText + ContentOf(p)))
    else if IsKind(s, p, "error") then
      var message := if ContentOf(p) != "" then Literal(ContentOf(p)) else Localized(GenerationError);
      s.(dialog := s.dialog.(error := Some(message), phase := Input), stopped := true)
    else s
  }

  /** One line of a batch. */
  function OnLine(s: Scan, line: string, parse: string -> Option<Payload>): (r: Scan)
    requires !s.stopped
    ensures StartsWith(line, "event: ") ==> r == s.(eventType := line[7..])
    ensures !StartsWith(line, "event: ") && StartsWith(line, "data: ") && parse(line[6..]).None? ==> r == s
    ensures !StartsWith(line, "event: ") && StartsWith(line, "data: ") && parse(line[6..]).Some? ==>
              r == OnPayload(s, parse(line[6..]).value)
    ensures !StartsWith(line, "event: ") && !StartsWith(line, "data: ") ==> r == s
  {
    if StartsWith(line, "event: ") then s.(eventType := line[7..])
    else if StartsWith(line, "data: ") then
      match parse(line[6..])
      case None => s
      case Some(p) => OnPayload(s, p)
    else s
  }

  /** The lines of a batch in order, up to an error. */
  function ScanLines(s: Scan, lines: seq<string>, parse: string -> Option<Payload>): (r: Scan)
    ensures r.shownAtClick == s.shownAtClick
    ensures r.dialog.history == s.dialog.history && r.dialog.lastDescription == s.dialog.lastDescription
    ensures r.dialog.mode == s.dialog.mode && r.dialog.name == s.dialog.name && r.dialog.description == s.dialog.description
    decreases |lines|
  {
    if s.stopped || |lines| == 0 then s
    else ScanLines(OnLine(s, lines[0], parse), lines[1..], parse)
  }

  /** Reading the lines never takes text away: the thinking and the
      generated text only grow. */
  lemma {:induction false} ScanGrows(s: Scan, lines: seq<string>, parse: string -> Option<Payload>)
    ensures StartsWith(ScanLines(s, lines, parse).dialog.thinking, s.dialog.thinking)
    ensures StartsWith(ScanLines(s, lines, parse).dialog.generatedText, s.dialog.generatedText)
    ensures ScanLines(s, lines, parse).dialog.history == s.dialog.history
    ensures !s.stopped && ScanLines(s, lines, parse).stopped ==> ScanLines(s, lines, parse).dialog.phase == Input
    ensures !ScanLines(s, lines, parse).stopped ==> ScanLines(s, lines, parse).dialog.phase == s.dialog.phase
    decreases |lines|
  {
    if !s.stopped && |lines| > 0 {
      var next := OnLine(s, lines[0], parse);
      ScanGrows(next, lines[1..], parse);
      var r := ScanLines(s, lines, parse);
      assert r.dialog.thinking[..|next.dialog.thinking|] == next.dialog.thinking;
      assert next.dialog.thinking[..|s.dialog.thinking|] == s.dialog.thinking;
      assert r.dialog.generatedText[..|next.dialog.generatedText|] == next.dialog.generatedText;
      assert next.dialog.generatedText[..|s.dialog.generatedText|] == s.dialog.generatedText;
    }
  }

  /** The batches in order; each starts with no event type. */
  function ScanBatches(d: Dialog, shown: bool, batches: seq<seq<string>>, parse: string -> Option<Payload>): (r: Scan)
    ensures |batches| == 0 ==> r == Scan(d, "", false, shown)
    ensures r.dialog.history == d.history && r.dialog.lastDescription == d.lastDescription
    ensures r.dialog.mode == d.mode && r.dialog.name == d.name && r.dialog.description == d.description
    decreases |batches|
  {
    if |batches| == 0 then Scan(d, "", false, shown)
    else
      var s := ScanLines(Scan(d, "", false, shown), batches[0], parse);
      if s.stopped then s else ScanBatches(s.dialog, shown, batches[1..], parse)
  }

  /** The stream: its reads framed into batches of lines, and each batch
      read. */
  function ReadStream(d: Dialog, shown: bool, received: seq<string>, parse: string -> Option<Payload>): Scan {
    ScanBatches(d, shown, Batches("", received), parse)
  }

  /** An `event:` line gives its type to the `data:` lines after it in the
      same read, and not to those of the next read. */
  lemma EventTypePerBatch(d: Dialog, shown: bool, payload: string, parse: string -> Option<Payload>)
    requires parse(payload) == Some(Payload(None, Some("step")))
    ensures ScanBatches(d, shown, [["event: thinking", "data: " + payload]], parse).dialog.thinking == d.thinking + "step"
    ensures ScanBatches(d, shown, [["event: thinking"], ["data: " + payload]], parse).dialog == d
  {
    var ev := "event: thinking";
    var data := "data: " + payload;
    assert ev[..7] == "event: " && ev[7..] == "thinking";
    assert data[..6] == "data: " && data[6..] == payload;
    assert !StartsWith(data, "event: ") by { assert data[1] == 'a' && "event: "[1] == 'v'; }
    var s0 := Scan(d, "", false, shown);
    var s1 := OnLine(s0, ev, parse);
    assert s1 == Scan(d, "thinking", false, shown);
    assert ScanLines(s1, [data], parse) == OnLine(s1, data, parse);
    assert [ev, data][1..] == [data];
    assert ScanLines(s0, [ev], parse) == s1;
    assert ScanLines(s0, [data], parse) == s0;
  }

  /** The thinking panel after a generation's first thinking chunk is the
      opposite of what it was when generate was clicked: `Begin` closes it,
      and the chunk reopens it only if the captured flag says it was closed. */
  lemma ThinkingPanelFlipsOnClick(d: Dialog, payload: string, parse: string -> Option<Payload>)
    requires parse(payload) == Some(Payload(Some("thinking"), Some("step")))
    ensures ScanBatches(Begin(d), d.showThinking, [["data: " + payload]], parse).dialog.showThinking == !d.showThinking
  {
    var data := "data: " + payload;
    assert data[..6] == "data: " && data[6..] == payload;
    assert !StartsWith(data, "event: ") by { assert data[1] == 'a' && "event: "[1] == 'v'; }
    var s0 := Scan(Begin(d), "", false, d.showThinking);
    assert ScanLines(s0, [data], parse) == ScanLines(OnLine(s0, data, parse), [], parse);
  }

  /** A payload that does not parse changes nothing. */
  lemma UnparsedIgnored(s: Scan, payload: string, parse: string -> Option<Payload>)
    requires !s.stopped && parse(payload).None?
    ensures OnLine(s, "data: " + payload, parse) == s
  {
    var data := "data: " + payload;
    assert data[..6] == "data: " && data[6..] == payload;
    assert !StartsWith(data, "event: ") by { assert data[1] == 'a' && "event: "[1] == 'v'; }
  }

  /** Reading the stream never takes text away, and an error returns the
      dialog to input. */
  lemma {:induction false} StreamGrows(d: Dialog, shown: bool, batches: seq<seq<string>>, parse: string -> Option<Payload>)
    ensures StartsWith(ScanBatches(d, shown, batches, parse).dialog.thinking, d.thinking)
    ensures StartsWith(ScanBatches(d, shown, batches, parse).dialog.generatedText, d.generatedText)
    ensures ScanBatches(d, shown, batches, parse).dialog.history == d.history
    ensures ScanBatches(d, shown, batches, parse).stopped ==> ScanBatches(d, shown, batches, parse).dialog.phase == Input
    ensures !ScanBatches(d, shown, batches, parse).stopped ==> ScanBatches(d, shown, batches, parse).dialog.phase == d.phase
    decreases |batches|
  {
    if |batches| > 0 {
      var s := ScanLines(Scan(d, "", false, shown), batches[0], parse);
      ScanGrows(Scan(d, "", false, shown), batches[0], parse);
      if !s.stopped {
        StreamGrows(s.dialog, shown, batches[1..], parse);
        var r := ScanBatches(d, shown, batches, parse);
        assert r.dialog.thinking[..|s.dialog.thinking|] == s.dialog.thinking;
        assert s.dialog.thinking[..|d.thinking|] == d.thinking;
        assert r.dialog.generatedText[..|s.dialog.generatedText|] == s.dialog.generatedText;
        assert s.dialog.generatedText[..|d.generatedText|] == d.generatedText;
      }
    } else {
      assert d.thinking[..|d.thinking|] == d.thinking;
      assert d.generatedText[..|d.generatedText|] == d.generatedText;
    }
  }

  // ---------------------------------------------------------------------
  // YAML extraction

  const Fence := "```"

  predicate At(s: string, p: string, k: nat) {
    k + |p| <= |s| && s[k..k + |p|] == p
  }

  /** The first occurrence of `p` at or after `from`, or -1. */
  function FindFrom(s: string, p: string, from: nat): (r: int)
    ensures r == -1 || (from <= r && At(s, p, r))
    ensures r >= 0 ==> forall k :: from <= k < r ==> !At(s, p, k)
    ensures r == -1 <==> forall k :: from <= k <= |s| ==> !At(s, p, k)
    decreases |s| - from
  {
    if from + |p| > |s| then -1
    else if s[from..from + |p|] == p then from
    else FindFrom(s, p, from + 1)
  }

  /** The first position at or after `i` that is not white space. */
  function SkipSpaces(s: string, i: nat): (r: nat)
    requires i <= |s|
    ensures i <= r <= |s|
    ensures forall k :: i <= k < r ==> IsJsSpace(s[k])
    ensures r < |s| ==> !IsJsSpace(s[r])
    decreases |s| - i
  {
    if i < |s| && IsJsSpace(s[i]) then SkipSpaces(s, i + 1) else i
  }

  /** Where the body of a block opened at `i` starts: after the fence, an
      optional `yaml` tag, and white space. */
  function BodyStart(s: string, i: nat): (r: nat)
    requires At(s, Fence, i)
    ensures i + 3 <= r <= |s|
  {
    var j := if At(s, "yaml", i + 3) then i + 7 else i + 3;
    SkipSpaces(s, j)
  }

  /** `/```(?:yaml)?\s*([\s\S]*?)```/`: the trimmed body of the first fenced
      block, or the whole text when there is none. Only the first fence can
      open a block: a later fence would also close the first one. */
  function ExtractYaml(text: string): (r: string)
    ensures (forall k :: 0 <= k <= |text| ==> !At(text, Fence, k)) ==> r == text
  {
    var i := FindFrom(text, Fence, 0);
    if i < 0 then text
    else
      var p := BodyStart(text, i);
      var k := FindFrom(text, Fence, p);
      if k < 0 then text else Trim(text[p..k])
  }

  /** A separator-free character run without line breaks at either end
      trims to itself once a line break is added. */
  lemma TrimLine(y: string)
    requires |y| > 0 && !IsJsSpace(y[0]) && !IsJsSpace(y[|y| - 1])
    ensures Trim(y + "\n") == y
  {
    var t := y + "\n";
    assert TrimStart(t) == t;
    assert t[..|t| - 1] == y;
    assert TrimEnd(t) == TrimEnd(y);
  }

  /** The search stops at the first occurrence when nothing before it
      begins like the pattern. */
  lemma {:induction false} FindFirst(s: string, p: string, from: nat, i: nat)
    requires |p| > 0 && from <= i && At(s, p, i)
    requires forall k :: from <= k < i ==> s[k] != p[0]
    ensures FindFrom(s, p, from) == i
    decreases i - from
  {
    if from < i {
      assert s[from..from + |p|][0] == s[from];
      FindFirst(s, p, from + 1, i);
    }
  }

  /** Where the parts of a fenced reply lie. */
  lemma FencedLayout(before: string, y: string, after: string)
    ensures var text := before + "```yaml\n" + y + "\n```" + after;
            var i := |before|;
            && text[..i] == before
            && text[i..i + 3] == Fence && text[i + 3..i + 7] == "yaml" && text[i + 7] == '\n'
            && text[i + 8..i + 8 + |y|] == y && text[i + 8 + |y|] == '\n'
            && text[i + 8..i + 9 + |y|] == y + "\n"
            && text[i + 9 + |y|..i + 12 + |y|] == Fence
  {
    var text := before + "```yaml\n" + y + "\n```" + after;
    var i := |before|;
    assert text == before + ("```yaml\n" + (y + ("\n```" + after)));
    assert text[i..] == "```yaml\n" + (y + ("\n```" + after));
    assert text[i + 8..] == y + ("\n```" + after);
    assert text[i + 8 + |y|..] == "\n```" + after;
    assert text[i + 8..i + 9 + |y|] == (y + ("\n```" + after))[..|y| + 1] == y + "\n";
  }

  /** The extraction once the block's fences are located. */
  lemma ExtractBetween(text: string, i: nat, p0: nat, k: nat)
    requires FindFrom(text, Fence, 0) == i && At(text, Fence, i) && BodyStart(text, i) == p0
    requires FindFrom(text, Fence, p0) == k && p0 <= k
    ensures ExtractYaml(text) == Trim(text[p0..k])
  {
  }

  /** The body of a `yaml` block whose content starts with a non-space
      character starts with that content. */
  lemma BodyAfterTag(text: string, i: nat)
    requires At(text, Fence, i) && At(text, "yaml", i + 3)
    requires i + 9 <= |text| && IsJsSpace(text[i + 7]) && !IsJsSpace(text[i + 8])
    ensures BodyStart(text, i) == i + 8
  {
    assert SkipSpaces(text, i + 8) == i + 8;
  }

  /** No backtick in a stretch of text copied from a string without one. */
  lemma NoBacktick(text: string, at: nat, part: string)
    requires at + |part| <= |text| && text[at..at + |part|] == part && '`' !in part
    ensures forall j :: at <= j < at + |part| ==> text[j] != '`'
  {
    forall j | at <= j < at + |part|
      ensures text[j] != '`'
    {
      assert text[j] == part[j - at];
    }
  }

  /** A reply that is a single `yaml` block, with text before it that has
      no backtick, gives back the block's content. */
  lemma FencedBlockExtracted(before: string, y: string, after: string)
    requires '`' !in before && '`' !in y
    requires |y| > 0 && !IsJsSpace(y[0]) && !IsJsSpace(y[|y| - 1])
    ensures ExtractYaml(before + "```yaml\n" + y + "\n```" + after) == y
  {
    var text := before + "```yaml\n" + y + "\n```" + after;
    var i := |before|;
    var p0 := i + 8;
    var k := p0 + |y| + 1;
    FencedLayout(before, y, after);
    assert text[0..i] == before;
    NoBacktick(text, 0, before);
    FindFirst(text, Fence, 0, i);
    assert text[p0] == text[p0..p0 + |y|][0];
    BodyAfterTag(text, i);
    NoBacktick(text, p0, y + "\n");
    FindFirst(text, Fence, p0, k);
    ExtractBetween(text, i, p0, k);
    TrimLine(y);
  }

  // ---------------------------------------------------------------------
  // Generating

  /** What was thrown: its `name`, and its message when it is an `Error`. */
  datatype Thrown = Thrown(name: string, message: Option<string>)

  /** How the request went: it threw; it answered with an error status and
      perhaps an `error` field; it had no body; or its body was read to the
      end, or until a read threw. */
  datatype Fetched =
    | FetchThrew(thrown: Thrown)
    | NotOk(errorField: Option<string>)
    | NoStream
    | Streamed(received: seq<string>, failure: Option<Thrown>)

  /** The `catch` of the generation: an abort leaves the dialog as it is,
      anything else shows the error and returns to input. */
  function OnThrown(d: Dialog, t: Thrown): (r: Dialog)
    ensures t.name == "AbortError" ==> r == d
    ensures t.name != "AbortError" ==> r.phase == Input && r.error.Some?
    ensures t.name != "AbortError" && t.message.Some? ==> r.error == Some(Literal(t.message.value))
    ensures r.history == d.history && r.thinking == d.thinking && r.generatedText == d.generatedText
  {
    if t.name == "AbortError" then d
    else d.(error := Some(if t.message.Some? then Literal(t.message.value) else Localized(GenerationFailed)), phase := Input)
  }

  /** The end of a stream without error: the YAML is taken from the text;
      when it is blank generation fails, otherwise it is shown for preview
      and the exchange is added to the history. */
  function Finish(d: Dialog, desc: string): (r: Dialog)
    ensures var yaml := ExtractYaml(d.generatedText);
            && (Trim(yaml) == "" ==> r == d.(error := Some(Localized(EmptyResponse)), phase := Input))
            && (Trim(yaml) != "" ==> r.phase == Preview && r.generatedText == yaml && r.error == d.error
                                     && r.history == d.history + [Turn(User, desc), Turn(Model, yaml)])
  {
    var yaml := ExtractYaml(d.generatedText);
    if Trim(yaml) == "" then d.(error := Some(Localized(EmptyResponse)), phase := Input)
    else d.(generatedText := yaml, history := d.history + [Turn(User, desc), Turn(Model, yaml)], phase := Preview)
  }

  /** `handleGenerate`. */
  function Generate(d: Dialog, fetched: Fetched, parse: string -> Option<Payload>): (r: Dialog)
    ensures !CanGenerate(d) ==> r == d
    ensures CanGenerate(d) ==> r.lastDescription == Trim(d.description)
    ensures CanGenerate(d) && fetched.NotOk? ==>
              r == Begin(d).(error := Some(if fetched.errorField.Some? && fetched.errorField.value != ""
                                           then Literal(fetched.errorField.value) else Localized(GenerationFailed)),
                             phase := Input)
    ensures CanGenerate(d) && fetched.NoStream? ==> r == Begin(d).(error := Some(Localized(NoResponseStream)), phase := Input)
    ensures CanGenerate(d) && fetched.FetchThrew? ==> r == OnThrown(Begin(d), fetched.thrown)
    ensures CanGenerate(d) && fetched.Streamed? ==>
              var s := ReadStream(Begin(d), d.showThinking, fetched.received, parse);
              && (s.stopped ==> r == s.dialog)
              && (!s.stopped && fetched.failure.Some? ==> r == OnThrown(s.dialog, fetched.failure.value))
              && (!s.stopped && fetched.failure.None? ==> r == Finish(s.dialog, Trim(d.description)))
  {
    if !CanGenerate(d) then d
    else
      var b := Begin(d);
      match fetched
      case FetchThrew(t) => OnThrown(b, t)
      case NotOk(field) =>
        b.(error := Some(if field.Some? && field.value != "" then Literal(field.value) else Localized(GenerationFailed)),
           phase := Input)
      case NoStream => b.(error := Some(Localized(NoResponseStream)), phase := Input)
      case Streamed(received, failure) =>
        var s := ReadStream(b, d.showThinking, received, parse);
        if s.stopped then s.dialog
        else if failure.Some? then OnThrown(s.dialog, failure.value)
        else Finish(s.dialog, Trim(d.description))
  }

  /** The history only ever grows by a user turn followed by a model turn,
      and only when a preview is reached. */
  lemma HistoryGrowsByExchange(d: Dialog, fetched: Fetched, parse: string -> Option<Payload>)
    requires d.phase == Input
    ensures var r := Generate(d, fetched, parse);
            && (r.phase == Preview ==> r.history == d.history + [Turn(User, Trim(d.description)), Turn(Model, r.generatedText)])
            && (r.phase != Preview ==> r.history == d.history)
  {
    var r := Generate(d, fetched, parse);
    if CanGenerate(d) {
      var b := Begin(d);
      match fetched {
        case Streamed(received, failure) =>
          StreamGrows(b, d.showThinking, Batches("", received), parse);
          var s := ReadStream(b, d.showThinking, received, parse);
          if s.stopped {
            assert r == s.dialog;
          } else if failure.Some? {
            assert r == OnThrown(s.dialog, failure.value);
          } else {
            assert r == Finish(s.dialog, Trim(d.description));
          }
        case FetchThrew(t) =>
          assert r == OnThrown(b, t);
        case NotOk(_) =>
          assert r.phase == Input && r.history == b.history;
        case NoStream =>
          assert r.phase == Input && r.history == b.history;
      }
    }
  }

  /** A successful generation leaves YAML that is not blank. */
  lemma PreviewIsNotBlank(d: Dialog, fetched: Fetched, parse: string -> Option<Payload>)
    requires d.phase == Input
    ensures Generate(d, fetched, parse).phase == Preview ==> Trim(Generate(d, fetched, parse).generatedText) != ""
  {
    var r := Generate(d, fetched, parse);
    if CanGenerate(d) {
      var b := Begin(d);
      match fetched {
        case Streamed(received, failure) =>
          StreamGrows(b, d.showThinking, Batches("", received), parse);
          var s := ReadStream(b, d.showThinking, received, parse);
          if s.stopped {
            assert r == s.dialog;
          } else if failure.Some? {
            assert r == OnThrown(s.dialog, failure.value);
          } else {
            assert r == Finish(s.dialog, Trim(d.description));
          }
        case FetchThrew(t) =>
          assert r == OnThrown(b, t);
        case NotOk(_) =>
          assert r.phase == Input;
        case NoStream =>
          assert r.phase == Input;
      }
    }
  }

  // ---------------------------------------------------------------------
  // Other actions

  /** `handleCancel`: the request is aborted and the dialog returns to
      input. */
  function Cancel(d: Dialog): (r: Dialog)
    ensures r.phase == Input && r.history == d.history && r.description == d.description
  {
    d.(phase := Input)
  }

  /** `handleRejectPreview`: back to input with an empty description; the
      history is kept for the next generation. */
  function RejectPreview(d: Dialog): (r: Dialog)
    ensures r.phase == Input && r.description == "" && r.history == d.history && r.generatedText == d.generatedText
  {
    d.(description := "", phase := Input)
  }

  datatype Meta = Meta(description: string, thinking: string, mode: DialogMode, history: seq<Turn>)
  datatype Accepted = Accepted(yaml: string, workflowName: string, meta: Meta)

  /** `handleAcceptPreview`: the YAML with the trimmed name when creating,
      and the current name, or `workflow`, when modifying. */
  function AcceptPreview(d: Dialog, currentName: Option<string>): (r: Accepted)
    ensures r.yaml == d.generatedText
    ensures d.mode == Create ==> r.workflowName == Trim(d.name)
    ensures d.mode == Modify && currentName.Some? && currentName.value != "" ==> r.workflowName == currentName.value
    ensures d.mode == Modify && !(currentName.Some? && currentName.value != "") ==> r.workflowName == "workflow"
    ensures r.meta == Meta(d.lastDescription, d.thinking, d.mode, d.history)
  {
    var name := if d.mode == Create then Trim(d.name)
                else if currentName.Some? && currentName.value != "" then currentName.value else "workflow";
    Accepted(d.generatedText, name, Meta(d.lastDescription, d.thinking, d.mode, d.history))
  }
}
