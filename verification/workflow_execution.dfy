/** The client side of a workflow run: the status, log list and pending
    prompt the `useWorkflowExecution` hook keeps, driven by the user's
    actions (start, reconnect, stop, prompt response) and by the events of
    the execution's event stream. Every action and every event is one state
    transition; the HTTP answers are parameters and `nowIso` stands for the
    clock. */
module WorkflowExecution {
  import opened Wrappers

  datatype HookStatus = Idle | Running | Completed | Cancelled | Failed | WaitingPrompt

  datatype LogLevel = Info | Success | ErrorLevel

  datatype LogEntry = LogEntry(nodeId: string, nodeType: string, message: string, level: LogLevel, timestamp: string)

  /** The hook's state. `listening` is whether an event stream is attached
      and open: a closed stream delivers no further events. `promptData`
      is the prompt request's JSON payload. */
  datatype Hook = Hook(executionId: Option<string>, logs: seq<LogEntry>, status: HookStatus,
                       promptData: Option<string>, listening: bool)

  /** The events of the execution stream. `ServerError` is an `error`
      event sent by the server, with its `error` field (`""` when missing);
      `TransportError` is a failure of the connection itself, which the
      browser reports as a plain `error` event; `DriveFileEvent` stands for
      the Drive-file events, which change the local caches but not this
      state. */
  datatype Event =
    | Log(entry: LogEntry)
    | StatusChange(status: HookStatus)
    | Complete
    | CancelledEvent
    | ServerError(error: string)
    | PromptRequested(data: string)
    | TransportError
    | DriveFileEvent

  const Initial := Hook(None, [], Idle, None, false)

  /** A log entry written by the hook itself. */
  function SystemLog(message: string, nowIso: string): (r: LogEntry)
    ensures r.nodeId == "system" && r.nodeType == "system" && r.level == ErrorLevel
    ensures r.message == message && r.timestamp == nowIso
  {
    LogEntry("system", "system", message, ErrorLevel, nowIso)
  }

  // ---------------------------------------------------------------------
  // User actions

  /** The start request as `start` reads it: a body carrying an execution
      id; a body without one, which is also what a refused request with an
      `error` body gives since `res.ok` is never checked; or a request or
      body read that threw, with its message. */
  datatype StartReply = StartedAs(executionId: string) | NoExecutionId | StartThrew(message: string)

  /** `start`: logs are cleared and the run is marked running before the
      request. Whatever body comes back, its `executionId` field is taken
      and a stream attached for it, so a missing id leaves no id, an open
      stream and a running status. Only a throw fails the start. */
  function Start(h: Hook, reply: StartReply, nowIso: string): (r: Hook)
    ensures r.promptData.None?
    ensures r.status == Failed <==> reply.StartThrew?
    ensures !reply.StartThrew? ==>
              && r.logs == [] && r.status == Running && r.listening
              && r.executionId == (if reply.StartedAs? then Some(reply.executionId) else None)
    ensures reply.StartThrew? ==>
              && r.logs == [SystemLog("Failed to start: " + reply.message, nowIso)]
              && r.executionId == h.executionId && r.listening == h.listening
  {
    match reply
    case StartedAs(id) => Hook(Some(id), [], Running, None, true)
    // the stream is opened at `?executionId=undefined`
    case NoExecutionId => Hook(None, [], Running, None, true)
    case StartThrew(msg) => Hook(h.executionId, [SystemLog("Failed to start: " + msg, nowIso)], Failed, None, h.listening)
  }

  /** `reconnect`: re-attach to a known execution, waiting for a prompt
      exactly when its prompt data is given. */
  function Reconnect(h: Hook, execId: string, initialPrompt: Option<string>): (r: Hook)
    ensures r.executionId == Some(execId) && r.logs == [] && r.listening
    ensures r.status == WaitingPrompt <==> initialPrompt.Some?
    ensures r.status != WaitingPrompt ==> r.status == Running
    ensures r.promptData == initialPrompt
  {
    Hook(Some(execId), [], if initialPrompt.Some? then WaitingPrompt else Running, initialPrompt, true)
  }

  /** The answer to a stop request: accepted, refused with the body's
      `error` field (`""` when missing), or a thrown request. */
  datatype StopAnswer = StopAccepted | StopRefused(error: string) | StopThrew(message: string)

  /** Whether the hook knows an execution: the source's `!executionId`
      guards treat an empty id as none. */
  predicate HasExecution(h: Hook) {
    h.executionId.Some? && h.executionId.value != ""
  }

  /** `stop`. Without an execution nothing happens and no request is made;
      a failed request adds one system log. The status is left to the
      stream's `cancelled` event. */
  function Stop(h: Hook, answer: StopAnswer, nowIso: string): (r: Hook)
    ensures h.executionId.None? || h.executionId == Some("") ==> r == h
    ensures r.status == h.status && r.promptData == h.promptData && r.executionId == h.executionId
    ensures r.listening == h.listening
    ensures answer.StopAccepted? ==> r == h
    ensures HasExecution(h) && answer.StopRefused? ==>
              r.logs == h.logs + [SystemLog(if answer.error != "" then answer.error else "Failed to stop execution", nowIso)]
    ensures HasExecution(h) && answer.StopThrew? ==>
              r.logs == h.logs + [SystemLog("Failed to stop execution: " + answer.message, nowIso)]
  {
    if !HasExecution(h) then h
    else
      match answer
      case StopAccepted => h
      case StopRefused(e) =>
        h.(logs := h.logs + [SystemLog(if e != "" then e else "Failed to stop execution", nowIso)])
      case StopThrew(m) => h.(logs := h.logs + [SystemLog("Failed to stop execution: " + m, nowIso)])
  }

  /** The request a prompt response sends. */
  datatype PromptReply = PromptReply(executionId: string, value: Option<string>)

  datatype ReplyResult = ReplyResult(hook: Hook, sent: Option<PromptReply>)

  /** `handlePromptResponse`: without an execution nothing happens and
      nothing is sent; otherwise the prompt is cleared, the run resumes and
      the answer is sent for that execution. */
  function PromptResponse(h: Hook, value: Option<string>): (r: ReplyResult)
    ensures h.executionId.None? || h.executionId == Some("") ==> r == ReplyResult(h, None)
    ensures r.sent.Some? <==> HasExecution(h)
    ensures HasExecution(h) ==>
              && r.hook == h.(promptData := None, status := Running)
              && r.sent == Some(PromptReply(h.executionId.value, value))
  {
    if !HasExecution(h) then ReplyResult(h, None)
    else ReplyResult(h.(promptData := None, status := Running), Some(PromptReply(h.executionId.value, value)))
  }

  /** A start whose body carries an empty id leaves a hook that neither
      stops nor answers prompts, as one whose body has no id. */
  lemma EmptyIdActsAsNone(h: Hook, answer: StopAnswer, value: Option<string>, nowIso: string)
    ensures var s := Start(h, StartedAs(""), nowIso);
            var n := Start(h, NoExecutionId, nowIso);
            && Stop(s, answer, nowIso) == s && Stop(n, answer, nowIso) == n
            && PromptResponse(s, value).sent.None? && PromptResponse(n, value).sent.None?
  {
  }

  // ---------------------------------------------------------------------
  // Stream events

  /** The `onerror` handler on its own: when the stream is closed, a run
      still marked running becomes failed; no other status changes. */
  function OnStreamError(status: HookStatus, closed: bool): (r: HookStatus)
    ensures r != status ==> status == Running && closed && r == Failed
    ensures status == Running && closed ==> r == Failed
  {
    if closed && status == Running then Failed else status
  }

  /** Whether an event closes the stream. */
  predicate Closes(ev: Event) {
    ev.Complete? || ev.CancelledEvent? || ev.ServerError? || ev.TransportError?
  }

  /** The log entries one event adds. */
  function EntriesOf(ev: Event, nowIso: string): seq<LogEntry> {
    match ev
    case Log(e) => [e]
    case ServerError(msg) => [SystemLog(if msg != "" then msg else "Execution error", nowIso)]
    case _ => []
  }

  /** One event delivered to the hook. A transport error runs the `error`
      listener (no log, status failed, stream closed) and then `onerror`,
      which sees the stream closed. */
  function OnEvent(h: Hook, ev: Event, nowIso: string): (r: Hook)
    ensures !h.listening ==> r == h
    ensures h.listening ==> r.logs == h.logs + EntriesOf(ev, nowIso)
    ensures h.listening ==> (r.listening <==> !Closes(ev))
    ensures r.executionId == h.executionId
    ensures h.listening && ev.Log? ==> |r.logs| == |h.logs| + 1 && r.logs[|h.logs|] == ev.entry
    ensures h.listening ==> match ev
              case StatusChange(s) => r.status == s
              case Complete => r.status == Completed
              case CancelledEvent => r.status == Cancelled
              case ServerError(_) => r.status == Failed
              case TransportError => r.status == Failed
              case PromptRequested(d) => r.status == WaitingPrompt && r.promptData == Some(d)
              case _ => r.status == h.status
    ensures h.listening && !ev.PromptRequested? ==> r.promptData == h.promptData
  {
    if !h.listening then h
    else
      match ev
      case Log(e) => h.(logs := h.logs + [e])
      case StatusChange(s) => h.(status := s)
      case Complete => h.(status := Completed, listening := false)
      case CancelledEvent => h.(status := Cancelled, listening := false)
      case ServerError(_) => h.(logs := h.logs + EntriesOf(ev, nowIso), status := Failed, listening := false)
      case PromptRequested(d) => h.(status := WaitingPrompt, promptData := Some(d))
      case TransportError =>
        var afterListener := h.(status := Failed, listening := false);
        afterListener.(status := OnStreamError(afterListener.status, true))
      case DriveFileEvent => h
  }

  /** A sequence of events delivered in order. */
  function Replay(h: Hook, evs: seq<Event>, nowIso: string): Hook
    decreases |evs|
  {
    if |evs| == 0 then h else Replay(OnEvent(h, evs[0], nowIso), evs[1..], nowIso)
  }

  /** The index just past the first closing event, or the length when no
      event closes the stream: the events the hook still sees. */
  function SeenCount(evs: seq<Event>): (n: nat)
    ensures n <= |evs|
    ensures forall i :: 0 <= i < n - 1 ==> !Closes(evs[i])
    ensures n < |evs| ==> n > 0 && Closes(evs[n - 1])
    ensures n == |evs| && n > 0 ==> forall i :: 0 <= i < n - 1 ==> !Closes(evs[i])
  {
    if |evs| == 0 then 0
    else if Closes(evs[0]) then 1
    else 1 + SeenCount(evs[1..])
  }

  /** The entries a sequence of events logs, read from its end. */
  function AllEntries(evs: seq<Event>, nowIso: string): seq<LogEntry>
    decreases |evs|
  {
    if |evs| == 0 then [] else AllEntries(evs[..|evs| - 1], nowIso) + EntriesOf(evs[|evs| - 1], nowIso)
  }

  lemma {:induction false} AllEntriesCons(ev: Event, evs: seq<Event>, nowIso: string)
    ensures AllEntries([ev] + evs, nowIso) == EntriesOf(ev, nowIso) + AllEntries(evs, nowIso)
    decreases |evs|
  {
    if |evs| == 0 {
      assert AllEntries([ev] + evs, nowIso) == AllEntries([ev], nowIso);
      assert [ev][..0] == [];
    } else {
      var all := [ev] + evs;
      assert all[..|all| - 1] == [ev] + evs[..|evs| - 1];
      AllEntriesCons(ev, evs[..|evs| - 1], nowIso);
    }
  }

  /** The log list a stream leaves is the list before it followed by the
      entries of the events up to and including the first one that closes
      the stream, in the order they arrived; nothing after that counts. */
  lemma ReplayLogs(h: Hook, evs: seq<Event>, nowIso: string)
    requires h.listening
    ensures Replay(h, evs, nowIso).logs == h.logs + AllEntries(evs[..SeenCount(evs)], nowIso)
    ensures Replay(h, evs, nowIso).listening <==> forall i :: 0 <= i < |evs| ==> !Closes(evs[i])
  {
    ReplayLogList(h, evs, nowIso);
    ReplayListening(h, evs, nowIso);
  }

  lemma {:induction false} ReplayLogList(h: Hook, evs: seq<Event>, nowIso: string)
    requires h.listening
    ensures Replay(h, evs, nowIso).logs == h.logs + AllEntries(evs[..SeenCount(evs)], nowIso)
    decreases |evs|
  {
    if |evs| > 0 {
      var h1 := OnEvent(h, evs[0], nowIso);
      assert Replay(h, evs, nowIso) == Replay(h1, evs[1..], nowIso);
      if Closes(evs[0]) {
        ClosedIgnores(h1, evs[1..], nowIso);
        assert evs[..SeenCount(evs)] == [evs[0]] + [];
        AllEntriesCons(evs[0], [], nowIso);
      } else {
        ReplayLogList(h1, evs[1..], nowIso);
        var n := SeenCount(evs[1..]);
        assert evs[..SeenCount(evs)] == [evs[0]] + evs[1..][..n];
        AllEntriesCons(evs[0], evs[1..][..n], nowIso);
      }
    }
  }

  lemma {:induction false} ReplayListening(h: Hook, evs: seq<Event>, nowIso: string)
    requires h.listening
    ensures Replay(h, evs, nowIso).listening <==> forall i :: 0 <= i < |evs| ==> !Closes(evs[i])
    decreases |evs|
  {
    if |evs| > 0 {
      var h1 := OnEvent(h, evs[0], nowIso);
      assert Replay(h, evs, nowIso) == Replay(h1, evs[1..], nowIso);
      if Closes(evs[0]) {
        ClosedIgnores(h1, evs[1..], nowIso);
      } else {
        ReplayListening(h1, evs[1..], nowIso);
        if Replay(h1, evs[1..], nowIso).listening {
          forall i | 0 <= i < |evs|
            ensures !Closes(evs[i])
          {
            if i > 0 { assert evs[i] == evs[1..][i - 1]; }
          }
        } else {
          var k :| 0 <= k < |evs[1..]| && Closes(evs[1..][k]);
          assert Closes(evs[k + 1]);
        }
      }
    }
  }

  /** A closed stream delivers nothing: the state stays as it is. */
  lemma {:induction false} ClosedIgnores(h: Hook, evs: seq<Event>, nowIso: string)
    requires !h.listening
    ensures Replay(h, evs, nowIso) == h
    decreases |evs|
  {
    if |evs| > 0 {
      ClosedIgnores(OnEvent(h, evs[0], nowIso), evs[1..], nowIso);
    }
  }

  /** Whatever the status before it, a transport error leaves the run
      failed and the stream closed: the `error` listener runs before the
      `onerror` handler, so the handler's running-only guard never decides
      the outcome. */
  lemma TransportErrorAlwaysFails(h: Hook, nowIso: string)
    requires h.listening
    ensures OnEvent(h, TransportError, nowIso).status == Failed
    ensures !OnEvent(h, TransportError, nowIso).listening
    ensures OnEvent(h, TransportError, nowIso).logs == h.logs
  {
  }
}
