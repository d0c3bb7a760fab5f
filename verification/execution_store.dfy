/** The server-side store of running workflow executions. Its
    implementation is not part of this model; its tests fix that a stopped
    execution answers any prompt request at once with `null` and stays
    cancelled, and that stopping an execution that waits for a prompt
    returns `true` and answers that prompt with `null`. The rest (the
    initial state of a new execution, an unknown id, answering a prompt,
    stopping a finished execution) is reconstructed. The store is a map
    from execution id to execution; a prompt's promise is modelled by what
    it resolves to, or by `Waiting` while it is open. */
module ExecutionStore {
  import opened Wrappers

  /** The statuses an execution can be in. */
  datatype Status = Running | Completed | Failed | Cancelled | WaitingPrompt

  /** The prompt an execution waits for: its type and title. */
  datatype PromptRequest = PromptRequest(promptType: string, title: string)

  datatype Execution = Execution(workflowId: string, status: Status, pending: Option<PromptRequest>)

  type Store = map<string, Execution>

  /** What a prompt request's promise does: still open, or resolved with
      the answer (`None` is `null`). */
  datatype PromptOutcome = Waiting | Resolved(answer: Option<string>)

  /** The result of a request: the store afterwards and the promise. */
  datatype RequestResult = RequestResult(store: Store, outcome: PromptOutcome)

  /** The result of a stop: the store afterwards, whether an execution was
      stopped, and the answer given to the prompt it waited for, if any. */
  datatype StopResult = StopResult(store: Store, stopped: bool, answered: Option<Option<string>>)

  /** The result of a prompt response: the store afterwards and the answer
      delivered to the waiting prompt, if one was waiting. */
  datatype ResolveResult = ResolveResult(store: Store, delivered: Option<Option<string>>)

  /** `createExecution`: a new running execution with no prompt. */
  function CreateExecution(store: Store, id: string, workflowId: string): (r: Store)
    ensures id in r && r[id].status == Running && r[id].workflowId == workflowId && r[id].pending.None?
    ensures forall k :: k in store && k != id ==> k in r && r[k] == store[k]
    ensures forall k :: k in r ==> k == id || k in store
  {
    store[id := Execution(workflowId, Running, None)]
  }

  /** `requestPrompt`: a cancelled or unknown execution answers `null` at
      once and is left as it is; otherwise the execution waits for the
      prompt. */
  function RequestPrompt(store: Store, id: string, prompt: PromptRequest): (r: RequestResult)
    ensures r.outcome == Resolved(None) <==> id !in store || store[id].status == Cancelled
    ensures r.outcome != Resolved(None) ==> r.outcome == Waiting
    ensures r.outcome.Resolved? ==> r.store == store
    ensures r.outcome == Waiting ==>
              && id in r.store && r.store[id].pending == Some(prompt)
              && r.store[id].status == WaitingPrompt
              && r.store[id].workflowId == store[id].workflowId
              && r.store == store[id := r.store[id]]
  {
    if id !in store || store[id].status == Cancelled then RequestResult(store, Resolved(None))
    else RequestResult(store[id := store[id].(status := WaitingPrompt, pending := Some(prompt))], Waiting)
  }

  /** `stopExecution`: an existing execution becomes cancelled and its
      waiting prompt, if any, is answered with `null`; the answer is `true`
      exactly when the execution exists. */
  function StopExecution(store: Store, id: string): (r: StopResult)
    ensures r.stopped <==> id in store
    ensures !r.stopped ==> r.store == store && r.answered.None?
    ensures r.stopped ==>
              && id in r.store && r.store[id].status == Cancelled && r.store[id].pending.None?
              && r.store[id].workflowId == store[id].workflowId
              && r.store == store[id := r.store[id]]
              && (r.answered.Some? <==> store[id].pending.Some?)
              && (r.answered.Some? ==> r.answered.value.None?)
  {
    if id !in store then StopResult(store, false, None)
    else
      var answered := if store[id].pending.Some? then Some(None) else None;
      StopResult(store[id := store[id].(status := Cancelled, pending := None)], true, answered)
  }

  /** `resolvePrompt`: the waiting prompt receives the answer and the
      execution runs again; with no waiting prompt nothing changes. */
  function ResolvePrompt(store: Store, id: string, value: Option<string>): (r: ResolveResult)
    ensures r.delivered.Some? <==> id in store && store[id].pending.Some?
    ensures r.delivered.Some? ==>
              && r.delivered.value == value
              && id in r.store && r.store[id].pending.None? && r.store[id].status == Running
              && r.store == store[id := r.store[id]]
    ensures r.delivered.None? ==> r.store == store
  {
    if id in store && store[id].pending.Some? then
      ResolveResult(store[id := store[id].(status := Running, pending := None)], Some(value))
    else ResolveResult(store, None)
  }

  /** A prompt requested after a stop is answered with `null` at once, and
      the execution stays cancelled. */
  lemma PromptAfterStopIsNull(store: Store, id: string, workflowId: string, prompt: PromptRequest)
    ensures var s1 := CreateExecution(store, id, workflowId);
            var s2 := StopExecution(s1, id).store;
            var q := RequestPrompt(s2, id, prompt);
            q.outcome == Resolved(None) && id in q.store && q.store[id].status == Cancelled
  {
  }

  /** Stopping an execution that waits for a prompt returns `true`, answers
      the prompt with `null` and leaves the execution cancelled. */
  lemma StopAnswersPendingPrompt(store: Store, id: string, workflowId: string, prompt: PromptRequest)
    ensures var s1 := CreateExecution(store, id, workflowId);
            var q := RequestPrompt(s1, id, prompt);
            var stop := StopExecution(q.store, id);
            q.outcome == Waiting
            && stop.stopped && stop.answered == Some(None)
            && id in stop.store && stop.store[id].status == Cancelled
  {
  }

  /** Once cancelled, an execution stays cancelled whatever prompts are
      requested or answered and however often it is stopped again. */
  lemma CancelledIsFinal(store: Store, id: string, prompt: PromptRequest, value: Option<string>)
    requires id in store && store[id].status == Cancelled && store[id].pending.None?
    ensures RequestPrompt(store, id, prompt).store == store
    ensures ResolvePrompt(store, id, value).store == store
    ensures StopExecution(store, id).store == store
  {
    assert store[id := store[id].(status := Cancelled, pending := None)] == store;
  }
}
