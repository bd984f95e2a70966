/** python/src/apx_agent/_a2a.py: the JSON-RPC dispatcher at POST / and the turn it runs. The agent,
    its pending-approval lookup, the caller's identity and fresh ids are parameters of each call. */
module A2aServer {
  import opened Wrappers
  import opened A2aModels
  import opened TaskStorage

  const MAX_TASKS := 100

  const PARSE_ERROR := -32700
  const INVALID_REQUEST := -32600
  const METHOD_NOT_FOUND := -32601
  const INVALID_PARAMS := -32602
  const TASK_NOT_FOUND := -32001
  const TASK_NOT_CANCELABLE := -32002

  /** The request's `id` member. `UnusableId` is a JSON value that is neither null, a string nor an integer. */
  datatype RawId = NoId | NullId | StringId(text: string) | NumberId(n: int) | UnusableId
  datatype WireId = Null | Text(text: string) | Number(n: int)

  datatype SendParams = SendParams(message: Message, apxResume: Option<string>)

  /** What each method's parameter model makes of `params`; `None` is a validation error. */
  datatype Params = Params(send: Option<SendParams>, taskId: Option<string>)
  datatype Call = Call(rpcMethod: string, params: Params)

  datatype Raw =
    | NotJson
    | NotAnObject
    | Object(id: RawId, call: Option<Call>)  // `None`: the rest of the envelope does not validate

  datatype Answer = TaskResult(task: Task) | RpcError(code: int)
  datatype Http = Reply(id: WireId, answer: Answer) | NoContent | ServerError

  datatype Turn = Fresh(text: string) | Resume(decision: string)
  datatype Interrupt = LookupRaises(text: string) | Paused | NotPaused
  datatype AgentReply = Raises(text: string) | NeedsApproval(ask: string) | Says(text: string, data: seq<string>)

  datatype Env = Env(
    user: Option<string>, newTaskId: string, newContextId: string,
    interrupt: string -> Interrupt,
    predict: (string, Turn, seq<string>) -> AgentReply)

  function TextOf(parts: seq<Part>): string {
    if parts == [] then "" else (if parts[0].TextPart? then parts[0].text else "") + TextOf(parts[1..])
  }

  function DataOf(parts: seq<Part>): seq<string> {
    if parts == [] then [] else (if parts[0].DataPart? then [parts[0].data] else []) + DataOf(parts[1..])
  }

  function ContextOf(p: SendParams, env: Env): string {
    if p.message.contextId.Some? && p.message.contextId.value != "" then p.message.contextId.value
    else env.newContextId
  }

  function AgentMessage(parts: seq<Part>, id: string, context: string): Message {
    Message("agent", parts, Some(id), Some(context))
  }

  /** What the agent is asked to do: a resume only when one was sent and the thread is paused. */
  function RunAgent(p: SendParams, env: Env): AgentReply {
    var context := ContextOf(p, env);
    var found := if p.apxResume.Some? then env.interrupt(context) else NotPaused;
    if found.LookupRaises? then Raises(found.text)
    else
      var turn := if found.Paused? then Resume(p.apxResume.value) else Fresh(TextOf(p.message.parts));
      env.predict(context, turn, DataOf(p.message.parts))
  }

  /** The task a `message/send` produces; an exception anywhere in the turn becomes a failed task. */
  function TaskFor(p: SendParams, env: Env): Task {
    var id, context := env.newTaskId, ContextOf(p, env);
    var inbound := p.message.(taskId := Some(id), contextId := Some(context));
    match RunAgent(p, env)
    case Raises(text) =>
      Task(id, context, Failed, Some(AgentMessage([TextPart(text)], id, context)), [inbound], [])
    case NeedsApproval(ask) =>
      var m := AgentMessage([TextPart(ask)], id, context);
      Task(id, context, InputRequired, Some(m), [inbound, m], [])
    case Says(text, data) =>
      var parts := [TextPart(text)] + seq(|data|, i requires 0 <= i < |data| => DataPart(data[i]));
      Task(id, context, Completed, None, [inbound, AgentMessage(parts, id, context)], [parts])
  }

  /** The put a request makes, if any. */
  function PutOf(raw: Raw, env: Env): Option<Owned> {
    if raw.Object? && !raw.id.UnusableId? && raw.call.Some? && raw.call.value.rpcMethod == "message/send"
       && raw.call.value.params.send.Some?
    then Some(Owned(TaskFor(raw.call.value.params.send.value, env), env.user))
    else None
  }

  function AnswerTo(store: seq<Owned>, call: Call, env: Env): Answer {
    if call.rpcMethod == "message/send" then
      if call.params.send.None? then RpcError(INVALID_PARAMS) else TaskResult(TaskFor(call.params.send.value, env))
    else if call.rpcMethod !in {"tasks/get", "tasks/cancel"} then RpcError(METHOD_NOT_FOUND)
    else if call.params.taskId.None? then RpcError(INVALID_PARAMS)
    else match Lookup(store, call.params.taskId.value, env.user)
      case None => RpcError(TASK_NOT_FOUND)
      case Some(task) => if call.rpcMethod == "tasks/get" then TaskResult(task) else RpcError(TASK_NOT_CANCELABLE)
  }

  function WireIdOf(id: RawId): WireId {
    match id
    case StringId(s) => Text(s)
    case NumberId(n) => Number(n)
    case _ => Null
  }

  /** Building an error body around an id the response model rejects raises, outside any handler. */
  function ErrorResponse(id: RawId, code: int): Http {
    if id.UnusableId? then ServerError else Reply(WireIdOf(id), RpcError(code))
  }

  function HttpReply(store: seq<Owned>, raw: Raw, env: Env): Http {
    match raw
    case NotJson => Reply(Null, RpcError(PARSE_ERROR))
    case NotAnObject => Reply(Null, RpcError(INVALID_REQUEST))
    case Object(id, call) =>
      if call.None? || id.UnusableId? then ErrorResponse(id, INVALID_REQUEST)
      else if id.NoId? then NoContent
      else Reply(WireIdOf(id), AnswerTo(store, call.value, env))
  }

  function StoreStep(store: seq<Owned>, raw: Raw, env: Env): seq<Owned> {
    var put := PutOf(raw, env);
    if put.Some? then PutIn(store, put.value, MAX_TASKS) else store
  }

  /** The task says what the agent said, and nothing else. */
  ghost predicate Carries(task: Task, inbound: Message, reply: AgentReply) {
    match reply
    case Raises(text) =>
      && task.state == Failed && task.artifacts == [] && task.history == [inbound]
      && task.statusMessage == Some(Message("agent", [TextPart(text)], Some(task.id), Some(task.contextId)))
    case NeedsApproval(ask) =>
      && task.state == InputRequired && task.artifacts == []
      && task.statusMessage == Some(Message("agent", [TextPart(ask)], Some(task.id), Some(task.contextId)))
      && task.history == [inbound, task.statusMessage.value]
    case Says(text, data) =>
      && task.state == Completed && task.statusMessage.None? && |task.artifacts| == 1
      && |task.artifacts[0]| == 1 + |data| && task.artifacts[0][0] == TextPart(text)
      && (forall i :: 0 <= i < |data| ==> task.artifacts[0][i + 1] == DataPart(data[i]))
      && task.history == [inbound, Message("agent", task.artifacts[0], Some(task.id), Some(task.contextId))]
  }

  /** A turn in the thread of the message's own context, or of a fresh one: the agent is resumed
      with the decision exactly when one was sent and the thread is paused, and otherwise gets the
      message's text; a lookup that raises fails the turn. */
  ghost predicate TurnTask(task: Task, p: SendParams, env: Env) {
    var m := p.message;
    var inbound := Message(m.role, m.parts, Some(task.id), Some(task.contextId));
    var found := env.interrupt(task.contextId);
    && task.id == env.newTaskId
    && (if m.contextId.Some? && m.contextId.value != "" then Some(task.contextId) == m.contextId
        else task.contextId == env.newContextId)
    && (p.apxResume.Some? && found.LookupRaises? ==> Carries(task, inbound, Raises(found.text)))
    && (p.apxResume.Some? && found.Paused? ==>
        Carries(task, inbound, env.predict(task.contextId, Resume(p.apxResume.value), DataOf(m.parts))))
    && (p.apxResume.None? || found.NotPaused? ==>
        Carries(task, inbound, env.predict(task.contextId, Fresh(TextOf(m.parts)), DataOf(m.parts))))
  }

  /** The answer goes out under the request's own id; a request without one gets an empty 204. */
  ghost predicate RepliesUnder(id: RawId, http: Http, answer: Answer) {
    match id
    case NoId => http == NoContent
    case NullId => http == Reply(Null, answer)
    case StringId(text) => http == Reply(Text(text), answer)
    case NumberId(n) => http == Reply(Number(n), answer)
    case UnusableId => false
  }

  /** What the dispatcher does with a call: the answer, and the store it leaves. Error codes are
      those of JSON-RPC 2.0, section 5.1, and of the A2A protocol. */
  ghost predicate Dispatches(before: seq<Owned>, after: seq<Owned>, call: Call, env: Env, answer: Answer) {
    if call.rpcMethod == "message/send" && call.params.send.Some? then
      && answer.TaskResult? && TurnTask(answer.task, call.params.send.value, env)
      && after == PutIn(before, Owned(answer.task, env.user), 100)
    else
      && after == before
      && (if call.rpcMethod == "message/send" then answer == RpcError(-32602)
          else if call.rpcMethod != "tasks/get" && call.rpcMethod != "tasks/cancel" then answer == RpcError(-32601)
          else if call.params.taskId.None? then answer == RpcError(-32602)
          else if Lookup(before, call.params.taskId.value, env.user).None? then answer == RpcError(-32001)
          else if call.rpcMethod == "tasks/cancel" then answer == RpcError(-32002)
          else answer == TaskResult(Lookup(before, call.params.taskId.value, env.user).value))
  }

  /** Every request gets exactly one answer: the single exception is an object whose id is neither
      null, string nor integer. */
  ghost predicate Handles(before: seq<Owned>, after: seq<Owned>, raw: Raw, env: Env, http: Http) {
    match raw
    case NotJson => http == Reply(Null, RpcError(-32700)) && after == before
    case NotAnObject => http == Reply(Null, RpcError(-32600)) && after == before
    case Object(UnusableId, _) => http == ServerError && after == before
    case Object(NoId, None) => http == Reply(Null, RpcError(-32600)) && after == before
    case Object(id, None) => RepliesUnder(id, http, RpcError(-32600)) && after == before
    case Object(id, Some(call)) =>
      exists answer :: Dispatches(before, after, call, env, answer) && RepliesUnder(id, http, answer)
  }

  lemma TextOfOne(text: string, data: string)
    ensures TextOf([]) == "" && TextOf([TextPart(text)]) == text && TextOf([DataPart(data)]) == ""
    ensures DataOf([]) == [] && DataOf([TextPart(text)]) == [] && DataOf([DataPart(data)]) == [data]
  {
  }

  lemma {:induction false} TextOfParts(a: seq<Part>, b: seq<Part>)
    ensures TextOf(a + b) == TextOf(a) + TextOf(b)
    ensures DataOf(a + b) == DataOf(a) + DataOf(b)
  {
    if a == [] {
      assert a + b == b;
    } else {
      assert (a + b)[1..] == a[1..] + b;
      TextOfParts(a[1..], b);
    }
  }

  lemma TaskForIsTurn(p: SendParams, env: Env)
    ensures TurnTask(TaskFor(p, env), p, env)
  {
  }

  class A2aServer {
    const tasks: TaskStore

    ghost predicate Valid()
      reads tasks
    {
      tasks.Valid() && tasks.max == MAX_TASKS
    }

    constructor ()
      ensures Valid() && fresh(tasks) && tasks.store == []
    {
      tasks := new TaskStore(MAX_TASKS);
    }

    method RunMessageSend(p: SendParams, env: Env) returns (task: Task)
      requires Valid()
      modifies tasks
      ensures Valid()
      ensures task == TaskFor(p, env) && TurnTask(task, p, env)
      ensures tasks.store == PutIn(old(tasks.store), Owned(task, env.user), MAX_TASKS)
    {
      task := TaskFor(p, env);
      TaskForIsTurn(p, env);
      var ok := tasks.Put(task, env.user);
    }

    method Handle(raw: Raw, env: Env) returns (http: Http)
      requires Valid()
      modifies tasks
      ensures Valid()
      ensures http == HttpReply(old(tasks.store), raw, env)
      ensures tasks.store == StoreStep(old(tasks.store), raw, env)
      ensures Handles(old(tasks.store), tasks.store, raw, env, http)
    {
      if raw.NotJson? {
        return Reply(Null, RpcError(PARSE_ERROR));
      }
      if raw.NotAnObject? {
        return Reply(Null, RpcError(INVALID_REQUEST));
      }
      if raw.call.None? || raw.id.UnusableId? {
        return ErrorResponse(raw.id, INVALID_REQUEST);
      }
      var rpc := raw.call.value;
      var answer: Answer;
      if rpc.rpcMethod == "message/send" {
        if rpc.params.send.None? {
          answer := RpcError(INVALID_PARAMS);
        } else {
          var task := RunMessageSend(rpc.params.send.value, env);
          answer := TaskResult(task);
        }
      } else if rpc.rpcMethod == "tasks/get" || rpc.rpcMethod == "tasks/cancel" {
        if rpc.params.taskId.None? {
          answer := RpcError(INVALID_PARAMS);
        } else {
          var task := tasks.GetTask(rpc.params.taskId.value, env.user);
          if task.None? {
            answer := RpcError(TASK_NOT_FOUND);
          } else if rpc.rpcMethod == "tasks/get" {
            answer := TaskResult(task.value);
          } else {
            answer := RpcError(TASK_NOT_CANCELABLE);
          }
        }
      } else {
        answer := RpcError(METHOD_NOT_FOUND);
      }
      assert Dispatches(old(tasks.store), tasks.store, rpc, env, answer);
      return if raw.id.NoId? then NoContent else Reply(WireIdOf(raw.id), answer);
    }
  }

  // ---- One call ----

  lemma {:induction false} DataPartsCarryData(data: seq<string>, parts: seq<Part>)
    requires |parts| == |data| && forall i :: 0 <= i < |data| ==> parts[i] == DataPart(data[i])
    ensures DataOf(parts) == data && TextOf(parts) == ""
  {
    if data != [] {
      DataPartsCarryData(data[1..], parts[1..]);
    }
  }

  /** What the agent says, and the data it attaches, is what the task's one artifact carries. */
  lemma ReplyReachesArtifact(p: SendParams, env: Env)
    requires RunAgent(p, env).Says?
    ensures var task := TaskFor(p, env);
      && |task.artifacts| == 1
      && TextOf(task.artifacts[0]) == RunAgent(p, env).text && DataOf(task.artifacts[0]) == RunAgent(p, env).data
      && task.history[1].parts == task.artifacts[0]
  {
    var data := RunAgent(p, env).data;
    var tail := seq(|data|, i requires 0 <= i < |data| => DataPart(data[i]));
    DataPartsCarryData(data, tail);
    assert ([TextPart(RunAgent(p, env).text)] + tail)[1..] == tail;
  }

  // ---- Whole runs ----

  type Request = (Raw, Env)

  function StoreAfterRun(run: seq<Request>): seq<Owned> {
    if run == [] then [] else
    var (raw, env) := run[|run| - 1];
    StoreStep(StoreAfterRun(run[..|run| - 1]), raw, env)
  }

  /** The puts of a run, in order. */
  function PutsOf(run: seq<Request>): seq<Owned> {
    if run == [] then [] else
    var (raw, env) := run[|run| - 1];
    var put := PutOf(raw, env);
    PutsOf(run[..|run| - 1]) + if put.Some? then [put.value] else []
  }

  lemma {:induction false} RunStoreIsPutHistory(run: seq<Request>)
    ensures StoreAfterRun(run) == StoreAfter(PutsOf(run), MAX_TASKS)
  {
    if run != [] {
      var init := run[..|run| - 1];
      RunStoreIsPutHistory(init);
      var put := PutOf(run[|run| - 1].0, run[|run| - 1].1);
      if put.Some? {
        assert PutsOf(run)[..|PutsOf(init)|] == PutsOf(init);
      } else {
        assert PutsOf(run) == PutsOf(init);
      }
    }
  }

  ghost predicate FreshTaskIds(puts: seq<Owned>) {
    forall i, j :: 0 <= i < j < |puts| ==> puts[i].task.id != puts[j].task.id
  }

  lemma {:induction false} AllLatest(puts: seq<Owned>, k: nat)
    requires FreshTaskIds(puts) && k <= |puts|
    ensures |LatestFrom(puts, k)| == |puts| - k
    decreases |puts| - k
  {
    if k < |puts| {
      AllLatest(puts, k + 1);
      assert IsLatest(puts, k);
    }
  }

  lemma DistinctPutsCount(puts: seq<Owned>, i: nat)
    requires FreshTaskIds(puts) && i < |puts|
    ensures IsLatest(puts, i) && DistinctAfter(puts, i) == |puts| - 1 - i
  {
    LatestCount(puts, i + 1);
    AllLatest(puts, i + 1);
  }

  /** With fresh task ids, after any run `tasks/get` returns the i-th task sent to exactly the
      principal that sent it, and exactly while fewer than 100 later tasks have been stored;
      every other caller, and every caller after that, is told it does not exist. */
  lemma TasksGetAfterRun(run: seq<Request>, i: nat, env: Env)
    requires FreshTaskIds(PutsOf(run)) && i < |PutsOf(run)|
    ensures var puts := PutsOf(run);
      var get := Call("tasks/get", Params(None, Some(puts[i].task.id)));
      AnswerTo(StoreAfterRun(run), get, env) ==
        if env.user == puts[i].owner && |puts| - 1 - i < 100 then TaskResult(puts[i].task) else RpcError(-32001)
  {
    var puts := PutsOf(run);
    RunStoreIsPutHistory(run);
    DistinctPutsCount(puts, i);
    var id := puts[i].task.id;
    var found := Lookup(StoreAfter(puts, MAX_TASKS), id, env.user);
    if found.Some? {
      GetAnswersFromHistory(puts, MAX_TASKS, id, env.user, found.value);
      var k :| IsLatest(puts, k) && puts[k] == Owned(found.value, env.user) && DistinctAfter(puts, k) < MAX_TASKS;
      assert k == i;
    }
    if env.user == puts[i].owner && |puts| - 1 - i < MAX_TASKS {
      GetAnswersFromHistory(puts, MAX_TASKS, id, env.user, puts[i].task);
      assert puts[i] == Owned(puts[i].task, env.user);
    }
  }
}
