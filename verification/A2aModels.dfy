/** python/src/apx_agent/_a2a_models.py: the message and task values. Timestamps and the random
    ids of messages and artifacts are not part of the model; task and context ids are. */
module A2aModels {
  import opened Wrappers

  datatype TaskState = Submitted | Working | InputRequired | Completed | Canceled | Failed | Rejected | Unknown

  datatype Part = TextPart(text: string) | DataPart(data: string)

  datatype Message = Message(role: string, parts: seq<Part>, taskId: Option<string>, contextId: Option<string>)

  datatype Task = Task(id: string, contextId: string, state: TaskState, statusMessage: Option<Message>,
                       history: seq<Message>, artifacts: seq<seq<Part>>)
}
