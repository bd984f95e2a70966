/** python/src/apx_agent/_agents.py, SequentialAgent: a pipeline run to completion, and the same
    pipeline streamed. Untyped path with no step policy; sub-agents are functions of the
    conversation they are handed. */
module SequentialAgent {
  datatype Message = Message(role: string, content: string)

  /** `id` is the object's identity: the same agent may occur at several steps. */
  datatype SubAgent = SubAgent(id: nat, streams: bool, run: seq<Message> -> string, chunks: seq<Message> -> seq<string>)

  datatype Event = Header(step: nat, total: nat) | Chunk(text: string)

  const CONTINUATION := "Continue with the next step based on the results above."

  function Opening(instructions: string, messages: seq<Message>): seq<Message> {
    if instructions == "" then messages else [Message("system", instructions)] + messages
  }

  function Concat(parts: seq<string>): string {
    if parts == [] then "" else Concat(parts[..|parts| - 1]) + parts[|parts| - 1]
  }

  /** What step `i` answers to a conversation: by running, or by streaming when it is the last agent. */
  type Answers = (nat, seq<Message>) -> string

  function ByRunning(agents: seq<SubAgent>): Answers {
    (i: nat, c: seq<Message>) => if i < |agents| then agents[i].run(c) else ""
  }

  predicate Streamed(agents: seq<SubAgent>, i: nat)
    requires i < |agents|
  {
    agents[i].streams && agents[i].id == agents[|agents| - 1].id
  }

  function ByStreaming(agents: seq<SubAgent>): Answers {
    (i: nat, c: seq<Message>) =>
      if i >= |agents| then "" else if Streamed(agents, i) then Concat(agents[i].chunks(c)) else agents[i].run(c)
  }

  /** The conversation handed to step `i`, and its result. */
  function ContextAt(base: seq<Message>, answers: Answers, i: nat): seq<Message>
    decreases i, 0
  {
    if i == 0 then base else
    var before := ContextAt(base, answers, i - 1);
    before + [Message("assistant", ResultAt(base, answers, i - 1)), Message("user", CONTINUATION)]
  }

  function ResultAt(base: seq<Message>, answers: Answers, i: nat): string
    decreases i, 1
  {
    answers(i, ContextAt(base, answers, i))
  }

  ghost function Contexts(base: seq<Message>, answers: Answers, n: nat): seq<seq<Message>> {
    seq(n, i requires 0 <= i < n => ContextAt(base, answers, i))
  }

  function Results(base: seq<Message>, answers: Answers, n: nat): seq<string> {
    seq(n, i requires 0 <= i < n => ResultAt(base, answers, i))
  }

  /** The events of a stream with the step headers left out. */
  function Texts(events: seq<Event>): seq<string> {
    if events == [] then [] else
    var last := events[|events| - 1];
    Texts(events[..|events| - 1]) + if last.Chunk? then [last.text] else []
  }

  function Headers(events: seq<Event>): seq<nat> {
    if events == [] then [] else
    var last := events[|events| - 1];
    Headers(events[..|events| - 1]) + if last.Header? then [last.step] else []
  }

  function CountUp(n: nat): seq<nat> {
    if n == 0 then [] else CountUp(n - 1) + [n]
  }

  lemma StepsSnoc(base: seq<Message>, answers: Answers, i: nat)
    ensures Contexts(base, answers, i + 1) == Contexts(base, answers, i) + [ContextAt(base, answers, i)]
    ensures Concat(Results(base, answers, i + 1)) == Concat(Results(base, answers, i)) + ResultAt(base, answers, i)
  {
    assert Results(base, answers, i + 1)[..i] == Results(base, answers, i);
  }

  /** The conversation and result carried into step `i`. */
  ghost predicate Pending(base: seq<Message>, answers: Answers, i: nat, context: seq<Message>, result: string) {
    if i == 0 then context == base
    else context == ContextAt(base, answers, i - 1) && result == ResultAt(base, answers, i - 1)
  }

  /** Before every step but the first: the last result and a prompt to go on. */
  method Extend(context: seq<Message>, result: string, i: nat, ghost base: seq<Message>, ghost answers: Answers)
    returns (extended: seq<Message>)
    requires Pending(base, answers, i, context, result)
    ensures extended == ContextAt(base, answers, i)
  {
    extended := context;
    if i > 0 {
      extended := extended + [Message("assistant", result)];
      extended := extended + [Message("user", CONTINUATION)];
    }
  }

  /** A conversation starts with the messages given, after a system message with any instructions. */
  ghost predicate Opens(first: seq<Message>, instructions: string, messages: seq<Message>) {
    if instructions == "" then first == messages
    else |first| == 1 + |messages| && first[0] == Message("system", instructions) && first[1..] == messages
  }

  method Run(agents: seq<SubAgent>, instructions: string, messages: seq<Message>)
    returns (result: string, ghost handed: seq<seq<Message>>)
    requires agents != []
    ensures result == ResultAt(Opening(instructions, messages), ByRunning(agents), |agents| - 1)
    ensures handed == Contexts(Opening(instructions, messages), ByRunning(agents), |agents|)
    ensures Opens(handed[0], instructions, messages)
  {
    var context := Opening(instructions, messages);
    ghost var base, answers := context, ByRunning(agents);
    result, handed := "", [];
    for i := 0 to |agents|
      invariant handed == Contexts(base, answers, i)
      invariant Pending(base, answers, i, context, result)
    {
      context := Extend(context, result, i, base, answers);
      handed := handed + [context];
      result := agents[i].run(context);
      StepsSnoc(base, answers, i);
    }
  }

  // ---- What a stream is made of ----

  function ChunkEvents(chunks: seq<string>): seq<Event> {
    seq(|chunks|, k requires 0 <= k < |chunks| => Chunk(chunks[k]))
  }

  /** What step `i` emits on a conversation: its chunks if it streams, else its whole result. */
  function StepChunks(agents: seq<SubAgent>, i: nat, context: seq<Message>): seq<string>
    requires i < |agents|
  {
    if Streamed(agents, i) then agents[i].chunks(context) else [agents[i].run(context)]
  }

  function StepEvents(agents: seq<SubAgent>, i: nat, context: seq<Message>): seq<Event>
    requires i < |agents|
  {
    [Header(i + 1, |agents|)] + ChunkEvents(StepChunks(agents, i, context))
  }

  function Flatten(steps: seq<seq<Event>>): seq<Event> {
    if steps == [] then [] else Flatten(steps[..|steps| - 1]) + steps[|steps| - 1]
  }

  /** The events of each of the first `n` steps, on the conversation handed to it. */
  function Steps(agents: seq<SubAgent>, base: seq<Message>, n: nat): seq<seq<Event>>
    requires n <= |agents|
  {
    seq(n, i requires 0 <= i < n => StepEvents(agents, i, ContextAt(base, ByStreaming(agents), i)))
  }

  lemma {:induction false} TextsConcat(a: seq<Event>, b: seq<Event>)
    ensures Texts(a + b) == Texts(a) + Texts(b)
    ensures Headers(a + b) == Headers(a) + Headers(b)
  {
    if b == [] {
      assert a + b == a;
    } else {
      assert (a + b)[..|a + b| - 1] == a + b[..|b| - 1];
      TextsConcat(a, b[..|b| - 1]);
    }
  }

  lemma {:induction false} ConcatConcat(a: seq<string>, b: seq<string>)
    ensures Concat(a + b) == Concat(a) + Concat(b)
  {
    if b == [] {
      assert a + b == a;
    } else {
      assert (a + b)[..|a + b| - 1] == a + b[..|b| - 1];
      ConcatConcat(a, b[..|b| - 1]);
    }
  }

  lemma EventsAddUp(a: seq<Event>, b: seq<Event>)
    ensures Concat(Texts(a + b)) == Concat(Texts(a)) + Concat(Texts(b))
    ensures Headers(a + b) == Headers(a) + Headers(b)
  {
    TextsConcat(a, b);
    ConcatConcat(Texts(a), Texts(b));
  }

  lemma {:induction false} ChunkEventsTexts(chunks: seq<string>)
    ensures Texts(ChunkEvents(chunks)) == chunks && Headers(ChunkEvents(chunks)) == []
  {
    if chunks != [] {
      ChunkEventsTexts(chunks[..|chunks| - 1]);
      assert ChunkEvents(chunks)[..|chunks| - 1] == ChunkEvents(chunks[..|chunks| - 1]);
      assert chunks == chunks[..|chunks| - 1] + [chunks[|chunks| - 1]];
    }
  }

  lemma ChunksAddUp(agents: seq<SubAgent>, i: nat, context: seq<Message>)
    requires i < |agents|
    ensures Concat(StepChunks(agents, i, context)) == ByStreaming(agents)(i, context)
  {
    if !Streamed(agents, i) {
      var result := agents[i].run(context);
      assert [result][..0] == [] && Concat([]) + result == result;
    }
  }

  lemma HeadedTexts(header: Event, chunks: seq<string>)
    requires header.Header?
    ensures Texts([header] + ChunkEvents(chunks)) == chunks
    ensures Headers([header] + ChunkEvents(chunks)) == [header.step]
  {
    TextsConcat([header], ChunkEvents(chunks));
    ChunkEventsTexts(chunks);
    assert Texts([header]) == [] && [] + chunks == chunks;
  }

  /** A step's events are its numbered header, then chunks that add up to its result. */
  lemma StepAddsUp(agents: seq<SubAgent>, i: nat, context: seq<Message>)
    requires i < |agents|
    ensures var events := StepEvents(agents, i, context);
      && events[0] == Header(i + 1, |agents|) && (forall k :: 1 <= k < |events| ==> events[k].Chunk?)
      && Concat(Texts(events)) == ByStreaming(agents)(i, context)
      && Headers(events) == [i + 1]
  {
    HeadedTexts(Header(i + 1, |agents|), StepChunks(agents, i, context));
    ChunksAddUp(agents, i, context);
  }

  /** Each step has its own header, and texts that add up to its own result. */
  ghost predicate EachAddsUp(steps: seq<seq<Event>>, results: seq<string>)
    requires |steps| == |results|
  {
    forall i :: 0 <= i < |steps| ==> Headers(steps[i]) == [i + 1] && Concat(Texts(steps[i])) == results[i]
  }

  /** Then the headers of the whole count up, and what is between them is the results in order. */
  lemma {:induction false} AllAddUp(steps: seq<seq<Event>>, results: seq<string>)
    requires |steps| == |results| && EachAddsUp(steps, results)
    ensures Headers(Flatten(steps)) == CountUp(|steps|)
    ensures Concat(Texts(Flatten(steps))) == Concat(results)
  {
    if steps != [] {
      var n := |steps| - 1;
      AllAddUp(steps[..n], results[..n]);
      EventsAddUp(Flatten(steps[..n]), steps[n]);
    }
  }

  lemma StreamAddsUp(agents: seq<SubAgent>, base: seq<Message>, n: nat)
    requires n <= |agents|
    ensures EachAddsUp(Steps(agents, base, n), Results(base, ByStreaming(agents), n))
    ensures Headers(Flatten(Steps(agents, base, n))) == CountUp(n)
    ensures Concat(Texts(Flatten(Steps(agents, base, n)))) == Concat(Results(base, ByStreaming(agents), n))
  {
    forall i | 0 <= i < n
      ensures Headers(Steps(agents, base, n)[i]) == [i + 1]
      ensures Concat(Texts(Steps(agents, base, n)[i])) == Results(base, ByStreaming(agents), n)[i]
    {
      StepAddsUp(agents, i, ContextAt(base, ByStreaming(agents), i));
    }
    AllAddUp(Steps(agents, base, n), Results(base, ByStreaming(agents), n));
  }

  lemma StepsExtend(agents: seq<SubAgent>, base: seq<Message>, i: nat)
    requires i < |agents|
    ensures Flatten(Steps(agents, base, i + 1)) ==
      Flatten(Steps(agents, base, i)) + StepEvents(agents, i, ContextAt(base, ByStreaming(agents), i))
  {
    assert Steps(agents, base, i + 1)[..i] == Steps(agents, base, i);
  }

  /** Streams one step if its agent is the last one, otherwise runs it and emits the whole result. */
  method EmitStep(agents: seq<SubAgent>, i: nat, context: seq<Message>, before: seq<Event>)
    returns (result: string, events: seq<Event>)
    requires i < |agents|
    ensures result == ByStreaming(agents)(i, context)
    ensures events == before + StepEvents(agents, i, context)
  {
    events := before + [Header(i + 1, |agents|)];
    if !(agents[i].streams && agents[i].id == agents[|agents| - 1].id) {
      result := agents[i].run(context);
      events := events + [Chunk(result)];
      return;
    }
    var chunks := agents[i].chunks(context);
    result := "";
    for k := 0 to |chunks|
      invariant result == Concat(chunks[..k])
      invariant events == before + ([Header(i + 1, |agents|)] + ChunkEvents(chunks[..k]))
    {
      assert chunks[..k + 1][..k] == chunks[..k];
      result := result + chunks[k];
      events := events + [Chunk(chunks[k])];
    }
    assert chunks[..|chunks|] == chunks;
  }

  method Stream(agents: seq<SubAgent>, instructions: string, messages: seq<Message>)
    returns (events: seq<Event>, ghost handed: seq<seq<Message>>)
    requires agents != []
    ensures events == Flatten(Steps(agents, Opening(instructions, messages), |agents|))
    ensures Concat(Texts(events)) == Concat(Results(Opening(instructions, messages), ByStreaming(agents), |agents|))
    ensures Headers(events) == CountUp(|agents|)
    ensures handed == Contexts(Opening(instructions, messages), ByStreaming(agents), |agents|)
    ensures Opens(handed[0], instructions, messages)
  {
    var context := Opening(instructions, messages);
    ghost var base, answers := context, ByStreaming(agents);
    var result := "";
    events, handed := [], [];
    for i := 0 to |agents|
      invariant handed == Contexts(base, answers, i)
      invariant Pending(base, answers, i, context, result)
      invariant events == Flatten(Steps(agents, base, i))
    {
      context := Extend(context, result, i, base, answers);
      handed := handed + [context];
      result, events := EmitStep(agents, i, context, events);
      StepsExtend(agents, base, i);
      StepsSnoc(base, answers, i);
    }
    StreamAddsUp(agents, base, |agents|);
  }

  lemma ContextGrows(base: seq<Message>, answers: Answers, i: nat)
    requires i > 0
    ensures ContextAt(base, answers, i) == ContextAt(base, answers, i - 1) +
      [Message("assistant", ResultAt(base, answers, i - 1)), Message("user", CONTINUATION)]
  {
  }

  /** Step i is handed base + 2i messages, the earlier ones first, ending in a user turn after step 0. */
  lemma {:induction false} ContextShape(base: seq<Message>, answers: Answers, i: nat)
    ensures |ContextAt(base, answers, i)| == |base| + 2 * i
    ensures base <= ContextAt(base, answers, i)
    ensures i > 0 ==> ContextAt(base, answers, i - 1) <= ContextAt(base, answers, i)
    ensures i > 0 ==>
      var c := ContextAt(base, answers, i);
      c[|c| - 1] == Message("user", "Continue with the next step based on the results above.")
    ensures forall k :: 0 <= k < i ==>
      ContextAt(base, answers, i)[|base| + 2 * k] == Message("assistant", ResultAt(base, answers, k))
  {
    if i > 0 {
      ContextShape(base, answers, i - 1);
      ContextGrows(base, answers, i);
      var before, context := ContextAt(base, answers, i - 1), ContextAt(base, answers, i);
      forall k | 0 <= k < i
        ensures context[|base| + 2 * k] == Message("assistant", ResultAt(base, answers, k))
      {
        if k < i - 1 {
          assert context[|base| + 2 * k] == before[|base| + 2 * k];
        }
      }
    }
  }

  /** Each step's stream, on the conversation `run` would hand it, adds up to what `run` returns. */
  ghost predicate StreamsAddUp(agents: seq<SubAgent>, base: seq<Message>) {
    forall i: nat :: i < |agents| ==>
      ByStreaming(agents)(i, ContextAt(base, ByRunning(agents), i)) == ResultAt(base, ByRunning(agents), i)
  }

  ghost predicate AgreeAt(agents: seq<SubAgent>, base: seq<Message>, i: nat) {
    && ContextAt(base, ByStreaming(agents), i) == ContextAt(base, ByRunning(agents), i)
    && ResultAt(base, ByStreaming(agents), i) == ResultAt(base, ByRunning(agents), i)
  }

  lemma {:induction false} AgreeUpTo(agents: seq<SubAgent>, base: seq<Message>, i: nat)
    requires StreamsAddUp(agents, base) && i < |agents|
    ensures AgreeAt(agents, base, i)
  {
    if i > 0 {
      AgreeUpTo(agents, base, i - 1);
    }
  }

  /** Run and stream hand every step the same conversation and get the same results exactly when
      each step's stream adds up to its run. */
  lemma RunAndStreamAgreeExactly(agents: seq<SubAgent>, base: seq<Message>)
    ensures StreamsAddUp(agents, base) <==> forall i: nat :: i < |agents| ==> AgreeAt(agents, base, i)
  {
    if StreamsAddUp(agents, base) {
      forall i: nat | i < |agents|
        ensures AgreeAt(agents, base, i)
      {
        AgreeUpTo(agents, base, i);
      }
    }
    if forall i: nat :: i < |agents| ==> AgreeAt(agents, base, i) {
      forall i: nat | i < |agents|
        ensures ByStreaming(agents)(i, ContextAt(base, ByRunning(agents), i)) == ResultAt(base, ByRunning(agents), i)
      {
        assert AgreeAt(agents, base, i);
      }
    }
  }

  /** Then the stream without its headers is every step's result in order, the last being the
      one `run` returns. */
  lemma StreamEndsInRunResult(agents: seq<SubAgent>, base: seq<Message>)
    requires agents != [] && StreamsAddUp(agents, base)
    ensures Results(base, ByStreaming(agents), |agents|) == Results(base, ByRunning(agents), |agents|)
    ensures Concat(Results(base, ByStreaming(agents), |agents|)) ==
      Concat(Results(base, ByRunning(agents), |agents| - 1)) + ResultAt(base, ByRunning(agents), |agents| - 1)
  {
    var n := |agents|;
    forall i: nat | i < n
      ensures AgreeAt(agents, base, i)
    {
      AgreeUpTo(agents, base, i);
    }
    var streamed, ran := Results(base, ByStreaming(agents), n), Results(base, ByRunning(agents), n);
    forall i: nat | i < n
      ensures streamed[i] == ran[i]
    {
      assert AgreeAt(agents, base, i);
    }
    assert streamed == ran;
    assert Results(base, ByRunning(agents), n)[..n - 1] == Results(base, ByRunning(agents), n - 1);
  }
}
