/** python/examples/apx-builder/anthropic_proxy.py: Anthropic messages to chat-completions messages
    and back. JSON encoding and decoding are taken to be inverse. An absent string field and an
    empty one mean the same on both wires. */
module MessageTranslation {
  import opened Wrappers
  import opened Comprehension
  import opened Text

  datatype Json = EmptyObject | Value(repr: string)
  datatype JsonText = Dumps(value: Json) | NotJson(text: string)

  datatype Block =
    | TextBlock(text: Option<string>)
    | ToolUse(id: Option<string>, name: Option<string>, input: Option<Json>)
    | ToolResult(toolUseId: Option<string>, result: ResultContent)
    | OtherBlock

  datatype ResultContent = AbsentResult | PlainResult(text: string) | BlockResult(blocks: seq<Block>)

  datatype Content = AbsentContent | Plain(text: string) | Blocks(blocks: seq<Block>)
  datatype Message = Message(role: string, content: Content)

  datatype ToolCall = ToolCall(id: string, name: string, arguments: JsonText)

  /** `Rendered` is a message of some other role whose block list is written out with `str`. */
  datatype OpenAi =
    | Says(role: string, text: string)
    | Assistant(content: Option<string>, calls: seq<ToolCall>)
    | Tool(callId: string, text: string)
    | Rendered(role: string, blocks: seq<Block>)

  const MAX_TOOL_RESULT_CHARS := 1500

  function OrEmpty(s: Option<string>): string {
    if s.Some? then s.value else ""
  }

  // ---- Trimming ----

  function Trim(text: string): string {
    if |text| <= MAX_TOOL_RESULT_CHARS then text
    else text[..MAX_TOOL_RESULT_CHARS] + "\n[trimmed \U{2014} " + Decimal(|text|) + " chars total]"
  }

  lemma TrimTail(a: string)
    requires |a| > MAX_TOOL_RESULT_CHARS
    ensures |Trim(a)| == MAX_TOOL_RESULT_CHARS + 25 + |Decimal(|a|)|
    ensures Trim(a)[MAX_TOOL_RESULT_CHARS + 12..|Trim(a)| - 13] == Decimal(|a|)
  {
    var head := a[..MAX_TOOL_RESULT_CHARS] + "\n[trimmed \U{2014} ";
    assert |"\n[trimmed \U{2014} "| == 12 && |" chars total]"| == 13;
    assert Trim(a) == head + Decimal(|a|) + " chars total]";
  }

  /** What trimming forgets, exactly: of a long text everything past the limit except its length. */
  lemma TrimForgetsExactly(a: string, b: string)
    ensures Trim(a) == Trim(b) <==>
      a == b || (|a| == |b| > MAX_TOOL_RESULT_CHARS && a[..MAX_TOOL_RESULT_CHARS] == b[..MAX_TOOL_RESULT_CHARS])
  {
    if |a| > MAX_TOOL_RESULT_CHARS && |b| > MAX_TOOL_RESULT_CHARS && Trim(a) == Trim(b) {
      var k := MAX_TOOL_RESULT_CHARS;
      assert Trim(a)[..k] == a[..k] && Trim(b)[..k] == b[..k];
      TrimTail(a);
      TrimTail(b);
      var n := |Trim(a)|;
      assert Decimal(|a|) == Trim(a)[k + 12..n - 13] == Decimal(|b|);
      DecimalInjective(|a|, |b|);
    }
  }

  // ---- To chat completions ----

  function TextsOf(blocks: seq<Block>): seq<string> {
    if blocks == [] then [] else
    var last := blocks[|blocks| - 1];
    TextsOf(blocks[..|blocks| - 1]) + if last.TextBlock? then [OrEmpty(last.text)] else []
  }

  function CallOf(b: Block): ToolCall
    requires b.ToolUse?
  {
    ToolCall(OrEmpty(b.id), OrEmpty(b.name), Dumps(if b.input.Some? then b.input.value else EmptyObject))
  }

  function CallsOf(blocks: seq<Block>): seq<ToolCall> {
    if blocks == [] then [] else
    var last := blocks[|blocks| - 1];
    CallsOf(blocks[..|blocks| - 1]) + if last.ToolUse? then [CallOf(last)] else []
  }

  function ResultText(r: ResultContent): string {
    match r
    case AbsentResult => ""
    case PlainResult(text) => text
    case BlockResult(blocks) => Join(TextsOf(blocks), "\n")
  }

  function ToolMessage(b: Block): OpenAi
    requires b.ToolResult?
  {
    Tool(OrEmpty(b.toolUseId), Trim(ResultText(b.result)))
  }

  function ToolMessagesOf(blocks: seq<Block>): seq<OpenAi> {
    if blocks == [] then [] else
    var last := blocks[|blocks| - 1];
    ToolMessagesOf(blocks[..|blocks| - 1]) + if last.ToolResult? then [ToolMessage(last)] else []
  }

  function AssistantEntry(blocks: seq<Block>): OpenAi {
    var text := Join(TextsOf(blocks), "\n");
    Assistant(if text == "" then None else Some(text), CallsOf(blocks))
  }

  /** The messages one input message becomes; a user message's tool results come before its text. */
  function ConvertOne(m: Message): seq<OpenAi> {
    match m.content
    case AbsentContent => [Says(m.role, "")]
    case Plain(text) => [Says(m.role, text)]
    case Blocks(blocks) =>
      if m.role == "assistant" then [AssistantEntry(blocks)]
      else if m.role == "user" then
        ToolMessagesOf(blocks) + if TextsOf(blocks) == [] then [] else [Says("user", Join(TextsOf(blocks), "\n"))]
      else [Rendered(m.role, blocks)]
  }

  function Convert(messages: seq<Message>): seq<OpenAi> {
    if messages == [] then [] else Convert(messages[..|messages| - 1]) + ConvertOne(messages[|messages| - 1])
  }

  /** An empty system prompt adds nothing; a list contributes its text blocks. */
  function SystemMessage(system: Content): seq<Message> {
    match system
    case AbsentContent => []
    case Plain(text) => if text == "" then [] else [Message("system", Plain(text))]
    case Blocks(blocks) => if blocks == [] then [] else [Message("system", Plain(Join(TextsOf(blocks), " ")))]
  }

  // ---- What each message must become ----

  /** A string field, absent or not. */
  ghost function Field(s: Option<string>): string {
    match s
    case None => ""
    case Some(value) => value
  }

  ghost function TextField(b: Block): string {
    if b.TextBlock? then Field(b.text) else ""
  }

  ghost function IsText(): Block -> bool {
    (b: Block) => b.TextBlock?
  }

  ghost function IsUse(): Block -> bool {
    (b: Block) => b.ToolUse?
  }

  ghost function IsResult(): Block -> bool {
    (b: Block) => b.ToolResult?
  }

  /** The text blocks of a list, joined. */
  ghost function Joined(blocks: seq<Block>, sep: string): string {
    var texts := Filter(blocks, IsText());
    Join(seq(|texts|, i requires 0 <= i < |texts| => TextField(texts[i])), sep)
  }

  /** A text up to 1500 characters goes out as it is; of a longer one its first 1500 characters go
      out, and a marker with its length. */
  ghost predicate Clips(sent: string, given: string) {
    if |given| <= 1500 then sent == given
    else sent == given[..1500] + "\n[trimmed \U{2014} " + Decimal(|given|) + " chars total]"
  }

  /** The tool message carries that tool result: its id, and its text, which for a list is its text
      blocks joined by newlines. */
  ghost predicate AnswersTo(o: OpenAi, b: Block) {
    b.ToolResult? && o.Tool? && o.callId == Field(b.toolUseId) &&
    match b.result
    case AbsentResult => o.text == ""
    case PlainResult(text) => Clips(o.text, text)
    case BlockResult(blocks) => Clips(o.text, Joined(blocks, "\n"))
  }

  ghost predicate CallsTool(c: ToolCall, b: Block) {
    b.ToolUse? && c.id == Field(b.id) && c.name == Field(b.name) &&
    c.arguments == match b.input case None => Dumps(EmptyObject) case Some(value) => Dumps(value)
  }

  /** What one message must become. */
  ghost predicate Renders(m: Message, out: seq<OpenAi>) {
    match m.content
    case AbsentContent => out == [Says(m.role, "")]
    case Plain(text) => out == [Says(m.role, text)]
    case Blocks(blocks) =>
      if m.role == "assistant" then
        && |out| == 1 && out[0].Assistant?
        && out[0].content == (if Joined(blocks, "\n") == "" then None else Some(Joined(blocks, "\n")))
        && |out[0].calls| == |Filter(blocks, IsUse())|
        && forall i :: 0 <= i < |out[0].calls| ==> CallsTool(out[0].calls[i], Filter(blocks, IsUse())[i])
      else if m.role == "user" then
        var results, texts := Filter(blocks, IsResult()), Filter(blocks, IsText());
        && |out| == |results| + (if texts == [] then 0 else 1)
        && (forall i :: 0 <= i < |results| ==> AnswersTo(out[i], results[i]))
        && (texts != [] ==> out[|results|] == Says("user", Joined(blocks, "\n")))
      else out == [Rendered(m.role, blocks)]
  }

  /** What the system prompt must become: a list's text blocks are joined by blanks. */
  ghost predicate RendersSystem(system: Content, out: seq<OpenAi>) {
    match system
    case AbsentContent => out == []
    case Plain(text) => out == if text == "" then [] else [Says("system", text)]
    case Blocks(blocks) => out == if blocks == [] then [] else [Says("system", Joined(blocks, " "))]
  }

  function Flatten(parts: seq<seq<OpenAi>>): seq<OpenAi> {
    if parts == [] then [] else Flatten(parts[..|parts| - 1]) + parts[|parts| - 1]
  }

  /** Each message becomes what it must, in order, after the system prompt. */
  ghost predicate RendersAll(system: Content, messages: seq<Message>, out: seq<OpenAi>, first: seq<OpenAi>,
                             parts: seq<seq<OpenAi>>)
  {
    && RendersSystem(system, first) && out == first + Flatten(parts)
    && |parts| == |messages| && forall i :: 0 <= i < |parts| ==> Renders(messages[i], parts[i])
  }

  lemma {:induction false} TextsAreFields(blocks: seq<Block>)
    ensures var texts := Filter(blocks, IsText());
      TextsOf(blocks) == seq(|texts|, i requires 0 <= i < |texts| => TextField(texts[i]))
  {
    if blocks != [] {
      TextsAreFields(blocks[..|blocks| - 1]);
    }
  }

  lemma JoinedTexts(blocks: seq<Block>, sep: string)
    ensures Join(TextsOf(blocks), sep) == Joined(blocks, sep)
    ensures TextsOf(blocks) == [] <==> Filter(blocks, IsText()) == []
  {
    TextsAreFields(blocks);
  }

  lemma ToolMessageAnswers(b: Block)
    requires b.ToolResult?
    ensures AnswersTo(ToolMessage(b), b)
  {
    if b.result.BlockResult? {
      JoinedTexts(b.result.blocks, "\n");
    }
  }

  lemma {:induction false} CallsAndToolsCorrespond(blocks: seq<Block>)
    ensures |CallsOf(blocks)| == |Filter(blocks, IsUse())|
    ensures forall i :: 0 <= i < |CallsOf(blocks)| ==> CallsTool(CallsOf(blocks)[i], Filter(blocks, IsUse())[i])
    ensures |ToolMessagesOf(blocks)| == |Filter(blocks, IsResult())|
    ensures forall i :: 0 <= i < |ToolMessagesOf(blocks)| ==>
      AnswersTo(ToolMessagesOf(blocks)[i], Filter(blocks, IsResult())[i])
  {
    if blocks != [] {
      var last := blocks[|blocks| - 1];
      CallsAndToolsCorrespond(blocks[..|blocks| - 1]);
      if last.ToolResult? {
        ToolMessageAnswers(last);
      }
    }
  }

  lemma ConvertOneRenders(m: Message)
    ensures Renders(m, ConvertOne(m))
  {
    if m.content.Blocks? {
      JoinedTexts(m.content.blocks, "\n");
      CallsAndToolsCorrespond(m.content.blocks);
    }
  }

  method ConvertAssistant(blocks: seq<Block>) returns (entry: OpenAi)
    ensures entry == AssistantEntry(blocks)
    ensures Renders(Message("assistant", Blocks(blocks)), [entry])
  {
    var texts: seq<string>, calls: seq<ToolCall> := [], [];
    for i := 0 to |blocks|
      invariant texts == TextsOf(blocks[..i]) && calls == CallsOf(blocks[..i])
    {
      assert blocks[..i + 1][..i] == blocks[..i];
      match blocks[i] {
        case TextBlock(text) => texts := texts + [OrEmpty(text)];
        case ToolUse(_, _, _) => calls := calls + [CallOf(blocks[i])];
        case _ =>
      }
    }
    assert blocks[..|blocks|] == blocks;
    var text := Join(texts, "\n");
    entry := Assistant(if text == "" then None else Some(text), calls);
    ConvertOneRenders(Message("assistant", Blocks(blocks)));
  }

  method ConvertUser(blocks: seq<Block>) returns (out: seq<OpenAi>)
    ensures out == ConvertOne(Message("user", Blocks(blocks)))
    ensures Renders(Message("user", Blocks(blocks)), out)
  {
    out := [];
    for i := 0 to |blocks|
      invariant out == ToolMessagesOf(blocks[..i])
    {
      assert blocks[..i + 1][..i] == blocks[..i];
      if blocks[i].ToolResult? {
        out := out + [Tool(OrEmpty(blocks[i].toolUseId), Trim(ResultText(blocks[i].result)))];
      }
    }
    assert blocks[..|blocks|] == blocks;
    var texts := TextsOf(blocks);
    if texts != [] {
      out := out + [Says("user", Join(texts, "\n"))];
    }
    ConvertOneRenders(Message("user", Blocks(blocks)));
  }

  method ConvertMessage(msg: Message) returns (out: seq<OpenAi>)
    ensures out == ConvertOne(msg)
  {
    if !msg.content.Blocks? {
      out := [Says(msg.role, if msg.content.Plain? then msg.content.text else "")];
    } else if msg.role == "assistant" {
      var entry := ConvertAssistant(msg.content.blocks);
      out := [entry];
    } else if msg.role == "user" {
      out := ConvertUser(msg.content.blocks);
    } else {
      out := [Rendered(msg.role, msg.content.blocks)];
    }
  }

  lemma ConvertUpTo(messages: seq<Message>, i: nat)
    requires i < |messages|
    ensures Convert(messages[..i + 1]) == Convert(messages[..i]) + ConvertOne(messages[i])
  {
    assert messages[..i + 1][..i] == messages[..i];
  }

  lemma {:induction false} FlattenConcat(a: seq<seq<OpenAi>>, b: seq<seq<OpenAi>>)
    ensures Flatten(a + b) == Flatten(a) + Flatten(b)
  {
    if b == [] {
      assert a + b == a;
    } else {
      assert (a + b)[..|a + b| - 1] == a + b[..|b| - 1];
      FlattenConcat(a, b[..|b| - 1]);
    }
  }

  /** The messages each message becomes. */
  ghost function Parts(messages: seq<Message>): seq<seq<OpenAi>> {
    seq(|messages|, i requires 0 <= i < |messages| => ConvertOne(messages[i]))
  }

  lemma {:induction false} ConvertIsFlat(messages: seq<Message>)
    ensures Convert(messages) == Flatten(Parts(messages))
  {
    if messages != [] {
      ConvertIsFlat(messages[..|messages| - 1]);
      assert Parts(messages)[..|messages| - 1] == Parts(messages[..|messages| - 1]);
    }
  }

  lemma FlattenOne(part: seq<OpenAi>)
    ensures Flatten([part]) == part
  {
    assert [part][..0] == [] && [] + part == part;
  }

  lemma PartsConcat(a: seq<Message>, b: seq<Message>)
    ensures Parts(a + b) == Parts(a) + Parts(b)
  {
  }

  lemma ConvertAfterPrompt(prompt: seq<Message>, messages: seq<Message>)
    ensures Convert(prompt + messages) == Flatten(Parts(prompt)) + Flatten(Parts(messages))
  {
    ConvertIsFlat(prompt + messages);
    PartsConcat(prompt, messages);
    FlattenConcat(Parts(prompt), Parts(messages));
  }

  lemma PromptRenders(system: Content)
    ensures RendersSystem(system, Flatten(Parts(SystemMessage(system))))
  {
    var prompt := SystemMessage(system);
    if system.Blocks? {
      JoinedTexts(system.blocks, " ");
    }
    if prompt != [] {
      assert Parts(prompt) == [[Says("system", prompt[0].content.text)]];
      FlattenOne(Parts(prompt)[0]);
    }
  }

  lemma ConversionRenders(system: Content, messages: seq<Message>)
    returns (first: seq<OpenAi>, parts: seq<seq<OpenAi>>)
    ensures RendersAll(system, messages, Convert(SystemMessage(system) + messages), first, parts)
  {
    first, parts := Flatten(Parts(SystemMessage(system))), Parts(messages);
    PromptRenders(system);
    ConvertAfterPrompt(SystemMessage(system), messages);
    forall i | 0 <= i < |messages|
      ensures Renders(messages[i], parts[i])
    {
      ConvertOneRenders(messages[i]);
    }
  }

  method ToOpenAi(system: Content, messages: seq<Message>) returns (converted: seq<OpenAi>)
    ensures converted == Convert(SystemMessage(system) + messages)
    ensures exists first, parts :: RendersAll(system, messages, converted, first, parts)
  {
    var all := SystemMessage(system) + messages;
    converted := [];
    for i := 0 to |all|
      invariant converted == Convert(all[..i])
    {
      ConvertUpTo(all, i);
      var out := ConvertMessage(all[i]);
      converted := converted + out;
    }
    assert all[..|all|] == all;
    ghost var first, parts := ConversionRenders(system, messages);
  }

  // ---- Back to Anthropic ----

  function Loads(t: JsonText): Json {
    match t
    case Dumps(value) => value
    case NotJson(_) => EmptyObject
  }

  function UseOf(c: ToolCall): Block {
    ToolUse(Some(c.id), Some(c.name), Some(Loads(c.arguments)))
  }

  function BlocksOf(text: Option<string>, calls: seq<ToolCall>): seq<Block> {
    (if OrEmpty(text) == "" then [] else [TextBlock(text)]) +
    seq(|calls|, i requires 0 <= i < |calls| => UseOf(calls[i]))
  }

  method ToAnthropic(text: Option<string>, calls: seq<ToolCall>) returns (content: seq<Block>)
    ensures content == BlocksOf(text, calls)
  {
    content := [];
    if text.Some? && text.value != "" {
      content := [TextBlock(text)];
    }
    for i := 0 to |calls|
      invariant content == BlocksOf(text, calls[..i])
    {
      var input := if calls[i].arguments.Dumps? then calls[i].arguments.value else EmptyObject;
      content := content + [ToolUse(Some(calls[i].id), Some(calls[i].name), Some(input))];
    }
    assert calls[..|calls|] == calls;
  }

  // ---- Round trip ----

  /** Out and back: what an assistant turn looks like after both translations. */
  function RoundTrip(blocks: seq<Block>): seq<Block> {
    var entry := AssistantEntry(blocks);
    BlocksOf(entry.content, entry.calls)
  }

  /** A tool use with its defaults filled in; nothing for any other block. */
  function Filled(b: Block): seq<Block> {
    if !b.ToolUse? then [] else
    [ToolUse(Some(OrEmpty(b.id)), Some(OrEmpty(b.name)), Some(if b.input.Some? then b.input.value else EmptyObject))]
  }

  /** The tool uses of a turn, defaults filled in, in order. */
  function UsesOf(blocks: seq<Block>): seq<Block> {
    if blocks == [] then [] else Filled(blocks[0]) + UsesOf(blocks[1..])
  }

  /** One joined text block if there is any text, then the tool uses. */
  function NormalForm(blocks: seq<Block>): seq<Block> {
    var text := Join(TextsOf(blocks), "\n");
    (if text == "" then [] else [TextBlock(Some(text))]) + UsesOf(blocks)
  }

  ghost predicate Complete(b: Block) {
    b.ToolUse? && b.id.Some? && b.name.Some? && b.input.Some?
  }

  /** At most one text block, first and not empty; everything else a complete tool use. */
  ghost predicate IsNormal(blocks: seq<Block>) {
    forall i :: 0 <= i < |blocks| ==>
      Complete(blocks[i]) || (i == 0 && blocks[0].TextBlock? && OrEmpty(blocks[0].text) != "")
  }

  lemma {:induction false} UsesOfSnoc(blocks: seq<Block>, b: Block)
    ensures UsesOf(blocks + [b]) == UsesOf(blocks) + UsesOf([b])
  {
    if blocks == [] {
      assert blocks + [b] == [b];
    } else {
      assert (blocks + [b])[1..] == blocks[1..] + [b];
      UsesOfSnoc(blocks[1..], b);
    }
  }

  lemma {:induction false} CallsBecomeUses(blocks: seq<Block>)
    ensures var calls := CallsOf(blocks);
      seq(|calls|, i requires 0 <= i < |calls| => UseOf(calls[i])) == UsesOf(blocks)
  {
    if blocks != [] {
      var init, last := blocks[..|blocks| - 1], blocks[|blocks| - 1];
      assert blocks == init + [last];
      CallsBecomeUses(init);
      UsesOfSnoc(init, last);
    }
  }

  lemma RoundTripIsNormalForm(blocks: seq<Block>)
    ensures RoundTrip(blocks) == NormalForm(blocks)
  {
    CallsBecomeUses(blocks);
  }

  lemma {:induction false} UsesOfComplete(blocks: seq<Block>)
    ensures forall i :: 0 <= i < |UsesOf(blocks)| ==> Complete(UsesOf(blocks)[i])
    ensures (forall i :: 0 <= i < |blocks| ==> Complete(blocks[i])) ==> UsesOf(blocks) == blocks
  {
    if blocks != [] {
      UsesOfComplete(blocks[1..]);
      assert blocks == [blocks[0]] + blocks[1..];
      if forall i :: 0 <= i < |blocks| ==> Complete(blocks[i]) {
        assert forall i :: 0 <= i < |blocks[1..]| ==> Complete(blocks[1..][i]) by {
          assert forall i :: 0 <= i < |blocks[1..]| ==> blocks[1..][i] == blocks[i + 1];
        }
      }
    }
  }

  lemma {:induction false} NoTexts(blocks: seq<Block>)
    requires forall i :: 0 <= i < |blocks| ==> !blocks[i].TextBlock?
    ensures TextsOf(blocks) == []
  {
    if blocks != [] {
      NoTexts(blocks[..|blocks| - 1]);
    }
  }

  lemma {:induction false} LeadingText(t: Block, uses: seq<Block>)
    requires t.TextBlock? && forall i :: 0 <= i < |uses| ==> !uses[i].TextBlock?
    ensures TextsOf([t] + uses) == [OrEmpty(t.text)]
  {
    if uses == [] {
      assert ([t] + uses)[..0] == [] && [t] + uses == [t];
      assert TextsOf([t]) == TextsOf([t][..0]) + [OrEmpty(t.text)];
    } else {
      assert ([t] + uses)[..|uses|] == [t] + uses[..|uses| - 1];
      LeadingText(t, uses[..|uses| - 1]);
    }
  }

  lemma NormalFormIsNormal(blocks: seq<Block>)
    ensures IsNormal(NormalForm(blocks))
  {
    UsesOfComplete(blocks);
  }

  lemma NormalFormFixed(blocks: seq<Block>)
    requires IsNormal(blocks)
    requires blocks != [] && blocks[0].TextBlock? ==> blocks[0].text.Some?
    ensures NormalForm(blocks) == blocks
  {
    if blocks != [] && blocks[0].TextBlock? {
      var uses := blocks[1..];
      assert blocks == [blocks[0]] + uses;
      assert forall i :: 0 <= i < |uses| ==> Complete(uses[i]) by {
        assert forall i :: 0 <= i < |uses| ==> uses[i] == blocks[i + 1];
      }
      LeadingText(blocks[0], uses);
      UsesOfComplete(uses);
    } else {
      NoTexts(blocks);
      UsesOfComplete(blocks);
    }
  }

  /** The round trip leaves a turn as it was exactly when it is in normal form. */
  lemma RoundTripFixesExactlyNormal(blocks: seq<Block>)
    ensures RoundTrip(blocks) == blocks <==> IsNormal(blocks)
  {
    RoundTripIsNormalForm(blocks);
    NormalFormIsNormal(blocks);
    if IsNormal(blocks) {
      NormalFormFixed(blocks);
    }
  }

  lemma RoundTripIdempotent(blocks: seq<Block>)
    ensures RoundTrip(RoundTrip(blocks)) == RoundTrip(blocks)
  {
    RoundTripIsNormalForm(blocks);
    NormalFormIsNormal(blocks);
    RoundTripFixesExactlyNormal(RoundTrip(blocks));
  }

  // ---- Whole conversations ----

  datatype Step = Call(id: string) | Answer(id: string)

  function StepsOfBlocks(blocks: seq<Block>, assistant: bool): seq<Step> {
    if blocks == [] then [] else
    var last := blocks[|blocks| - 1];
    StepsOfBlocks(blocks[..|blocks| - 1], assistant) +
      if assistant && last.ToolUse? then [Call(OrEmpty(last.id))]
      else if !assistant && last.ToolResult? then [Answer(OrEmpty(last.toolUseId))]
      else []
  }

  /** The tool calls and tool results of a conversation as it came in. */
  function StepsIn(messages: seq<Message>): seq<Step> {
    if messages == [] then [] else
    var m := messages[|messages| - 1];
    StepsIn(messages[..|messages| - 1]) +
      if m.content.Blocks? && m.role == "assistant" then StepsOfBlocks(m.content.blocks, true)
      else if m.content.Blocks? && m.role == "user" then StepsOfBlocks(m.content.blocks, false)
      else []
  }

  function CallSteps(calls: seq<ToolCall>): seq<Step> {
    seq(|calls|, i requires 0 <= i < |calls| => Call(calls[i].id))
  }

  function StepsOfOne(o: OpenAi): seq<Step> {
    match o
    case Assistant(_, calls) => CallSteps(calls)
    case Tool(id, _) => [Answer(id)]
    case _ => []
  }

  function StepsOut(out: seq<OpenAi>): seq<Step> {
    if out == [] then [] else StepsOut(out[..|out| - 1]) + StepsOfOne(out[|out| - 1])
  }

  lemma {:induction false} StepsOutConcat(a: seq<OpenAi>, b: seq<OpenAi>)
    ensures StepsOut(a + b) == StepsOut(a) + StepsOut(b)
  {
    if b == [] {
      assert a + b == a;
    } else {
      assert (a + b)[..|a + b| - 1] == a + b[..|b| - 1];
      StepsOutConcat(a, b[..|b| - 1]);
    }
  }

  lemma {:induction false} BlockSteps(blocks: seq<Block>)
    ensures CallSteps(CallsOf(blocks)) == StepsOfBlocks(blocks, true)
    ensures StepsOut(ToolMessagesOf(blocks)) == StepsOfBlocks(blocks, false)
  {
    if blocks != [] {
      var init, last := blocks[..|blocks| - 1], blocks[|blocks| - 1];
      BlockSteps(init);
      if last.ToolResult? {
        assert (ToolMessagesOf(init) + [ToolMessage(last)])[..|ToolMessagesOf(init)|] == ToolMessagesOf(init);
      } else {
        assert ToolMessagesOf(blocks) == ToolMessagesOf(init);
      }
    }
  }

  lemma StepsOutOne(o: OpenAi)
    ensures StepsOut([o]) == StepsOfOne(o)
  {
    assert [o][..0] == [];
  }

  lemma UserMessageSteps(blocks: seq<Block>)
    ensures StepsOut(ConvertOne(Message("user", Blocks(blocks)))) == StepsOfBlocks(blocks, false)
  {
    BlockSteps(blocks);
    var tools, text := ToolMessagesOf(blocks), Says("user", Join(TextsOf(blocks), "\n"));
    StepsOutConcat(tools, [text]);
    StepsOutOne(text);
    assert ConvertOne(Message("user", Blocks(blocks))) == tools + if TextsOf(blocks) == [] then [] else [text];
    assert tools + [] == tools;
  }

  lemma OneMessageSteps(m: Message)
    ensures StepsOut(ConvertOne(m)) ==
      if m.content.Blocks? && m.role == "assistant" then StepsOfBlocks(m.content.blocks, true)
      else if m.content.Blocks? && m.role == "user" then StepsOfBlocks(m.content.blocks, false)
      else []
  {
    if m.content.Blocks? && m.role == "user" {
      UserMessageSteps(m.content.blocks);
    } else {
      StepsOutOne(ConvertOne(m)[0]);
      if m.content.Blocks? {
        BlockSteps(m.content.blocks);
      }
    }
  }

  /** Over a whole conversation, calls and results come out under the same ids in the same order. */
  lemma {:induction false} StepsKeepTheirOrder(messages: seq<Message>)
    ensures StepsOut(Convert(messages)) == StepsIn(messages)
  {
    if messages != [] {
      var init, m := messages[..|messages| - 1], messages[|messages| - 1];
      StepsKeepTheirOrder(init);
      StepsOutConcat(Convert(init), ConvertOne(m));
      OneMessageSteps(m);
    }
  }

  ghost function IsTool(): OpenAi -> bool {
    (o: OpenAi) => o.Tool?
  }

  /** The tool results of a conversation: those of user turns. */
  ghost function ResultsIn(messages: seq<Message>): seq<Block> {
    if messages == [] then [] else
    var m := messages[|messages| - 1];
    ResultsIn(messages[..|messages| - 1]) +
      if m.content.Blocks? && m.role == "user" then Filter(m.content.blocks, IsResult()) else []
  }

  lemma {:induction false} ToolsOfToolMessages(blocks: seq<Block>)
    ensures forall o :: o in ToolMessagesOf(blocks) ==> o.Tool?
  {
    if blocks != [] {
      ToolsOfToolMessages(blocks[..|blocks| - 1]);
    }
  }

  lemma ToolsOfUser(tools: seq<OpenAi>, text: OpenAi)
    requires (forall o :: o in tools ==> o.Tool?) && !text.Tool?
    ensures Filter(tools, IsTool()) == tools && Filter(tools + [text], IsTool()) == tools
  {
    FilterKeepsAll(tools, IsTool());
    FilterSnoc(tools, text, IsTool());
  }

  lemma NoToolInOne(o: OpenAi)
    requires !o.Tool?
    ensures Filter([o], IsTool()) == []
  {
    FilterSnoc([], o, IsTool());
    assert [] + [o] == [o];
  }

  lemma ToolsOfOne(m: Message)
    ensures Filter(ConvertOne(m), IsTool()) ==
      if m.content.Blocks? && m.role == "user" then ToolMessagesOf(m.content.blocks) else []
  {
    if m.content.Blocks? && m.role == "user" {
      var tools, text := ToolMessagesOf(m.content.blocks), Says("user", Join(TextsOf(m.content.blocks), "\n"));
      ToolsOfToolMessages(m.content.blocks);
      ToolsOfUser(tools, text);
      assert tools + [] == tools;
    } else {
      NoToolInOne(ConvertOne(m)[0]);
    }
  }

  /** The tool messages that go out are the tool results that came in, in order, each with its id
      and its text, clipped. */
  lemma {:induction false} ResultsArrive(messages: seq<Message>)
    ensures var tools := Filter(Convert(messages), IsTool());
      && |tools| == |ResultsIn(messages)|
      && forall i :: 0 <= i < |tools| ==> AnswersTo(tools[i], ResultsIn(messages)[i])
  {
    if messages != [] {
      var init, m := messages[..|messages| - 1], messages[|messages| - 1];
      ResultsArrive(init);
      FilterConcat(Convert(init), ConvertOne(m), IsTool());
      ToolsOfOne(m);
      if m.content.Blocks? && m.role == "user" {
        CallsAndToolsCorrespond(m.content.blocks);
      }
    }
  }

  // ---- Every call answered before anyone else speaks ----

  function CallIds(blocks: seq<Block>): multiset<string> {
    if blocks == [] then multiset{} else
    var last := blocks[|blocks| - 1];
    CallIds(blocks[..|blocks| - 1]) + if last.ToolUse? then multiset{OrEmpty(last.id)} else multiset{}
  }

  function ResultIds(blocks: seq<Block>): multiset<string> {
    if blocks == [] then multiset{} else
    var last := blocks[|blocks| - 1];
    ResultIds(blocks[..|blocks| - 1]) + if last.ToolResult? then multiset{OrEmpty(last.toolUseId)} else multiset{}
  }

  /** The Anthropic rule: the message after an assistant turn answers exactly its tool uses, and
      results appear nowhere else. `None` is a broken conversation, `Some` what is still open. */
  function OpenAfter(messages: seq<Message>): Option<multiset<string>> {
    if messages == [] then Some(multiset{}) else
    var before := OpenAfter(messages[..|messages| - 1]);
    var m := messages[|messages| - 1];
    if before.None? then None
    else if m.content.Blocks? && m.role == "user" then
      if ResultIds(m.content.blocks) == before.value then Some(multiset{}) else None
    else if before.value != multiset{} then None
    else Some(if m.content.Blocks? && m.role == "assistant" then CallIds(m.content.blocks) else multiset{})
  }

  function IdsOf(calls: seq<ToolCall>): multiset<string> {
    if calls == [] then multiset{} else IdsOf(calls[..|calls| - 1]) + multiset{calls[|calls| - 1].id}
  }

  /** The chat-completions rule: after an assistant message with tool calls, only tool messages for
      those calls until all are answered. */
  function PendingStep(before: Option<multiset<string>>, o: OpenAi): Option<multiset<string>> {
    if before.None? then None
    else match o
      case Tool(id, _) => if id in before.value then Some(before.value - multiset{id}) else None
      case Assistant(_, calls) => if before.value != multiset{} then None else Some(IdsOf(calls))
      case _ => if before.value != multiset{} then None else before
  }

  function PendingAfter(pending: Option<multiset<string>>, out: seq<OpenAi>): Option<multiset<string>> {
    if out == [] then pending else PendingStep(PendingAfter(pending, out[..|out| - 1]), out[|out| - 1])
  }

  /** The rule in a sentence: a tool message must answer a pending call, anything else must wait
      until none is. */
  lemma PendingExactly(pending: multiset<string>, o: OpenAi)
    ensures PendingStep(Some(pending), o).Some? <==> if o.Tool? then o.callId in pending else pending == multiset{}
    ensures var after := PendingStep(Some(pending), o);
      after.Some? ==>
        match o
        case Tool(id, _) => after.value == pending - multiset{id}
        case Assistant(_, calls) => after.value == IdsOf(calls)
        case _ => after.value == multiset{}
  {
  }

  /** And the other: a user's list must answer just what is open, anything else must wait. */
  lemma OpenExactly(messages: seq<Message>, m: Message)
    requires OpenAfter(messages).Some?
    ensures OpenAfter([]) == Some(multiset{})
    ensures var after := OpenAfter(messages + [m]);
      if m.content.Blocks? && m.role == "user"
      then (after == if ResultIds(m.content.blocks) == OpenAfter(messages).value then Some(multiset{}) else None)
      else after.Some? <==> OpenAfter(messages).value == multiset{}
  {
    assert (messages + [m])[..|messages|] == messages;
  }

  lemma PendingSnoc(pending: Option<multiset<string>>, out: seq<OpenAi>, o: OpenAi)
    ensures PendingAfter(pending, out + [o]) == PendingStep(PendingAfter(pending, out), o)
  {
    assert (out + [o])[..|out|] == out;
  }

  lemma {:induction false} PendingConcat(pending: Option<multiset<string>>, a: seq<OpenAi>, b: seq<OpenAi>)
    ensures PendingAfter(pending, a + b) == PendingAfter(PendingAfter(pending, a), b)
  {
    if b == [] {
      assert a + b == a;
    } else {
      assert (a + b)[..|a + b| - 1] == a + b[..|b| - 1];
      PendingConcat(pending, a, b[..|b| - 1]);
    }
  }

  lemma {:induction false} CallIdsOfCalls(blocks: seq<Block>)
    ensures IdsOf(CallsOf(blocks)) == CallIds(blocks)
  {
    if blocks != [] {
      var init, last := blocks[..|blocks| - 1], blocks[|blocks| - 1];
      CallIdsOfCalls(init);
      if last.ToolUse? {
        assert (CallsOf(init) + [CallOf(last)])[..|CallsOf(init)|] == CallsOf(init);
      } else {
        assert CallsOf(blocks) == CallsOf(init);
      }
    }
  }

  lemma RemoveOneMore(open: multiset<string>, r: multiset<string>, id: string)
    requires r + multiset{id} <= open
    ensures id in open - r && (open - r) - multiset{id} == open - (r + multiset{id})
  {
    assert (r + multiset{id})[id] <= open[id];
  }

  lemma AnswerOneMore(open: multiset<string>, out: seq<OpenAi>, r: multiset<string>, o: OpenAi)
    requires PendingAfter(Some(open), out) == Some(open - r)
    requires o.Tool? && r + multiset{o.callId} <= open
    ensures PendingAfter(Some(open), out + [o]) == Some(open - (r + multiset{o.callId}))
  {
    PendingSnoc(Some(open), out, o);
    RemoveOneMore(open, r, o.callId);
  }

  lemma LessIsWithin(a: multiset<string>, b: multiset<string>, c: multiset<string>)
    requires a + b <= c
    ensures a <= c
  {
    assert a <= a + b;
  }

  lemma {:induction false} ToolMessagesAnswer(open: multiset<string>, blocks: seq<Block>)
    requires ResultIds(blocks) <= open
    ensures PendingAfter(Some(open), ToolMessagesOf(blocks)) == Some(open - ResultIds(blocks))
  {
    if blocks == [] {
      assert open - multiset{} == open;
    } else {
      var init, last := blocks[..|blocks| - 1], blocks[|blocks| - 1];
      var here: multiset<string> := if last.ToolResult? then multiset{OrEmpty(last.toolUseId)} else multiset{};
      assert ResultIds(blocks) == ResultIds(init) + here;
      LessIsWithin(ResultIds(init), here, open);
      ToolMessagesAnswer(open, init);
      if last.ToolResult? {
        AnswerOneMore(open, ToolMessagesOf(init), ResultIds(init), ToolMessage(last));
      } else {
        assert ToolMessagesOf(blocks) == ToolMessagesOf(init);
        assert ResultIds(blocks) == ResultIds(init);
      }
    }
  }

  lemma UserMessageAnswers(open: multiset<string>, blocks: seq<Block>)
    requires ResultIds(blocks) == open
    ensures PendingAfter(Some(open), ConvertOne(Message("user", Blocks(blocks)))) == Some(multiset{})
  {
    var tools, text := ToolMessagesOf(blocks), Says("user", Join(TextsOf(blocks), "\n"));
    ToolMessagesAnswer(open, blocks);
    PendingSnoc(Some(open), tools, text);
    assert ConvertOne(Message("user", Blocks(blocks))) == tools + if TextsOf(blocks) == [] then [] else [text];
    assert tools + [] == tools;
  }

  lemma PendingOnly(o: OpenAi)
    ensures PendingAfter(Some(multiset{}), [o]) == PendingStep(Some(multiset{}), o)
  {
    PendingSnoc(Some(multiset{}), [], o);
    assert [] + [o] == [o];
  }

  lemma AssistantOpens(blocks: seq<Block>)
    ensures PendingAfter(Some(multiset{}), [AssistantEntry(blocks)]) == Some(CallIds(blocks))
  {
    PendingOnly(AssistantEntry(blocks));
    CallIdsOfCalls(blocks);
  }

  lemma OtherMessageOpens(m: Message)
    requires !(m.content.Blocks? && m.role == "user")
    ensures PendingAfter(Some(multiset{}), ConvertOne(m)) ==
      Some(if m.content.Blocks? && m.role == "assistant" then CallIds(m.content.blocks) else multiset{})
  {
    if m.content.Blocks? && m.role == "assistant" {
      AssistantOpens(m.content.blocks);
    } else {
      var o := ConvertOne(m)[0];
      PendingOnly(o);
      assert ConvertOne(m) == [o] && !o.Tool? && !o.Assistant?;
    }
  }

  /** A conversation that answers its tool uses as Anthropic requires converts into one that
      answers its tool calls as chat completions require, with the same calls left open. */
  lemma {:induction false} PairingSurvives(messages: seq<Message>)
    requires OpenAfter(messages).Some?
    ensures PendingAfter(Some(multiset{}), Convert(messages)) == OpenAfter(messages)
  {
    if messages != [] {
      var init, m := messages[..|messages| - 1], messages[|messages| - 1];
      PairingSurvives(init);
      PendingConcat(Some(multiset{}), Convert(init), ConvertOne(m));
      if m.content.Blocks? && m.role == "user" {
        UserMessageAnswers(OpenAfter(init).value, m.content.blocks);
      } else {
        OtherMessageOpens(m);
      }
    }
  }
}
