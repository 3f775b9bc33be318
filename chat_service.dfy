/** The chat service of the assistant: the system prompt it loads, the metadata messages
    it puts before the conversation, and its mock mode, which replays a recorded reply
    with every tool's output equal to its input. The model call, the conversion of UI
    messages and the file system are parameters. */
module ChatService {
  import opened Wrappers
  import opened Strings
  import opened JsValues
  import opened UiStream

  /** The environment: each variable's value, None when it is not set. */
  type Environment = string -> Option<string>

  /** A file's text, None when it is missing or cannot be read. */
  type FileReader = string -> Option<string>

  // ---------------------------------------------------------------- instructions

  /** `getInstructions`: the file named by INSTRUCTIONS_PATH when that is set, not blank
      and readable; the default instructions otherwise. */
  function Instructions(path: Option<string>, readFile: FileReader, defaultInstructions: string): (r: string)
    ensures path.None? || TrimSpace(path.value) == "" || readFile(path.value).None? ==> r == defaultInstructions
    ensures path.Some? && TrimSpace(path.value) != "" && readFile(path.value).Some? ==> r == readFile(path.value).value
  {
    if path.Some? && path.value != "" && TrimSpace(path.value) != "" then
      match readFile(path.value)
      case Some(text) => text
      case None => defaultInstructions
    else defaultInstructions
  }

  // ---------------------------------------------------------------- metadata messages

  /** The part of a UI message this service reads itself. */
  datatype UiMessage = UiMessage(metadata: JsValue)

  datatype ModelMessage = ModelMessage(role: string, content: string)

  /** `message.metadata || {}`, destructured. */
  function MetaField(m: UiMessage, name: string): JsValue {
    OptProp(if Truthy(m.metadata) then m.metadata else Obj(map[]), name)
  }

  /** The content built from one message's metadata. */
  function MetadataContent(m: UiMessage): string {
    var language := MetaField(m, "language");
    var currentLine := MetaField(m, "currentLine");
    var code := MetaField(m, "code");
    (if Truthy(language) then "Language: " + ToJsString(language) + "\n" else "")
    + (if Truthy(currentLine) then "Current line: " + ToJsString(currentLine) + "\n" else "")
    + (if Truthy(code) then "Code:```" + ToJsString(code) + "```" else "")
  }

  /** The metadata messages of the user messages, in order: one per message whose
      content is not empty. */
  function MetadataMessages(msgs: seq<UiMessage>): seq<ModelMessage>
    decreases |msgs|
  {
    if msgs == [] then []
    else
      var last := msgs[|msgs| - 1];
      MetadataMessages(msgs[..|msgs| - 1])
      + (if MetadataContent(last) != "" then [ModelMessage("user", MetadataContent(last))] else [])
  }

  /** `getMetadatasMessages`, step by step. */
  method GetMetadataMessages(userMessages: seq<UiMessage>) returns (metadataMessages: seq<ModelMessage>)
    ensures metadataMessages == MetadataMessages(userMessages)
  {
    metadataMessages := [];
    for i := 0 to |userMessages|
      invariant metadataMessages == MetadataMessages(userMessages[..i])
    {
      var message := userMessages[i];
      assert userMessages[..i + 1][..i] == userMessages[..i];
      var content := BuildContent(message);
      if content != "" {
        metadataMessages := metadataMessages + [ModelMessage("user", content)];
      }
    }
    assert userMessages[..|userMessages|] == userMessages;
  }

  /** The content of one message, piece by piece. */
  method BuildContent(message: UiMessage) returns (content: string)
    ensures content == MetadataContent(message)
  {
    var meta := if Truthy(message.metadata) then message.metadata else Obj(map[]);
    var language, currentLine, code := OptProp(meta, "language"), OptProp(meta, "currentLine"), OptProp(meta, "code");
    var languagePart, linePart, codePart := "", "", "";
    if Truthy(language) {
      languagePart := "Language: " + ToJsString(language) + "\n";
    }
    if Truthy(currentLine) {
      linePart := "Current line: " + ToJsString(currentLine) + "\n";
    }
    if Truthy(code) {
      codePart := "Code:```" + ToJsString(code) + "```";
    }
    content := languagePart + linePart + codePart;
  }

  /** A message yields content exactly when one of its metadata fields is truthy; the
      language comes first and the code last. */
  lemma ContentWhenSomeFieldSet(m: UiMessage)
    ensures MetadataContent(m) != ""
            <==> Truthy(MetaField(m, "language")) || Truthy(MetaField(m, "currentLine")) || Truthy(MetaField(m, "code"))
    ensures Truthy(MetaField(m, "language")) ==> HasPrefix(MetadataContent(m), "Language: ")
    ensures Truthy(MetaField(m, "code")) ==>
              |MetadataContent(m)| >= 3 && MetadataContent(m)[|MetadataContent(m)| - 3..] == "```"
  {
    var s := MetadataContent(m);
    if Truthy(MetaField(m, "language")) {
      var head := "Language: " + ToJsString(MetaField(m, "language")) + "\n";
      assert s == head + s[|head|..];
      assert s[..10] == head[..10];
    }
  }

  /** The messages of two lists of user messages are those of the first, then those of
      the second: order is kept and each message gives at most one. */
  lemma {:induction false} MetadataMessagesAppend(a: seq<UiMessage>, b: seq<UiMessage>)
    ensures MetadataMessages(a + b) == MetadataMessages(a) + MetadataMessages(b)
    decreases |b|
  {
    if b == [] {
      assert a + b == a;
    } else {
      assert (a + b)[..|a + b| - 1] == a + b[..|b| - 1];
      MetadataMessagesAppend(a, b[..|b| - 1]);
    }
  }

  /** At most one message per user message, every one from the user with content. */
  lemma {:induction false} MetadataMessagesBounded(msgs: seq<UiMessage>)
    ensures |MetadataMessages(msgs)| <= |msgs|
    ensures forall k :: 0 <= k < |MetadataMessages(msgs)| ==>
      MetadataMessages(msgs)[k].role == "user" && MetadataMessages(msgs)[k].content != ""
    decreases |msgs|
  {
    if msgs != [] {
      MetadataMessagesBounded(msgs[..|msgs| - 1]);
    }
  }

  // ---------------------------------------------------------------- mock mode

  /** A tool call of the recording as this service reads it: no output. */
  datatype ToolInput = ToolInput(toolCallId: JsValue, toolName: JsValue, input: JsValue)

  /** `parseMockResponseData`'s result. */
  datatype Parsed = Parsed(text: string, toolCalls: seq<ToolInput>)

  function InputOf(e: JsValue): ToolInput {
    ToolInput(OptProp(e, "toolCallId"), OptProp(e, "toolName"), OptProp(e, "input"))
  }

  function InputsOf(events: seq<JsValue>): (r: seq<ToolInput>)
    ensures |r| == |events| && forall k :: 0 <= k < |events| ==> r[k] == InputOf(events[k])
  {
    seq(|events|, k requires 0 <= k < |events| => InputOf(events[k]))
  }

  /** What parsing the recording gives, or None where it throws (as for the mock agent). */
  function ParseSpec(mock: JsValue): Option<Parsed> {
    if !Truthy(mock) || mock.Str? then Some(Parsed("", []))
    else if !mock.Arr? then None
    else if !NoNullish(mock.items) then None
    else Some(Parsed(RecordedText(mock.items), InputsOf(InputEvents(mock.items))))
  }

  /** The calls the mock stream replays: each output is the call's own input. */
  function Replayed(inputs: seq<ToolInput>): (r: seq<ToolCall>)
    ensures |r| == |inputs|
    ensures forall k :: 0 <= k < |inputs| ==>
      r[k] == ToolCall(inputs[k].toolCallId, inputs[k].toolName, inputs[k].input, inputs[k].input)
  {
    seq(|inputs|, k requires 0 <= k < |inputs| =>
      ToolCall(inputs[k].toolCallId, inputs[k].toolName, inputs[k].input, inputs[k].input))
  }

  /** What `streamChat` answers with. */
  datatype ChatReply =
    | MockStream(events: seq<UiEvent>)
    | ModelStream(system: string, messages: seq<ModelMessage>)
    | Thrown

  class ChatService {
    const systemPrompt: string
    const mockMode: bool
    /** The recording, `null` unless mock mode is on and the file parses. */
    const mockResponse: JsValue

    constructor (env: Environment, readFile: FileReader, defaultInstructions: string,
                 mockFile: Option<string>, parse: JsonParser)
      ensures systemPrompt == Instructions(env("INSTRUCTIONS_PATH"), readFile, defaultInstructions)
      ensures mockMode <==> env("ENABLE_MOCK_MODE") == Some("true")
      ensures mockResponse == if mockMode && mockFile.Some? && parse(mockFile.value).Success?
                              then parse(mockFile.value).value else Null
    {
      systemPrompt := Instructions(env("INSTRUCTIONS_PATH"), readFile, defaultInstructions);
      mockMode := env("ENABLE_MOCK_MODE") == Some("true");
      if env("ENABLE_MOCK_MODE") == Some("true") && mockFile.Some? && parse(mockFile.value).Success? {
        mockResponse := parse(mockFile.value).value;
      } else {
        mockResponse := Null;
      }
    }

    /** `parseMockResponseData`: the loop over the recorded events. */
    method ParseMockResponseData() returns (r: Option<Parsed>)
      ensures r == ParseSpec(mockResponse)
    {
      if !Truthy(mockResponse) || mockResponse.Str? {
        return Some(Parsed("", []));
      }
      if !mockResponse.Arr? {
        return None;
      }
      var events := mockResponse.items;
      var textContent := "";
      var toolCalls: seq<ToolInput> := [];
      for i := 0 to |events|
        invariant NoNullish(events[..i])
        invariant textContent == RecordedText(events[..i])
        invariant toolCalls == InputsOf(InputEvents(events[..i]))
      {
        var event := events[i];
        if Nullish(event) {
          assert !NoNullish(events);
          return None;
        }
        PrefixStep(events, i);
        textContent, toolCalls := ReadEvent(event, textContent, toolCalls);
      }
      assert events[..|events|] == events;
      return Some(Parsed(textContent, toolCalls));
    }

    /** `createMockStreamResponse`: the recorded text in five-character deltas and each
        tool call with its input as output. */
    method CreateMockStreamResponse() returns (r: Option<seq<UiEvent>>)
      ensures ParseSpec(mockResponse).None? ==> r.None?
      ensures ParseSpec(mockResponse).Some? ==>
        r == Some(MockEventSeq(ParseSpec(mockResponse).value.text, Replayed(ParseSpec(mockResponse).value.toolCalls)))
    {
      var parsed := ParseMockResponseData();
      if parsed.None? {
        return None;
      }
      var events := EmitMockEvents(parsed.value.text, Replayed(parsed.value.toolCalls));
      return Some(events);
    }

    /** `streamChat`: the recording when mock mode is on and one was loaded; otherwise
        the model's stream over the metadata messages, then the converted messages. */
    method StreamChat(userMessages: seq<UiMessage>, convert: seq<UiMessage> -> seq<ModelMessage>)
      returns (reply: ChatReply)
      ensures mockMode && Truthy(mockResponse) ==>
        reply == match ParseSpec(mockResponse)
          case None => Thrown
          case Some(p) => MockStream(MockEventSeq(p.text, Replayed(p.toolCalls)))
      ensures !(mockMode && Truthy(mockResponse)) ==>
        reply == ModelStream(systemPrompt, MetadataMessages(userMessages) + convert(userMessages))
    {
      if mockMode && Truthy(mockResponse) {
        var events := CreateMockStreamResponse();
        if events.None? {
          return Thrown;
        }
        return MockStream(events.value);
      }
      var messages := convert(userMessages);
      var metadataMessages := GetMetadataMessages(userMessages);
      return ModelStream(systemPrompt, metadataMessages + messages);
    }
  }

  /** The body of the parse loop on one event. */
  method ReadEvent(event: JsValue, textContent: string, toolCalls: seq<ToolInput>)
    returns (text': string, calls': seq<ToolInput>)
    ensures text' == textContent + DeltaOf(event)
    ensures calls' == toolCalls + InputsOf(if IsToolInput(event) then [event] else [])
  {
    text', calls' := textContent, toolCalls;
    if OptProp(event, "type") == Str("text-delta") && Truthy(OptProp(event, "delta")) {
      text' := textContent + ToJsString(OptProp(event, "delta"));
    } else if OptProp(event, "type") == Str("tool-input-available") {
      calls' := toolCalls + [ToolInput(OptProp(event, "toolCallId"), OptProp(event, "toolName"), OptProp(event, "input"))];
    }
  }

  /** The loop's specifications advance by one event. */
  lemma PrefixStep(events: seq<JsValue>, i: nat)
    requires i < |events|
    ensures NoNullish(events[..i]) && !Nullish(events[i]) ==> NoNullish(events[..i + 1])
    ensures RecordedText(events[..i + 1]) == RecordedText(events[..i]) + DeltaOf(events[i])
    ensures InputsOf(InputEvents(events[..i + 1]))
            == InputsOf(InputEvents(events[..i])) + InputsOf(if IsToolInput(events[i]) then [events[i]] else [])
  {
    var p := events[..i + 1];
    assert p[..i] == events[..i] && p[i] == events[i];
    assert p == events[..i] + [events[i]];
    RecordedTextSnoc(events[..i], events[i]);
    assert InputEvents(p) == InputEvents(events[..i]) + (if IsToolInput(events[i]) then [events[i]] else []);
  }

  /** In the mock stream every tool's output event carries that tool's input, and the
      deltas glue back to the recorded text. */
  lemma MockOutputsEchoInputs(p: Parsed, j: nat)
    requires j < |p.toolCalls|
    ensures var e := MockEventSeq(p.text, Replayed(p.toolCalls));
      var n := |Chunks(p.text)|;
      && e[6 + n + 3 * j] == ToolOutputAvailable(p.toolCalls[j].toolCallId, p.toolCalls[j].input)
      && Concat(DeltaTexts(e)) == p.text
  {
    MockEventLayout(p.text, Replayed(p.toolCalls));
    StreamCarriesText(p.text, Replayed(p.toolCalls));
    var e := MockEventSeq(p.text, Replayed(p.toolCalls));
    var n := |Chunks(p.text)|;
    assert e[4 + n + 3 * j..7 + n + 3 * j] == CallEvents(Replayed(p.toolCalls)[j]);
    assert e[6 + n + 3 * j] == e[4 + n + 3 * j..7 + n + 3 * j][2];
  }
}
