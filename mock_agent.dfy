/** The mock agent: it replays a reply recorded in a JSON file as a UI message stream,
    with each tool call's recorded output. Reading the file is a parameter. */
module MockAgent {
  import opened Wrappers
  import opened Strings
  import opened JsValues
  import opened UiStream

  /** What `parseMockResponseData` extracts: the text and the tool calls to replay. */
  datatype Parsed = Parsed(text: string, calls: seq<ToolCall>)

  /** An event recording the output of the call with this id. */
  predicate IsOutputFor(e: JsValue, id: JsValue) {
    OptProp(e, "type") == Str("tool-output-available") && StrictEquals(OptProp(e, "toolCallId"), id)
  }

  /** `find`: the index of the first output event of the call with this id. */
  function FindOutput(events: seq<JsValue>, id: JsValue): (r: Option<nat>)
    ensures r.None? <==> forall k :: 0 <= k < |events| ==> !IsOutputFor(events[k], id)
    ensures r.Some? ==> r.value < |events| && IsOutputFor(events[r.value], id)
                        && forall k :: 0 <= k < r.value ==> !IsOutputFor(events[k], id)
  {
    if events == [] then None
    else if IsOutputFor(events[0], id) then Some(0)
    else
      match FindOutput(events[1..], id)
      case None => None
      case Some(k) => Some(k + 1)
  }

  /** The call of a tool-input event: its output is that of the first output event with
      the same id in the whole recording, else its input. */
  function CallOf(e: JsValue, all: seq<JsValue>): ToolCall {
    var id := OptProp(e, "toolCallId");
    var output := match FindOutput(all, id)
      case None => OptProp(e, "input")
      case Some(k) => OptProp(all[k], "output");
    ToolCall(id, OptProp(e, "toolName"), OptProp(e, "input"), output)
  }

  function CallsOf(inputs: seq<JsValue>, all: seq<JsValue>): (r: seq<ToolCall>)
    ensures |r| == |inputs| && forall k :: 0 <= k < |inputs| ==> r[k] == CallOf(inputs[k], all)
  {
    seq(|inputs|, k requires 0 <= k < |inputs| => CallOf(inputs[k], all))
  }

  /** What parsing the loaded recording gives, or None where it throws: a falsy
      recording gives nothing to replay; an array is read event by event and throws on
      a null event; a string iterates over characters, none of them an event; any
      other value is not iterable. */
  function ParseSpec(mock: JsValue): Option<Parsed> {
    if !Truthy(mock) || mock.Str? then Some(Parsed("", []))
    else if !mock.Arr? then None
    else if !NoNullish(mock.items) then None
    else Some(Parsed(RecordedText(mock.items), CallsOf(InputEvents(mock.items), mock.items)))
  }

  class MockAgent {
    /** The recording, or `null` when the file is missing or does not parse. */
    const mockResponse: JsValue

    /** The constructor's `loadMockResponse`: `mockFile` is the file's text, None when it
        is missing or unreadable. */
    constructor (mockFile: Option<string>, parse: JsonParser)
      ensures mockResponse == if mockFile.Some? && parse(mockFile.value).Success?
                              then parse(mockFile.value).value else Null
    {
      if mockFile.Some? && parse(mockFile.value).Success? {
        mockResponse := parse(mockFile.value).value;
      } else {
        mockResponse := Null;
      }
    }

    /** `parseMockResponseData`: the loop over the recorded events. */
    method ParseMockResponseData() returns (r: Option<Parsed>)
      ensures r == ParseSpec(mockResponse)
    {
      if !Truthy(mockResponse) || mockResponse.Str? {
        return Some(Parsed("", []));
      }
      if !mockResponse.Arr? {
        return None;
      }
      var events := mockResponse.items;
      var textContent := "";
      var toolCalls: seq<ToolCall> := [];
      for i := 0 to |events|
        invariant NoNullish(events[..i])
        invariant textContent == RecordedText(events[..i])
        invariant toolCalls == CallsOf(InputEvents(events[..i]), events)
      {
        var event := events[i];
        if Nullish(event) {
          assert !NoNullish(events);
          return None;
        }
        PrefixStep(events, i);
        textContent, toolCalls := ReadEvent(event, events, textContent, toolCalls);
      }
      assert events[..|events|] == events;
      return Some(Parsed(textContent, toolCalls));
    }

    /** `streamMockResponse`: the events of the replayed stream, or None where parsing
        throws. */
    method StreamMockResponse() returns (r: Option<seq<UiEvent>>)
      ensures ParseSpec(mockResponse).None? ==> r.None?
      ensures ParseSpec(mockResponse).Some? ==>
        r == Some(MockEventSeq(ParseSpec(mockResponse).value.text, ParseSpec(mockResponse).value.calls))
    {
      var parsed := ParseMockResponseData();
      if parsed.None? {
        return None;
      }
      var events := EmitMockEvents(parsed.value.text, parsed.value.calls);
      return Some(events);
    }
  }

  /** The body of the parse loop on one event. */
  method ReadEvent(event: JsValue, events: seq<JsValue>, textContent: string, toolCalls: seq<ToolCall>)
    returns (text': string, calls': seq<ToolCall>)
    ensures text' == textContent + DeltaOf(event)
    ensures calls' == toolCalls + CallsOf(if IsToolInput(event) then [event] else [], events)
  {
    text', calls' := textContent, toolCalls;
    if OptProp(event, "type") == Str("text-delta") && Truthy(OptProp(event, "delta")) {
      text' := textContent + ToJsString(OptProp(event, "delta"));
    } else if OptProp(event, "type") == Str("tool-input-available") {
      var output := FindOutput(events, OptProp(event, "toolCallId"));
      calls' := toolCalls + [ToolCall(OptProp(event, "toolCallId"), OptProp(event, "toolName"),
                                      OptProp(event, "input"),
                                      if output.Some? then OptProp(events[output.value], "output")
                                      else OptProp(event, "input"))];
    }
  }

  /** The loop's specifications advance by one event. */
  lemma PrefixStep(events: seq<JsValue>, i: nat)
    requires i < |events|
    ensures NoNullish(events[..i]) && !Nullish(events[i]) ==> NoNullish(events[..i + 1])
    ensures RecordedText(events[..i + 1]) == RecordedText(events[..i]) + DeltaOf(events[i])
    ensures CallsOf(InputEvents(events[..i + 1]), events)
            == CallsOf(InputEvents(events[..i]), events) + CallsOf(if IsToolInput(events[i]) then [events[i]] else [], events)
  {
    var p := events[..i + 1];
    assert p[..i] == events[..i] && p[i] == events[i];
    assert p == events[..i] + [events[i]];
    RecordedTextSnoc(events[..i], events[i]);
    assert InputEvents(p) == InputEvents(events[..i]) + (if IsToolInput(events[i]) then [events[i]] else []);
  }

  /** With no recording loaded there is no text and there are no tool calls. */
  lemma NoRecordingNothingToReplay(mock: JsValue)
    requires !Truthy(mock)
    ensures ParseSpec(mock) == Some(Parsed("", []))
  {
  }

  /** One tool call per tool-input event, in recording order, each with the id, name and
      input of its event; its output is that of the first output event with the same
      id, else its input. */
  lemma CallsFollowInputs(events: seq<JsValue>, k: nat)
    requires NoNullish(events)
    requires var p := ParseSpec(Arr(events)); p.Some? && k < |p.value.calls|
    ensures var c := ParseSpec(Arr(events)).value.calls[k];
      var ins := InputEvents(events);
      && |ParseSpec(Arr(events)).value.calls| == |ins|
      && ins[k] in events && IsToolInput(ins[k])
      && c.toolCallId == OptProp(ins[k], "toolCallId")
      && c.toolName == OptProp(ins[k], "toolName")
      && c.input == OptProp(ins[k], "input")
      && ((exists j :: 0 <= j < |events| && IsOutputFor(events[j], c.toolCallId))
          ==> exists j :: 0 <= j < |events| && IsOutputFor(events[j], c.toolCallId)
                && c.output == OptProp(events[j], "output")
                && forall i :: 0 <= i < j ==> !IsOutputFor(events[i], c.toolCallId))
      && ((forall j :: 0 <= j < |events| ==> !IsOutputFor(events[j], c.toolCallId)) ==> c.output == c.input)
  {
    var ins := InputEvents(events);
    assert ins[k] in ins;
    var id := OptProp(ins[k], "toolCallId");
    var found := FindOutput(events, id);
    if found.Some? {
      var j := found.value;
      assert IsOutputFor(events[j], id);
    }
  }

  /** A recording with an array or object as tool-call id never finds its output:
      `===` compares such ids by identity. */
  lemma ObjectIdsNeverMatch(events: seq<JsValue>, e: JsValue)
    requires OptProp(e, "toolCallId").Obj? || OptProp(e, "toolCallId").Arr?
    ensures CallOf(e, events).output == OptProp(e, "input")
  {
  }

  /** The replayed text is the recorded deltas in order: a recording made of two parts
      replays the text of the first, then of the second. */
  lemma ReplayedTextInOrder(a: seq<JsValue>, b: seq<JsValue>)
    requires NoNullish(a + b)
    ensures ParseSpec(Arr(a + b)).Some?
    ensures ParseSpec(Arr(a + b)).value.text == RecordedText(a) + RecordedText(b)
  {
    RecordedTextAppend(a, b);
  }
}
