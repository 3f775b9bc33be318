/** The UI message stream the assistant replays in mock mode: the events it sends, in
    order, with the reply text cut into five-character deltas and three events per tool
    call. Each event goes out as `data: <JSON>` and a blank line; that rendering is not
    part of this model. */
module UiStream {
  import opened Strings
  import opened JsValues

  const MessageId := "mock_message_id"
  const ChunkSize := 5

  datatype UiEvent =
    | Start
    | StartStep
    | TextStart(id: string)
    | TextDelta(id: string, delta: string)
    | TextEnd(id: string)
    | ToolInputStart(toolCallId: JsValue, toolName: JsValue)
    | ToolInputAvailable(toolCallId: JsValue, toolName: JsValue, input: JsValue)
    | ToolOutputAvailable(toolCallId: JsValue, output: JsValue)
    | FinishStep
    | Finish

  /** A tool call of the recorded reply, with the output to replay. */
  datatype ToolCall = ToolCall(toolCallId: JsValue, toolName: JsValue, input: JsValue, output: JsValue)

  // ---------------------------------------------------------------- chunking

  /** `text.slice(i, i + 5)` for i = 0, 5, 10, ... while i < |text|. */
  function Chunks(text: string): (r: seq<string>)
    ensures |r| == (|text| + ChunkSize - 1) / ChunkSize
    ensures forall k :: 0 <= k < |r| ==> 0 < |r[k]| <= ChunkSize
    decreases |text|
  {
    if text == [] then []
    else if |text| <= ChunkSize then [text]
    else [text[..ChunkSize]] + Chunks(text[ChunkSize..])
  }

  /** The k-th chunk is the slice starting at 5k. */
  lemma {:induction false} ChunkAt(text: string, k: nat)
    requires k < |Chunks(text)|
    ensures ChunkSize * k < |text|
    ensures Chunks(text)[k] == text[ChunkSize * k .. if ChunkSize * k + ChunkSize <= |text| then ChunkSize * k + ChunkSize else |text|]
    decreases |text|
  {
    if k > 0 {
      assert |text| > ChunkSize;
      var rest := text[ChunkSize..];
      assert Chunks(text) == [text[..ChunkSize]] + Chunks(rest);
      ChunkAt(rest, k - 1);
      var lo := ChunkSize * (k - 1);
      var hi := if lo + ChunkSize <= |rest| then lo + ChunkSize else |rest|;
      assert Chunks(text)[k] == Chunks(rest)[k - 1] == rest[lo..hi];
      assert ChunkSize * k == ChunkSize + lo;
      SliceOfSuffix(text, ChunkSize, lo, hi);
    }
  }

  lemma SliceOfSuffix(s: string, d: nat, lo: nat, hi: nat)
    requires d <= |s| && lo <= hi <= |s| - d
    ensures s[d..][lo..hi] == s[d + lo..d + hi]
  {
    assert forall i :: 0 <= i < hi - lo ==> s[d..][lo..hi][i] == s[d + lo + i];
  }

  /** The chunks glue back to the text; all but the last are five characters long. */
  lemma {:induction false} ChunksRoundTrip(text: string)
    ensures Concat(Chunks(text)) == text
    ensures forall k :: 0 <= k < |Chunks(text)| - 1 ==> |Chunks(text)[k]| == ChunkSize
    decreases |text|
  {
    if |text| > ChunkSize {
      ChunksRoundTrip(text[ChunkSize..]);
      assert text == text[..ChunkSize] + text[ChunkSize..];
      var r := Chunks(text);
      assert r[1..] == Chunks(text[ChunkSize..]);
    } else if text != [] {
      assert Concat([text]) == text + Concat([]);
    }
  }

  // ---------------------------------------------------------------- the event sequence

  function DeltaEvents(chunks: seq<string>): (r: seq<UiEvent>)
    ensures |r| == |chunks| && forall k :: 0 <= k < |chunks| ==> r[k] == TextDelta(MessageId, chunks[k])
  {
    seq(|chunks|, k requires 0 <= k < |chunks| => TextDelta(MessageId, chunks[k]))
  }

  /** The three events of one tool call. */
  function CallEvents(c: ToolCall): seq<UiEvent> {
    [ToolInputStart(c.toolCallId, c.toolName),
     ToolInputAvailable(c.toolCallId, c.toolName, c.input),
     ToolOutputAvailable(c.toolCallId, c.output)]
  }

  function ToolEvents(calls: seq<ToolCall>): (r: seq<UiEvent>)
    ensures |r| == 3 * |calls|
    ensures forall j :: 0 <= j < |calls| ==> r[3 * j..3 * j + 3] == CallEvents(calls[j])
  {
    if calls == [] then []
    else
      var rest := ToolEvents(calls[1..]);
      var r := CallEvents(calls[0]) + rest;
      assert forall j :: 1 <= j < |calls| ==> r[3 * j..3 * j + 3] == rest[3 * (j - 1)..3 * (j - 1) + 3];
      r
  }

  /** The events of the mock stream for a reply text and its tool calls. */
  function MockEventSeq(text: string, calls: seq<ToolCall>): seq<UiEvent> {
    [Start, StartStep, TextStart(MessageId)] + DeltaEvents(Chunks(text)) + [TextEnd(MessageId)]
      + ToolEvents(calls) + [FinishStep, Finish]
  }

  /** The generator of the mock stream, step by step. */
  method EmitMockEvents(text: string, calls: seq<ToolCall>) returns (events: seq<UiEvent>)
    ensures events == MockEventSeq(text, calls)
  {
    events := [Start, StartStep, TextStart(MessageId)];
    ghost var chunks := Chunks(text);
    var i := 0;
    var k := 0;
    while i < |text|
      invariant i == ChunkSize * k && k <= |chunks|
      invariant k < |chunks| <==> i < |text|
      invariant events == [Start, StartStep, TextStart(MessageId)] + DeltaEvents(chunks[..k])
    {
      ChunkAt(text, k);
      var chunk := text[i..if i + ChunkSize <= |text| then i + ChunkSize else |text|];
      events := events + [TextDelta(MessageId, chunk)];
      assert DeltaEvents(chunks[..k + 1]) == DeltaEvents(chunks[..k]) + [TextDelta(MessageId, chunk)];
      i := i + ChunkSize;
      k := k + 1;
    }
    assert chunks[..k] == chunks;
    events := events + [TextEnd(MessageId)];
    ghost var prefix := events;
    for j := 0 to |calls|
      invariant events == prefix + ToolEvents(calls[..j])
    {
      var c := calls[j];
      events := events + [ToolInputStart(c.toolCallId, c.toolName)];
      events := events + [ToolInputAvailable(c.toolCallId, c.toolName, c.input)];
      events := events + [ToolOutputAvailable(c.toolCallId, c.output)];
      ToolEventsSnoc(calls[..j], c);
      assert calls[..j + 1] == calls[..j] + [c];
    }
    assert calls[..|calls|] == calls;
    events := events + [FinishStep, Finish];
  }

  /** One more call appends its three events. */
  lemma {:induction false} ToolEventsSnoc(calls: seq<ToolCall>, c: ToolCall)
    ensures ToolEvents(calls + [c]) == ToolEvents(calls) + CallEvents(c)
  {
    if calls == [] {
      assert [c][1..] == [];
    } else {
      assert (calls + [c])[1..] == calls[1..] + [c];
      ToolEventsSnoc(calls[1..], c);
    }
  }

  /** The texts of the delta events, in order. */
  function DeltaTexts(events: seq<UiEvent>): seq<string> {
    if events == [] then []
    else (if events[0].TextDelta? then [events[0].delta] else []) + DeltaTexts(events[1..])
  }

  lemma {:induction false} DeltaTextsAppend(a: seq<UiEvent>, b: seq<UiEvent>)
    ensures DeltaTexts(a + b) == DeltaTexts(a) + DeltaTexts(b)
  {
    if a == [] {
      assert a + b == b;
    } else {
      assert (a + b)[1..] == a[1..] + b;
      DeltaTextsAppend(a[1..], b);
    }
  }

  lemma {:induction false} DeltaTextsOfDeltas(chunks: seq<string>)
    ensures DeltaTexts(DeltaEvents(chunks)) == chunks
  {
    if chunks != [] {
      DeltaTextsOfDeltas(chunks[1..]);
      assert DeltaEvents(chunks)[1..] == DeltaEvents(chunks[1..]);
    }
  }

  /** Events without a delta contribute no text. */
  lemma {:induction false} NoDeltas(events: seq<UiEvent>)
    requires forall k :: 0 <= k < |events| ==> !events[k].TextDelta?
    ensures DeltaTexts(events) == []
  {
    if events != [] {
      NoDeltas(events[1..]);
    }
  }

  lemma {:induction false} NoDeltasInToolEvents(calls: seq<ToolCall>)
    ensures DeltaTexts(ToolEvents(calls)) == []
  {
    var r := ToolEvents(calls);
    forall k | 0 <= k < |r|
      ensures !r[k].TextDelta?
    {
      var j := k / 3;
      assert r[3 * j..3 * j + 3] == CallEvents(calls[j]);
      assert r[k] == CallEvents(calls[j])[k - 3 * j];
    }
    NoDeltas(r);
  }

  /** A client that glues the deltas of the stream together reads back exactly the
      reply text, every delta but the last being five characters long. */
  lemma StreamCarriesText(text: string, calls: seq<ToolCall>)
    ensures Concat(DeltaTexts(MockEventSeq(text, calls))) == text
    ensures forall k :: 0 <= k < |DeltaTexts(MockEventSeq(text, calls))| - 1
              ==> |DeltaTexts(MockEventSeq(text, calls))[k]| == ChunkSize
  {
    var head: seq<UiEvent> := [Start, StartStep, TextStart(MessageId)];
    var deltas := DeltaEvents(Chunks(text));
    var tail: seq<UiEvent> := [TextEnd(MessageId)];
    var tools := ToolEvents(calls);
    var fin: seq<UiEvent> := [FinishStep, Finish];
    DeltaTextsAppend(head + deltas + tail + tools, fin);
    DeltaTextsAppend(head + deltas + tail, tools);
    DeltaTextsAppend(head + deltas, tail);
    DeltaTextsAppend(head, deltas);
    NoDeltas(head);
    NoDeltas(tail);
    NoDeltas(fin);
    DeltaTextsOfDeltas(Chunks(text));
    NoDeltasInToolEvents(calls);
    assert DeltaTexts(MockEventSeq(text, calls)) == Chunks(text);
    ChunksRoundTrip(text);
  }

  /** The layout of the stream: three opening events, one delta per chunk, the text
      end, three events per tool call in call order, then finish-step and finish. */
  lemma MockEventLayout(text: string, calls: seq<ToolCall>)
    ensures var e := MockEventSeq(text, calls);
      var n := |Chunks(text)|;
      && |e| == 6 + n + 3 * |calls|
      && e[..3] == [Start, StartStep, TextStart(MessageId)]
      && (forall k :: 0 <= k < n ==> e[3 + k] == TextDelta(MessageId, Chunks(text)[k]))
      && e[3 + n] == TextEnd(MessageId)
      && (forall j :: 0 <= j < |calls| ==> e[4 + n + 3 * j..7 + n + 3 * j] == CallEvents(calls[j]))
      && e[|e| - 2..] == [FinishStep, Finish]
  {
    var e := MockEventSeq(text, calls);
    var n := |Chunks(text)|;
    var pre := [Start, StartStep, TextStart(MessageId)] + DeltaEvents(Chunks(text)) + [TextEnd(MessageId)];
    var tools := ToolEvents(calls);
    var fin: seq<UiEvent> := [FinishStep, Finish];
    assert e == pre + tools + fin;
    forall j | 0 <= j < |calls|
      ensures e[4 + n + 3 * j..7 + n + 3 * j] == CallEvents(calls[j])
    {
      SliceOfMiddle(pre, tools, fin, 3 * j, 3 * j + 3);
    }
  }

  /** A slice of the middle part of three sequences joined together. */
  lemma SliceOfMiddle<T>(a: seq<T>, b: seq<T>, c: seq<T>, lo: nat, hi: nat)
    requires lo <= hi <= |b|
    ensures (a + b + c)[|a| + lo..|a| + hi] == b[lo..hi]
  {
    var s := (a + b + c)[|a| + lo..|a| + hi];
    assert forall i :: 0 <= i < hi - lo ==> s[i] == b[lo..hi][i];
  }

  // ---------------------------------------------------------------- recorded replies

  /** An event of a recorded reply with a delta to replay (`type` is `text-delta` and
      `delta` is truthy). */
  predicate IsTextDelta(e: JsValue) {
    OptProp(e, "type") == Str("text-delta") && Truthy(OptProp(e, "delta"))
  }

  /** An event of a recorded reply that announces a tool call's input. */
  predicate IsToolInput(e: JsValue) {
    OptProp(e, "type") == Str("tool-input-available")
  }

  /** What an event adds to the replayed text. */
  function DeltaOf(e: JsValue): string {
    if IsTextDelta(e) then ToJsString(OptProp(e, "delta")) else ""
  }

  /** The replayed text: the deltas of the recorded events, in order. */
  function RecordedText(events: seq<JsValue>): string {
    Concat(Map(events, DeltaOf))
  }

  /** The recorded tool-input events, in order. */
  function InputEvents(events: seq<JsValue>): (r: seq<JsValue>)
    ensures |r| <= |events|
    ensures forall x :: x in r <==> x in events && IsToolInput(x)
    decreases |events|
  {
    if events == [] then []
    else
      var init := events[..|events| - 1];
      var last := events[|events| - 1];
      assert events == init + [last];
      InputEvents(init) + (if IsToolInput(last) then [last] else [])
  }

  /** No event is `null` or `undefined` (reading a field of one throws). */
  predicate NoNullish(events: seq<JsValue>) {
    forall k :: 0 <= k < |events| ==> !Nullish(events[k])
  }

  /** The text of a recording made of two parts is the text of the first, then of the
      second. */
  lemma RecordedTextAppend(a: seq<JsValue>, b: seq<JsValue>)
    ensures RecordedText(a + b) == RecordedText(a) + RecordedText(b)
  {
    MapAppend(a, b, DeltaOf);
    ConcatAppend(Map(a, DeltaOf), Map(b, DeltaOf));
  }

  /** One more event adds its delta at the end of the text. */
  lemma RecordedTextSnoc(events: seq<JsValue>, e: JsValue)
    ensures RecordedText(events + [e]) == RecordedText(events) + DeltaOf(e)
  {
    RecordedTextAppend(events, [e]);
    assert Map([e], DeltaOf) == [DeltaOf(e)];
    assert Concat([DeltaOf(e)]) == DeltaOf(e) + Concat([]);
  }

  /** Likewise for the tool-input events. */
  lemma {:induction false} InputEventsAppend(a: seq<JsValue>, b: seq<JsValue>)
    ensures InputEvents(a + b) == InputEvents(a) + InputEvents(b)
    decreases |b|
  {
    if b == [] {
      assert a + b == a;
    } else {
      var b' := b[..|b| - 1];
      assert (a + b)[..|a + b| - 1] == a + b';
      InputEventsAppend(a, b');
    }
  }
}
