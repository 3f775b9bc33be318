/** The streaming chat over the model's Responses API: each call appends the user's turn
    to the connection's history, renders the whole history as the model's input,
    relays the text deltas to the client and appends the assistant's reply. The model
    call is a parameter returning the events of its stream; the socket is reduced to
    its state and what it has been sent. */
module OpenAiService {
  import opened Wrappers
  import opened Strings
  import opened JsValues
  import ChatService

  /** A turn of the conversation history. */
  datatype Turn = Turn(role: string, content: string)

  /** The responses sent to the client. */
  datatype ChatResponse =
    | ChatStart(messageId: string, conversationId: string)
    | ChatDelta(content: string, messageId: string, conversationId: string)
    | ChatComplete(messageId: string, conversationId: string, model: string, finishReason: string)
    | ErrorResponse(error: string, messageId: string, conversationId: string)

  /** An event of the model's stream; `delta` is "" when it is missing. */
  datatype StreamEvent =
    | OutputTextDelta(delta: string)
    | Completed
    | ErrorEvent(message: JsValue)
    | OtherEvent

  /** The model call: the stream for an input and instructions, or the message of what
      it throws. */
  type Model = (string, string) -> Result<seq<StreamEvent>, string>

  // ---------------------------------------------------------------- the connection

  /** The part of a connection's state that sending touches. `readyState` is None when
      the socket has no numeric ready state (socket.io); `sendThrows` says whether
      `socket.send` fails. */
  datatype Link = Link(isAlive: bool, readyState: Option<int>, sendThrows: bool, sent: seq<ChatResponse>)

  /** The gate of `sendResponse`: the connection is alive and a numeric ready state is 1 (open). */
  predicate Open(l: Link) {
    l.isAlive && (l.readyState.None? || l.readyState.value == 1)
  }

  /** The link after `sendResponse`. */
  function Send(l: Link, r: ChatResponse): Link {
    if !Open(l) then l
    else if l.sendThrows then l.(isAlive := false)
    else l.(sent := l.sent + [r])
  }

  class Connection {
    var isAlive: bool
    const readyState: Option<int>
    const sendThrows: bool
    /** What the socket has been sent, in order. */
    var sent: seq<ChatResponse>
    var conversationHistory: seq<Turn>

    constructor (readyState: Option<int>, sendThrows: bool)
      ensures isAlive && sent == [] && conversationHistory == []
      ensures this.readyState == readyState && this.sendThrows == sendThrows
    {
      isAlive, sent, conversationHistory := true, [], [];
      this.readyState, this.sendThrows := readyState, sendThrows;
    }

    function LinkOf(): Link
      reads this
    {
      Link(isAlive, readyState, sendThrows, sent)
    }
  }

  /** `sendResponse`: send when the gate is open; a failed send marks the connection dead. */
  method SendResponse(connection: Connection, response: ChatResponse)
    modifies connection
    ensures connection.LinkOf() == Send(old(connection.LinkOf()), response)
    ensures connection.conversationHistory == old(connection.conversationHistory)
  {
    var isNativeWebSocketReady := if connection.readyState.Some? then connection.readyState.value == 1 else true;
    if connection.isAlive && isNativeWebSocketReady {
      if connection.sendThrows {
        connection.isAlive := false;
      } else {
        connection.sent := connection.sent + [response];
      }
    }
  }

  /** Nothing reaches a closed or dead connection; a failed send kills it, and from then
      on nothing is sent at all. */
  lemma SendGate(l: Link, r: ChatResponse)
    ensures !Open(l) ==> Send(l, r) == l
    ensures Open(l) && l.sendThrows ==> !Send(l, r).isAlive && Send(l, r).sent == l.sent
    ensures Open(l) && !l.sendThrows ==> Open(Send(l, r)) && Send(l, r).sent == l.sent + [r]
    ensures !Send(l, r).isAlive ==> forall r' :: Send(Send(l, r), r') == Send(l, r)
    ensures Send(l, r).readyState == l.readyState && Send(l, r).sendThrows == l.sendThrows
  {
  }

  // ---------------------------------------------------------------- the context

  function Render(t: Turn): string {
    (if t.role == "user" then "Developer" else "Assistant") + ": " + t.content
  }

  function Rendered(history: seq<Turn>): (r: seq<string>)
    ensures |r| == |history| && forall k :: 0 <= k < |history| ==> r[k] == Render(history[k])
  {
    seq(|history|, k requires 0 <= k < |history| => Render(history[k]))
  }

  /** `fullContext`: every turn rendered, separated by blank lines. */
  function FullContext(history: seq<Turn>): string {
    Join(Rendered(history), "\n\n")
  }

  /** The context of a history with one more turn is the old context, a blank line and
      the new turn as "Developer: " or "Assistant: " and its content. */
  lemma ContextOfAppended(history: seq<Turn>, t: Turn)
    ensures FullContext(history + [t])
            == (if history == [] then "" else FullContext(history) + "\n\n")
               + (if t.role == "user" then "Developer: " else "Assistant: ") + t.content
  {
    assert Rendered(history + [t]) == Rendered(history) + [Render(t)];
    if history != [] {
      JoinSnoc(Rendered(history), Render(t), "\n\n");
    }
  }

  // ---------------------------------------------------------------- the stream

  /** What reading the stream leaves: the link, the text and the error thrown, if any. */
  datatype Outcome = Outcome(link: Link, fullResponse: string, error: Option<string>)

  function ErrorMessage(message: JsValue): string {
    "Responses API error: " + (if Truthy(message) then ToJsString(message) else "Unknown error")
  }

  /** The loop over the stream's events, from `l` and the text so far. */
  function Consume(events: seq<StreamEvent>, l: Link, full: string, messageId: string, conversationId: string): Outcome
    decreases |events|
  {
    if events == [] || !l.isAlive then Outcome(l, full, None)
    else match events[0]
      case OutputTextDelta(delta) =>
        if delta != "" then
          Consume(events[1..], Send(l, ChatDelta(delta, messageId, conversationId)), full + delta, messageId, conversationId)
        else Consume(events[1..], l, full, messageId, conversationId)
      case Completed => Outcome(l, full, None)
      case ErrorEvent(message) => Outcome(l, full, Some(ErrorMessage(message)))
      case OtherEvent => Consume(events[1..], l, full, messageId, conversationId)
  }

  predicate Terminal(e: StreamEvent) {
    e.Completed? || e.ErrorEvent?
  }

  /** The events before the first completion or error. */
  function Before(events: seq<StreamEvent>): (r: seq<StreamEvent>)
    ensures |r| <= |events| && r == events[..|r|]
    ensures forall k :: 0 <= k < |r| ==> !Terminal(r[k])
    ensures |r| < |events| ==> Terminal(events[|r|])
  {
    if events == [] || Terminal(events[0]) then [] else [events[0]] + Before(events[1..])
  }

  /** The non-empty text deltas among the events, in order. */
  function Deltas(events: seq<StreamEvent>): (r: seq<string>)
    ensures forall k :: 0 <= k < |r| ==> r[k] != ""
  {
    if events == [] then []
    else (if events[0].OutputTextDelta? && events[0].delta != "" then [events[0].delta] else [])
         + Deltas(events[1..])
  }

  function DeltaResponses(deltas: seq<string>, messageId: string, conversationId: string): seq<ChatResponse> {
    seq(|deltas|, k requires 0 <= k < |deltas| => ChatDelta(deltas[k], messageId, conversationId))
  }

  /** The error the stream ends with, if it ends with one. */
  function EndError(events: seq<StreamEvent>): Option<string> {
    var b := Before(events);
    if |b| < |events| && events[|b|].ErrorEvent? then Some(ErrorMessage(events[|b|].message)) else None
  }

  /** Over a connection that stays up, the text is every non-empty delta before the
      first completion or error, in order; each of them is relayed when the socket is
      open; the call throws exactly when that first terminal event is an error. */
  lemma ConsumeSteady(events: seq<StreamEvent>, l: Link, full: string, mid: string, cid: string)
    requires l.isAlive && !l.sendThrows
    ensures var o := Consume(events, l, full, mid, cid);
      && o.fullResponse == full + Concat(Deltas(Before(events)))
      && o.error == EndError(events)
      && o.link.isAlive
      && o.link.sent == l.sent + (if Open(l) then DeltaResponses(Deltas(Before(events)), mid, cid) else [])
      && o.link.readyState == l.readyState && o.link.sendThrows == l.sendThrows
  {
    SteadyText(events, l, full, mid, cid);
    SteadyError(events, l, full, mid, cid);
    SteadyLink(events, l, full, mid, cid);
  }

  /** The text part of `ConsumeSteady`. */
  lemma {:induction false} SteadyText(events: seq<StreamEvent>, l: Link, full: string, mid: string, cid: string)
    requires l.isAlive && !l.sendThrows
    ensures Consume(events, l, full, mid, cid).fullResponse == full + Concat(Deltas(Before(events)))
    decreases |events|
  {
    if events == [] || Terminal(events[0]) {
      assert Before(events) == [];
    } else {
      var e, rest := events[0], events[1..];
      ConsumeStep(events, l, full, mid, cid);
      BeforeStep(events);
      if e.OutputTextDelta? && e.delta != "" {
        var r := ChatDelta(e.delta, mid, cid);
        SendSteady(l, r);
        SteadyText(rest, Send(l, r), full + e.delta, mid, cid);
        DeltaCons(e.delta, Deltas(Before(rest)), mid, cid);
      } else {
        SteadyText(rest, l, full, mid, cid);
      }
    }
  }

  /** The error part of `ConsumeSteady`. */
  lemma {:induction false} SteadyError(events: seq<StreamEvent>, l: Link, full: string, mid: string, cid: string)
    requires l.isAlive && !l.sendThrows
    ensures Consume(events, l, full, mid, cid).error == EndError(events)
    decreases |events|
  {
    if events == [] || Terminal(events[0]) {
      assert Before(events) == [];
    } else {
      var e, rest := events[0], events[1..];
      ConsumeStep(events, l, full, mid, cid);
      BeforeStep(events);
      if e.OutputTextDelta? && e.delta != "" {
        var r := ChatDelta(e.delta, mid, cid);
        SendSteady(l, r);
        SteadyError(rest, Send(l, r), full + e.delta, mid, cid);
      } else {
        SteadyError(rest, l, full, mid, cid);
      }
    }
  }

  /** The connection part of `ConsumeSteady`. */
  lemma {:induction false} SteadyLink(events: seq<StreamEvent>, l: Link, full: string, mid: string, cid: string)
    requires l.isAlive && !l.sendThrows
    ensures var o := Consume(events, l, full, mid, cid);
      && o.link.isAlive
      && o.link.sent == l.sent + (if Open(l) then DeltaResponses(Deltas(Before(events)), mid, cid) else [])
      && o.link.readyState == l.readyState && o.link.sendThrows == l.sendThrows
    decreases |events|
  {
    if events == [] || Terminal(events[0]) {
      assert Before(events) == [];
    } else {
      var e, rest := events[0], events[1..];
      ConsumeStep(events, l, full, mid, cid);
      BeforeStep(events);
      if e.OutputTextDelta? && e.delta != "" {
        var r := ChatDelta(e.delta, mid, cid);
        SendSteady(l, r);
        SteadyLink(rest, Send(l, r), full + e.delta, mid, cid);
        DeltaCons(e.delta, Deltas(Before(rest)), mid, cid);
      } else {
        SteadyLink(rest, l, full, mid, cid);
      }
    }
  }

  /** An event that does not end the stream, read over a live connection. */
  lemma ConsumeStep(events: seq<StreamEvent>, l: Link, full: string, mid: string, cid: string)
    requires events != [] && !Terminal(events[0]) && l.isAlive
    ensures var e := events[0];
      Consume(events, l, full, mid, cid) ==
        if e.OutputTextDelta? && e.delta != "" then Consume(events[1..], Send(l, ChatDelta(e.delta, mid, cid)), full + e.delta, mid, cid)
        else Consume(events[1..], l, full, mid, cid)
  {
  }

  /** A send that cannot fail keeps the connection as it was, plus the response when it is open. */
  lemma SendSteady(l: Link, r: ChatResponse)
    requires l.isAlive && !l.sendThrows
    ensures var l' := Send(l, r);
      && l'.isAlive && l'.readyState == l.readyState && !l'.sendThrows && Open(l') == Open(l)
      && l'.sent == l.sent + (if Open(l) then [r] else [])
  {
  }

  /** An event that does not end the stream is the head of the events before the end. */
  lemma BeforeStep(events: seq<StreamEvent>)
    requires events != [] && !Terminal(events[0])
    ensures var e, ds := events[0], Deltas(Before(events[1..]));
      Deltas(Before(events)) == if e.OutputTextDelta? && e.delta != "" then [e.delta] + ds else ds
    ensures EndError(events) == EndError(events[1..])
  {
    var rest := events[1..];
    assert Before(events) == [events[0]] + Before(rest);
    assert Before(events)[1..] == Before(rest);
    if |Before(rest)| < |rest| {
      assert events[|Before(events)|] == rest[|Before(rest)|];
    }
  }

  /** One more delta in front: its text in front of the text, its response in front of the responses. */
  lemma DeltaCons(d: string, ds: seq<string>, mid: string, cid: string)
    ensures Concat([d] + ds) == d + Concat(ds)
    ensures DeltaResponses([d] + ds, mid, cid) == [ChatDelta(d, mid, cid)] + DeltaResponses(ds, mid, cid)
  {
    assert ([d] + ds)[1..] == ds;
  }

  /** Whatever happens to the connection, the text is the non-empty deltas of a prefix of
      the events before the first completion or error. */
  lemma {:induction false} ConsumePrefix(events: seq<StreamEvent>, l: Link, full: string, mid: string, cid: string)
    ensures exists n :: (0 <= n <= |Before(events)|
      && Consume(events, l, full, mid, cid).fullResponse == full + Concat(Deltas(Before(events)[..n])))
    decreases |events|
  {
    var o := Consume(events, l, full, mid, cid);
    if events == [] || !l.isAlive || Terminal(events[0]) {
      assert Before(events)[..0] == [];
      assert o.fullResponse == full + Concat(Deltas(Before(events)[..0]));
    } else {
      var e := events[0];
      var rest := events[1..];
      var l' := if e.OutputTextDelta? && e.delta != "" then Send(l, ChatDelta(e.delta, mid, cid)) else l;
      var full' := if e.OutputTextDelta? && e.delta != "" then full + e.delta else full;
      ConsumePrefix(rest, l', full', mid, cid);
      var n :| 0 <= n <= |Before(rest)| && o.fullResponse == full' + Concat(Deltas(Before(rest)[..n]));
      assert Before(events) == [e] + Before(rest);
      assert Before(events)[..n + 1] == [e] + Before(rest)[..n];
      assert Before(events)[..n + 1][1..] == Before(rest)[..n];
      var ds := Deltas(Before(rest)[..n]);
      if e.OutputTextDelta? && e.delta != "" {
        assert Deltas(Before(events)[..n + 1]) == [e.delta] + ds;
        assert Concat([e.delta] + ds) == e.delta + Concat(ds);
      } else {
        assert Deltas(Before(events)[..n + 1]) == ds;
      }
      assert o.fullResponse == full + Concat(Deltas(Before(events)[..n + 1]));
    }
  }

  // ---------------------------------------------------------------- streamChat

  /** The history and link after a call. */
  datatype ChatState = ChatState(history: seq<Turn>, link: Link)

  /** `streamChat` on values: the user's turn first, then the start event, the model call
      over the rendered history, the stream, and the assistant's turn when it has text;
      anything thrown ends in an error response instead. */
  function StreamChatSpec(history: seq<Turn>, l: Link, userInput: string, model: Model, instructions: string,
                          modelName: string, mid: string, cid: string): ChatState
  {
    var h1 := history + [Turn("user", userInput)];
    var l1 := Send(l, ChatStart(mid, cid));
    match model(FullContext(h1), instructions)
    case Failure(thrown) => ChatState(h1, Send(l1, ErrorResponse(thrown, mid, cid)))
    case Success(events) =>
      var o := Consume(events, l1, "", mid, cid);
      if o.error.Some? then ChatState(h1, Send(o.link, ErrorResponse(o.error.value, mid, cid)))
      else ChatState(h1 + (if o.fullResponse != "" then [Turn("assistant", o.fullResponse)] else []),
                     Send(o.link, ChatComplete(mid, cid, modelName, "stop")))
  }

  class OpenAiService {
    const systemPrompt: string
    /** MODEL_OPENAI, or gpt-4o when it is unset or empty. */
    const modelName: string

    constructor (env: ChatService.Environment, readFile: ChatService.FileReader, defaultInstructions: string)
      ensures systemPrompt == ChatService.Instructions(env("INSTRUCTIONS_PATH"), readFile, defaultInstructions)
      ensures env("MODEL_OPENAI").Some? && env("MODEL_OPENAI").value != "" ==> modelName == env("MODEL_OPENAI").value
      ensures env("MODEL_OPENAI").None? || env("MODEL_OPENAI").value == "" ==> modelName == "gpt-4o"
    {
      systemPrompt := ChatService.Instructions(env("INSTRUCTIONS_PATH"), readFile, defaultInstructions);
      modelName := if env("MODEL_OPENAI").Some? && env("MODEL_OPENAI").value != "" then env("MODEL_OPENAI").value else "gpt-4o";
    }

    /** `streamChat`. */
    method StreamChat(userInput: string, connection: Connection, messageId: string, conversationId: string, model: Model)
      modifies connection
      ensures ChatState(connection.conversationHistory, connection.LinkOf())
              == StreamChatSpec(old(connection.conversationHistory), old(connection.LinkOf()), userInput, model,
                                systemPrompt, modelName, messageId, conversationId)
    {
      connection.conversationHistory := connection.conversationHistory + [Turn("user", userInput)];
      SendResponse(connection, ChatStart(messageId, conversationId));
      var fullContext := ContextOf(connection.conversationHistory);
      var responseStream := model(fullContext, systemPrompt);
      if responseStream.Failure? {
        SendResponse(connection, ErrorResponse(responseStream.error, messageId, conversationId));
        return;
      }
      var fullResponse, thrown := ReadStream(connection, responseStream.value, messageId, conversationId);
      if thrown.Some? {
        SendResponse(connection, ErrorResponse(thrown.value, messageId, conversationId));
        return;
      }
      if fullResponse != "" {
        connection.conversationHistory := connection.conversationHistory + [Turn("assistant", fullResponse)];
      }
      SendResponse(connection, ChatComplete(messageId, conversationId, modelName, "stop"));
    }
  }

  /** The rendering loop of `fullContext`. */
  method ContextOf(history: seq<Turn>) returns (context: string)
    ensures context == FullContext(history)
  {
    context := "";
    for i := 0 to |history|
      invariant context == FullContext(history[..i])
    {
      assert history[..i + 1] == history[..i] + [history[i]];
      ContextOfAppended(history[..i], history[i]);
      if i == 0 {
        context := Render(history[i]);
      } else {
        context := context + "\n\n" + Render(history[i]);
      }
    }
    assert history[..|history|] == history;
  }

  /** The `for await` loop: the text read and the error thrown, if any. */
  method ReadStream(connection: Connection, events: seq<StreamEvent>, messageId: string, conversationId: string)
    returns (fullResponse: string, thrown: Option<string>)
    modifies connection
    ensures var o := Consume(events, old(connection.LinkOf()), "", messageId, conversationId);
      connection.LinkOf() == o.link && fullResponse == o.fullResponse && thrown == o.error
    ensures connection.conversationHistory == old(connection.conversationHistory)
  {
    ghost var target := Consume(events, connection.LinkOf(), "", messageId, conversationId);
    fullResponse, thrown := "", None;
    var i := 0;
    var stopped := false;
    while i < |events| && !stopped
      invariant 0 <= i <= |events|
      invariant !stopped ==> thrown.None? && Consume(events[i..], connection.LinkOf(), fullResponse, messageId, conversationId) == target
      invariant stopped ==> Outcome(connection.LinkOf(), fullResponse, thrown) == target
      invariant connection.conversationHistory == old(connection.conversationHistory)
      decreases |events| - i, !stopped
    {
      if !connection.isAlive {
        stopped := true;
      } else {
        match events[i]
        case OutputTextDelta(delta) =>
          if delta != "" {
            fullResponse := fullResponse + delta;
            SendResponse(connection, ChatDelta(delta, messageId, conversationId));
          }
          assert events[i..][1..] == events[i + 1..];
          i := i + 1;
        case Completed =>
          stopped := true;
        case ErrorEvent(message) =>
          thrown := Some(ErrorMessage(message));
          stopped := true;
        case OtherEvent =>
          assert events[i..][1..] == events[i + 1..];
          i := i + 1;
      }
    }
  }

  /** The user's turn is appended before anything else, and at most the assistant's
      turn follows it. */
  lemma UserTurnFirst(history: seq<Turn>, l: Link, userInput: string, model: Model, instructions: string,
                      modelName: string, mid: string, cid: string)
    ensures var s := StreamChatSpec(history, l, userInput, model, instructions, modelName, mid, cid);
      && |history| + 1 <= |s.history| <= |history| + 2
      && s.history[..|history| + 1] == history + [Turn("user", userInput)]
  {
    var s := StreamChatSpec(history, l, userInput, model, instructions, modelName, mid, cid);
    var h1 := history + [Turn("user", userInput)];
    assert s.history == h1 || s.history == h1 + [s.history[|s.history| - 1]];
    assert (h1 + [Turn("assistant", "")])[..|history| + 1] == h1;
  }

  /** The model reads the whole history, the new user turn last. */
  lemma ModelSeesWholeHistory(history: seq<Turn>, userInput: string)
    ensures FullContext(history + [Turn("user", userInput)])
            == (if history == [] then "" else FullContext(history) + "\n\n") + "Developer: " + userInput
  {
    ContextOfAppended(history, Turn("user", userInput));
  }

  /** An assistant turn is appended exactly when the stream was read without error and
      gave text; it holds that text. */
  lemma AssistantTurnOnlyWithText(history: seq<Turn>, l: Link, userInput: string, model: Model, instructions: string,
                                  modelName: string, mid: string, cid: string)
    ensures var s := StreamChatSpec(history, l, userInput, model, instructions, modelName, mid, cid);
      var stream := model(FullContext(history + [Turn("user", userInput)]), instructions);
      var o := Consume(if stream.Success? then stream.value else [], Send(l, ChatStart(mid, cid)), "", mid, cid);
      && (|s.history| == |history| + 2 <==> stream.Success? && o.error.None? && o.fullResponse != "")
      && (|s.history| == |history| + 2 ==> s.history[|history| + 1] == Turn("assistant", o.fullResponse))
  {
  }

  /** Over a connection that stays up and open, an error event ends the call with the
      user's turn alone in the history, and the client receives the start, the deltas
      before the error and then the error. */
  lemma ErrorEventAborts(history: seq<Turn>, l: Link, userInput: string, model: Model, instructions: string,
                         modelName: string, mid: string, cid: string)
    requires Open(l) && !l.sendThrows
    requires var stream := model(FullContext(history + [Turn("user", userInput)]), instructions);
      stream.Success? && EndError(stream.value).Some?
    ensures var s := StreamChatSpec(history, l, userInput, model, instructions, modelName, mid, cid);
      var events := model(FullContext(history + [Turn("user", userInput)]), instructions).value;
      && s.history == history + [Turn("user", userInput)]
      && s.link.sent == l.sent + [ChatStart(mid, cid)] + DeltaResponses(Deltas(Before(events)), mid, cid)
                        + [ErrorResponse(EndError(events).value, mid, cid)]
  {
    var events := model(FullContext(history + [Turn("user", userInput)]), instructions).value;
    ConsumeSteady(events, Send(l, ChatStart(mid, cid)), "", mid, cid);
  }

  /** Over a connection that stays up and open, a stream without error is relayed in full
      and its text becomes the assistant's turn; the client receives the start, every
      delta and the completion. */
  lemma CleanStreamRecorded(history: seq<Turn>, l: Link, userInput: string, model: Model, instructions: string,
                            modelName: string, mid: string, cid: string)
    requires Open(l) && !l.sendThrows
    requires var stream := model(FullContext(history + [Turn("user", userInput)]), instructions);
      stream.Success? && EndError(stream.value).None?
    ensures var s := StreamChatSpec(history, l, userInput, model, instructions, modelName, mid, cid);
      var events := model(FullContext(history + [Turn("user", userInput)]), instructions).value;
      var text := Concat(Deltas(Before(events)));
      && s.history == history + [Turn("user", userInput)] + (if text != "" then [Turn("assistant", text)] else [])
      && s.link.sent == l.sent + [ChatStart(mid, cid)] + DeltaResponses(Deltas(Before(events)), mid, cid)
                        + [ChatComplete(mid, cid, modelName, "stop")]
  {
    var events := model(FullContext(history + [Turn("user", userInput)]), instructions).value;
    ConsumeSteady(events, Send(l, ChatStart(mid, cid)), "", mid, cid);
    assert "" + Concat(Deltas(Before(events))) == Concat(Deltas(Before(events)));
  }
}
