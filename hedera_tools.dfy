/** The documentation-search tool of the assistant: the extraction of the JSON payload
    from a server-sent-events reply (the `data:` lines of the event-stream format of
    section 9.2 of the WHATWG HTML Standard, with this code's own leniencies), the
    mapping of upstream failures to service errors, the query check and the shaping of
    the tool's result. JSON parsing, JSON serialisation, the network reply and the
    per-item regex formatting are parameters. */
module HederaTools {
  import opened Wrappers
  import opened Strings
  import opened JsValues

  // ---------------------------------------------------------------- the SSE payload

  /** What one line of the stream adds to the payload. */
  function LineContribution(line: string): string {
    if HasPrefix(line, "event:") || HasPrefix(line, "id:") || HasPrefix(line, ":") then ""
    else if HasPrefix(line, "data: ") then line[6..]
    else if TrimSpace(line) != "" && !HasPrefix(line, "event") && !HasPrefix(line, "id") then line
    else ""
  }

  function Contributions(lines: seq<string>): (r: seq<string>)
    ensures |r| == |lines| && forall i :: 0 <= i < |lines| ==> r[i] == LineContribution(lines[i])
  {
    Map(lines, LineContribution)
  }

  /** The payload of the lines: their contributions in order, with no separator. */
  function SseData(lines: seq<string>): string {
    Concat(Contributions(lines))
  }

  /** `extractJSONFromSSE` up to its parse: the reply split into lines, then the loop
      that accumulates `jsonData`. */
  method ExtractData(sseData: string) returns (jsonData: string)
    ensures jsonData == SseData(Split(sseData, '\n'))
  {
    jsonData := AccumulateData(Split(sseData, '\n'));
  }

  /** The loop of `extractJSONFromSSE` over the lines. */
  method AccumulateData(lines: seq<string>) returns (jsonData: string)
    ensures jsonData == SseData(lines)
  {
    jsonData := "";
    for i := 0 to |lines|
      invariant jsonData == SseData(lines[..i])
    {
      var line := lines[i];
      assert Contributions(lines[..i + 1]) == Contributions(lines[..i]) + [LineContribution(line)];
      ConcatSnoc(Contributions(lines[..i]), LineContribution(line));
      if HasPrefix(line, "event:") || HasPrefix(line, "id:") || HasPrefix(line, ":") {
        assert LineContribution(line) == "";
        continue;
      }
      if HasPrefix(line, "data: ") {
        assert LineContribution(line) == line[6..];
        jsonData := jsonData + line[6..];
      } else if TrimSpace(line) != "" && !HasPrefix(line, "event") && !HasPrefix(line, "id") {
        assert LineContribution(line) == line;
        jsonData := jsonData + line;
      } else {
        assert LineContribution(line) == "";
      }
    }
    assert lines[..|lines|] == lines;
  }

  /** The payload of two line lists is the payload of the first, then of the second. */
  lemma SseDataAppend(a: seq<string>, b: seq<string>)
    ensures SseData(a + b) == SseData(a) + SseData(b)
  {
    MapAppend(a, b, LineContribution);
    ConcatAppend(Contributions(a), Contributions(b));
  }

  /** Two streams joined at a line break: the payload of the first, then of the second. */
  lemma {:induction false} StreamPayloadAppend(x: string, y: string)
    ensures SseData(Split(x + "\n" + y, '\n')) == SseData(Split(x, '\n')) + SseData(Split(y, '\n'))
  {
    assert x + "\n" + y == x + ['\n'] + y;
    SplitAppend(x, y, '\n');
    SseDataAppend(Split(x, '\n'), Split(y, '\n'));
  }

  /** Metadata lines add nothing; a `data: ` line adds what follows the six-character
      prefix; any other line is added whole exactly when it is not blank and does not
      start with `event` or `id`. */
  lemma LineRules(line: string)
    ensures HasPrefix(line, "event:") || HasPrefix(line, "id:") || HasPrefix(line, ":")
            ==> LineContribution(line) == ""
    ensures HasPrefix(line, "data: ") ==> LineContribution(line) == line[6..]
    ensures !HasPrefix(line, "data: ") && !HasPrefix(line, ":") ==>
      (LineContribution(line) == line <==>
         line == "" || (TrimSpace(line) != "" && !HasPrefix(line, "event") && !HasPrefix(line, "id")))
    ensures !HasPrefix(line, "data: ") && !HasPrefix(line, ":") && LineContribution(line) != line
            ==> LineContribution(line) == ""
  {
    if HasPrefix(line, "data: ") {
      assert line[0] == "data: "[0];
    }
    if HasPrefix(line, "event:") {
      assert HasPrefix(line, "event") by { assert line[..5] == line[..6][..5]; }
    }
    if HasPrefix(line, "id:") {
      assert HasPrefix(line, "id") by { assert line[..2] == line[..3][..2]; }
    }
  }

  /** A line that merely starts like `id`, such as `identifier`, is dropped. */
  lemma IdentifierDropped()
    ensures LineContribution("identifier") == ""
  {
    assert HasPrefix("identifier", "id");
  }

  // ---------------------------------------------------------------- errors and the upstream reply

  /** The errors the tool raises. */
  datatype Fault =
    | ExternalServiceError(message: string, status: int)
    | ValidationError(message: string)
    | OtherError                         // an untyped exception (a TypeError, a SyntaxError)

  /** The reply of the documentation server, or None when `fetch` throws. */
  datatype Upstream = Upstream(ok: bool, status: int, statusText: string, contentType: string,
                               body: Option<string>)

  /** The text `/\{[\s\S]*\}/` matches: from the first `{` to the last `}` after it. */
  function BraceSpan(s: string): (r: Option<string>)
    ensures r.Some? ==> |r.value| >= 2 && r.value[0] == '{' && r.value[|r.value| - 1] == '}'
  {
    match IndexOf(s, '{')
    case None => None
    case Some(i) =>
      match LastIndexOf(s[i + 1..], '}')
      case None => None
      case Some(j) => Some(s[i..i + 1 + j + 1])
  }

  /** The index of the last occurrence of `c` in `s`, if any. */
  function LastIndexOf(s: string, c: char): (r: Option<nat>)
    ensures r.None? <==> c !in s
    ensures r.Some? ==> r.value < |s| && s[r.value] == c && c !in s[r.value + 1..]
  {
    if s == [] then None
    else if s[|s| - 1] == c then Some(|s| - 1)
    else
      assert s[..|s| - 1] + [s[|s| - 1]] == s;
      match LastIndexOf(s[..|s| - 1], c)
      case None => None
      case Some(i) =>
        assert s[i + 1..] == s[..|s| - 1][i + 1..] + [s[|s| - 1]];
        Some(i)
  }

  const NoJsonData := "No valid JSON data found in SSE stream"

  /** `extractJSONFromSSE`: the payload parsed; a blank payload parses the whole stream
      instead, and a payload that does not parse falls back to its brace span. */
  function ExtractJson(sseData: string, parse: JsonParser): Result<JsValue, Fault> {
    var jsonData := SseData(Split(sseData, '\n'));
    if TrimSpace(jsonData) == "" then
      match parse(sseData)
      case Success(v) => Success(v)
      case Failure(_) => Failure(ExternalServiceError(NoJsonData, 502))
    else
      match parse(jsonData)
      case Success(v) => Success(v)
      case Failure(message) =>
        match BraceSpan(jsonData)
        case Some(m) => if parse(m).Success? then Success(parse(m).value) else Failure(OtherError)
        case None => Failure(ExternalServiceError("Failed to parse JSON from SSE: " + message, 502))
  }

  /** A stream without payload is parsed whole, and a 502 is raised when that fails. */
  lemma BlankPayloadParsesWholeStream(sseData: string, parse: JsonParser)
    requires TrimSpace(SseData(Split(sseData, '\n'))) == ""
    ensures parse(sseData).Success? ==> ExtractJson(sseData, parse) == Success(parse(sseData).value)
    ensures parse(sseData).Failure? ==> ExtractJson(sseData, parse) == Failure(ExternalServiceError(NoJsonData, 502))
  {
  }

  /** The status of the error for a reply that is not OK: 503 for a server error,
      502 otherwise. */
  function UpstreamStatus(status: int): (r: int)
    ensures r == 503 <==> status >= 500
    ensures r == 502 <==> status < 500
  {
    if status >= 500 then 503 else 502
  }

  /** The payload's `error`, reported as `Hedera MCP error: <JSON>`; reading it of a
      null payload throws. */
  function CheckPayload(data: JsValue, stringify: JsValue -> string): Result<JsValue, Fault> {
    match Prop(data, "error")
    case None => Failure(OtherError)
    case Some(err) =>
      if Truthy(err) then Failure(ExternalServiceError("Hedera MCP error: " + stringify(err), 502))
      else Success(data)
  }

  /** `searchHederaMCP` on the server's reply (None when `fetch` throws): the payload,
      or the error; every untyped failure is wrapped as a 502. */
  function SearchMcp(reply: Option<Upstream>, parse: JsonParser, stringify: JsValue -> string): Result<JsValue, Fault> {
    var r := SearchMcpInner(reply, parse, stringify);
    if r.Failure? && !r.error.ExternalServiceError? then
      Failure(ExternalServiceError("Error calling Hedera MCP", 502))
    else r
  }

  /** The body of the `try` of `searchHederaMCP`. */
  function SearchMcpInner(reply: Option<Upstream>, parse: JsonParser, stringify: JsValue -> string): Result<JsValue, Fault> {
    if reply.None? then Failure(OtherError)
    else
      var u := reply.value;
      if !u.ok then
        Failure(ExternalServiceError("Hedera MCP request failed: " + IntToString(u.status) + " " + u.statusText,
                                     UpstreamStatus(u.status)))
      else if Contains(u.contentType, "text/event-stream") then
        if u.body.None? then Failure(ExternalServiceError("Response body is null", 502))
        else
          match ExtractJson(u.body.value, parse)
          case Failure(f) => Failure(f)
          case Success(data) => CheckPayload(data, stringify)
      else if u.body.None? || parse(u.body.value).Failure? then Failure(OtherError)
      else CheckPayload(parse(u.body.value).value, stringify)
  }

  /** Every failure of the search is a service error; a reply that is not OK gives 503
      for a server status and 502 otherwise, with the status in the message. */
  lemma SearchFailures(reply: Option<Upstream>, parse: JsonParser, stringify: JsValue -> string)
    ensures SearchMcp(reply, parse, stringify).Failure? ==> SearchMcp(reply, parse, stringify).error.ExternalServiceError?
    ensures reply.Some? && !reply.value.ok ==>
      SearchMcp(reply, parse, stringify)
        == Failure(ExternalServiceError("Hedera MCP request failed: " + IntToString(reply.value.status) + " "
                                        + reply.value.statusText, if reply.value.status >= 500 then 503 else 502))
    ensures reply.None? ==> SearchMcp(reply, parse, stringify) == Failure(ExternalServiceError("Error calling Hedera MCP", 502))
  {
  }

  // ---------------------------------------------------------------- the tool

  /** What the tool hands back to the model. */
  datatype ToolResult = ToolResult(searchQuery: JsValue, documentationContent: string, foundResults: bool)

  const NoDocumentation := "No relevant documentation found."
  const QueryRequired := "Query parameter is required"

  /** The items of a `content` field: its elements when it is an array, else itself. */
  function ContentItems(content: JsValue): seq<JsValue> {
    if content.Arr? then content.items else [content]
  }

  /** The filter `item?.type === 'text' && item?.text`. */
  predicate TextItem(item: JsValue) {
    OptProp(item, "type") == Str("text") && Truthy(OptProp(item, "text"))
  }

  function TextItems(items: seq<JsValue>): (r: seq<JsValue>)
    ensures forall x :: x in r <==> x in items && TextItem(x)
    ensures |r| <= |items|
    ensures (forall x :: x in items ==> !TextItem(x)) ==> r == []
  {
    if items == [] then []
    else
      assert forall x :: x in items <==> x == items[0] || x in items[1..];
      (if TextItem(items[0]) then [items[0]] else []) + TextItems(items[1..])
  }

  /** The text of an item, as `join` renders it. */
  function ItemText(item: JsValue): string {
    ToJsString(OptProp(item, "text"))
  }

  const ToolFailure := "Error executing SearchHedera tool"

  /** The primary format applies `text.match` to each text item's `text`, which throws
      a TypeError unless it is a string; `execute` wraps that as a 502. */
  predicate FormatThrows(results: JsValue) {
    var primary := OptProp(OptProp(results, "result"), "content");
    Truthy(primary) && exists x :: x in TextItems(ContentItems(primary)) && !OptProp(x, "text").Str?
  }

  /** `formattedContent`: the text items of `result.content`, each formatted from its
      string text, joined by a rule; else those of `content`, joined by a rule between
      blank lines; else `""`. A primary text item whose text is not a string fails. */
  function FormattedContent(results: JsValue, formatItem: string -> string): Result<string, Fault> {
    var primary := OptProp(OptProp(results, "result"), "content");
    var alternative := OptProp(results, "content");
    if Truthy(primary) then
      var items := TextItems(ContentItems(primary));
      if exists x :: x in items && !OptProp(x, "text").Str? then
        Failure(ExternalServiceError(ToolFailure, 502))
      else
        Success(Join(Map(items, (x: JsValue) => formatItem(ItemText(x))), "\n---\n\n"))
    else if Truthy(alternative) then
      Success(Join(Map(TextItems(ContentItems(alternative)), ItemText), "\n\n---\n\n"))
    else Success("")
  }

  /** The tool's result for the formatted content. */
  function Shape(query: JsValue, formatted: string): (r: ToolResult)
    ensures r.searchQuery == query
    ensures r.foundResults <==> formatted != ""
    ensures r.documentationContent == if formatted == "" then NoDocumentation else formatted
  {
    ToolResult(query, if formatted == "" then NoDocumentation else formatted, |formatted| > 0)
  }

  /** `execute` of `searchHederaTool`: the query check, the search, the shaping. */
  function ExecuteTool(args: JsValue, reply: Option<Upstream>, parse: JsonParser, stringify: JsValue -> string,
                       formatItem: string -> string): Result<ToolResult, Fault>
  {
    if !Truthy(args) || !Truthy(OptProp(args, "query")) then Failure(ValidationError(QueryRequired))
    else
      match SearchMcp(reply, parse, stringify)
      case Failure(f) => Failure(f)
      case Success(results) =>
        match FormattedContent(results, formatItem)
        case Failure(f) => Failure(f)
        case Success(formatted) => Success(Shape(OptProp(args, "query"), formatted))
  }

  /** A missing or empty query is rejected before any request: the outcome does not
      depend on the server's reply. */
  lemma QueryCheckedFirst(args: JsValue, reply: Option<Upstream>, reply': Option<Upstream>, parse: JsonParser,
                          stringify: JsValue -> string, formatItem: string -> string)
    requires !Truthy(args) || !Truthy(OptProp(args, "query"))
    ensures ExecuteTool(args, reply, parse, stringify, formatItem) == Failure(ValidationError(QueryRequired))
    ensures ExecuteTool(args, reply, parse, stringify, formatItem) == ExecuteTool(args, reply', parse, stringify, formatItem)
  {
  }

  /** The tool fails exactly when the search fails, passing its service error on, or
      when a primary text item's text is not a string, with a 502. Otherwise it reports
      results exactly when the formatted content is not empty, and falls back to
      "No relevant documentation found." when it is. */
  lemma ToolOutcome(args: JsValue, reply: Option<Upstream>, parse: JsonParser, stringify: JsValue -> string,
                    formatItem: string -> string)
    requires Truthy(args) && Truthy(OptProp(args, "query"))
    ensures var r := ExecuteTool(args, reply, parse, stringify, formatItem);
      var s := SearchMcp(reply, parse, stringify);
      && (r.Failure? <==> s.Failure? || FormatThrows(s.value))
      && (s.Failure? ==> r.error == s.error && r.error.ExternalServiceError?)
      && (s.Success? && FormatThrows(s.value) ==> r.error == ExternalServiceError(ToolFailure, 502))
      && (r.Success? ==> var f := FormattedContent(s.value, formatItem).value;
            && r.value.searchQuery == OptProp(args, "query")
            && (r.value.foundResults <==> f != "")
            && (f == "" ==> r.value.documentationContent == NoDocumentation)
            && (f != "" ==> r.value.documentationContent == f))
  {
    SearchFailures(reply, parse, stringify);
  }

  /** A primary content item of type "text" whose text is truthy but not a string (a
      number, `true`, an object or an array) makes the tool fail with a 502, whatever
      the other items are. */
  lemma NonStringTextFails(args: JsValue, reply: Option<Upstream>, parse: JsonParser, stringify: JsValue -> string,
                           formatItem: string -> string, item: JsValue)
    requires Truthy(args) && Truthy(OptProp(args, "query"))
    requires SearchMcp(reply, parse, stringify).Success?
    requires var primary := OptProp(OptProp(SearchMcp(reply, parse, stringify).value, "result"), "content");
      Truthy(primary) && item in ContentItems(primary)
    requires OptProp(item, "type") == Str("text") && Truthy(OptProp(item, "text")) && !OptProp(item, "text").Str?
    ensures ExecuteTool(args, reply, parse, stringify, formatItem) == Failure(ExternalServiceError(ToolFailure, 502))
  {
    var primary := OptProp(OptProp(SearchMcp(reply, parse, stringify).value, "result"), "content");
    assert item in TextItems(ContentItems(primary));
  }

  /** Without text items there is nothing to format. */
  lemma NoTextItemsNoContent(results: JsValue, formatItem: string -> string)
    requires forall x :: x in ContentItems(OptProp(OptProp(results, "result"), "content")) ==> !TextItem(x)
    requires forall x :: x in ContentItems(OptProp(results, "content")) ==> !TextItem(x)
    ensures FormattedContent(results, formatItem) == Success("")
  {
  }
}
