/** The code integration agent: it numbers the lines of the user's code, asks the model
    to apply the proposed changes to it, and records the token usage against the
    system's counters when the user did not bring their own key. The model call and
    JSON.stringify are parameters. */
module CodeIntegration {
  import opened Wrappers
  import opened Strings
  import opened JsValues

  // ---------------------------------------------------------------- numbered code

  /** Line `index` (from 0) as the model sees it: its number right-aligned in three
      columns, a bar, a space and the line. */
  function NumberedLine(index: nat, line: string): string {
    PadStart(IntToString(index + 1), 3, ' ') + "| " + line
  }

  function NumberedLines(lines: seq<string>): (r: seq<string>)
    ensures |r| == |lines| && forall k :: 0 <= k < |lines| ==> r[k] == NumberedLine(k, lines[k])
  {
    seq(|lines|, k requires 0 <= k < |lines| => NumberedLine(k, lines[k]))
  }

  /** `numberedCode`. */
  function NumberedCode(code: string): string {
    Join(NumberedLines(Split(code, '\n')), "\n")
  }

  /** A numbered line ends with the original line, after the bar and the space, and
      starts with the line's number padded with spaces to three columns. */
  lemma NumberedLineParts(index: nat, line: string)
    ensures var n := NumberedLine(index, line); var num := IntToString(index + 1);
      var w := if |num| >= 3 then |num| else 3;
      && |n| == w + 2 + |line|
      && n[w..w + 2] == "| " && n[w + 2..] == line
      && n[w - |num|..w] == num
      && forall k :: 0 <= k < w - |num| ==> n[k] == ' '
  {
    var num := IntToString(index + 1);
    var padded := PadStart(num, 3, ' ');
    var n := NumberedLine(index, line);
    assert n == padded + "| " + line;
    assert n[..|padded|] == padded;
  }

  /** The numbered code has exactly the lines of the code, in order, each numbered by
      its position: splitting it at line breaks gives the numbered lines back. */
  lemma NumberedCodeLines(code: string)
    ensures Split(NumberedCode(code), '\n') == NumberedLines(Split(code, '\n'))
    ensures |Split(NumberedCode(code), '\n')| == |Split(code, '\n')|
  {
    var lines := Split(code, '\n');
    var numbered := NumberedLines(lines);
    forall k | 0 <= k < |numbered|
      ensures '\n' !in numbered[k]
    {
      NoBreakInNumberedLine(k, lines[k]);
    }
    SplitJoin(numbered, '\n');
  }

  lemma NoBreakInNumberedLine(index: nat, line: string)
    requires '\n' !in line
    ensures '\n' !in NumberedLine(index, line)
  {
    var num := IntToString(index + 1);
    assert forall k :: 0 <= k < |num| ==> num[k] != '\n' by {
      if index + 1 >= 0 {
        assert num == NatToString(index + 1);
      }
    }
    var padded := PadStart(num, 3, ' ');
    assert forall k :: 0 <= k < |padded| ==> padded[k] != '\n' by {
      forall k | 0 <= k < |padded|
        ensures padded[k] != '\n'
      {
        if k >= |padded| - |num| {
          assert padded[k] == padded[|padded| - |num|..][k - (|padded| - |num|)];
        }
      }
    }
    assert NumberedLine(index, line) == padded + "| " + line;
  }

  // ---------------------------------------------------------------- generateCodeChanges

  /** The request context: the user's own API key and model choice, when given. */
  datatype ExecutionContext = ExecutionContext(userId: string, sessionId: string, userApiKey: Option<string>, model: Option<string>)

  datatype Usage = Usage(inputTokens: nat, outputTokens: nat, totalTokens: nat)

  /** What the model returns: its usage and the generated object's `appliedChanges`. */
  datatype Generation = Generation(usage: Usage, appliedChanges: JsValue)

  /** The model call: for a key (None for the system key), a model name and a prompt,
      the generation or the message of what it throws. */
  type Generator = (Option<string>, string, string) -> Result<Generation, string>

  /** A counter increment in the cache. */
  datatype Increment =
    | Counter(key: string, amount: nat)
    | MonthlyUsage(userId: string, amount: nat)

  /** The changes returned and the increments made. */
  datatype Generated = Generated(changes: JsValue, increments: seq<Increment>)

  predicate HasUserKey(context: ExecutionContext) {
    context.userApiKey.Some? && context.userApiKey.value != ""
  }

  function Prompt(numberedCode: string, changes: string): string {
    "\nCode:<code>" + numberedCode + "</code>\nChanges:<changes>" + changes + "</changes>\n"
  }

  function UsageIncrements(userId: string, usage: Usage): seq<Increment> {
    [Counter("CODE_TOOL_INTEGRATION_INPUT_TOKENS", usage.inputTokens),
     Counter("CODE_TOOL_INTEGRATION_OUTPUT_TOKENS", usage.outputTokens),
     MonthlyUsage(userId, usage.totalTokens)]
  }

  /** `generateCodeChanges`: nothing to do for empty code or no proposed changes;
      otherwise the model's applied changes, or [] when it gives none or throws. */
  function GenerateCodeChanges(proposedChanges: Option<seq<JsValue>>, code: string, context: ExecutionContext,
                               agentModel: string, stringify: seq<JsValue> -> string, generate: Generator): Generated
  {
    if code == "" || proposedChanges.None? || proposedChanges.value == [] then Generated(Arr([]), [])
    else
      var prompt := Prompt(NumberedCode(code), stringify(proposedChanges.value));
      var key := if HasUserKey(context) then context.userApiKey else None;
      var model := if context.model.Some? && context.model.value != "" then context.model.value else agentModel;
      match generate(key, model, prompt)
      case Failure(_) => Generated(Arr([]), [])
      case Success(result) =>
        Generated(if Truthy(result.appliedChanges) then result.appliedChanges else Arr([]),
                  if HasUserKey(context) then [] else UsageIncrements(context.userId, result.usage))
  }

  /** Empty code or no proposed changes gives [] without calling the model: the result
      is the same whatever the model would answer. */
  lemma NothingToIntegrate(proposedChanges: Option<seq<JsValue>>, code: string, context: ExecutionContext,
                           agentModel: string, stringify: seq<JsValue> -> string, g1: Generator, g2: Generator)
    requires code == "" || proposedChanges.None? || proposedChanges.value == []
    ensures GenerateCodeChanges(proposedChanges, code, context, agentModel, stringify, g1)
            == GenerateCodeChanges(proposedChanges, code, context, agentModel, stringify, g2)
            == Generated(Arr([]), [])
  {
  }

  /** The model gets the numbered code and the user's own key when there is one; the
      counters move only on the system key, by the usage the model reports. */
  lemma UsageChargedToSystemKeyOnly(proposedChanges: Option<seq<JsValue>>, code: string, context: ExecutionContext,
                                    agentModel: string, stringify: seq<JsValue> -> string, generate: Generator)
    requires code != "" && proposedChanges.Some? && proposedChanges.value != []
    ensures var r := GenerateCodeChanges(proposedChanges, code, context, agentModel, stringify, generate);
      var key := if HasUserKey(context) then context.userApiKey else None;
      var model := if context.model.Some? && context.model.value != "" then context.model.value else agentModel;
      var g := generate(key, model, Prompt(NumberedCode(code), stringify(proposedChanges.value)));
      && (HasUserKey(context) || g.Failure? <==> r.increments == [])
      && (!HasUserKey(context) && g.Success? ==> r.increments == UsageIncrements(context.userId, g.value.usage))
  {
  }

  /** A missing or falsy `appliedChanges`, or a failed call, yields []; the changes are
      never falsy. */
  lemma ChangesNeverFalsy(proposedChanges: Option<seq<JsValue>>, code: string, context: ExecutionContext,
                          agentModel: string, stringify: seq<JsValue> -> string, generate: Generator)
    ensures var r := GenerateCodeChanges(proposedChanges, code, context, agentModel, stringify, generate);
      Truthy(r.changes)
  {
  }
}
