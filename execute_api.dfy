/** The `/execute` endpoint of the code-execution service: `get_job`, which turns a
    JSON request body into a Job or into the first rejection, and the handler that
    primes, executes and cleans up the Job and answers 400, 200 or 500.
    The runtime registry and the Job engine are oracles. */
module ExecuteApi {
  import opened Wrappers
  import opened Strings
  import opened JsValues

  datatype Stage = Compile | Run

  datatype Constraint = MemoryLimit | Timeout | CpuTime

  /** One value for each pipeline stage. */
  datatype PerStage<T> = PerStage(compile: T, run: T) {
    function Of(s: Stage): T {
      match s
      case Compile => compile
      case Run => run
    }
  }

  /** A runtime as the registry returns it. A configured ceiling <= 0 means that
      no ceiling is enforced on a client override. */
  datatype Runtime = Runtime(language: string, version: string,
                             memoryLimits: PerStage<int>, timeouts: PerStage<int>,
                             cpuTimes: PerStage<int>)
  {
    /** `rt[`${constraint}s`][type]`. */
    function Limit(c: Constraint, s: Stage): int {
      match c
      case MemoryLimit => memoryLimits.Of(s)
      case Timeout => timeouts.Of(s)
      case CpuTime => cpuTimes.Of(s)
    }
  }

  /** `runtime.get_latest_runtime_matching_language_version`: the runtime a language
      and version resolve to, if any. */
  type Registry = (string, string) -> Option<Runtime>

  function StageName(s: Stage): string {
    match s
    case Compile => "compile"
    case Run => "run"
  }

  function ConstraintKey(c: Constraint): string {
    match c
    case MemoryLimit => "memory_limit"
    case Timeout => "timeout"
    case CpuTime => "cpu_time"
  }

  /** The request field that overrides constraint `c` of stage `s`, `${type}_${constraint}`. */
  function OverrideName(c: Constraint, s: Stage): string {
    StageName(s) + "_" + ConstraintKey(c)
  }

  /** The override the body supplies for constraint `c` of stage `s`. */
  function Override(body: JsValue, c: Constraint, s: Stage): JsValue {
    OptProp(body, OverrideName(c, s))
  }

  /** The order of the nested loops: each constraint, for compile and then run. */
  const CheckOrder: seq<(Constraint, Stage)> :=
    [(MemoryLimit, Compile), (MemoryLimit, Run), (Timeout, Compile),
     (Timeout, Run), (CpuTime, Compile), (CpuTime, Run)]

  /** The position of (c, s) in CheckOrder. */
  function OrderIndex(c: Constraint, s: Stage): (i: nat)
    ensures i < |CheckOrder| && CheckOrder[i] == (c, s)
  {
    (match c case MemoryLimit => 0 case Timeout => 2 case CpuTime => 4)
      + (match s case Compile => 0 case Run => 1)
  }

  /** Why `get_job` rejects a body. */
  datatype Rejection =
    | BodyTypeError               // destructuring a null or undefined body throws
    | LanguageRequired
    | VersionRequired
    | FilesRequired
    | FileTypeError(index: nat)   // `file.content` on a null or undefined entry throws
    | FileContentRequired(index: nat)
    | RuntimeUnknown(language: string, version: string)
    | NoUtf8File
    | NotANumber(name: string)
    | ExceedsLimit(name: string, limit: int)
    | Negative(name: string)

  /** The `message` text of each rejection. */
  function Message(r: Rejection): string {
    match r
    case BodyTypeError => ""
    case LanguageRequired => "language is required as a string"
    case VersionRequired => "version is required as a string"
    case FilesRequired => "files is required as an array"
    case FileTypeError(_) => ""
    case FileContentRequired(i) => "files[" + NatToString(i) + "].content is required as a string"
    case RuntimeUnknown(l, v) => l + "-" + v + " runtime is unknown"
    case NoUtf8File => "files must include at least one utf8 encoded file"
    case NotANumber(n) => "If specified, " + n + " must be a number"
    case ExceedsLimit(n, l) => n + " cannot exceed the configured limit of " + IntToString(l)
    case Negative(n) => n + " must be non-negative"
  }

  /** The JSON body of the 400 answer: `{message}`; a TypeError serialises as `{}`. */
  function RejectionBody(r: Rejection): JsValue {
    if r.BodyTypeError? || r.FileTypeError? then Obj(map[])
    else Obj(map["message" := Str(Message(r))])
  }

  /** A field that passes `!x || typeof x !== 'string'`. */
  predicate IsNonEmptyString(v: JsValue) {
    v.Str? && v.s != ""
  }

  /** A files entry whose `content` is a string. */
  predicate HasStringContent(f: JsValue) {
    !Nullish(f) && OptProp(f, "content").Str?
  }

  function ContentRejection(f: JsValue, index: nat): Rejection {
    if Nullish(f) then FileTypeError(index) else FileContentRequired(index)
  }

  /** The loop over `files.entries()`: the rejection for the first entry, from
      `from` on, whose content is not a string. */
  function CheckFiles(files: seq<JsValue>, from: nat): (r: Option<Rejection>)
    requires from <= |files|
    ensures r.None? <==> forall j :: from <= j < |files| ==> HasStringContent(files[j])
    ensures r.Some? ==> r.value.FileTypeError? || r.value.FileContentRequired?
    ensures r.Some? ==> exists k :: from <= k < |files| && !HasStringContent(files[k])
                          && (forall j :: from <= j < k ==> HasStringContent(files[j]))
                          && r.value == ContentRejection(files[k], k)
    decreases |files| - from
  {
    if from == |files| then None
    else if !HasStringContent(files[from]) then Some(ContentRejection(files[from], from))
    else CheckFiles(files, from + 1)
  }

  /** `!file.encoding || file.encoding === 'utf8'`. */
  predicate IsUtf8(f: JsValue) {
    var e := OptProp(f, "encoding");
    !Truthy(e) || e == Str("utf8")
  }

  /** The checks of one override against its configured ceiling, in source order: it
      passes exactly when OverrideAccepted holds, and a number above a positive
      ceiling is always reported as exceeding it. */
  function CheckOverride(v: JsValue, name: string, limit: int): (r: Option<Rejection>)
    ensures r.None? <==> OverrideAccepted(v, limit)
    ensures r.Some? ==> r == Some(NotANumber(name)) || r == Some(ExceedsLimit(name, limit)) || r == Some(Negative(name))
    ensures v.Num? && 0 < limit < v.n ==> r == Some(ExceedsLimit(name, limit))
  {
    if !Truthy(v) then None
    else if !v.Num? then Some(NotANumber(name))
    else if limit <= 0 then None
    else if v.n > limit then Some(ExceedsLimit(name, limit))
    else if v.n < 0 then Some(Negative(name))
    else None
  }

  /** What CheckOverride lets through, stated without its order: a falsy value, or a
      number that lies in [0, limit] when the ceiling is positive. */
  predicate OverrideAccepted(v: JsValue, limit: int) {
    !Truthy(v) || (v.Num? && (limit <= 0 || 0 <= v.n <= limit))
  }

  /** The verdict on the override of one (constraint, stage) pair. */
  function Verdict(body: JsValue, rt: Runtime, p: (Constraint, Stage)): Option<Rejection> {
    CheckOverride(Override(body, p.0, p.1), OverrideName(p.0, p.1), rt.Limit(p.0, p.1))
  }

  /** The override of one (constraint, stage) pair is acceptable. */
  predicate Accepts(body: JsValue, rt: Runtime, p: (Constraint, Stage)) {
    OverrideAccepted(Override(body, p.0, p.1), rt.Limit(p.0, p.1))
  }

  lemma VerdictAccepts(body: JsValue, rt: Runtime, p: (Constraint, Stage))
    ensures Verdict(body, rt, p).None? <==> Accepts(body, rt, p)
  {
  }

  /** The first `f(x)` that is Some, for the elements `x` of `xs` in order. */
  function FirstSome<T, R>(xs: seq<T>, f: T -> Option<R>): (r: Option<R>)
    ensures r.None? <==> forall i :: 0 <= i < |xs| ==> f(xs[i]).None?
    ensures r.Some? ==> exists i :: && 0 <= i < |xs| && r == f(xs[i])
                                    && forall j :: 0 <= j < i ==> f(xs[j]).None?
  {
    if xs == [] then None
    else if f(xs[0]).Some? then f(xs[0])
    else
      var r := FirstSome(xs[1..], f);
      assert forall i :: 1 <= i < |xs| ==> xs[i] == xs[1..][i - 1];
      r
  }

  /** The verdict and the acceptance of every pair agree. */
  lemma VerdictsAccept(body: JsValue, rt: Runtime)
    ensures forall p :: Verdict(body, rt, p).None? <==> Accepts(body, rt, p)
  {
    forall p ensures Verdict(body, rt, p).None? <==> Accepts(body, rt, p) {
      VerdictAccepts(body, rt, p);
    }
  }

  /** The nested loops over the constraint names: the first rejection in `checks`. */
  function CheckConstraints(body: JsValue, rt: Runtime, checks: seq<(Constraint, Stage)>): (r: Option<Rejection>)
    ensures r.None? <==> forall i :: 0 <= i < |checks| ==> Accepts(body, rt, checks[i])
    ensures r.Some? ==> r.value.NotANumber? || r.value.ExceedsLimit? || r.value.Negative?
  {
    VerdictsAccept(body, rt);
    FirstSome(checks, p => Verdict(body, rt, p))
  }

  /** A rejection of the checks is the verdict on one pair, every pair before it accepted. */
  lemma FirstRejection(body: JsValue, rt: Runtime, checks: seq<(Constraint, Stage)>)
    requires CheckConstraints(body, rt, checks).Some?
    ensures exists i :: && 0 <= i < |checks|
                        && CheckConstraints(body, rt, checks) == Verdict(body, rt, checks[i])
                        && forall j :: 0 <= j < i ==> Accepts(body, rt, checks[j])
  {
    VerdictsAccept(body, rt);
    var f := p => Verdict(body, rt, p);
    assert CheckConstraints(body, rt, checks) == FirstSome(checks, f);
  }

  /** The Job a valid request becomes. Limits are JavaScript values: `??` keeps any
      override that is not null or undefined. */
  datatype Job = Job(runtime: Runtime, args: JsValue, stdin: JsValue, files: seq<JsValue>,
                     timeouts: PerStage<JsValue>, cpuTimes: PerStage<JsValue>,
                     memoryLimits: PerStage<JsValue>)
  {
    function Limit(c: Constraint, s: Stage): JsValue {
      match c
      case MemoryLimit => memoryLimits.Of(s)
      case Timeout => timeouts.Of(s)
      case CpuTime => cpuTimes.Of(s)
    }
  }

  /** `override ?? rt.<constraint>s.<stage>` for both stages. */
  function EffectiveLimits(body: JsValue, rt: Runtime, c: Constraint): PerStage<JsValue> {
    PerStage(Coalesce(Override(body, c, Compile), Num(rt.Limit(c, Compile))),
             Coalesce(Override(body, c, Run), Num(rt.Limit(c, Run))))
  }

  /** The fields of a request that passed the checks on the body itself. */
  datatype Fields = Fields(language: string, version: string, files: seq<JsValue>)

  /** The checks of `get_job` on the body's own fields, in source order. */
  function CheckFields(body: JsValue): (r: Result<Fields, Rejection>)
    ensures r.Failure? ==> r.error.BodyTypeError? || r.error.LanguageRequired? || r.error.VersionRequired?
                           || r.error.FilesRequired? || r.error.FileTypeError? || r.error.FileContentRequired?
  {
    if Nullish(body) then Failure(BodyTypeError)
    else
      var language := OptProp(body, "language");
      var version := OptProp(body, "version");
      var files := OptProp(body, "files");
      if !IsNonEmptyString(language) then Failure(LanguageRequired)
      else if !IsNonEmptyString(version) then Failure(VersionRequired)
      else if !files.Arr? then Failure(FilesRequired)
      else match CheckFiles(files.items, 0)
        case Some(e) => Failure(e)
        case None => Success(Fields(language.s, version.s, files.items))
  }

  /** `files.some(...)` of the utf8 rule. */
  predicate SomeUtf8(files: seq<JsValue>) {
    exists i :: 0 <= i < |files| && IsUtf8(files[i])
  }

  /** The checks of `get_job` against the resolved runtime: the utf8 rule, then the
      overrides. */
  function CheckAgainstRuntime(body: JsValue, rt: Runtime, files: seq<JsValue>): (r: Option<Rejection>)
    ensures r.Some? ==> r.value.NoUtf8File? || r.value.NotANumber? || r.value.ExceedsLimit? || r.value.Negative?
  {
    if rt.language != "file" && !SomeUtf8(files) then Some(NoUtf8File)
    else CheckConstraints(body, rt, CheckOrder)
  }

  /** The Job for checked fields and their runtime. */
  function BuildJob(body: JsValue, rt: Runtime, files: seq<JsValue>): Job {
    Job(rt, Coalesce(OptProp(body, "args"), Arr([])), Coalesce(OptProp(body, "stdin"), Str("")), files,
        EffectiveLimits(body, rt, Timeout), EffectiveLimits(body, rt, CpuTime),
        EffectiveLimits(body, rt, MemoryLimit))
  }

  /** `get_job`: the Job for a request body, or the first check it fails. */
  function GetJob(body: JsValue, registry: Registry): Result<Job, Rejection> {
    match CheckFields(body)
    case Failure(e) => Failure(e)
    case Success(f) =>
      match registry(f.language, f.version)
      case None => Failure(RuntimeUnknown(f.language, f.version))
      case Some(rt) =>
        match CheckAgainstRuntime(body, rt, f.files)
        case Some(e) => Failure(e)
        case None => Success(BuildJob(body, rt, f.files))
  }

  /** The body's files, or no files when `files` is not an array. */
  function FilesOf(body: JsValue): seq<JsValue> {
    var f := OptProp(body, "files");
    if f.Arr? then f.items else []
  }

  /** A request `get_job` accepts, stated as conditions rather than as a chain of checks. */
  predicate Admissible(body: JsValue, registry: Registry) {
    && !Nullish(body)
    && IsNonEmptyString(OptProp(body, "language"))
    && IsNonEmptyString(OptProp(body, "version"))
    && OptProp(body, "files").Arr?
    && (forall i :: 0 <= i < |FilesOf(body)| ==> HasStringContent(FilesOf(body)[i]))
    && registry(OptProp(body, "language").s, OptProp(body, "version").s).Some?
    && var rt := registry(OptProp(body, "language").s, OptProp(body, "version").s).value;
       && (rt.language == "file" || exists i :: 0 <= i < |FilesOf(body)| && IsUtf8(FilesOf(body)[i]))
       && forall c, s :: OverrideAccepted(Override(body, c, s), rt.Limit(c, s))
  }

  /** Every (constraint, stage) pair is checked, so the loop passes exactly when every
      override is acceptable. */
  lemma {:induction false} CheckOrderCoversAll(body: JsValue, rt: Runtime)
    ensures CheckConstraints(body, rt, CheckOrder).None?
        <==> forall c, s :: OverrideAccepted(Override(body, c, s), rt.Limit(c, s))
  {
    if CheckConstraints(body, rt, CheckOrder).None? {
      forall c, s ensures OverrideAccepted(Override(body, c, s), rt.Limit(c, s)) {
        var i := OrderIndex(c, s);
        assert CheckOrder[i] == (c, s);
      }
    }
  }

  /** `get_job` accepts a body exactly when it is admissible. */
  lemma GetJobAcceptsExactlyAdmissible(body: JsValue, registry: Registry)
    ensures GetJob(body, registry).Success? <==> Admissible(body, registry)
  {
    if !Nullish(body) && IsNonEmptyString(OptProp(body, "language"))
      && IsNonEmptyString(OptProp(body, "version")) && OptProp(body, "files").Arr?
    {
      var files := OptProp(body, "files").items;
      assert FilesOf(body) == files;
      var found := registry(OptProp(body, "language").s, OptProp(body, "version").s);
      if CheckFiles(files, 0).None? && found.Some? {
        CheckOrderCoversAll(body, found.value);
      }
    }
  }

  /** The Job of an accepted body: the resolved runtime, its files, `args` defaulting to
      `[]`, `stdin` to `''`, and each of the six limits equal to the override unless
      that is null or undefined, else the runtime's configured value. */
  lemma GetJobBuildsJob(body: JsValue, registry: Registry, c: Constraint, s: Stage)
    requires GetJob(body, registry).Success?
    ensures var job := GetJob(body, registry).value;
      && Some(job.runtime) == registry(OptProp(body, "language").s, OptProp(body, "version").s)
      && job.files == OptProp(body, "files").items
      && job.args == (if Nullish(OptProp(body, "args")) then Arr([]) else OptProp(body, "args"))
      && job.stdin == (if Nullish(OptProp(body, "stdin")) then Str("") else OptProp(body, "stdin"))
      && job.Limit(c, s) == (if Nullish(Override(body, c, s)) then Num(job.runtime.Limit(c, s))
                             else Override(body, c, s))
  {
  }

  /** An accepted truthy override stays within a positive ceiling and is not negative
      there; with a ceiling <= 0 any number is accepted, negative ones included. */
  lemma {:induction false} AcceptedOverridesWithinCeilings(body: JsValue, registry: Registry, c: Constraint, s: Stage)
    requires GetJob(body, registry).Success?
    ensures var job := GetJob(body, registry).value;
      var v := Override(body, c, s);
      var limit := job.runtime.Limit(c, s);
      Truthy(v) ==> v.Num? && job.Limit(c, s) == v && (limit > 0 ==> 0 <= v.n <= limit)
  {
    GetJobAcceptsExactlyAdmissible(body, registry);
  }

  /** The checks on the body's own fields come first, in the order body, language,
      version, files: each of these rejections is reported exactly when its check
      fails and every earlier one passed. */
  lemma FieldRejections(body: JsValue, registry: Registry)
    ensures var e := GetJob(body, registry);
      var language := OptProp(body, "language");
      var version := OptProp(body, "version");
      && (e == Failure(BodyTypeError) <==> Nullish(body))
      && (e == Failure(LanguageRequired) <==> !Nullish(body) && !IsNonEmptyString(language))
      && (e == Failure(VersionRequired) <==>
            !Nullish(body) && IsNonEmptyString(language) && !IsNonEmptyString(version))
      && (e == Failure(FilesRequired) <==>
            !Nullish(body) && IsNonEmptyString(language) && IsNonEmptyString(version)
            && !OptProp(body, "files").Arr?)
  {
  }

  /** A file rejection names the first entry whose content is not a string, and it is
      a TypeError exactly when that entry is null or undefined. */
  lemma FileRejection(body: JsValue, registry: Registry)
    requires GetJob(body, registry).Failure?
    requires GetJob(body, registry).error.FileContentRequired? || GetJob(body, registry).error.FileTypeError?
    ensures var e := GetJob(body, registry).error;
      var files := FilesOf(body);
      && IsNonEmptyString(OptProp(body, "language")) && IsNonEmptyString(OptProp(body, "version"))
      && e.index < |files| && !HasStringContent(files[e.index])
      && (forall j :: 0 <= j < e.index ==> HasStringContent(files[j]))
      && (e.FileTypeError? <==> Nullish(files[e.index]))
  {
  }

  /** An unknown runtime is reported only for a body whose fields all passed, with the
      requested language and version in its text. */
  lemma RuntimeUnknownRejection(body: JsValue, registry: Registry)
    requires GetJob(body, registry).Failure? && GetJob(body, registry).error.RuntimeUnknown?
    ensures var e := GetJob(body, registry).error;
      var language := OptProp(body, "language");
      var version := OptProp(body, "version");
      && IsNonEmptyString(language) && IsNonEmptyString(version)
      && e.language == language.s && e.version == version.s
      && (forall j :: 0 <= j < |FilesOf(body)| ==> HasStringContent(FilesOf(body)[j]))
      && registry(language.s, version.s).None?
      && Message(e) == language.s + "-" + version.s + " runtime is unknown"
  {
  }

  /** The utf8 rule is checked against the resolved runtime: only a runtime whose
      language is not `file` rejects a request none of whose files is utf8. */
  lemma NoUtf8Rejection(body: JsValue, registry: Registry)
    requires GetJob(body, registry).Failure? && GetJob(body, registry).error == NoUtf8File
    ensures var found := registry(OptProp(body, "language").s, OptProp(body, "version").s);
      && found.Some? && found.value.language != "file"
      && forall j :: 0 <= j < |FilesOf(body)| ==> !IsUtf8(FilesOf(body)[j])
  {
  }

  /** A constraint rejection is the rejection of one override, every override before
      it in the check order being acceptable. */
  lemma {:induction false} ConstraintRejection(body: JsValue, registry: Registry)
    requires GetJob(body, registry).Failure?
    requires var e := GetJob(body, registry).error; e.NotANumber? || e.ExceedsLimit? || e.Negative?
    ensures var found := registry(OptProp(body, "language").s, OptProp(body, "version").s);
      && found.Some?
      && exists c, s ::
           && Some(GetJob(body, registry).error) == Verdict(body, found.value, (c, s))
           && forall j :: 0 <= j < OrderIndex(c, s) ==> Accepts(body, found.value, CheckOrder[j])
  {
    RejectedByConstraints(body, registry);
    var rt := registry(OptProp(body, "language").s, OptProp(body, "version").s).value;
    FirstFailingCheck(body, rt, GetJob(body, registry).error);
  }

  /** The rejection of the constraint checks is the verdict on one (constraint, stage)
      pair, all pairs before it in the check order accepted. */
  lemma FirstFailingCheck(body: JsValue, rt: Runtime, e: Rejection)
    requires CheckConstraints(body, rt, CheckOrder) == Some(e)
    ensures exists c, s ::
      && Some(e) == Verdict(body, rt, (c, s))
      && forall j :: 0 <= j < OrderIndex(c, s) ==> Accepts(body, rt, CheckOrder[j])
  {
    FirstRejection(body, rt, CheckOrder);
    var i :| && 0 <= i < |CheckOrder|
             && Some(e) == Verdict(body, rt, CheckOrder[i])
             && forall j :: 0 <= j < i ==> Accepts(body, rt, CheckOrder[j]);
    var c, s := CheckOrder[i].0, CheckOrder[i].1;
    OrderIndexOf(i);
    assert Some(e) == Verdict(body, rt, (c, s));
  }

  /** Every pair appears once in the check order. */
  lemma OrderIndexOf(i: nat)
    requires i < |CheckOrder|
    ensures OrderIndex(CheckOrder[i].0, CheckOrder[i].1) == i
  {
    if i < 2 {
      assert CheckOrder[i] == (MemoryLimit, if i == 0 then Compile else Run);
    } else if i < 4 {
      assert CheckOrder[i] == (Timeout, if i == 2 then Compile else Run);
    } else {
      assert CheckOrder[i] == (CpuTime, if i == 4 then Compile else Run);
    }
  }

  /** A constraint rejection comes from the constraint checks of the requested runtime. */
  lemma RejectedByConstraints(body: JsValue, registry: Registry)
    requires GetJob(body, registry).Failure?
    requires var e := GetJob(body, registry).error; e.NotANumber? || e.ExceedsLimit? || e.Negative?
    ensures var found := registry(OptProp(body, "language").s, OptProp(body, "version").s);
      && found.Some?
      && CheckConstraints(body, found.value, CheckOrder) == Some(GetJob(body, registry).error)
  {
    var e := GetJob(body, registry).error;
    assert CheckFields(body).Success?;
    var f := CheckFields(body).value;
    assert f.language == OptProp(body, "language").s && f.version == OptProp(body, "version").s;
    var rt := registry(f.language, f.version).value;
    assert CheckAgainstRuntime(body, rt, f.files) == Some(e);
  }

  /** An override the validation skips because it is falsy still reaches the Job when
      it is not null or undefined: `run_timeout: 0` gives a Job whose run timeout is 0. */
  lemma FalsyOverrideReachesJob(body: JsValue, registry: Registry, c: Constraint, s: Stage)
    requires Admissible(body, registry)
    requires !Truthy(Override(body, c, s)) && !Nullish(Override(body, c, s))
    ensures GetJob(body, registry).Success?
    ensures GetJob(body, registry).value.Limit(c, s) == Override(body, c, s)
  {
    GetJobAcceptsExactlyAdmissible(body, registry);
  }

  /** Without a positive ceiling an override is not range-checked: a negative number
      is accepted and becomes the Job's limit. */
  lemma NegativeOverrideWithoutCeiling(body: JsValue, registry: Registry, c: Constraint, s: Stage)
    requires CheckFields(body).Success?
    requires var f := CheckFields(body).value;
      && registry(f.language, f.version).Some?
      && var rt := registry(f.language, f.version).value;
         && (rt.language == "file" || SomeUtf8(f.files))
         && rt.Limit(c, s) <= 0
         && forall c', s' :: (c', s') != (c, s) ==> Accepts(body, rt, (c', s'))
    requires Override(body, c, s).Num? && Override(body, c, s).n < 0
    ensures GetJob(body, registry).Success?
    ensures GetJob(body, registry).value.Limit(c, s) == Override(body, c, s)
  {
    var f := CheckFields(body).value;
    var rt := registry(f.language, f.version).value;
    forall i | 0 <= i < |CheckOrder| ensures Accepts(body, rt, CheckOrder[i]) {
    }
  }

  // ---------------------------------------------------------------- the handler

  /** What one pipeline stage reports. */
  datatype StageResult = StageResult(stdout: string, stderr: string, output: string,
                                     code: Option<int>, signal: Option<string>)

  /** `job.execute`'s result: `run` is absent when the run stage never started. */
  datatype ExecResult = ExecResult(compile: Option<StageResult>, run: Option<StageResult>)

  /** The backward-compatibility step: a result whose run stage never started reports
      its compile stage as `run`. */
  function WithRunDefaulted(r: ExecResult): ExecResult {
    if r.run.None? then r.(run := r.compile) else r
  }

  datatype ReplyBody = Rejected(json: JsValue) | Executed(result: ExecResult) | Empty

  /** One `res.status(..).send(..)` / `.json(..)`. */
  datatype Reply = Reply(status: int, body: ReplyBody)

  datatype JobCall = PrimeCall | ExecuteCall | CleanupCall

  /** The Job's engine (job.js is not part of this model) as an oracle fixed in
      advance: whether `prime` succeeds, what `execute` returns (None: it throws),
      whether `cleanup` succeeds. It records the calls made on it. */
  class JobEngine {
    const primeSucceeds: bool
    const executeOutcome: Option<ExecResult>
    const cleanupSucceeds: bool
    var calls: seq<JobCall>

    constructor (primeSucceeds: bool, executeOutcome: Option<ExecResult>, cleanupSucceeds: bool)
      ensures this.primeSucceeds == primeSucceeds && this.executeOutcome == executeOutcome
      ensures this.cleanupSucceeds == cleanupSucceeds && calls == []
    {
      this.primeSucceeds := primeSucceeds;
      this.executeOutcome := executeOutcome;
      this.cleanupSucceeds := cleanupSucceeds;
      calls := [];
    }

    method Prime() returns (ok: bool)
      modifies this
      ensures ok == primeSucceeds && calls == old(calls) + [PrimeCall]
    {
      ok := primeSucceeds;
      calls := calls + [PrimeCall];
    }

    method Execute() returns (outcome: Option<ExecResult>)
      modifies this
      ensures outcome == executeOutcome && calls == old(calls) + [ExecuteCall]
    {
      outcome := executeOutcome;
      calls := calls + [ExecuteCall];
    }

    method Cleanup() returns (ok: bool)
      modifies this
      ensures ok == cleanupSucceeds && calls == old(calls) + [CleanupCall]
    {
      ok := cleanupSucceeds;
      calls := calls + [CleanupCall];
    }
  }

  /** The HTTP response object. Every send is recorded; the client receives the first,
      and Express ignores any later one. */
  class ResponseSink {
    var sent: seq<Reply>

    constructor ()
      ensures sent == []
    {
      sent := [];
    }

    method Send(r: Reply)
      modifies this
      ensures sent == old(sent) + [r]
    {
      sent := sent + [r];
    }
  }

  /** The reply of the `try` block: 200 with the result, or 500 when prime or execute threw. */
  function TryReply(primeOk: bool, outcome: Option<ExecResult>): Reply {
    if primeOk && outcome.Some? then Reply(200, Executed(WithRunDefaulted(outcome.value)))
    else Reply(500, Empty)
  }

  /** The sends of the handler as written: the `try`/`catch` reply goes out before the
      `finally` block runs, whose cleanup failure sends a second reply. */
  function SendsAsWritten(v: Result<Job, Rejection>, primeOk: bool, outcome: Option<ExecResult>,
                          cleanupOk: bool): seq<Reply>
  {
    if v.Failure? then [Reply(400, Rejected(RejectionBody(v.error)))]
    else [TryReply(primeOk, outcome)] + (if cleanupOk then [] else [Reply(500, Empty)])
  }

  /** The engine calls the handler makes: none for a rejected body; otherwise prime,
      execute only when prime succeeded, and cleanup. */
  function EngineCalls(valid: bool, primeOk: bool): seq<JobCall> {
    if !valid then [] else [PrimeCall] + (if primeOk then [ExecuteCall] else []) + [CleanupCall]
  }

  /** The `/execute` handler as written. */
  method HandleExecute(body: JsValue, registry: Registry, engine: JobEngine, res: ResponseSink)
    requires engine != res as object
    modifies engine, res
    ensures res.sent == old(res.sent) + SendsAsWritten(GetJob(body, registry), engine.primeSucceeds,
                                                       engine.executeOutcome, engine.cleanupSucceeds)
    ensures engine.calls == old(engine.calls) + EngineCalls(GetJob(body, registry).Success?, engine.primeSucceeds)
  {
    var job := GetJob(body, registry);
    Respond(job, engine, res);
  }

  /** The handler after `get_job`: the 400 answer, or the `try`/`finally` blocks. */
  method Respond(job: Result<Job, Rejection>, engine: JobEngine, res: ResponseSink)
    requires engine != res as object
    modifies engine, res
    ensures res.sent == old(res.sent) + SendsAsWritten(job, engine.primeSucceeds,
                                                       engine.executeOutcome, engine.cleanupSucceeds)
    ensures engine.calls == old(engine.calls) + EngineCalls(job.Success?, engine.primeSucceeds)
  {
    if job.Failure? {
      res.Send(Reply(400, Rejected(RejectionBody(job.error))));
      return;
    }
    // try
    var primed := engine.Prime();
    if primed {
      var result := engine.Execute();
      if result.Some? {
        res.Send(Reply(200, Executed(WithRunDefaulted(result.value))));
      } else {
        res.Send(Reply(500, Empty));
      }
    } else {
      res.Send(Reply(500, Empty));
    }
    // finally
    var cleaned := engine.Cleanup();
    if !cleaned {
      res.Send(Reply(500, Empty));
    }
  }

  /** The response the client receives: the first one sent. */
  function Delivered(sends: seq<Reply>): Reply
    requires |sends| >= 1
  {
    sends[0]
  }

  /** A rejected body is answered 400 with its rejection and never reaches the engine;
      a valid one is answered by the try block, the engine is cleaned up exactly once
      and last, and a cleanup failure sends a second, 500 reply. */
  lemma HandlerOutcomes(v: Result<Job, Rejection>, primeOk: bool, outcome: Option<ExecResult>, cleanupOk: bool)
    ensures var sends := SendsAsWritten(v, primeOk, outcome, cleanupOk);
      var calls := EngineCalls(v.Success?, primeOk);
      && (v.Failure? ==> sends == [Reply(400, Rejected(RejectionBody(v.error)))] && calls == [])
      && (v.Success? ==>
            && calls[|calls| - 1] == CleanupCall
            && (forall i :: 0 <= i < |calls| - 1 ==> calls[i] != CleanupCall)
            && (ExecuteCall in calls <==> primeOk)
            && sends[0] == TryReply(primeOk, outcome)
            && (!cleanupOk <==> |sends| == 2 && sends[1] == Reply(500, Empty)))
  {
  }

  /** The compatibility step: a result without a run stage answers its compile stage
      as `run`; one with a run stage is answered unchanged. */
  lemma RunDefaultsToCompile(r: ExecResult)
    ensures WithRunDefaulted(r).compile == r.compile
    ensures r.run.None? ==> WithRunDefaulted(r).run == r.compile
    ensures r.run.Some? ==> WithRunDefaulted(r) == r
  {
  }

  /** The client receives 200 even when cleanup fails after a successful execution:
      the 500 of the `finally` block is a second send, which Express drops. */
  lemma CleanupFailureIsNotDelivered(v: Result<Job, Rejection>, result: ExecResult)
    requires v.Success?
    ensures var sends := SendsAsWritten(v, true, Some(result), false);
      |sends| == 2 && Delivered(sends).status == 200 && sends[1].status == 500
  {
  }

  /** The reply the handler evidently intends: cleanup runs before the answer is sent,
      and its failure answers 500 whatever the execution gave. */
  function IntendedReply(v: Result<Job, Rejection>, primeOk: bool, outcome: Option<ExecResult>,
                         cleanupOk: bool): Reply
  {
    if v.Failure? then Reply(400, Rejected(RejectionBody(v.error)))
    else if !cleanupOk then Reply(500, Empty)
    else TryReply(primeOk, outcome)
  }

  /** The handler with cleanup awaited before the one reply is sent. */
  method HandleExecuteCleanupFirst(body: JsValue, registry: Registry, engine: JobEngine, res: ResponseSink)
    requires engine != res as object
    modifies engine, res
    ensures res.sent == old(res.sent) + [IntendedReply(GetJob(body, registry), engine.primeSucceeds,
                                                       engine.executeOutcome, engine.cleanupSucceeds)]
    ensures engine.calls == old(engine.calls) + EngineCalls(GetJob(body, registry).Success?, engine.primeSucceeds)
  {
    var job := GetJob(body, registry);
    RespondCleanupFirst(job, engine, res);
  }

  /** The corrected handler after `get_job`. */
  method RespondCleanupFirst(job: Result<Job, Rejection>, engine: JobEngine, res: ResponseSink)
    requires engine != res as object
    modifies engine, res
    ensures res.sent == old(res.sent) + [IntendedReply(job, engine.primeSucceeds,
                                                       engine.executeOutcome, engine.cleanupSucceeds)]
    ensures engine.calls == old(engine.calls) + EngineCalls(job.Success?, engine.primeSucceeds)
  {
    if job.Failure? {
      res.Send(Reply(400, Rejected(RejectionBody(job.error))));
      return;
    }
    var reply := Reply(500, Empty);
    var primed := engine.Prime();
    if primed {
      var result := engine.Execute();
      if result.Some? {
        reply := Reply(200, Executed(WithRunDefaulted(result.value)));
      }
    }
    var cleaned := engine.Cleanup();
    if !cleaned {
      reply := Reply(500, Empty);
    }
    res.Send(reply);
  }

  /** With cleanup first, a valid request is answered 200 exactly when prime, execute
      and cleanup all succeed, and 500 otherwise. */
  lemma IntendedReplyStatus(v: Result<Job, Rejection>, primeOk: bool, outcome: Option<ExecResult>, cleanupOk: bool)
    requires v.Success?
    ensures var r := IntendedReply(v, primeOk, outcome, cleanupOk);
      && (r.status == 200 <==> primeOk && outcome.Some? && cleanupOk)
      && (r.status != 200 ==> r == Reply(500, Empty))
  {
  }
}
