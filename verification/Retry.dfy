/** The try task of executor/internal/executor/try_task_executor.go and the error handler of
    executor/internal/executor/error_handler.go: a bounded retry loop around the try block. */
module Retry {
  import opened Values
  import opened Backoff

  // --- Errors of the try block --------------------------------------------------------

  datatype WorkflowError = WorkflowError(
    kind: string, status: int, title: string, detail: string, instance: string, data: Fields)

  /** An HTTP response has a status of three digits. */
  type HttpStatus = n: int | 100 <= n <= 999 witness 200

  datatype OutputValue = Plain(json: Json) | Caught(error: WorkflowError)

  /** RetryScheduled also stands for the three output entries that repeat it. */
  datatype Message =
    | NoMessage
    | Said(text: string)
    | MaxAttemptsExceeded(attempts: int)
    | InvalidCatch
    | ScheduleFailed
    | RecoveryFailed(task: string)
    | RetryScheduled(attempts: int, delay: int)

  datatype TaskResult = TaskResult(success: bool, output: map<string, OutputValue>, message: Message)

  /** The try block runs a call, or is not one. */
  datatype TryBlock = NotAMap | NoCall | Call(redirect: bool)

  /** What a call comes back with: a result without a Go error, or an OpenAPI response. */
  datatype Response = Result(result: TaskResult) | OpenApi(status: HttpStatus, body: TaskResult)

  datatype Execution = Returned(result: TaskResult) | Raised(message: string)

  predicate Accepted(redirect: bool, status: HttpStatus) {
    200 <= status < if redirect then 400 else 300
  }

  predicate IsDigit(c: char) {
    '0' <= c <= '9'
  }

  function DigitValue(c: char): int {
    c as int - '0' as int
  }

  function Digit(d: int): (c: char)
    requires 0 <= d <= 9
    ensures IsDigit(c) && DigitValue(c) == d
  {
    ('0' as int + d) as char
  }

  function Digits(status: HttpStatus): string {
    [Digit(status / 100), Digit(status / 10 % 10), Digit(status % 10)]
  }

  const HTTP_FAILURE := "HTTP request failed with status "

  function HttpMessage(status: HttpStatus): string {
    HTTP_FAILURE + Digits(status)
  }

  function BlockMessage(block: TryBlock): string
    requires !block.Call?
  {
    if block.NotAMap? then "try block is not a valid map" else "unsupported task type in try block"
  }

  function Executed(block: TryBlock, response: Response): Execution {
    if !block.Call? then Raised(BlockMessage(block))
    else if response.OpenApi? && !Accepted(block.redirect, response.status) then Raised(HttpMessage(response.status))
    else if response.OpenApi? then Returned(response.body)
    else Returned(response.result)
  }

  // --- Converting errors --------------------------------------------------------------

  /** Three digits between the two texts. */
  predicate MatchAt(text: string, i: nat, before: string, after: string) {
    var k := i + |before|;
    && k + 3 + |after| <= |text| && text[i..k] == before && text[k + 3..k + 3 + |after|] == after
    && IsDigit(text[k]) && IsDigit(text[k + 1]) && IsDigit(text[k + 2])
  }

  /** The number at the leftmost match from the i-th place on. */
  function FirstMatch(text: string, i: nat, before: string, after: string): Option<int>
    decreases |text| - i
  {
    if i >= |text| then None
    else if MatchAt(text, i, before, after) then
      var k := i + |before|;
      Some(DigitValue(text[k]) * 100 + DigitValue(text[k + 1]) * 10 + DigitValue(text[k + 2]))
    else FirstMatch(text, i + 1, before, after)
  }

  /** The three patterns in turn; a fourth of the code is covered by the first. */
  function ExtractStatus(message: string): int {
    var first := FirstMatch(message, 0, "status ", "");
    var second := FirstMatch(message, 0, "HTTP ", "");
    if first.Some? then first.value
    else if second.Some? then second.value
    else FirstMatch(message, 0, "", " status").GetOr(500)
  }

  predicate PartAt(text: string, i: nat, part: string) {
    i + |part| <= |text| && text[i..i + |part|] == part
  }

  predicate Contains(text: string, part: string) {
    exists i | 0 <= i <= |text| :: PartAt(text, i, part)
  }

  const ERRORS := "https://serverlessworkflow.io/spec/1.0.0/errors/"
  const TIMEOUT := ERRORS + "timeout"
  const AUTHENTICATION := ERRORS + "authentication"
  const AUTHORIZATION := ERRORS + "authorization"
  const VALIDATION := ERRORS + "validation"
  const CONFIGURATION := ERRORS + "configuration"
  const EXPRESSION := ERRORS + "expression"
  const COMMUNICATION := ERRORS + "communication"
  const RUNTIME := ERRORS + "runtime"

  function ErrorType(lower: string, status: int): string {
    if Contains(lower, "timeout") || Contains(lower, "deadline") then TIMEOUT
    else if Contains(lower, "unauthorized") || status == 401 then AUTHENTICATION
    else if Contains(lower, "forbidden") || status == 403 then AUTHORIZATION
    else if Contains(lower, "validation") || Contains(lower, "invalid") then VALIDATION
    else if Contains(lower, "configuration") || Contains(lower, "config") then CONFIGURATION
    else if Contains(lower, "expression") then EXPRESSION
    else if Contains(lower, "connection") || Contains(lower, "network") || Contains(lower, "http") || status >= 500
    then COMMUNICATION
    else RUNTIME
  }

  const TITLE := "Task Execution Error"

  /** A plain Go error as the error handler sees it. */
  function Converted(message: string): WorkflowError {
    var status := ExtractStatus(message);
    WorkflowError(ErrorType(ToLower(message), status), status, TITLE, message, "", map[])
  }

  lemma {:induction false} FirstMatchIs(text: string, i: nat, k: nat, before: string, after: string)
    requires i <= k < |text| && MatchAt(text, k, before, after)
    requires forall j | i <= j < k :: !MatchAt(text, j, before, after)
    ensures var d := k + |before|;
            FirstMatch(text, i, before, after)
            == Some(DigitValue(text[d]) * 100 + DigitValue(text[d + 1]) * 10 + DigitValue(text[d + 2]))
    decreases k - i
  {
    if i < k {
      FirstMatchIs(text, i + 1, k, before, after);
    }
  }

  lemma Lacks(text: string, part: string, c: char)
    requires c in part && c !in text
    ensures !Contains(text, part)
  {
    var k :| 0 <= k < |part| && part[k] == c;
    forall i | 0 <= i <= |text| ensures !PartAt(text, i, part) {
      if i + |part| <= |text| {
        assert text[i..i + |part|][k] == text[i + k] && text[i + k] in text;
      }
    }
  }

  lemma DigitsAreDigits(status: HttpStatus)
    ensures forall k | 0 <= k < 3 :: IsDigit(Digits(status)[k])
    ensures DigitValue(Digits(status)[0]) * 100 + DigitValue(Digits(status)[1]) * 10 + DigitValue(Digits(status)[2])
            == status
  {
  }

  lemma HttpStatusIsExtracted(status: HttpStatus)
    ensures ExtractStatus(HttpMessage(status)) == status
  {
    var text := HttpMessage(status);
    DigitsAreDigits(status);
    assert |HTTP_FAILURE| == 32 && HTTP_FAILURE[25..] == "status ";
    assert text[25..32] == "status " && text[35..35] == "";
    assert forall k | 0 <= k < 3 :: text[32 + k] == Digits(status)[k];
    assert forall c | c in HTTP_FAILURE :: !IsDigit(c);
    forall j | 0 <= j < 25 ensures !MatchAt(text, j, "status ", "") {
      assert text[j + 7] == HTTP_FAILURE[j + 7] && HTTP_FAILURE[j + 7] in HTTP_FAILURE;
    }
    FirstMatchIs(text, 0, 25, "status ", "");
  }

  /** The error that a rejected response turns into. */
  function HttpError(status: HttpStatus): WorkflowError {
    WorkflowError(HttpKind(status), status, TITLE, HttpMessage(status), "", map[])
  }

  function HttpKind(status: HttpStatus): string {
    if status == 401 then AUTHENTICATION else if status == 403 then AUTHORIZATION else COMMUNICATION
  }

  lemma LowerHttpMessage(status: HttpStatus)
    ensures var lower := ToLower(HttpMessage(status));
            'n' !in lower && 'm' !in lower && Contains(lower, "http")
  {
    var text, lower := HttpMessage(status), ToLower(HttpMessage(status));
    DigitsAreDigits(status);
    assert forall c | c in HTTP_FAILURE :: c != 'n' && c != 'N' && c != 'm' && c != 'M';
    forall i | 0 <= i < |lower| ensures lower[i] != 'n' && lower[i] != 'm' {
      if i < |HTTP_FAILURE| {
        assert text[i] == HTTP_FAILURE[i] && HTTP_FAILURE[i] in HTTP_FAILURE;
      } else {
        assert text[i] == Digits(status)[i - |HTTP_FAILURE|];
      }
    }
    assert text[0] == 'H' && text[1] == 'T' && text[2] == 'T' && text[3] == 'P';
    assert PartAt(lower, 0, "http");
  }

  /** Converting the message of a rejected response recovers its status, and its type is
      authentication, authorization or communication. */
  lemma HttpErrorIsConverted(status: HttpStatus)
    ensures Converted(HttpMessage(status)) == HttpError(status)
  {
    var lower := ToLower(HttpMessage(status));
    HttpStatusIsExtracted(status);
    LowerHttpMessage(status);
    Lacks(lower, "timeout", 'm');
    Lacks(lower, "deadline", 'n');
    Lacks(lower, "unauthorized", 'n');
    Lacks(lower, "forbidden", 'n');
    Lacks(lower, "validation", 'n');
    Lacks(lower, "invalid", 'n');
    Lacks(lower, "configuration", 'n');
    Lacks(lower, "config", 'n');
    Lacks(lower, "expression", 'n');
  }

  // --- Matching errors ----------------------------------------------------------------

  /** A property of an error; Data(Null) is Go's nil. The status is a Go int, unlike any decoded
      JSON number. */
  datatype Property = Text(s: string) | Whole(n: int) | Data(json: Json)

  function PropertyOf(e: WorkflowError, key: string): Property {
    if key == "type" then Text(e.kind)
    else if key == "status" then Whole(e.status)
    else if key == "title" then Text(e.title)
    else if key == "detail" then Text(e.detail)
    else if key == "instance" then Text(e.instance)
    else if key !in e.data then Data(Null)
    else if e.data[key].Str? then Text(e.data[key].s)
    else Data(e.data[key])
  }

  predicate DeepEqual(actual: Property, expected: Json) {
    match actual
    case Text(s) => expected == Str(s)
    case Whole(_) => false
    case Data(json) => expected == json
  }

  /** `regex(pattern, text)` is Go's regular expression search, false for an invalid pattern. */
  type Regex = (string, string) -> bool

  predicate MatchesValue(regex: Regex, actual: Property, expected: Json) {
    || DeepEqual(actual, expected)
    || (actual != Data(Null) && expected.Arr?
        && exists i | 0 <= i < |expected.items| :: DeepEqual(actual, expected.items[i]))
    || (actual.Text? && expected.Str? && regex(expected.s, actual.s))
  }

  /** An absent filter and an empty one both match every error. */
  predicate Matches(regex: Regex, e: WorkflowError, filter: Fields) {
    forall key | key in filter :: MatchesValue(regex, PropertyOf(e, key), filter[key])
  }

  method MatchValue(regex: Regex, actual: Property, expected: Json) returns (matched: bool)
    ensures matched == MatchesValue(regex, actual, expected)
  {
    if actual == Data(Null) && expected.Null? {
      return true;
    }
    if actual == Data(Null) || expected.Null? {
      return false;
    }
    if DeepEqual(actual, expected) {
      return true;
    }
    if expected.Arr? {
      for i := 0 to |expected.items|
        invariant forall j | 0 <= j < i :: !DeepEqual(actual, expected.items[j])
      {
        if DeepEqual(actual, expected.items[i]) {
          return true;
        }
      }
      return false;
    }
    matched := actual.Text? && expected.Str? && regex(expected.s, actual.s);
  }

  method MatchFilter(regex: Regex, e: WorkflowError, filter: Fields) returns (matched: bool)
    ensures matched == Matches(regex, e, filter)
  {
    var keys := filter.Keys;
    while keys != {}
      invariant keys <= filter.Keys
      invariant forall key | key in filter.Keys - keys :: MatchesValue(regex, PropertyOf(e, key), filter[key])
    {
      var key :| key in keys;
      keys := keys - {key};
      var same := MatchValue(regex, PropertyOf(e, key), filter[key]);
      if !same {
        return false;
      }
    }
    matched := true;
  }

  /** A filter on the status catches nothing: decoded numbers are never equal to Go ints. */
  lemma StatusFilterCatchesNothing(regex: Regex, e: WorkflowError, filter: Fields)
    requires "status" in filter
    ensures !Matches(regex, e, filter)
  {
    assert !MatchesValue(regex, PropertyOf(e, "status"), filter["status"]);
  }

  // --- Handling an error --------------------------------------------------------------

  /** `recovery` names the tasks of `do` in the order the Go map happens to yield them. */
  datatype CatchConfig = CatchConfig(
    errors: Fields, variable: string, retry: Option<Policy>, recovery: seq<string>)

  datatype Handling = Fail | Retry(delay: Option<int>) | Recover | Ignore

  predicate Exceeded(limit: Option<Limit>, attempts: int, elapsed: int) {
    && limit.Some?
    && var attempt := limit.value.attempt;
       || (attempt.Some? && 0 < attempt.value.count <= attempts)
       || 0 < Length(limit.value.duration) <= elapsed
       || (attempt.Some? && 0 < Length(attempt.value.duration) <= elapsed)
  }

  predicate MayRetry(config: CatchConfig, attempts: int, elapsed: int) {
    config.retry.Some? && !Exceeded(config.retry.value.limit, attempts, elapsed)
  }

  function Handled(regex: Regex, config: CatchConfig, e: WorkflowError, attempts: int, elapsed: int, chance: Chance)
    : Handling
  {
    if !Matches(regex, e, config.errors) then Fail
    else if MayRetry(config, attempts, elapsed) then
      Retry(Delay(config.retry.value, attempts, chance))
    else if config.recovery != [] then Recover
    else Ignore
  }

  /** Limits once exceeded stay exceeded. */
  lemma LimitsStayExceeded(limit: Option<Limit>, attempts: int, elapsed: int, attempts': int, elapsed': int)
    requires Exceeded(limit, attempts, elapsed) && attempts <= attempts' && elapsed <= elapsed'
    ensures Exceeded(limit, attempts', elapsed')
  {
  }

  class ErrorContext {
    var error: Option<WorkflowError>
    var attemptCount: int
    var totalDuration: int

    constructor (attemptCount: int)
      ensures error == None && this.attemptCount == attemptCount && totalDuration == 0
    {
      error, this.attemptCount, totalDuration := None, attemptCount, 0;
    }
  }

  method ExceedsRetryLimits(limit: Option<Limit>, ctx: ErrorContext) returns (exceeded: bool)
    ensures exceeded == Exceeded(limit, ctx.attemptCount, ctx.totalDuration)
  {
    if limit.None? {
      return false;
    }
    if limit.value.attempt.Some? && limit.value.attempt.value.count > 0 {
      if ctx.attemptCount >= limit.value.attempt.value.count {
        return true;
      }
    }
    if limit.value.duration.Some? {
      var maxDuration := ToDuration(limit.value.duration);
      if maxDuration > 0 && ctx.totalDuration >= maxDuration {
        return true;
      }
    }
    if limit.value.attempt.Some? && limit.value.attempt.value.duration.Some? {
      var maxAttemptDuration := ToDuration(limit.value.attempt.value.duration);
      if maxAttemptDuration > 0 && ctx.totalDuration >= maxAttemptDuration {
        return true;
      }
    }
    exceeded := false;
  }

  method HandleError(regex: Regex, e: WorkflowError, config: CatchConfig, ctx: ErrorContext, chance: Chance)
    returns (handling: Handling)
    modifies ctx`error
    ensures handling == Handled(regex, config, e, ctx.attemptCount, ctx.totalDuration, chance)
    ensures ctx.error == Some(e)
    ensures handling.Fail? <==> !Matches(regex, e, config.errors)
    ensures handling.Retry?
            <==> Matches(regex, e, config.errors) && MayRetry(config, ctx.attemptCount, ctx.totalDuration)
    ensures handling.Recover? ==> config.recovery != [] && !MayRetry(config, ctx.attemptCount, ctx.totalDuration)
    ensures handling.Ignore? ==> config.recovery == [] && !MayRetry(config, ctx.attemptCount, ctx.totalDuration)
  {
    ctx.error := Some(e);
    var matched := MatchFilter(regex, e, config.errors);
    if !matched {
      return Fail;
    }
    if config.retry.Some? {
      var exceeded := ExceedsRetryLimits(config.retry.value.limit, ctx);
      if !exceeded {
        var delay := CalculateRetryDelay(config.retry.value, ctx.attemptCount, chance);
        return Retry(delay);
      }
    }
    if |config.recovery| > 0 {
      return Recover;
    }
    handling := Ignore;
  }

  // --- Recovery -----------------------------------------------------------------------

  function ErrorResult(message: Message): TaskResult {
    TaskResult(false, map[], message)
  }

  function ErrorData(variable: string, e: WorkflowError): map<string, OutputValue> {
    if variable == "" then map["" := Caught(e), "error" := Caught(e)] else map[variable := Caught(e)]
  }

  /** What the recovery tasks yield. A task is missing if its type has no executor or it ends in
      an error. */
  type Recovery = map<string, TaskResult>

  predicate Recovers(recovery: Recovery, task: string) {
    task in recovery && recovery[task].success
  }

  datatype Recovered = LastResult(result: Option<TaskResult>) | StoppedAt(task: string)

  /** Runs the recovery tasks in turn up to the first that does not succeed. */
  method ExecuteRecoveryTasks(recovery: Recovery, tasks: seq<string>) returns (recovered: Recovered)
    ensures recovered == RecoveredBy(recovery, tasks)
  {
    var lastResult := None;
    for i := 0 to |tasks|
      invariant forall j | 0 <= j < i :: Recovers(recovery, tasks[j])
      invariant lastResult == if i == 0 then None else Some(recovery[tasks[i - 1]])
    {
      if tasks[i] !in recovery || !recovery[tasks[i]].success {
        FirstFailure(recovery, tasks, i);
        return StoppedAt(tasks[i]);
      }
      lastResult := Some(recovery[tasks[i]]);
    }
    NoFailure(recovery, tasks);
    recovered := LastResult(lastResult);
  }

  function RecoveredBy(recovery: Recovery, tasks: seq<string>): Recovered {
    if tasks == [] then LastResult(None)
    else if !Recovers(recovery, tasks[0]) then StoppedAt(tasks[0])
    else if |tasks| == 1 then LastResult(Some(recovery[tasks[0]]))
    else RecoveredBy(recovery, tasks[1..])
  }

  lemma {:induction false} FirstFailure(recovery: Recovery, tasks: seq<string>, i: nat)
    requires i < |tasks| && !Recovers(recovery, tasks[i])
    requires forall j | 0 <= j < i :: Recovers(recovery, tasks[j])
    ensures RecoveredBy(recovery, tasks) == StoppedAt(tasks[i])
  {
    if i > 0 {
      FirstFailure(recovery, tasks[1..], i - 1);
    }
  }

  lemma {:induction false} NoFailure(recovery: Recovery, tasks: seq<string>)
    requires forall j | 0 <= j < |tasks| :: Recovers(recovery, tasks[j])
    ensures tasks == [] ==> RecoveredBy(recovery, tasks) == LastResult(None)
    ensures tasks != [] ==>
              var last := tasks[|tasks| - 1];
              Recovers(recovery, last) && RecoveredBy(recovery, tasks) == LastResult(Some(recovery[last]))
  {
    if |tasks| > 1 {
      NoFailure(recovery, tasks[1..]);
    }
  }

  lemma {:induction false} SomeFailure(recovery: Recovery, tasks: seq<string>)
    requires exists task | task in tasks :: !Recovers(recovery, task)
    ensures RecoveredBy(recovery, tasks).StoppedAt?
  {
    if Recovers(recovery, tasks[0]) {
      assert tasks == [tasks[0]] + tasks[1..];
      SomeFailure(recovery, tasks[1..]);
    }
  }

  // --- The retry loop -----------------------------------------------------------------

  const MAX_ATTEMPTS := 5

  /** One run of the try block, with the time since the start when it ends, the chances of the
      delay, and whether a retry timer can be published. */
  datatype Attempt = Attempt(response: Response, elapsed: int, chance: Chance, published: bool)

  /** Attempts are numbered from one. `config` is None for a catch block that cannot be decoded. */
  datatype Try = Try(
    regex: Regex, block: TryBlock, config: Option<CatchConfig>, script: int -> Attempt, recovery: Recovery)

  function Outcome(t: Try, attempts: int): Execution {
    Executed(t.block, t.script(attempts).response)
  }

  /** The attempt fails with an error that the filter matches. */
  predicate Catches(t: Try, attempts: int)
    requires t.config.Some?
  {
    Outcome(t, attempts).Raised? && Matches(t.regex, Converted(Outcome(t, attempts).message), t.config.value.errors)
  }

  /** The attempt fails with an error that escapes the filter. */
  predicate Escapes(t: Try, attempts: int)
    requires t.config.Some?
  {
    Outcome(t, attempts).Raised? && !Matches(t.regex, Converted(Outcome(t, attempts).message), t.config.value.errors)
  }

  /** How the loop ends after `attempts` attempts, or that it goes on. */
  datatype Verdict = GoOn | Return(result: TaskResult) | Panic

  function VerdictOf(t: Try, attempts: int): Verdict {
    match Outcome(t, attempts)
    case Returned(result) => Return(result)
    case Raised(message) =>
      if t.config.None? then Return(ErrorResult(InvalidCatch))
      else Reaction(t, Converted(message), attempts)
  }

  function Reaction(t: Try, e: WorkflowError, attempts: int): Verdict
    requires t.config.Some?
  {
    var attempt := t.script(attempts);
    match Handled(t.regex, t.config.value, e, attempts, attempt.elapsed, attempt.chance)
    case Fail => GoOn
    case Retry(None) => Panic
    case Retry(Some(delay)) =>
      if delay <= 0 then GoOn
      else if attempt.published then Return(ErrorResult(RetryScheduled(attempts, delay)))
      else Return(ErrorResult(ScheduleFailed))
    case Recover => Return(RecoveryResult(t, e))
    case Ignore => Return(TaskResult(true, ErrorData(t.config.value.variable, e), NoMessage))
  }

  function RecoveryResult(t: Try, e: WorkflowError): TaskResult
    requires t.config.Some?
  {
    match RecoveredBy(t.recovery, t.config.value.recovery)
    case StoppedAt(task) => ErrorResult(RecoveryFailed(task))
    case LastResult(None) => ErrorResult(NoMessage)
    case LastResult(Some(r)) => r.(output := r.output + ErrorData(t.config.value.variable, e))
  }

  datatype Ending = Ending(verdict: Verdict, runs: nat)

  /** The loop, entered with `attempts` made before. */
  function EndedBy(verdict: int -> Verdict, attempts: int): Ending
    decreases MAX_ATTEMPTS - attempts
  {
    var n := attempts + 1;
    if n > MAX_ATTEMPTS then Ending(Return(ErrorResult(MaxAttemptsExceeded(n))), 0)
    else if verdict(n).GoOn? then var rest := EndedBy(verdict, n); rest.(runs := rest.runs + 1)
    else Ending(verdict(n), 1)
  }

  function Verdicts(t: Try): int -> Verdict {
    n => VerdictOf(t, n)
  }

  function Ended(t: Try, attempts: int): Ending {
    EndedBy(Verdicts(t), attempts)
  }

  /** The policy's delay is not positive. */
  predicate NoWait(p: Policy, attempts: int, chance: Chance) {
    Delay(p, attempts, chance).Some? && Delay(p, attempts, chance).value <= 0
  }

  /** A recovery ends in success exactly when every one of its tasks recovers. */
  lemma RecoveryDecides(t: Try, e: WorkflowError)
    requires t.config.Some?
    ensures t.config.value.recovery != [] ==>
              (RecoveryResult(t, e).success
               <==> forall task | task in t.config.value.recovery :: Recovers(t.recovery, task))
  {
    var tasks := t.config.value.recovery;
    if forall task | task in tasks :: Recovers(t.recovery, task) {
      assert forall j | 0 <= j < |tasks| :: tasks[j] in tasks;
      NoFailure(t.recovery, tasks);
    } else {
      SomeFailure(t.recovery, tasks);
    }
  }

  /** The switch over the error handler's answer; its empty case for failure falls out of the
      switch and so goes on. */
  method React(t: Try, e: WorkflowError, ctx: ErrorContext) returns (verdict: Verdict)
    requires t.config.Some? && ctx.totalDuration == t.script(ctx.attemptCount).elapsed
    modifies ctx`error
    ensures verdict == Reaction(t, e, ctx.attemptCount)
    ensures var attempt, config, n := t.script(ctx.attemptCount), t.config.value, ctx.attemptCount;
            var caught := Matches(t.regex, e, config.errors);
            var retried := caught && MayRetry(config, n, attempt.elapsed);
            && (verdict.GoOn? <==> !caught || (retried && NoWait(config.retry.value, n, attempt.chance)))
            && (verdict.Panic? <==> retried && Delay(config.retry.value, n, attempt.chance).None?)
            && (verdict.Return? && retried ==> !verdict.result.success)
            && (caught && !retried ==>
                  verdict.Return?
                  && (verdict.result.success <==> forall task | task in config.recovery :: Recovers(t.recovery, task)))
  {
    RecoveryDecides(t, e);
    var attempt, config := t.script(ctx.attemptCount), t.config.value;
    var handling := HandleError(t.regex, e, config, ctx, attempt.chance);
    match handling {
      case Retry(None) => return Panic;
      case Retry(Some(delay)) =>
        if delay > 0 {
          var message := if attempt.published then RetryScheduled(ctx.attemptCount, delay) else ScheduleFailed;
          return Return(ErrorResult(message));
        }
        return GoOn;
      case Recover =>
        var recovered := ExecuteRecoveryTasks(t.recovery, config.recovery);
        match recovered {
          case StoppedAt(task) => return Return(ErrorResult(RecoveryFailed(task)));
          case LastResult(None) => return Return(ErrorResult(NoMessage));
          case LastResult(Some(r)) => return Return(r.(output := r.output + ErrorData(config.variable, e)));
        }
      case Ignore => return Return(TaskResult(true, ErrorData(config.variable, e), NoMessage));
      case Fail => return GoOn;
    }
  }

  method ExecuteTryBlock(t: Try, initialAttemptCount: int) returns (ending: Ending)
    ensures ending == Ended(t, initialAttemptCount)
  {
    var ctx := new ErrorContext(initialAttemptCount);
    var runs: nat := 0;
    while true
      invariant var rest := Ended(t, ctx.attemptCount);
                Ended(t, initialAttemptCount) == rest.(runs := rest.runs + runs)
      decreases MAX_ATTEMPTS - ctx.attemptCount
    {
      ctx.attemptCount := ctx.attemptCount + 1;
      if ctx.attemptCount > MAX_ATTEMPTS {
        return Ending(Return(ErrorResult(MaxAttemptsExceeded(ctx.attemptCount))), runs);
      }
      runs := runs + 1;
      var attempt := t.script(ctx.attemptCount);
      var execution := Executed(t.block, attempt.response);
      if execution.Returned? {
        return Ending(Return(execution.result), runs);
      }
      ctx.totalDuration := attempt.elapsed;
      if t.config.None? {
        return Ending(Return(ErrorResult(InvalidCatch)), runs);
      }
      var verdict := React(t, Converted(execution.message), ctx);
      if !verdict.GoOn? {
        return Ending(verdict, runs);
      }
    }
  }

  /** The loop runs up to the first attempt that does not go on, and to no more than the fifth. */
  lemma {:induction false} RunsUntilVerdict(verdict: int -> Verdict, attempts: int)
    ensures var (ending, last) := (EndedBy(verdict, attempts), attempts + EndedBy(verdict, attempts).runs);
            && (last <= MAX_ATTEMPTS || ending.runs == 0)
            && (forall n | attempts < n < last :: verdict(n).GoOn?)
            && if ending.runs > 0 && !verdict(last).GoOn?
               then ending.verdict == verdict(last)
               else last >= MAX_ATTEMPTS && ending.verdict == Return(ErrorResult(MaxAttemptsExceeded(last + 1)))
    decreases MAX_ATTEMPTS - attempts
  {
    if attempts < MAX_ATTEMPTS && verdict(attempts + 1).GoOn? {
      RunsUntilVerdict(verdict, attempts + 1);
    }
  }

  /** From a fresh start there is at least one run and there are at most five. */
  lemma RunsAtMostFive(t: Try, attempts: int)
    ensures Ended(t, attempts).runs <= if attempts < MAX_ATTEMPTS then MAX_ATTEMPTS - attempts else 0
    ensures attempts < MAX_ATTEMPTS ==> Ended(t, attempts).runs >= 1
  {
    RunsUntilVerdict(Verdicts(t), attempts);
  }

  lemma RunsToFirstStop(verdict: int -> Verdict, n: int)
    requires 0 < n <= MAX_ATTEMPTS && !verdict(n).GoOn? && forall i | 0 < i < n :: verdict(i).GoOn?
    ensures EndedBy(verdict, 0) == Ending(verdict(n), n)
  {
    RunsUntilVerdict(verdict, 0);
  }

  // --- The attempt limit of the policy ------------------------------------------------

  function AttemptLimitOf(config: CatchConfig): int {
    if config.retry.Some? && config.retry.value.limit.Some? && config.retry.value.limit.value.attempt.Some?
    then config.retry.value.limit.value.attempt.value.count else 0
  }

  ghost predicate KeepsLimit(t: Try, limit: int) {
    Ended(t, 0).runs <= limit
  }

  lemma LimitStops(t: Try, limit: int)
    requires t.config.Some? && limit == AttemptLimitOf(t.config.value) > 0 && !Escapes(t, limit)
    ensures !Verdicts(t)(limit).GoOn?
  {
  }

  lemma EscapingGoesOn(t: Try, n: int)
    requires t.config.Some? && Escapes(t, n)
    ensures Verdicts(t)(n).GoOn?
  {
  }

  lemma StoppedInTime(t: Try, limit: int)
    requires limit > 0 && (limit >= MAX_ATTEMPTS || !Verdicts(t)(limit).GoOn?)
    ensures KeepsLimit(t, limit)
  {
    RunsUntilVerdict(Verdicts(t), 0);
  }

  /** Errors that escape the filter use up all five runs, whatever the policy says, and the
      result does not mention them. */
  lemma UncaughtErrorIsLost(t: Try, attempts: nat)
    requires t.config.Some? && attempts < MAX_ATTEMPTS
    requires forall n | attempts < n <= MAX_ATTEMPTS :: Escapes(t, n)
    ensures Ended(t, attempts)
            == Ending(Return(ErrorResult(MaxAttemptsExceeded(MAX_ATTEMPTS + 1))), MAX_ATTEMPTS - attempts)
  {
    forall n | attempts < n <= MAX_ATTEMPTS ensures Verdicts(t)(n).GoOn? {
      EscapingGoesOn(t, n);
    }
    AllGoOn(Verdicts(t), attempts);
  }

  lemma AllGoOn(verdict: int -> Verdict, attempts: nat)
    requires attempts < MAX_ATTEMPTS && forall n | attempts < n <= MAX_ATTEMPTS :: verdict(n).GoOn?
    ensures EndedBy(verdict, attempts)
            == Ending(Return(ErrorResult(MaxAttemptsExceeded(MAX_ATTEMPTS + 1))), MAX_ATTEMPTS - attempts)
  {
    RunsUntilVerdict(verdict, attempts);
  }

  // --- Which filters let the limit be kept --------------------------------------------

  /** One entry of a filter matches all errors of a call: those of rejected responses. */
  predicate EntryCatchesAll(regex: Regex, redirect: bool, key: string, expected: Json) {
    if key == "type" then
      forall kind | kind in [AUTHENTICATION, AUTHORIZATION, COMMUNICATION] :: MatchesValue(regex, Text(kind), expected)
    else if key == "status" then false
    else if key == "title" then MatchesValue(regex, Text(TITLE), expected)
    else if key == "detail" then
      forall n: HttpStatus | 100 <= n <= 999 && !Accepted(redirect, n) ::
        MatchesValue(regex, Text(HttpMessage(n)), expected)
    else if key == "instance" then MatchesValue(regex, Text(""), expected)
    else expected.Null?
  }

  /** No error of the try block escapes the filter. */
  predicate CatchesAll(regex: Regex, block: TryBlock, filter: Fields) {
    if block.Call? then forall key | key in filter :: EntryCatchesAll(regex, block.redirect, key, filter[key])
    else Matches(regex, Converted(BlockMessage(block)), filter)
  }

  lemma EntryCatchesError(regex: Regex, redirect: bool, key: string, expected: Json, n: HttpStatus)
    requires EntryCatchesAll(regex, redirect, key, expected) && !Accepted(redirect, n)
    ensures MatchesValue(regex, PropertyOf(HttpError(n), key), expected)
  {
    assert HttpKind(n) in [AUTHENTICATION, AUTHORIZATION, COMMUNICATION];
  }

  /** An entry that does not match all errors fails on some rejected response. */
  lemma EntryMissesError(regex: Regex, redirect: bool, key: string, expected: Json) returns (n: HttpStatus)
    requires !EntryCatchesAll(regex, redirect, key, expected)
    ensures !Accepted(redirect, n) && !MatchesValue(regex, PropertyOf(HttpError(n), key), expected)
  {
    n := 500;
    if key == "type" {
      n := if !MatchesValue(regex, Text(AUTHENTICATION), expected) then 401
           else if !MatchesValue(regex, Text(AUTHORIZATION), expected) then 403 else 500;
    } else if key == "detail" {
      n :| 100 <= n <= 999 && !Accepted(redirect, n) && !MatchesValue(regex, Text(HttpMessage(n)), expected);
    }
  }

  lemma CaughtIfCatchesAll(t: Try, n: int)
    requires t.config.Some? && CatchesAll(t.regex, t.block, t.config.value.errors)
    ensures !Escapes(t, n)
  {
    var filter, response := t.config.value.errors, t.script(n).response;
    if t.block.Call? && response.OpenApi? && !Accepted(t.block.redirect, response.status) {
      HttpErrorIsConverted(response.status);
      forall key | key in filter
        ensures MatchesValue(t.regex, PropertyOf(HttpError(response.status), key), filter[key])
      {
        EntryCatchesError(t.regex, t.block.redirect, key, filter[key], response.status);
      }
    }
  }

  /** A response whose error escapes the filter. */
  lemma EscapingResponse(regex: Regex, block: TryBlock, filter: Fields) returns (response: Response)
    requires !CatchesAll(regex, block, filter)
    ensures var execution := Executed(block, response);
            execution.Raised? && !Matches(regex, Converted(execution.message), filter)
  {
    if block.Call? {
      var key :| key in filter && !EntryCatchesAll(regex, block.redirect, key, filter[key]);
      var n := EntryMissesError(regex, block.redirect, key, filter[key]);
      HttpErrorIsConverted(n);
      response := OpenApi(n, ErrorResult(NoMessage));
    } else {
      response := Result(ErrorResult(NoMessage));
    }
  }

  lemma LimitIsKept(t: Try, limit: int)
    requires t.config.Some? && limit == AttemptLimitOf(t.config.value) > 0
    requires limit >= MAX_ATTEMPTS || CatchesAll(t.regex, t.block, t.config.value.errors)
    ensures KeepsLimit(t, limit)
  {
    if limit < MAX_ATTEMPTS {
      CaughtIfCatchesAll(t, limit);
      LimitStops(t, limit);
    }
    StoppedInTime(t, limit);
  }

  lemma LimitIsBroken(t: Try, limit: int)
    requires t.config.Some? && limit < MAX_ATTEMPTS && forall n | 0 < n <= MAX_ATTEMPTS :: Escapes(t, n)
    ensures !KeepsLimit(t, limit)
  {
    UncaughtErrorIsLost(t, 0);
  }

  /** An attempt limit is kept for every sequence of responses if and only if it is five or more or
      every entry of the filter matches all errors of the try block: an error that escapes the
      filter does not end the loop. */
  lemma {:induction false} AttemptLimitIsKeptIff(
    regex: Regex, block: TryBlock, config: CatchConfig, recovery: Recovery, limit: int)
    requires limit == AttemptLimitOf(config) > 0
    ensures (forall script: int -> Attempt :: KeepsLimit(Try(regex, block, Some(config), script, recovery), limit))
            <==> limit >= MAX_ATTEMPTS || CatchesAll(regex, block, config.errors)
  {
    if limit >= MAX_ATTEMPTS || CatchesAll(regex, block, config.errors) {
      forall script: int -> Attempt ensures KeepsLimit(Try(regex, block, Some(config), script, recovery), limit) {
        LimitIsKept(Try(regex, block, Some(config), script, recovery), limit);
      }
    } else {
      var response := EscapingResponse(regex, block, config.errors);
      var script := (n: int) => Attempt(response, 0, Chance(0, 0), true);
      LimitIsBroken(Try(regex, block, Some(config), script, recovery), limit);
    }
  }

  /** A filter for authentication errors and a service that is unavailable: five runs instead of
      the three allowed, and the 503 is not in the result. */
  lemma UnavailableServiceIsLost(t: Try)
    requires t.block.Call? && t.config.Some? && t.config.value.errors == map["type" := Str(AUTHENTICATION)]
    requires !t.regex(AUTHENTICATION, COMMUNICATION) && AttemptLimitOf(t.config.value) == 3
    requires forall n | 0 < n <= MAX_ATTEMPTS :: t.script(n).response.OpenApi? && t.script(n).response.status == 503
    ensures Ended(t, 0) == Ending(Return(ErrorResult(MaxAttemptsExceeded(6))), 5) && !KeepsLimit(t, 3)
  {
    HttpErrorIsConverted(503);
    DifferentTypes();
    assert !MatchesValue(t.regex, PropertyOf(HttpError(503), "type"), t.config.value.errors["type"]);
    UncaughtErrorIsLost(t, 0);
  }

  lemma DifferentTypes()
    ensures AUTHENTICATION != COMMUNICATION
  {
    assert AUTHENTICATION[|ERRORS|] == 'a' && COMMUNICATION[|ERRORS|] == 'c';
  }

  // --- Exhausted retries --------------------------------------------------------------

  /** When retries without delay first meet an exceeded limit of any kind, that attempt is the last,
      and the task fails if and only if some recovery task does not succeed: exhausted retries of
      a caught error are no failure. */
  lemma ExhaustedRetriesSucceedIff(t: Try, n: int)
    requires t.config.Some? && t.config.value.retry.Some? && 0 < n <= MAX_ATTEMPTS
    requires forall i | 0 < i < n :: VerdictOf(t, i).GoOn?
    requires Catches(t, n) && Exceeded(t.config.value.retry.value.limit, n, t.script(n).elapsed)
    ensures Ended(t, 0).runs == n && Ended(t, 0).verdict.Return?
    ensures Ended(t, 0).verdict.result.success
            <==> forall task | task in t.config.value.recovery :: Recovers(t.recovery, task)
  {
    RunsToFirstStop(Verdicts(t), n);
    RecoveryDecides(t, Converted(Outcome(t, n).message));
  }

  /** Three attempts allowed, no delay, no recovery, and a service that answers 503 every time:
      the task is reported successful, with the error as its output. */
  lemma UnavailableServiceSucceeds(t: Try)
    requires t.block.Call? && t.config == Some(CatchConfig(map[], "", Some(ThreeAttempts()), []))
    requires forall n | 0 < n <= 3 :: t.script(n).response.OpenApi? && t.script(n).response.status == 503
    ensures Ended(t, 0) == Ending(Return(TaskResult(true, ErrorData("", HttpError(503)), NoMessage)), 3)
  {
    HttpErrorIsConverted(503);
    assert forall n | 0 < n <= 3 :: Catches(t, n);
    assert VerdictOf(t, 1).GoOn? && VerdictOf(t, 2).GoOn?;
    RunsToFirstStop(Verdicts(t), 3);
  }

  function ThreeAttempts(): Policy {
    Policy(Some(Limit(Some(AttemptLimit(3, None)), None)), None, None, None)
  }

  // --- Put-off retries ----------------------------------------------------------------

  /** A try task apart from what happens to it. */
  datatype TryTask = TryTask(regex: Regex, block: TryBlock, config: Option<CatchConfig>)

  function Attempted(task: TryTask, script: int -> Attempt, recovery: Recovery): Try {
    Try(task.regex, task.block, task.config, script, recovery)
  }

  /** The attempt publishes a retry timer. */
  predicate Schedules(t: Try, n: int) {
    var attempt := t.script(n);
    && Outcome(t, n).Raised? && t.config.Some? && attempt.published
    && var handling :=
         Handled(t.regex, t.config.value, Converted(Outcome(t, n).message), n, attempt.elapsed, attempt.chance);
       handling.Retry? && handling.delay.Some? && handling.delay.value > 0
  }

  /** The loop ends with a retry timer. */
  predicate EndsPutOff(t: Try, attempts: int) {
    Ended(t, attempts).runs > 0 && Schedules(t, attempts + Ended(t, attempts).runs)
  }

  /** Some responses make the task put off a retry. */
  ghost predicate PutsOff(task: TryTask) {
    exists script: int -> Attempt, recovery, attempts: nat :: EndsPutOff(Attempted(task, script, recovery), attempts)
  }

  /** Some error of the try block is caught. */
  predicate CatchesSome(regex: Regex, block: TryBlock, filter: Fields) {
    if block.Call?
    then exists n: HttpStatus | 100 <= n <= 999 && !Accepted(block.redirect, n) :: Matches(regex, HttpError(n), filter)
    else Matches(regex, Converted(BlockMessage(block)), filter)
  }

  /** The policy lets the n-th attempt wait for a positive time. */
  ghost predicate MayWait(p: Policy, n: int) {
    !Exceeded(p.limit, n, 0) && exists chance :: Waits(p, n, chance)
  }

  predicate Waits(p: Policy, n: int, chance: Chance) {
    Delay(p, n, chance).Some? && Delay(p, n, chance).value > 0
  }

  /** A try task puts off a retry, for some responses, exactly when it catches some error and its
      policy lets one of the five attempts wait. */
  lemma PutsOffIff(task: TryTask)
    ensures PutsOff(task) <==> CanPutOff(task)
  {
    if PutsOff(task) {
      var script: int -> Attempt, recovery, attempts: nat :| EndsPutOff(Attempted(task, script, recovery), attempts);
      PutOffIsPossible(task, Attempted(task, script, recovery), attempts);
    }
    if CanPutOff(task) {
      var p := task.config.value.retry.value;
      var n :| 1 <= n <= MAX_ATTEMPTS && MayWait(p, n);
      var first := FirstWait(p, n);
      WaitIsPutOff(task, first);
    }
  }

  ghost predicate CanPutOff(task: TryTask) {
    && task.config.Some? && task.config.value.retry.Some?
    && CatchesSome(task.regex, task.block, task.config.value.errors)
    && exists n | 1 <= n <= MAX_ATTEMPTS :: MayWait(task.config.value.retry.value, n)
  }

  lemma PutOffIsPossible(task: TryTask, t: Try, attempts: nat)
    requires t == Attempted(task, t.script, t.recovery) && EndsPutOff(t, attempts)
    ensures CanPutOff(task)
  {
    var n := attempts + Ended(t, attempts).runs;
    RunsUntilVerdict(Verdicts(t), attempts);
    ScheduledCanPutOff(task, t, n);
  }

  lemma ScheduledCanPutOff(task: TryTask, t: Try, n: int)
    requires t == Attempted(task, t.script, t.recovery) && 1 <= n <= MAX_ATTEMPTS && Schedules(t, n)
    ensures CanPutOff(task)
  {
    CaughtError(t, n);
    ScheduledWaits(t, n);
  }

  lemma ScheduledWaits(t: Try, n: int)
    requires Schedules(t, n)
    ensures t.config.Some? && t.config.value.retry.Some? && MayWait(t.config.value.retry.value, n)
  {
    assert Waits(t.config.value.retry.value, n, t.script(n).chance);
  }

  lemma CaughtError(t: Try, n: int)
    requires Schedules(t, n)
    ensures CatchesSome(t.regex, t.block, t.config.value.errors)
  {
    if t.block.Call? {
      HttpErrorIsConverted(t.script(n).response.status);
    }
  }

  lemma {:induction false} FirstWait(p: Policy, n: int) returns (first: int)
    requires 1 <= n && MayWait(p, n)
    ensures 1 <= first <= n && MayWait(p, first) && forall i | 1 <= i < first :: !MayWait(p, i)
    decreases n
  {
    if i :| 1 <= i < n && MayWait(p, i) {
      first := FirstWait(p, i);
    } else {
      first := n;
    }
  }

  lemma CaughtResponse(task: TryTask) returns (response: Response)
    requires task.config.Some? && CatchesSome(task.regex, task.block, task.config.value.errors)
    ensures var execution := Executed(task.block, response);
            execution.Raised? && Matches(task.regex, Converted(execution.message), task.config.value.errors)
  {
    response := Result(ErrorResult(NoMessage));
    if task.block.Call? {
      var n: HttpStatus :| 100 <= n <= 999 && !Accepted(task.block.redirect, n)
                           && Matches(task.regex, HttpError(n), task.config.value.errors);
      HttpErrorIsConverted(n);
      response := OpenApi(n, ErrorResult(NoMessage));
    }
  }

  lemma WaitIsPutOff(task: TryTask, n: int)
    requires task.config.Some? && task.config.value.retry.Some? && 1 <= n <= MAX_ATTEMPTS
    requires CatchesSome(task.regex, task.block, task.config.value.errors)
    requires var p := task.config.value.retry.value; MayWait(p, n) && forall i | 1 <= i < n :: !MayWait(p, i)
    ensures PutsOff(task)
  {
    var p := task.config.value.retry.value;
    var response := CaughtResponse(task);
    var chance := AnyWait(p, n);
    var t := Attempted(task, (i: int) => Attempt(response, 0, chance, true), map[]);
    forall i | 0 < i < n ensures Verdicts(t)(i).GoOn? {
      EarlierDoesNotWait(p, i, n, chance);
    }
    RunsToFirstStop(Verdicts(t), n);
    assert EndsPutOff(t, 0);
  }

  lemma AnyWait(p: Policy, n: int) returns (chance: Chance)
    requires MayWait(p, n)
    ensures Waits(p, n, chance)
  {
    chance :| Waits(p, n, chance);
  }

  /** Whether jitter panics does not depend on the attempt. */
  lemma EarlierDoesNotWait(p: Policy, i: int, n: int, chance: Chance)
    requires i < n && !MayWait(p, i) && Waits(p, n, chance) && !Exceeded(p.limit, n, 0)
    ensures !Exceeded(p.limit, i, 0) && NoWait(p, i, chance)
  {
    if Exceeded(p.limit, i, 0) {
      LimitsStayExceeded(p.limit, i, 0, n, 0);
    }
    assert !Waits(p, i, chance);
    if p.jitter.Some? {
      JitterPanicsIff(Steady(p, i, chance.otherwise), p.jitter.value, chance.draw);
      JitterPanicsIff(Steady(p, n, chance.otherwise), p.jitter.value, chance.draw);
    }
  }

  /** With a fixed delay alone: if the delay is positive and more than one attempt is allowed. */
  lemma FixedDelayPutsOffIff(task: TryTask, limit: Option<Limit>, delay: Duration)
    requires task.config.Some? && task.config.value.retry == Some(Policy(limit, Some(delay), None, None))
    ensures PutsOff(task)
            <==> CatchesSome(task.regex, task.block, task.config.value.errors)
                 && Length(Some(delay)) > 0 && !Exceeded(limit, 1, 0)
  {
    var p := task.config.value.retry.value;
    PutsOffIff(task);
    assert forall n, chance :: Waits(p, n, chance) <==> Length(Some(delay)) > 0;
    if n :| 1 <= n <= MAX_ATTEMPTS && MayWait(p, n) {
      if Exceeded(limit, 1, 0) {
        LimitsStayExceeded(limit, 1, 0, n, 0);
      }
    }
    if Length(Some(delay)) > 0 && !Exceeded(limit, 1, 0) {
      assert Waits(p, 1, Chance(0, 0));
      assert MayWait(p, 1);
    }
  }
}
