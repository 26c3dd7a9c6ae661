/** What a try task comes back with, for every way in which its last attempt ends, and which values
    a catch filter matches. */
module TryResults {
  import opened Values
  import opened Backoff
  import opened Retry

  // --- The attempts before the last ---------------------------------------------------

  /** The attempt fails and the loop goes on: its error escapes the filter, or is retried at once. */
  predicate GoesOnAt(t: Try, i: int) {
    && t.config.Some?
    && (Escapes(t, i)
        || (Catches(t, i) && RetriedAt(t, i) && NoWait(t.config.value.retry.value, i, t.script(i).chance)))
  }

  /** The policy allows one more attempt. */
  predicate RetriedAt(t: Try, i: int)
    requires t.config.Some?
  {
    t.config.value.retry.Some? && !Exceeded(t.config.value.retry.value.limit, i, t.script(i).elapsed)
  }

  predicate GoOnBetween(t: Try, a: int, n: int) {
    a < n <= 5 && forall i | a < i < n :: GoesOnAt(t, i)
  }

  lemma LastAttemptDecides(t: Try, a: int, n: int)
    requires GoOnBetween(t, a, n) && !VerdictOf(t, n).GoOn?
    ensures Ended(t, a) == Ending(VerdictOf(t, n), n - a)
  {
    forall i | a < i < n ensures Verdicts(t)(i).GoOn? {
      GoesOn(t, i);
    }
    StopsFirst(Verdicts(t), a, n);
  }

  lemma GoesOn(t: Try, i: int)
    requires GoesOnAt(t, i)
    ensures VerdictOf(t, i).GoOn?
  {
  }

  lemma StopsFirst(verdict: int -> Verdict, a: int, n: int)
    requires a < n <= 5 && !verdict(n).GoOn? && forall i | a < i < n :: verdict(i).GoOn?
    ensures EndedBy(verdict, a) == Ending(verdict(n), n - a)
  {
    RunsUntilVerdict(verdict, a);
  }

  // --- Calls that come back -----------------------------------------------------------

  /** The call comes back with this result and no Go error. */
  predicate ComesBack(t: Try, n: int, r: TaskResult) {
    && t.block.Call?
    && match t.script(n).response
       case Result(result) => result == r
       case OpenApi(status, body) =>
         body == r && 200 <= status && (status < 300 || (t.block.redirect && status < 400))
  }

  /** The call is answered with a status that is an error. */
  predicate Rejected(t: Try, n: int, status: HttpStatus) {
    && t.block.Call? && t.script(n).response.OpenApi? && t.script(n).response.status == status
    && (status < 200 || status >= 400 || (status >= 300 && !t.block.redirect))
  }

  /** The result of the first call that comes back is the result of the try task, successful or not. */
  lemma ReturnedResultIsKept(t: Try, a: int, n: int, r: TaskResult)
    requires GoOnBetween(t, a, n) && ComesBack(t, n, r)
    ensures Ended(t, a) == Ending(Return(r), n - a)
  {
    LastAttemptDecides(t, a, n);
  }

  /** A rejected call fails with the error of its status. */
  lemma RejectedIsRaised(t: Try, n: int, status: HttpStatus)
    requires Rejected(t, n, status)
    ensures Outcome(t, n).Raised? && Converted(Outcome(t, n).message) == HttpError(status)
  {
    HttpErrorIsConverted(status);
  }

  /** A try block that is no call fails every time, with an error 500 that says why. */
  lemma OtherBlocksFail(t: Try, n: int)
    requires !t.block.Call?
    ensures Outcome(t, n)
            == Raised(if t.block.NotAMap? then "try block is not a valid map" else "unsupported task type in try block")
    ensures Converted(Outcome(t, n).message).status == 500
  {
    BlockMessageHasNoDigits(t.block);
    WithoutDigits(BlockMessage(t.block));
  }

  lemma BlockMessageHasNoDigits(block: TryBlock)
    requires !block.Call?
    ensures forall c | c in BlockMessage(block) :: !IsDigit(c)
  {
    assert forall c | c in "try block is not a valid map" :: !IsDigit(c);
    assert forall c | c in "unsupported task type in try block" :: !IsDigit(c);
  }

  /** The error's text is the message that the client writes for the status. */
  lemma RejectedSays(n: HttpStatus)
    ensures HttpError(503).detail == "HTTP request failed with status 503"
    ensures HttpError(n).detail[..32] == "HTTP request failed with status " && |HttpError(n).detail| == 35
    ensures HttpError(n).status == n && HttpError(n).title == "Task Execution Error" && HttpError(n).instance == ""
  {
    assert Digits(503) == "503";
  }

  // --- Calls that fail ----------------------------------------------------------------

  /** Without a catch block that decodes, the first failure is the last. */
  lemma InvalidCatchEnds(t: Try, a: int)
    requires a < 5 && t.config.None? && Outcome(t, a + 1).Raised?
    ensures Ended(t, a) == Ending(Return(TaskResult(false, map[], InvalidCatch)), 1)
  {
    LastAttemptDecides(t, a, a + 1);
  }

  /** A caught error whose retry has to wait ends the loop without success; the result says when the
      retry comes, or that it could not be scheduled. */
  lemma PutOffResult(t: Try, a: int, n: int, delay: int)
    requires GoOnBetween(t, a, n) && t.config.Some? && Catches(t, n) && RetriedAt(t, n) && delay > 0
    requires Delay(t.config.value.retry.value, n, t.script(n).chance) == Some(delay)
    ensures Ended(t, a)
            == Ending(Return(TaskResult(false, map[], if t.script(n).published then RetryScheduled(n, delay)
                                                      else ScheduleFailed)), n - a)
  {
    LastAttemptDecides(t, a, n);
  }

  /** The error is under the catch variable, and also under `error` when the variable has no name;
      everything else is as it was. */
  ghost predicate HoldsError(
    output: map<string, OutputValue>, variable: string, e: WorkflowError, before: map<string, OutputValue>)
  {
    && variable in output && output[variable] == Caught(e)
    && (variable == "" ==> "error" in output && output["error"] == Caught(e))
    && forall key | key != variable && (variable == "" ==> key != "error") ::
         (key in output <==> key in before) && (key in output ==> output[key] == before[key])
  }

  lemma ErrorDataIsHeld(variable: string, e: WorkflowError, before: map<string, OutputValue>)
    ensures HoldsError(before + ErrorData(variable, e), variable, e, before)
    ensures HoldsError(ErrorData(variable, e), variable, e, map[])
  {
  }

  /** A caught error that is neither retried nor recovered from ends in success, and all there is in
      the output is the error. */
  lemma IgnoredResult(t: Try, a: int, n: int)
    requires GoOnBetween(t, a, n) && t.config.Some? && Catches(t, n) && !RetriedAt(t, n)
    requires t.config.value.recovery == []
    ensures Ended(t, a).runs == n - a && Ended(t, a).verdict.Return?
    ensures var r := Ended(t, a).verdict.result;
            r.success && r.message == NoMessage
            && HoldsError(r.output, t.config.value.variable, Converted(Outcome(t, n).message), map[])
  {
    LastAttemptDecides(t, a, n);
    ErrorDataIsHeld(t.config.value.variable, Converted(Outcome(t, n).message), map[]);
  }

  /** If all recovery tasks recover, the result is that of the last one, with the error added. */
  lemma RecoveredResult(t: Try, a: int, n: int)
    requires GoOnBetween(t, a, n) && t.config.Some? && Catches(t, n) && !RetriedAt(t, n)
    requires var tasks := t.config.value.recovery;
             tasks != [] && forall i | 0 <= i < |tasks| :: Recovers(t.recovery, tasks[i])
    ensures Ended(t, a).runs == n - a && Ended(t, a).verdict.Return?
    ensures var tasks, r := t.config.value.recovery, Ended(t, a).verdict.result;
            var last := t.recovery[tasks[|tasks| - 1]];
            r.success && r.message == last.message
            && HoldsError(r.output, t.config.value.variable, Converted(Outcome(t, n).message), last.output)
  {
    var tasks := t.config.value.recovery;
    LastAttemptDecides(t, a, n);
    NoFailure(t.recovery, tasks);
    ErrorDataIsHeld(t.config.value.variable, Converted(Outcome(t, n).message),
                    t.recovery[tasks[|tasks| - 1]].output);
  }

  /** Otherwise the first that does not recover is the failure. */
  lemma FailedRecoveryResult(t: Try, a: int, n: int, i: nat)
    requires GoOnBetween(t, a, n) && t.config.Some? && Catches(t, n) && !RetriedAt(t, n)
    requires var tasks := t.config.value.recovery;
             i < |tasks| && !Recovers(t.recovery, tasks[i]) && forall k | 0 <= k < i :: Recovers(t.recovery, tasks[k])
    ensures Ended(t, a)
            == Ending(Return(TaskResult(false, map[], RecoveryFailed(t.config.value.recovery[i]))), n - a)
  {
    FirstFailure(t.recovery, t.config.value.recovery, i);
    LastAttemptDecides(t, a, n);
  }

  /** A delay that cannot be drawn ends the loop in a panic. */
  lemma PanicEnds(t: Try, a: int, n: int)
    requires GoOnBetween(t, a, n) && t.config.Some? && Catches(t, n) && RetriedAt(t, n)
    requires Delay(t.config.value.retry.value, n, t.script(n).chance) == None
    ensures Ended(t, a) == Ending(Panic, n - a)
  {
    LastAttemptDecides(t, a, n);
  }

  /** After five attempts that all go on, the result says that they are used up. */
  lemma AttemptsAreUsedUp(t: Try, a: int)
    requires a < 5 && forall i | a < i <= 5 :: GoesOnAt(t, i)
    ensures Ended(t, a) == Ending(Return(TaskResult(false, map[], MaxAttemptsExceeded(6))), 5 - a)
  {
    forall i | a < i <= 5 ensures Verdicts(t)(i).GoOn? {
      GoesOn(t, i);
    }
    RunsUntilVerdict(Verdicts(t), a);
  }

  // --- Converted errors ---------------------------------------------------------------

  lemma {:induction false} NoMatch(text: string, i: nat, before: string, after: string)
    requires forall k | i <= k < |text| :: !MatchAt(text, k, before, after)
    ensures FirstMatch(text, i, before, after) == None
    decreases |text| - i
  {
    if i < |text| {
      NoMatch(text, i + 1, before, after);
    }
  }

  /** A message without digits is an error 500. */
  lemma WithoutDigits(text: string)
    requires forall c | c in text :: !IsDigit(c)
    ensures ExtractStatus(text) == 500
  {
    NoMatch(text, 0, "status ", "");
    NoMatch(text, 0, "HTTP ", "");
    NoMatch(text, 0, "", " status");
  }

  /** The status is also found behind `HTTP` and before `status`. */
  lemma OtherStatuses(n: HttpStatus)
    ensures ExtractStatus("HTTP " + Digits(n)) == n
    ensures ExtractStatus(Digits(n) + " status") == n
  {
    var behind, front := "HTTP " + Digits(n), Digits(n) + " status";
    DigitsAreDigits(n);
    NoMatch(behind, 0, "status ", "");
    assert behind[0..5] == "HTTP " && behind[8..8] == "";
    assert forall k | 0 <= k < 3 :: behind[5 + k] == Digits(n)[k] && front[k] == Digits(n)[k];
    assert front[0] != 's' && front[0..7][0] == front[0] && "status "[0] == 's';
    NoMatch(front, 0, "status ", "");
    forall k | 0 <= k < |front| ensures !MatchAt(front, k, "HTTP ", "") {
      NoCapital(front, k, n);
    }
    NoMatch(front, 0, "HTTP ", "");
    assert front[0..0] == "" && front[3..10] == " status";
  }

  lemma NoCapital(text: string, k: nat, n: HttpStatus)
    requires text == Digits(n) + " status" && k < |text|
    ensures !MatchAt(text, k, "HTTP ", "")
  {
    DigitsAreDigits(n);
    assert k < 3 ==> text[k] == Digits(n)[k];
    assert k >= 3 ==> text[k] == " status"[k - 3];
    assert "HTTP "[0] == 'H';
    assert k + 5 <= |text| ==> text[k..k + 5][0] == text[k];
  }

  /** Words that decide the type of an error, the first class going before the others. */
  const CLASSES: seq<(seq<string>, string)> :=
    [(["timeout", "deadline"], TIMEOUT), (["unauthorized"], AUTHENTICATION), (["forbidden"], AUTHORIZATION),
     (["validation", "invalid"], VALIDATION), (["configuration", "config"], CONFIGURATION),
     (["expression"], EXPRESSION), (["connection", "network", "http"], COMMUNICATION)]

  predicate HasWord(lower: string, words: seq<string>) {
    exists i | 0 <= i < |words| :: Contains(lower, words[i])
  }

  /** In a message whose status is neither 401 nor 403, the first class with a word in it decides;
      without any, the status does. Letter case does not matter. */
  lemma FirstClassDecides(message: string, c: nat)
    requires ExtractStatus(message) != 401 && ExtractStatus(message) != 403
    requires c <= |CLASSES| && forall k | 0 <= k < c :: !HasWord(ToLower(message), CLASSES[k].0)
    requires c < |CLASSES| ==> HasWord(ToLower(message), CLASSES[c].0)
    ensures Converted(message).kind
            == if c < |CLASSES| then CLASSES[c].1 else if ExtractStatus(message) >= 500 then COMMUNICATION else RUNTIME
  {
    var lower := ToLower(message);
    WordsOf(lower, "timeout", "deadline", "");
    WordsOf(lower, "unauthorized", "", "");
    WordsOf(lower, "forbidden", "", "");
    WordsOf(lower, "validation", "invalid", "");
    WordsOf(lower, "configuration", "config", "");
    WordsOf(lower, "expression", "", "");
    WordsOf(lower, "connection", "network", "http");
    assert CLASSES[0].0 == ["timeout", "deadline"] && CLASSES[1].0 == ["unauthorized"];
    assert CLASSES[2].0 == ["forbidden"] && CLASSES[3].0 == ["validation", "invalid"];
    assert CLASSES[4].0 == ["configuration", "config"] && CLASSES[5].0 == ["expression"];
    assert CLASSES[6].0 == ["connection", "network", "http"] && |CLASSES| == 7;
  }

  lemma WordsOf(lower: string, a: string, b: string, c: string)
    ensures HasWord(lower, [a]) <==> Contains(lower, a)
    ensures HasWord(lower, [a, b]) <==> Contains(lower, a) || Contains(lower, b)
    ensures HasWord(lower, [a, b, c]) <==> Contains(lower, a) || Contains(lower, b) || Contains(lower, c)
  {
    assert [a][0] == a && [a, b][0] == a && [a, b][1] == b;
    assert [a, b, c][0] == a && [a, b, c][1] == b && [a, b, c][2] == c;
  }

  // --- Limits -------------------------------------------------------------------------

  /** Whether the value is given and positive, and reached. */
  predicate Reached(bound: Option<Duration>, elapsed: int) {
    bound.Some? && 0 < Length(bound) <= elapsed
  }

  lemma ExceededIff(count: int, attempt: Option<Duration>, total: Option<Duration>, n: int, elapsed: int)
    ensures !Exceeded(None, n, elapsed)
    ensures Exceeded(Some(Limit(None, total)), n, elapsed) <==> Reached(total, elapsed)
    ensures Exceeded(Some(Limit(Some(AttemptLimit(count, attempt)), total)), n, elapsed)
            <==> (count > 0 && n >= count) || Reached(total, elapsed) || Reached(attempt, elapsed)
  {
  }

  // --- What a filter matches ----------------------------------------------------------

  /** A text matches itself, a pattern found in it, and a list that contains it. */
  lemma TextMatches(regex: Regex, s: string, expected: Json)
    ensures MatchesValue(regex, Text(s), expected)
            <==> (expected.Str? && (expected.s == s || regex(expected.s, s)))
                 || (expected.Arr? && Str(s) in expected.items)
  {
  }

  /** Any other value of the data matches its equal and a list that contains it; no value at all
      matches null only; a status matches nothing. */
  lemma OtherMatches(regex: Regex, value: Json, status: int, expected: Json)
    ensures value != Null ==>
              (MatchesValue(regex, Data(value), expected) <==>
               expected == value || (expected.Arr? && value in expected.items))
    ensures MatchesValue(regex, Data(Null), expected) <==> expected == Null
    ensures !MatchesValue(regex, Whole(status), expected)
  {
  }

  predicate MatchesText(regex: Regex, actual: string, expected: string) {
    expected == actual || regex(expected, actual)
  }

  /** A filter with one entry asks for the property of that name. */
  lemma FilterAsks(regex: Regex, e: WorkflowError, text: string)
    ensures Matches(regex, e, map["type" := Str(text)]) <==> MatchesText(regex, e.kind, text)
    ensures Matches(regex, e, map["title" := Str(text)]) <==> MatchesText(regex, e.title, text)
    ensures Matches(regex, e, map["detail" := Str(text)]) <==> MatchesText(regex, e.detail, text)
    ensures Matches(regex, e, map["instance" := Str(text)]) <==> MatchesText(regex, e.instance, text)
  {
    OneEntry(regex, e, "type", Str(text));
    OneEntry(regex, e, "title", Str(text));
    OneEntry(regex, e, "detail", Str(text));
    OneEntry(regex, e, "instance", Str(text));
  }

  lemma OneEntry(regex: Regex, e: WorkflowError, key: string, expected: Json)
    ensures Matches(regex, e, map[key := expected]) <==> MatchesValue(regex, PropertyOf(e, key), expected)
  {
    assert key in map[key := expected];
  }

  /** Under any other name it asks for the error's data, and several entries all have to match. */
  lemma DataFilterAsks(regex: Regex, e: WorkflowError, key: string, expected: Json)
    requires key !in ["type", "status", "title", "detail", "instance"]
    ensures Matches(regex, e, map[key := expected])
            <==> if key !in e.data then expected == Null
                 else if e.data[key].Str? then MatchesValue(regex, Text(e.data[key].s), expected)
                 else MatchesValue(regex, Data(e.data[key]), expected)
  {
    OneEntry(regex, e, key, expected);
    OtherMatches(regex, Null, 0, expected);
  }

  lemma FiltersTogether(regex: Regex, e: WorkflowError, one: Fields, other: Fields)
    requires one.Keys !! other.Keys
    ensures Matches(regex, e, one + other) <==> Matches(regex, e, one) && Matches(regex, e, other)
    ensures Matches(regex, e, map[])
  {
    assert forall key | key in one :: key in one + other && (one + other)[key] == one[key];
    assert forall key | key in other :: key in one + other && (one + other)[key] == other[key];
  }
}
