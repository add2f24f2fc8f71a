/** The generate-execute-repair loop of `SQLGenerator.generate_sql`, with
    `_generate_with_openai` as one attempt's generation step.

    What the loop cannot see is an oracle in `Env`, indexed by the attempt
    number (`retry_count`): the schema read at that attempt, the model's reply
    to the prompt sent at that attempt, and what the engine does with the
    statement executed at that attempt.

    The loop's own specification (`Run`) is stated for any way of making
    attempts, a function from the attempt number and the previous error to
    how the attempt ends; `AttemptsOf` is the one `generate_sql` uses. */
module RepairLoop {
  import opened Outcomes
  import opened Text
  import opened Fences
  import opened Database
  import opened Prompts

  /** The collaborators of the loop. */
  datatype Env = Env(
    /** `get_schema()` during attempt `k`, or the exception it raised. */
    schemaAt: nat -> Result<Schema>,
    /** The reply content to the prompt sent during attempt `k` (the model
        reads `PromptText` of it), or the exception raised by the call or by
        reading the reply. */
    chat: (nat, Prompt) -> Result<string>,
    /** What the engine does with the statement executed during attempt `k`. */
    engine: (nat, string) -> EngineOutcome)

  /** The arguments of one call of the generation step. */
  datatype Request = Request(isRetry: bool, lastError: Option<string>)

  /** The dictionary `generate_sql` returns. */
  datatype LoopResult =
    | Succeeded(sql: string, results: QueryResults, attempts: nat)
    | Failed(error: Option<string>, attempts: nat)

  /** How one attempt ends. */
  datatype AttemptOutcome =
    | GenerationFailed(message: string)
    | ExecutionFailed(sql: string, message: string)
    | ExecutionSucceeded(sql: string, results: QueryResults)

  /** The default retry budget. */
  const DefaultMaxRetries: int := 3

  /** The generation step of attempt `k`: read the schema, build the prompt,
      ask the model, clean its reply. */
  function Generated(env: Env, question: string, k: nat, isRetry: bool, lastError: Option<string>): Result<string> {
    match env.schemaAt(k)
    case Err(m) => Err(m)
    case Ok(schema) =>
      var prompt := SelectPrompt(question, SchemaInfo(schema), isRetry, lastError);
      match env.chat(k, prompt)
      case Err(m) => Err(m)
      case Ok(content) => Ok(StripFences(content))
  }

  /** `_generate_with_openai`, as a step that may raise. */
  method GenerateWithOpenAI(env: Env, question: string, k: nat, isRetry: bool, lastError: Option<string>)
    returns (r: Result<string>)
    ensures r == Generated(env, question, k, isRetry, lastError)
    ensures r.Ok? ==> IsStripped(r.value)
  {
    var schema := env.schemaAt(k);
    if schema.Err? {
      return Err(schema.message);
    }
    var schemaInfo := SchemaInfo(schema.value);
    var prompt := SelectPrompt(question, schemaInfo, isRetry, lastError);
    var reply := env.chat(k, prompt);
    if reply.Err? {
      return Err(reply.message);
    }
    var sql := RemoveFences(reply.value);
    StripFencesStripped(reply.value);
    return Ok(sql);
  }

  /** Attempt `k` made with the given previous error: generation fails, or
      the statement is executed and fails or succeeds. */
  function Attempt(env: Env, question: string, k: nat, lastError: Option<string>): AttemptOutcome {
    match Generated(env, question, k, k > 0, lastError)
    case Err(m) => GenerationFailed(m)
    case Ok(sql) =>
      var t := ExecuteSql(env.engine(k, sql));
      if t.success then ExecutionSucceeded(sql, t.results.value) else ExecutionFailed(sql, t.error.value)
  }

  /** How attempt `k` ends when made with a given previous error. */
  type AttemptFn = (nat, Option<string>) -> AttemptOutcome

  /** The attempts `generate_sql` makes. */
  function AttemptsOf(env: Env, question: string): AttemptFn {
    (k: nat, lastError: Option<string>) => Attempt(env, question, k, lastError)
  }

  /** An attempt read off its generation step and, when that produced a
      statement, the engine's handling of it. */
  lemma AttemptSteps(env: Env, question: string, k: nat, lastError: Option<string>, generated: Result<string>)
    requires generated == Generated(env, question, k, k > 0, lastError)
    ensures generated.Err? ==> Attempt(env, question, k, lastError) == GenerationFailed(generated.message)
    ensures generated.Ok? ==>
      var t := ExecuteSql(env.engine(k, generated.value));
      Attempt(env, question, k, lastError) ==
        if t.success then ExecutionSucceeded(generated.value, t.results.value)
        else ExecutionFailed(generated.value, t.error.value)
  {
  }

  /** The error a failed attempt leaves behind; nothing for a success. */
  function Message(o: AttemptOutcome): Option<string> {
    match o
    case GenerationFailed(m) => Some(m)
    case ExecutionFailed(_, m) => Some(m)
    case ExecutionSucceeded(_, _) => None
  }

  /** `last_error` when attempt `k` begins: none before the first attempt,
      afterwards the message of the attempt before (a success leaves it as it
      was, though the loop has stopped by then). */
  function ErrorBefore(attempt: AttemptFn, k: nat): Option<string>
    decreases k
  {
    if k == 0 then None
    else
      var o := attempt(k - 1, ErrorBefore(attempt, k - 1));
      if o.ExecutionSucceeded? then ErrorBefore(attempt, k - 1) else Message(o)
  }

  /** How attempt `k` of a run ends. */
  function AttemptAt(attempt: AttemptFn, k: nat): AttemptOutcome {
    attempt(k, ErrorBefore(attempt, k))
  }

  /** The loop's result when attempt `k` is about to begin. */
  function RunFrom(attempt: AttemptFn, maxRetries: int, k: nat): LoopResult
    decreases maxRetries + 1 - k
  {
    if k > maxRetries then Failed(ErrorBefore(attempt, k), k)
    else match AttemptAt(attempt, k)
      case ExecutionSucceeded(sql, results) => Succeeded(sql, results, k + 1)
      case _ => RunFrom(attempt, maxRetries, k + 1)
  }

  /** The loop's result. */
  function Run(attempt: AttemptFn, maxRetries: int): LoopResult {
    RunFrom(attempt, maxRetries, 0)
  }

  /** The arguments of the first `n` calls of the generation step. */
  function Requests(attempt: AttemptFn, n: nat): seq<Request>
    decreases n
  {
    if n == 0 then [] else Requests(attempt, n - 1) + [Request(n - 1 > 0, ErrorBefore(attempt, n - 1))]
  }

  /** Call `i` of the generation step is a retry exactly when it is not the
      first, and it carries the error left by call `i - 1`. */
  lemma {:induction false} RequestsAt(attempt: AttemptFn, n: nat)
    ensures |Requests(attempt, n)| == n
    ensures forall i :: 0 <= i < n ==> Requests(attempt, n)[i] == Request(i > 0, ErrorBefore(attempt, i))
    decreases n
  {
    if n > 0 {
      RequestsAt(attempt, n - 1);
    }
  }

  /** A failed attempt within the budget, whether generation or execution
      failed, leaves its own message as the next attempt's previous error and
      uses up exactly one attempt. */
  lemma FailureConsumesOneAttempt(attempt: AttemptFn, maxRetries: int, k: nat)
    requires k <= maxRetries
    requires !AttemptAt(attempt, k).ExecutionSucceeded?
    ensures ErrorBefore(attempt, k + 1) == Message(AttemptAt(attempt, k))
    ensures Message(AttemptAt(attempt, k)).Some?
    ensures RunFrom(attempt, maxRetries, k) == RunFrom(attempt, maxRetries, k + 1)
  {
  }

  /** `generate_sql`: attempts are made while `retry_count <= max_retries`;
      the first success returns at once, every failure records its message
      and counts one attempt. Besides the result it gives the arguments of
      every call of the generation step, in order. */
  method GenerateSql(env: Env, question: string, maxRetries: int) returns (r: LoopResult, ghost requests: seq<Request>)
    ensures r == Run(AttemptsOf(env, question), maxRetries)
    ensures requests == Requests(AttemptsOf(env, question), r.attempts)
  {
    ghost var attempt := AttemptsOf(env, question);
    var retryCount: nat := 0;
    var lastError: Option<string> := None;
    requests := [];
    while retryCount <= maxRetries
      invariant retryCount == 0 || retryCount <= maxRetries + 1
      invariant lastError == ErrorBefore(attempt, retryCount)
      invariant RunFrom(attempt, maxRetries, retryCount) == Run(attempt, maxRetries)
      invariant requests == Requests(attempt, retryCount)
      decreases maxRetries + 1 - retryCount
    {
      ghost var outcome := AttemptAt(attempt, retryCount);
      assert outcome == Attempt(env, question, retryCount, lastError);
      requests := requests + [Request(retryCount > 0, lastError)];
      var generated := GenerateWithOpenAI(env, question, retryCount, retryCount > 0, lastError);
      AttemptSteps(env, question, retryCount, lastError, generated);
      if generated.Ok? {
        var sql := generated.value;
        var t := ExecuteSql(env.engine(retryCount, sql));
        if t.success {
          assert outcome == ExecutionSucceeded(sql, t.results.value);
          r := Succeeded(sql, t.results.value, retryCount + 1);
          return;
        } else {
          assert outcome == ExecutionFailed(sql, t.error.value);
          FailureConsumesOneAttempt(attempt, maxRetries, retryCount);
          lastError := t.error;
          retryCount := retryCount + 1;
        }
      } else {
        assert outcome == GenerationFailed(generated.message);
        FailureConsumesOneAttempt(attempt, maxRetries, retryCount);
        lastError := Some(generated.message);
        retryCount := retryCount + 1;
      }
    }
    r := Failed(lastError, retryCount);
  }

  /** A success from attempt `k` on comes from the first successful
      attempt, within the budget (by induction on the attempts left). */
  lemma {:induction false} RunFromSucceeded(attempt: AttemptFn, maxRetries: int, k: nat)
    requires RunFrom(attempt, maxRetries, k).Succeeded?
    ensures var r := RunFrom(attempt, maxRetries, k);
      && k < r.attempts <= maxRetries + 1
      && AttemptAt(attempt, r.attempts - 1) == ExecutionSucceeded(r.sql, r.results)
      && forall j :: k <= j < r.attempts - 1 ==> !AttemptAt(attempt, j).ExecutionSucceeded?
    decreases maxRetries + 1 - k
  {
    if !AttemptAt(attempt, k).ExecutionSucceeded? {
      RunFromSucceeded(attempt, maxRetries, k + 1);
    }
  }

  /** A failure from attempt `k` on comes after every remaining attempt of
      the budget failed, and carries the error the last one left (by
      induction on the attempts left). */
  lemma {:induction false} RunFromFailed(attempt: AttemptFn, maxRetries: int, k: nat)
    requires RunFrom(attempt, maxRetries, k).Failed?
    ensures var r := RunFrom(attempt, maxRetries, k);
      && r.attempts == (if k > maxRetries then k else maxRetries + 1)
      && r.error == ErrorBefore(attempt, r.attempts)
      && forall j :: k <= j <= maxRetries ==> !AttemptAt(attempt, j).ExecutionSucceeded?
    decreases maxRetries + 1 - k
  {
    if k <= maxRetries {
      RunFromFailed(attempt, maxRetries, k + 1);
    }
  }

  /** The number of attempts: none when the budget is negative (and then no
      error either), otherwise at least one and at most `maxRetries + 1`. */
  lemma RunAttempts(attempt: AttemptFn, maxRetries: int)
    ensures maxRetries < 0 ==> Run(attempt, maxRetries) == Failed(None, 0)
    ensures maxRetries >= 0 ==> 1 <= Run(attempt, maxRetries).attempts <= maxRetries + 1
  {
    if Run(attempt, maxRetries).Succeeded? {
      RunFromSucceeded(attempt, maxRetries, 0);
    } else {
      RunFromFailed(attempt, maxRetries, 0);
    }
  }

  /** A successful run counts its attempts up to and including the successful
      one, and returns what that very attempt produced; every earlier attempt
      failed. */
  lemma RunSucceeded(attempt: AttemptFn, maxRetries: int)
    requires Run(attempt, maxRetries).Succeeded?
    ensures var r := Run(attempt, maxRetries);
      && 1 <= r.attempts <= maxRetries + 1
      && AttemptAt(attempt, r.attempts - 1) == ExecutionSucceeded(r.sql, r.results)
      && forall j :: 0 <= j < r.attempts - 1 ==> !AttemptAt(attempt, j).ExecutionSucceeded?
  {
    RunFromSucceeded(attempt, maxRetries, 0);
  }

  /** A failed run used the whole budget, every attempt in it failed, and
      the error reported is the message of the last attempt. */
  lemma RunFailed(attempt: AttemptFn, maxRetries: int)
    requires Run(attempt, maxRetries).Failed?
    ensures var r := Run(attempt, maxRetries);
      && r.attempts == (if maxRetries < 0 then 0 else maxRetries + 1)
      && (forall j :: 0 <= j <= maxRetries ==> !AttemptAt(attempt, j).ExecutionSucceeded?)
      && (maxRetries >= 0 ==> r.error == Message(AttemptAt(attempt, maxRetries)) && r.error.Some?)
  {
    RunFromFailed(attempt, maxRetries, 0);
    if maxRetries >= 0 {
      assert !AttemptAt(attempt, maxRetries).ExecutionSucceeded?;
    }
  }

  /** A run succeeds exactly when some attempt within the budget succeeds. */
  lemma RunSucceedsIff(attempt: AttemptFn, maxRetries: int)
    ensures Run(attempt, maxRetries).Succeeded? <==>
      exists j :: 0 <= j <= maxRetries && AttemptAt(attempt, j).ExecutionSucceeded?
  {
    var r := Run(attempt, maxRetries);
    if r.Succeeded? {
      RunFromSucceeded(attempt, maxRetries, 0);
      assert AttemptAt(attempt, r.attempts - 1).ExecutionSucceeded?;
    } else {
      RunFromFailed(attempt, maxRetries, 0);
    }
  }

  /** An attempt of `generate_sql` that succeeds returned the statement the
      generation step produced in that attempt, and the engine ran that
      statement with those results. */
  lemma AttemptSucceeded(env: Env, question: string, k: nat, lastError: Option<string>)
    requires Attempt(env, question, k, lastError).ExecutionSucceeded?
    ensures var o := Attempt(env, question, k, lastError);
      && Generated(env, question, k, k > 0, lastError) == Ok(o.sql)
      && ExecuteSql(env.engine(k, o.sql)) == ExecTriple(true, Some(o.results), None)
  {
  }

  /** An attempt of `generate_sql` that fails either failed in its
      generation step, with that step's message, or executed the statement
      its generation step produced and the engine raised the message it
      reports. */
  lemma AttemptFailed(env: Env, question: string, k: nat, lastError: Option<string>)
    requires !Attempt(env, question, k, lastError).ExecutionSucceeded?
    ensures var o := Attempt(env, question, k, lastError);
      var g := Generated(env, question, k, k > 0, lastError);
      && (o.GenerationFailed? ==> g == Err(o.message))
      && (o.ExecutionFailed? ==> g == Ok(o.sql) && env.engine(k, o.sql) == Raised(o.message))
  {
  }

  /** A successful `generate_sql` returns the statement generated and
      executed in its last attempt, never one from an earlier attempt. */
  lemma GenerateSqlSucceeded(env: Env, question: string, maxRetries: int)
    requires Run(AttemptsOf(env, question), maxRetries).Succeeded?
    ensures var attempt := AttemptsOf(env, question);
      var r := Run(attempt, maxRetries);
      var k := r.attempts - 1;
      && 0 <= k <= maxRetries
      && Generated(env, question, k, k > 0, ErrorBefore(attempt, k)) == Ok(r.sql)
      && ExecuteSql(env.engine(k, r.sql)) == ExecTriple(true, Some(r.results), None)
  {
    var attempt := AttemptsOf(env, question);
    RunSucceeded(attempt, maxRetries);
    var k := Run(attempt, maxRetries).attempts - 1;
    AttemptSucceeded(env, question, k, ErrorBefore(attempt, k));
  }

  /** The prompt of attempt `k`, while the run is still going: the first
      attempt gets the first-attempt prompt; a later one gets the repair
      prompt, quoting the previous attempt's message, exactly when that
      message is not empty. */
  lemma PromptOfAttempt(attempt: AttemptFn, question: string, schemaInfo: string, k: nat)
    requires k > 0 ==> !AttemptAt(attempt, k - 1).ExecutionSucceeded?
    ensures var p := SelectPrompt(question, schemaInfo, k > 0, ErrorBefore(attempt, k));
      && (k == 0 ==> p == FirstAttempt(question, schemaInfo))
      && (k > 0 ==>
        var previous := Message(AttemptAt(attempt, k - 1)).value;
        && (p.Repair? <==> previous != "")
        && (p.Repair? ==> p.error == previous))
  {
  }

  /** When replies always arrive and the engine rejects every statement with
      the same diagnostic, `generate_sql` makes `maxRetries + 1` attempts and
      reports that diagnostic. */
  lemma AlwaysRejected(env: Env, question: string, maxRetries: int, diagnostic: string)
    requires maxRetries >= 0
    requires forall k :: env.schemaAt(k).Ok?
    requires forall k, p :: env.chat(k, p).Ok?
    requires forall k, sql :: env.engine(k, sql) == Raised(diagnostic)
    ensures Run(AttemptsOf(env, question), maxRetries) == Failed(Some(diagnostic), maxRetries + 1)
  {
    var attempt := AttemptsOf(env, question);
    forall k: nat, lastError: Option<string>
      ensures Attempt(env, question, k, lastError) == ExecutionFailed(Generated(env, question, k, k > 0, lastError).value, diagnostic)
    {
      var g := Generated(env, question, k, k > 0, lastError);
      assert g.Ok?;
      assert env.engine(k, g.value) == Raised(diagnostic);
    }
    RunSucceedsIff(attempt, maxRetries);
    RunFailed(attempt, maxRetries);
  }

  /** With the default budget of three retries, a statement the engine
      always rejects is tried four times and the run reports the
      diagnostic. */
  lemma AlwaysRejectedByDefault(env: Env, question: string, diagnostic: string)
    requires forall k :: env.schemaAt(k).Ok?
    requires forall k, p :: env.chat(k, p).Ok?
    requires forall k, sql :: env.engine(k, sql) == Raised(diagnostic)
    ensures Run(AttemptsOf(env, question), DefaultMaxRetries) == Failed(Some(diagnostic), 4)
  {
    AlwaysRejected(env, question, DefaultMaxRetries, diagnostic);
  }
}
