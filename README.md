# nl2sql: the generate-execute-repair loop

`nl2sql.py` answers a natural-language question about a SQLite database.
It asks a chat model for a SQL statement and runs that statement. When
generation or execution fails, it asks again with a repair prompt that
quotes the error. It makes at most `max_retries + 1` attempts (the default
budget is 3 retries).

This project models the core of that program in Dafny:

- `Outcomes` (`outcomes.dfy`): the `Option` and `Result` wrappers.
- `Text` (`text.dfy`): Python's `str.strip()`, `startswith`, `join` and
  `split`, written over `seq<char>`.
- `Fences` (`fences.dfy`): the clean-up of the model's reply. The reply is
  trimmed. Then, for `"```sql"` and after it `"```"`, a reply that starts
  with that opener is cut to the trimmed text between the opener and the
  next `"```"`. `RemoveFences` is the loop as the source writes it.
  `StripFences` is the function that specifies it.
- `Database` (`database.dfy`): what `get_schema` reports, and the
  `(success, results, error)` triple that `execute_sql` builds from what
  the engine did with a statement.
- `Prompts` (`prompts.dfy`): the one-line-per-table schema summary, the
  choice between the first-attempt prompt and the repair prompt, and the
  text of both prompts.
- `RepairLoop` (`repair_loop.dfy`): `_generate_with_openai` as one
  generation step, and `generate_sql` as a `while` loop over
  `retry_count` and `last_error`. The loop is proved against `Run`, a
  recursive specification. `Run` is stated for any way of making attempts,
  so the lemmas about the loop hold whatever the model or the engine does.

The chat model, the schema read and the SQLite engine are oracles. They
are fields of `RepairLoop.Env`, indexed by the attempt number. Each one is
a total function, so every attempt may see a different schema, reply or
engine behaviour.

## Model

| member | source | states |
|---|---|---|
| Text.StripSlice | nl2sql.py:205 | `strip()` returns a slice of its input; everything dropped before and after it is whitespace |
| Text.StripStripped | nl2sql.py:205 | the result of `strip()` neither starts nor ends with whitespace |
| Text.StripIdempotent | nl2sql.py:205 | stripping a stripped text changes nothing |
| Text.SplitJoin | nl2sql.py:171-174 | splitting a join on its separator gives back the parts, when no part holds the separator |
| Fences.FindFenceSpec | nl2sql.py:210 | the search returns the first `"```"` at or after the start index, or the end of the text when there is none |
| Fences.BeforeFenceSpec | nl2sql.py:210 | `split("```")[0]` is a prefix with no delimiter inside it, followed by a delimiter unless it is the whole text |
| Fences.BeforeFenceNoFence | nl2sql.py:210 | what `split("```")[0]` keeps holds no delimiter |
| Fences.RemoveFences | nl2sql.py:205-211 | the loop over `"```sql"` then `"```"` computes `StripFences` of the reply |
| Fences.StripFencesSqlOpened | nl2sql.py:208-210 | a trimmed reply that opens with `"```sql"` yields the trimmed text up to the next delimiter, and it holds no delimiter |
| Fences.StripFencesPlainOpened | nl2sql.py:208-210 | a trimmed reply that opens with `"```"` but not `"```sql"` yields the trimmed text up to the next delimiter, and it holds no delimiter |
| Fences.StripFencesUnopened | nl2sql.py:205-211 | a reply that does not open with a delimiter is only trimmed |
| Fences.StripFencesStripped | nl2sql.py:205-211 | the cleaned reply has no surrounding whitespace |
| Fences.StripFencesNotFenced | nl2sql.py:205-211 | the cleaned reply never starts with a delimiter |
| Fences.StripFencesFixed | nl2sql.py:205-211 | a trimmed text without an opening delimiter is returned unchanged |
| Fences.StripFencesIdempotent | nl2sql.py:205-211 | cleaning a cleaned reply changes nothing |
| Fences.StripFencesExample | nl2sql.py:205-211 | a reply of `SELECT 1;` fenced as SQL comes back as the bare statement |
| Database.ExecuteSql | nl2sql.py:119-128 | the triple is success-with-results or failure-with-error; success exactly when the engine ran the statement; all fetched rows; the described column names in order, or none without a description; the engine's message unchanged on failure |
| Prompts.SchemaInfoLines | nl2sql.py:171-174 | with single-line names, the summary splits back into exactly one line per table in schema order, each naming the table and then its columns; an empty schema gives an empty summary |
| Prompts.SelectPrompt | nl2sql.py:176-193 | the repair prompt is chosen exactly when the call is a retry and the previous error is present and non-empty, and it carries that error; question and schema summary pass through |
| Prompts.RepairQuotesError | nl2sql.py:177-184 | the repair prompt quotes the previous error verbatim right after its opening sentence |
| Prompts.PromptClosing | nl2sql.py:176-193 | both prompts end with the same instruction to return only the SQL query |
| RepairLoop.GenerateWithOpenAI | nl2sql.py:168-211 | one generation step reads the schema, selects the prompt, asks the model and cleans the reply, failing with the message of whichever call raised; a returned statement has no surrounding whitespace |
| RepairLoop.GenerateSql | nl2sql.py:135-166 | the loop returns `Run` of its attempts, and the arguments of every generation call in order |
| RepairLoop.RequestsAt | nl2sql.py:140-142 | generation call `i` is a retry exactly when `i > 0`, and it carries the error the previous attempt left |
| RepairLoop.FailureConsumesOneAttempt | nl2sql.py:153-160 | a failed attempt, of either kind, records its own message as the next previous error and uses up exactly one attempt |
| RepairLoop.RunFromSucceeded | nl2sql.py:140-152 | a success from attempt `k` on is the first successful attempt, within the budget |
| RepairLoop.RunFromFailed | nl2sql.py:140-166 | a failure from attempt `k` on comes after every remaining attempt failed, and carries the last error |
| RepairLoop.RunAttempts | nl2sql.py:137-166 | a negative budget makes no attempt and reports no error; otherwise between 1 and `max_retries + 1` attempts |
| RepairLoop.RunSucceeded | nl2sql.py:146-152 | a success reports the attempts up to and including the successful one and returns what that attempt produced; every earlier attempt failed |
| RepairLoop.RunFailed | nl2sql.py:153-166 | a failure used the whole budget, every attempt failed, and the error is the message of the last attempt |
| RepairLoop.RunSucceedsIff | nl2sql.py:140-166 | a run succeeds exactly when some attempt within the budget succeeds |
| RepairLoop.AttemptSucceeded | nl2sql.py:142-152 | a successful attempt executed the very statement its generation step produced, with the engine's results |
| RepairLoop.AttemptFailed | nl2sql.py:142-160 | a failed attempt either failed in its generation step with that step's message, or executed the statement its generation step produced and the engine raised the message it reports |
| RepairLoop.GenerateSqlSucceeded | nl2sql.py:142-152 | a successful run returns the statement generated and executed in its last attempt, never one from an earlier attempt |
| RepairLoop.PromptOfAttempt | nl2sql.py:140-176 | the first attempt gets the first-attempt prompt; a later attempt gets the repair prompt, quoting the previous message, exactly when that message is non-empty |
| RepairLoop.AlwaysRejected | nl2sql.py:135-166 | when every statement is rejected with the same diagnostic, the run fails after `max_retries + 1` attempts and reports that diagnostic |
| RepairLoop.AlwaysRejectedByDefault | nl2sql.py:135-166 | with the default budget of three retries, a statement the engine always rejects is tried four times and the run fails with that diagnostic |

## Left out

- The OpenAI client, the API key and the request parameters (model name, system message, temperature, token limit) are not modelled. The chat call is the `chat` oracle of `RepairLoop.Env`. It receives the `Prompt` value; `Prompts.PromptText` gives the text the model reads.
- The SQLite connection, the table creation and the sample data are not modelled. The engine's behaviour on a statement is the `engine` oracle. `get_schema`'s catalogue queries are the `schemaAt` oracle, read again at every attempt, as the code does.
- Logging with `print`, `display_results` and the interactive `main` are not modelled. The model treats the `print` calls of the loop (nl2sql.py:143, 155 and 159) as never raising. A raising `print` would change the attempt's outcome: at line 143 the statement would not be executed and the attempt would fail with the exception's message; at line 155 that message would replace the engine's diagnostic as `last_error`; and a raise from the `print` in the `except` block (line 159) would escape `generate_sql`.
- Database.SqlValue: floating-point values are kept as their printed text.
- Fences: the reply is treated as plain text, as the code does. Markdown fence rules such as longer fences or indented fences are not modelled.
- The code has no check for an empty question or an empty statement. A reply that cleans to the empty string is sent to the engine, and the model does the same.
- The code catches every exception during an attempt, so any failure of the schema read or of the chat call becomes a generation failure and counts as one attempt. There is no separate path for a database that cannot be reached, in the code or in the model.
- Prompts.PromptText: no lemma proves that the two prompt texts differ from each other. The lemmas cover the quoted error and the shared closing.
