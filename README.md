# log-pilot, modelled in Dafny

This project models the deterministic core of log-pilot, a log-analytics
prototype with two halves.

**The ingestion side**
- The regex parser `LogParser.parse`.
- The positional line reader `LogIngestor.parse_log` of the streaming worker, with its `key=value` context scan.
- The template step `MockDrain3.transform`. The worker and the bulk loader carry the same code, so one function models both copies.
- The bulk loader's `process_file`, with its 100-record buffer and final flush.
- The row preparation of `DuckDBConnector.insert_batch`.

**The query side**
- The two keyword routers: `classify_intent` of the graph nodes and `LogPilotAgent.process_query`.
- The keyword-rule SQL generator of the hyphenated orchestrator.
- The fence-stripping SQL generator of the underscored orchestrator, which is backed by a language model.
- The shared `execute` branching of both SQL generators.
- The mock RAG retriever.
- The five graph nodes, as in-place updates of a state class.
- The orchestrator's graph: the intent router, the SQL retry edge and the fixed edges, run one node per step.

**How the code maps to Dafny**
- Pure code is written as functions with lemmas about them.
- Code that updates state step by step is written as methods, each proved against a function on values:
  - the context loop (`ContextScan.ExtractContext`);
  - the row loop (`DuckDb.PrepareRows`);
  - the connector (`DuckDb.DuckDBConnector`);
  - the bulk loader (`BulkLoader.BulkLoaderJob`);
  - the node state (`Nodes.AgentState`).
- The outside world is passed in as parameters: the SQL tool, the knowledge store, the language model and the database engine.
- Python's string operations are written out in `Strings`, in ASCII: `split`, `join`, `replace`, `strip`, `lower`, `in` and `find`.
- `datetime.strptime` with the format `%Y-%m-%d %H:%M:%S` is written out in `Timestamps`.

**Two places where the code does less than it suggests**
The model follows the code in each case.
- `LogParser` describes itself as "enforcing UTC timestamps" (shared/utils/log_parser.py:7), and `parse` does tag its result UTC. The worker's `parse_log` (services/ingestion-worker/src/main.py:78) and the loader's `process_file` (services/bulk-loader/src/log_loader.py:83) call `strptime` directly. They keep the naive `datetime` it returns, and the model keeps it naive too (`utc == false`).
- The guard `retry_count < 3` of `should_retry_sql` (services/pilot_orchestrator/src/graph.py:30) suggests a bound: the count is raised before the guard is read (services/pilot_orchestrator/src/nodes.py:74), so it allows at most two retries (three attempts). The "No SQL generated" branch of `execute_sql` (services/pilot_orchestrator/src/nodes.py:61-64) never raises the count, so that loop is not bounded: see "## Findings".

## Model

| member | source | states |
|---|---|---|
| LogParser.MatchPattern | shared/utils/log_parser.py:11-17 | A match has a nonempty word-character severity and a nonempty service of word characters or `-`. Its message starts at a non-whitespace character and is a suffix of the text. The message is nonempty when the text does not end in whitespace. |
| LogParser.MatchSound | shared/utils/log_parser.py:11-17 | Any match splits the text in the pattern's shape: timestamp, whitespace, severity, whitespace, service, optional colon, whitespace, message. |
| LogParser.MatchComplete | shared/utils/log_parser.py:11-17 | Any split of the text in the pattern's shape makes the match succeed with those timestamp, severity and service groups. The message group is the rest, with its leading whitespace taken by the greedy `\s+`. |
| LogParser.Parse | shared/utils/log_parser.py:19-43 | A successful parse carries a UTC-tagged timestamp and well-formed text fields. |
| LogParser.MatchWellFormed | shared/utils/log_parser.py:13-16 | On a stripped record, the groups of a match are well formed: the body begins and ends with non-whitespace, and the service holds no colon. |
| LogParser.ServiceHasNoColon | shared/utils/log_parser.py:14 | A run of word characters and `-` never holds the optional colon. |
| LogParser.ParseFormatError | shared/utils/log_parser.py:23-28 | `parse` raises "Log format not recognized" exactly when the stripped record cannot be split in the pattern's shape. |
| LogParser.ParseTimestamp | shared/utils/log_parser.py:34-36 | A matched timestamp parses exactly when it is a valid calendar date and time. The result then carries the same wall-clock fields, tagged UTC with no shift; otherwise `strptime` raises. |
| LogParser.FractionalSecondsRejected | shared/utils/log_parser.py:12 | A fractional-seconds suffix breaks the match. |
| LogParser.ExampleRecord | shared/utils/log_parser.py:10 | The example record parses to 2025-11-20 10:00:01 UTC, severity `INFO`, service `payment-service` and body "Payment processed...". |
| LogParser.ExampleMatch | shared/utils/log_parser.py:10-17 | The pattern's groups on the example record. |
| Timestamps.Strptime | shared/utils/log_parser.py:34 | A successful `strptime` is naive and calendar-valid. |
| Timestamps.StrictTimestamp | shared/utils/log_parser.py:34 | Text of the shape `DDDD-DD-DD DD:DD:DD` parses exactly when its fields form a valid date and time, and it then carries those fields. |
| Timestamps.MonthThirteenRejected | shared/utils/log_parser.py:34 | Month 13 is rejected, even though the text has the right shape. |
| Timestamps.ExampleTimestamp | services/ingestion-worker/src/main.py:78 | The first sample line's timestamp text parses to 20 November 2025, 10:00:01, naive. |
| Drain.Transform | services/bulk-loader/src/log_loader.py:17-31 | The template never has leading or trailing whitespace. This one function models both identical copies of `transform`. |
| Drain.NoKeysOnlyStrips | services/ingestion-worker/src/main.py:34-52 | Text with none of `user_id=`, `amount=`, `user=`, `ip=` comes back merely stripped. |
| Drain.MaskWordAt | services/ingestion-worker/src/main.py:37-38 | The word rule keeps the text before the first key and masks the value up to the next space. It keeps the rest of that segment and drops everything from a second occurrence of the key. |
| Drain.MaskRestAt | services/ingestion-worker/src/main.py:40-42 | The `amount=` rule replaces everything after the first `amount=` by one `<*>`. |
| Drain.AmountIsLast | services/ingestion-worker/src/main.py:40-42 | After the `amount=` rule the text ends in `amount=<*>`. |
| Drain.MaskKeepsKey | services/ingestion-worker/src/main.py:36-50 | No rule removes the key it rewrites. |
| Drain.MaskWordValue | services/ingestion-worker/src/main.py:45-46 | A value without spaces, followed by a space and no second key, becomes `<*>` and the rest is kept. |
| Drain.ExamplePayment | services/ingestion-worker/src/main.py:36-52 | The first sample message becomes `Payment processed for user_id=<*> amount=<*>`. |
| Drain.PaymentTemplateFor | services/ingestion-worker/src/main.py:36-42 | Every payment message gives that same template, whatever its user id and amount. |
| Drain.ExampleLogin | services/ingestion-worker/src/main.py:44-50 | The second sample message becomes `Login failed for user=<*> ip=<*> reason=bad_password`. |
| Drain.ExampleUnchanged | services/ingestion-worker/src/main.py:34-52 | The third sample message has no key and passes through unchanged. |
| ContextScan.KeyOf | services/ingestion-worker/src/main.py:73-74 | A token writes a key exactly when it holds `=`. |
| ContextScan.Step | services/ingestion-worker/src/main.py:73-75 | One loop turn raises exactly on a token with two or more `=`. It skips a token without `=` and otherwise stores the split's value under its key. |
| ContextScan.ExtractContext | services/ingestion-worker/src/main.py:71-75 | The loop that updates the map in place computes the scan over the tokens. |
| ContextScan.ScanFailsIff | services/ingestion-worker/src/main.py:74 | The scan raises if and only if some token holds two or more `=`. |
| ContextScan.FirstBadFails | services/ingestion-worker/src/main.py:72-74 | The error names the first bad token. |
| ContextScan.NoBadSucceeds | services/ingestion-worker/src/main.py:72-75 | Without a bad token the scan succeeds. |
| ContextScan.LastWriteWins | services/ingestion-worker/src/main.py:75 | A key holds the value of the last token that carries it. |
| ContextScan.Untouched | services/bulk-loader/src/log_loader.py:69-73 | A key that no token writes keeps its starting entry, or stays absent. |
| ContextScan.KeysCome | services/ingestion-worker/src/main.py:71-75 | Every key of the result was in the start map or came from a token. |
| ContextScan.ScanPlainWords | services/ingestion-worker/src/main.py:73 | Words without `=` leave the scan as it is. |
| ContextScan.ScanPair | services/ingestion-worker/src/main.py:74-75 | A `key=value` token with one `=` stores `value` under `key`. |
| ContextScan.WordsThenPairs | services/ingestion-worker/src/main.py:71-75 | Plain words followed by two pairs, joined by spaces, scan to the map of the two pairs. |
| IngestionWorker.ParseLog | services/ingestion-worker/src/main.py:59-83 | The method that fills the context in a loop computes `Event(raw)`. |
| IngestionWorker.IndexErrorIff | services/ingestion-worker/src/main.py:61-63 | `IndexError` is raised exactly when the line has fewer than three spaces, that is fewer than four tokens. |
| IngestionWorker.FieldsByPosition | services/ingestion-worker/src/main.py:61-83 | The 3rd token is the severity, and the 4th with its colons removed is the service. Everything after the 4th space is templated and scanned. A context error comes before a timestamp error. |
| IngestionWorker.EventShape | services/ingestion-worker/src/main.py:64-83 | An event has a colon-free service, a stripped template, a naive calendar-valid timestamp and no metadata. |
| IngestionWorker.ErrorOrder | services/ingestion-worker/src/main.py:71-78 | With four or more tokens, the line fails exactly on a bad context token or a bad timestamp, and a bad context token wins. |
| IngestionWorker.ExampleFirstLine | services/ingestion-worker/src/main.py:17 | The first sample line's full event. |
| IngestionWorker.ExampleServiceName | services/ingestion-worker/src/main.py:64 | `payment-service:` loses its colon. |
| IngestionWorker.PaymentContextFor | services/ingestion-worker/src/main.py:71-75 | A payment message gives its user id and amount as the context. |
| IngestionWorker.ExampleFourthLineContext | services/ingestion-worker/src/main.py:20 | The fourth sample line gives `{"user_id": "102", "amount": "25.00"}`. |
| LogSchema.Dump | services/bulk-loader/src/log_loader.py:95 | `model_dump` has exactly the eleven field names as keys. |
| DuckDb.DuckDBConnector.constructor | shared/db/duckdb_client.py:7-17 | A new connection: no calls and no executions. The `logs` table holds the rows already in the database file, because `CREATE TABLE IF NOT EXISTS` keeps them. |
| DuckDb.DuckDBConnector.InsertBatch | shared/db/duckdb_client.py:53-89 | An empty batch returns with nothing executed. A record lacking a required key raises `KeyError` before any execution. Otherwise one `executemany` runs, and either every row reaches the table in order or it raises and none does. |
| DuckDb.PrepareRows | shared/db/duckdb_client.py:67-82 | The loop that fills `values` computes `Rows(logs)`. |
| DuckDb.RowColumns | shared/db/duckdb_client.py:37-82 | A row exists exactly when the four required keys are present. It then has eleven values in the table's column order: a missing optional key gives `None`, and the context column holds the JSON of the context or of `{}`. |
| DuckDb.RowError | shared/db/duckdb_client.py:71-75 | The `KeyError` names the first required key, in row order, that the record lacks. |
| DuckDb.RowsInOrder | shared/db/duckdb_client.py:67-82 | There is one row per record, in record order, exactly when every record has a row. |
| DuckDb.CompleteRecordsHaveRows | shared/db/duckdb_client.py:68-82 | Dumped events always have rows. |
| DuckDb.RowsConcat | shared/db/duckdb_client.py:67-89 | The rows of two batches back to back are the rows of each batch, concatenated. |
| BulkLoader.BasenameTail | services/bulk-loader/src/log_loader.py:40 | `basename` is the slash-free tail of the path that follows its last `/`. |
| BulkLoader.OutcomeBuiltIff | services/bulk-loader/src/log_loader.py:49-104 | A line builds an event exactly when it is nonempty once stripped, has four or more tokens, has no token with two `=` after the service, and has a timestamp `strptime` accepts. |
| BulkLoader.SameReadingAsWorker | services/bulk-loader/src/log_loader.py:56-66 | Once stripped, a line builds an event exactly when the worker's `parse_log` succeeds on the stripped line. The event then has the same timestamp, severity, service name and template, and no trace id. The lemma says nothing about the unstripped line the worker actually splits (services/ingestion-worker/src/main.py:61), nor about the contexts, which differ by `source_file`. |
| BulkLoader.SourceFileEntry | services/bulk-loader/src/log_loader.py:69-73 | The context always has `source_file`. Its value is the base name unless a token writes that key. |
| BulkLoader.SourceFileOverride | services/bulk-loader/src/log_loader.py:69-73 | The last token keyed `source_file` replaces the base name. |
| BulkLoader.Metadata | services/bulk-loader/src/log_loader.py:76-80 | `environment` falls back to `env` and `department` to `dept` when the first is missing or empty. `app_id`, `host` and `region` are copied as they are. |
| BulkLoader.LoadedConcat | services/bulk-loader/src/log_loader.py:48-104 | The records of a file are those of its first part followed by those of the rest. |
| BulkLoader.SkippedLine | services/bulk-loader/src/log_loader.py:50-104 | A skipped or failing line, wherever it stands, leaves the records of the other lines as they are. |
| BulkLoader.LoadedComplete | services/bulk-loader/src/log_loader.py:95 | Every buffered record holds every field. |
| BulkLoader.BuildEvent | services/bulk-loader/src/log_loader.py:49-93 | The line handling inside the `try` computes `Outcome(raw, filename)`. |
| BulkLoader.NextOutcome | services/bulk-loader/src/log_loader.py:48-104 | Line `i`'s outcome extends the outcomes of the lines before it. |
| BulkLoader.BooksFlushed | services/bulk-loader/src/log_loader.py:97-99 | A full buffer becomes one more stored batch and the buffer starts empty. |
| BulkLoader.BooksFailed | services/bulk-loader/src/log_loader.py:97-104 | If a full buffer's insert raises, the records stay buffered. |
| BulkLoader.ClosedDelivered | services/bulk-loader/src/log_loader.py:106-108 | The bookkeeping at the end of a file is what the file delivered. |
| BulkLoader.BulkLoaderJob.constructor | services/bulk-loader/src/log_loader.py:34-36 | A new connector with no calls, over the rows already stored. |
| BulkLoader.BulkLoaderJob.ProcessFile | services/bulk-loader/src/log_loader.py:38-112 | What the file delivers to the database: **(1)** every batch sent is nonempty; **(2)** every batch but the final flush holds at least 100 records; **(3)** while no insert raises, each mid-file batch holds exactly 100 records and every batch is stored once; **(4)** the stored batches are the built records in file order; **(5)** a failing final flush propagates, with the records of the failed batch accounted for; **(6)** a missing file changes nothing. |
| BulkLoader.BulkLoaderJob.ReadLines | services/bulk-loader/src/log_loader.py:48-104 | The line loop: stored batches plus the buffer are the records built so far. |
| BulkLoader.BulkLoaderJob.Append | services/bulk-loader/src/log_loader.py:95-101 | Appending, and flushing at 100, preserves "stored batches plus buffer". |
| BulkLoader.BulkLoaderJob.Flush | services/bulk-loader/src/log_loader.py:98 | One `insert_batch`: it stores the batch, or it raises and leaves the table as it was. |
| BulkLoader.BulkLoaderJob.FinalFlush | services/bulk-loader/src/log_loader.py:106-108 | A nonempty buffer goes out once more, and a final failure propagates. |
| SqlExecution.FalsyNotSent | services/pilot-orchestrator/src/tools/sql_tool.py:56-58 | Falsy SQL gives the one-entry "could not understand" list without consulting the database. |
| SqlExecution.TruthySent | services/pilot-orchestrator/src/tools/sql_tool.py:60-65 | Truthy SQL is sent as it is. The rows come back in order, and an exception becomes one error entry. |
| SqlExecution.NotUnderstoodIff | services/pilot-orchestrator/src/tools/sql_tool.py:54-65 | "Could not understand" comes back exactly when the SQL is falsy. |
| HeuristicSql.CaseInsensitive | services/pilot-orchestrator/src/tools/sql_tool.py:22 | The case of the query does not matter. |
| HeuristicSql.CountRule | services/pilot-orchestrator/src/tools/sql_tool.py:26-29 | The count rule fires first. It gives the ERROR count exactly when "error" or "fail" appears, and the total otherwise. |
| HeuristicSql.GenerateSqlShape | services/pilot-orchestrator/src/tools/sql_tool.py:26-52 | The generated SQL is never empty. Without a count request it is never a count query. `generate_sql` raises exactly when the recent rule fires and `int()` refuses the number. |
| HeuristicSql.ShapesDiffer | services/pilot-orchestrator/src/tools/sql_tool.py:28-50 | The four SQL shapes are pairwise distinct. |
| HeuristicSql.RecentRule | services/pilot-orchestrator/src/tools/sql_tool.py:33-39 | Without a count request, the recent rule gives its SQL exactly on "recent" or "last" when `int()` accepts the number, with the decimal LIMIT. |
| HeuristicSql.LimitDefault | services/pilot-orchestrator/src/tools/sql_tool.py:34 | With no digit the LIMIT is 5. |
| HeuristicSql.LimitFirstRun | services/pilot-orchestrator/src/tools/sql_tool.py:36-38 | Otherwise the LIMIT is the value of the first maximal run of digits. A run longer than 4300 digits makes `int()` raise `ValueError` instead, CPython's default conversion cap. |
| HeuristicSql.FirstDigit | services/pilot-orchestrator/src/tools/sql_tool.py:36 | The first digit at or after `i`, or none. |
| HeuristicSql.Search | services/pilot-orchestrator/src/tools/sql_tool.py:46 | `re.search` gives the leftmost start of a match and the longest match there. |
| HeuristicSql.ServiceNameShape | services/pilot-orchestrator/src/tools/sql_tool.py:46-48 | The name is made of lowercase letters and `-`, ends in `-service`, holds no quote and occurs in the query. |
| HeuristicSql.ServiceNameLeftmostLongest | services/pilot-orchestrator/src/tools/sql_tool.py:46-48 | The leftmost match, longest at its start, is the name. |
| HeuristicSql.ServiceNameIff | services/pilot-orchestrator/src/tools/sql_tool.py:46-47 | A name is found exactly when the regex matches somewhere. |
| HeuristicSql.ServiceRule | services/pilot-orchestrator/src/tools/sql_tool.py:43-50 | The service query has LIMIT 10 and carries the ERROR clause exactly when "error" or "fail" appears. |
| HeuristicSql.NoRule | services/pilot-orchestrator/src/tools/sql_tool.py:43-52 | No SQL comes back exactly when no rule fires. This includes "service" being present without a regex match. |
| HeuristicSql.ExecuteNotUnderstood | services/pilot-orchestrator/src/tools/sql_tool.py:54-58 | `execute` answers "could not understand" exactly when no rule fires. It raises exactly when `generate_sql` raises, since that call is outside the `try`. |
| LlmSql.CleanSql | services/pilot_orchestrator/src/tools/sql_tool.py:35 | The cleaned SQL holds no fence and has no surrounding whitespace. |
| LlmSql.RemoveFences | services/pilot_orchestrator/src/tools/sql_tool.py:35 | Removing the fences never forms a new fence where one was cut out. |
| LlmSql.CleanIdempotent | services/pilot_orchestrator/src/tools/sql_tool.py:35 | Cleaning twice is cleaning once. |
| LlmSql.CleanUnchanged | services/pilot_orchestrator/src/tools/sql_tool.py:35 | Trimmed text without fences passes through unchanged. |
| LlmSql.CleanFenced | services/pilot_orchestrator/src/tools/sql_tool.py:35 | A `sql` code block cleans to its stripped contents. |
| LlmSql.FencedReply | services/pilot_orchestrator/src/tools/sql_tool.py:35 | A fenced, whitespace-padded SQL text cleans to that SQL. |
| LlmSql.GenerateSqlOutcome | services/pilot_orchestrator/src/tools/sql_tool.py:24-39 | `None` comes back exactly when prompt construction or the model call raises. Otherwise the result is the cleaned reply. |
| LlmSql.FencesOnly | services/pilot_orchestrator/src/tools/sql_tool.py:35-45 | A reply made only of fences and whitespace gives "could not understand", and the database is never called. |
| LlmSql.ExecuteNotUnderstood | services/pilot_orchestrator/src/tools/sql_tool.py:41-52 | "Could not understand" comes back exactly when the model call raised or the reply cleaned to nothing. |
| Nodes.IntentOf | services/pilot_orchestrator/src/nodes.py:31-38 | The intent is one of `sql`, `rag`, `ambiguous`. |
| Nodes.IntentRule | services/pilot_orchestrator/src/nodes.py:33-38 | The SQL words win over the RAG words, and each intent holds in both directions. |
| Nodes.IntentCaseInsensitive | services/pilot_orchestrator/src/nodes.py:33-35 | The intent does not depend on case. |
| Nodes.Bumped | services/pilot_orchestrator/src/nodes.py:74 | `get("retry_count", 0) + 1` raises `TypeError` exactly on a `None` count. |
| Nodes.GenerateSqlRule | services/pilot_orchestrator/src/nodes.py:48-53 | On success the node sets the SQL and clears the error. On an exception it records the message and keeps the SQL. Nothing else changes. |
| Nodes.ExecuteSqlRule | services/pilot_orchestrator/src/nodes.py:61-74 | A missing key raises. Falsy SQL records "No SQL generated" and changes neither the result nor the count. Otherwise the result is the mock text. Only an execution failure moves the count, by exactly one. |
| Nodes.MockResultShape | services/pilot_orchestrator/src/nodes.py:70 | The mock result contains "Mock Result" and ends with the SQL. |
| Nodes.RetrieveRule | services/pilot_orchestrator/src/nodes.py:84-88 | A knowledge-store failure is stored as "Error retrieving context: ..." and not raised. Only the context changes. |
| Nodes.SynthesizeRule | services/pilot_orchestrator/src/nodes.py:99-111 | The context is chosen by intent, and for `sql` a truthy error replaces the SQL and result. The answer is the model's reply. A missing intent raises `KeyError`. |
| Nodes.PromptShape | services/pilot_orchestrator/src/nodes.py:108 | The prompt begins with the query and carries the context. |
| Nodes.AgentState.constructor | services/pilot_orchestrator/src/api.py:34 | The initial state holds only the query. |
| Nodes.AgentState.ClassifyIntent | services/pilot_orchestrator/src/nodes.py:27-41 | The in-place node: only the intent changes. |
| Nodes.AgentState.GenerateSql | services/pilot_orchestrator/src/nodes.py:43-55 | The in-place node matches `GenerateSqlStep`. |
| Nodes.AgentState.ExecuteSql | services/pilot_orchestrator/src/nodes.py:57-76 | The in-place node and the exception it raises match `ExecuteSqlStep`. |
| Nodes.AgentState.RetrieveContext | services/pilot_orchestrator/src/nodes.py:78-90 | The in-place node matches `RetrieveStep`. |
| Nodes.AgentState.SynthesizeAnswer | services/pilot_orchestrator/src/nodes.py:92-112 | The in-place node and the exception it raises match `SynthesizeStep`. |
| Graph.RouteIntent | services/pilot_orchestrator/src/graph.py:11-21 | The router returns one of the three targets. |
| Graph.RouteIntentRule | services/pilot_orchestrator/src/graph.py:15-21 | `sql` goes to `generate_sql` and `rag` to `retrieve_context`. Anything else, including a missing intent, goes to `synthesize_answer`. |
| Graph.ShouldRetrySql | services/pilot_orchestrator/src/graph.py:23-32 | When it returns, it returns `generate_sql` or `synthesize_answer`. |
| Graph.ShouldRetryRule | services/pilot_orchestrator/src/graph.py:27-32 | It retries exactly on a truthy error with a count below 3, and a missing count reads as 0. With no error, or with a count of 3 or more, it proceeds. |
| Graph.Step | services/pilot_orchestrator/src/graph.py:38-74 | A terminal configuration does not move. |
| Graph.ConditionalTargets | services/pilot_orchestrator/src/graph.py:49-68 | Each conditional edge's targets are exactly the names its router can return. |
| Graph.EdgeDeclared | services/pilot_orchestrator/src/graph.py:45-74 | Every edge taken is declared, and only `synthesize_answer` leads to END. |
| Graph.OnlyCycle | services/pilot_orchestrator/src/graph.py:60-71 | The only cycle is `generate_sql` ↔ `execute_sql`. |
| Graph.EndAfterSynthesize | services/pilot_orchestrator/src/graph.py:74 | A run reaches END only right after `synthesize_answer`. |
| Graph.FailedAttempt | services/pilot_orchestrator/src/nodes.py:72-74 | A generate-then-failing-execute round raises the count by one. It goes back to `generate_sql` only while the raised count is below 3 (services/pilot_orchestrator/src/graph.py:30). |
| Graph.TwoRetries | services/pilot_orchestrator/src/graph.py:27-32 | When every execution fails, the run retries twice. It is back at `generate_sql` after two and four steps, and after six steps it moves on to `synthesize_answer` with the count at 3. |
| Graph.FalsySqlLoops | services/pilot_orchestrator/src/graph.py:27-32 | As written, a `sql` query whose tool keeps returning falsy SQL never leaves the retry loop. |
| Graph.ModelDownLoops | services/pilot_orchestrator/src/tools/sql_tool.py:37-39 | When the language-model generator's call keeps raising, it returns `None` and the graph loops forever. |
| Graph.CountedRun | services/pilot_orchestrator/src/graph.py:60-68 | When every failed attempt is counted, each step lowers the fuel. |
| Graph.CountedTerminates | services/pilot_orchestrator/src/graph.py:30 | When every failed attempt is counted, every run ends within eight steps. |
| Agent.IntentName | services/pilot_orchestrator/src/agent.py:30-36 | The intent is one of `knowledge_query`, `data_query`, `unknown`. |
| Agent.ClassifyRule | services/pilot_orchestrator/src/agent.py:30-36 | The knowledge words are checked before the data words, and each intent holds in both directions. |
| Agent.ClassifyCaseInsensitive | services/pilot_orchestrator/src/agent.py:32-35 | Routing ignores case. |
| Agent.RootCauseRedundant | services/pilot_orchestrator/src/agent.py:32 | "root cause" never decides anything, since "cause" already matches. |
| Agent.ResponseShape | services/pilot_orchestrator/src/agent.py:39-61 | `data_query` reports `SQLGenerator` and `knowledge_query` reports `RAGRetriever`. `unknown` has no tool and has the fixed message. |
| Agent.ToolsCalled | services/pilot_orchestrator/src/agent.py:39-55 | Only a data question consults the SQL tool, with the query as typed. A knowledge question gets the retriever's records. |
| RagRetriever.Retrieve | services/tool-service/src/rag_retriever.py:12-48 | The result is always one canned record. |
| RagRetriever.RetrieveRule | services/tool-service/src/rag_retriever.py:19-47 | "payment" wins and gives INC-001. Otherwise "auth" or "login" gives INC-002, and otherwise the result is DOC-101. Each case holds in both directions. |
| RagRetriever.RetrieveCaseInsensitive | services/tool-service/src/rag_retriever.py:19-29 | Matching ignores case. |
| RagRetriever.IdsDistinct | services/tool-service/src/rag_retriever.py:21-42 | The three records have distinct ids. |
| RoutingExamples.CountAllErrors | services/pilot_orchestrator/tests/test_agent.py:14 | "Count all errors" goes to `SQLGenerator`. |
| RoutingExamples.HowManyFailures | services/pilot_orchestrator/tests/test_agent.py:15 | "How many failures in payment-service?" goes to `SQLGenerator`. |
| RoutingExamples.WhyAuthFailing | services/pilot_orchestrator/tests/test_agent.py:16 | "Why is the auth service failing?" goes to `RAGRetriever` and gets INC-002. |
| RoutingExamples.SolutionForTimeout | services/pilot_orchestrator/tests/test_agent.py:17 | "What is the solution for timeout?" goes to `RAGRetriever` and gets DOC-101. |
| RoutingExamples.HelloWorld | services/pilot_orchestrator/tests/test_agent.py:18 | "Hello world" is `unknown`. |
| RoutingExamples.CountErrorsIsSql | services/pilot_orchestrator/tests/test_nodes.py:20-23 | "count errors" classifies as `sql`. |
| RoutingExamples.WhyDidItFailIsRag | services/pilot_orchestrator/tests/test_nodes.py:25-28 | "why did it fail?" classifies as `rag`. |

## Left out

- **I/O and printing:** `print`, `sys.stdout`, `open`, the directory scan `BulkLoaderJob.run` and its verification queries, the `LogIngestor.run` loop, and the sleeping `MockKafkaConsumer`. They only move text in and out. The consumer's fixed lines are used as examples.
- **The language model, prompt construction, the knowledge store and the database engine:** they are parameters: functions from text to a reply or to the text of the exception they raise. JSON encoding is the abstract value `Json(v)`.
- **`executemany`:** modelled as all-or-nothing. Which calls raise is fixed up front by the set `failing`.
- **The orchestrator's state module (services/pilot_orchestrator/src/state.py):** it is not part of this model. A key never written is `Absent`, and `state[...]` on it raises `KeyError`.
- **The log schema module (shared/log_schema.py):** it is not part of this model. `LogEvent` is assumed to have the eleven table columns, with `trace_id` defaulting to `None`.
- **The agent's SQL generator module (services/tool-service/src/sql_gen.py):** it is not part of this model. `process_query` takes its `execute` as a parameter.
- **The langgraph runtime:** `StateGraph.compile`, `invoke` and its recursion limit are not modelled. Runs are `Run(v, c, worlds, n)` for any number of steps `n`.
- **The lazy `get_kb_store()` call in `retrieve_context`:** it runs outside the `try`, and a failing store constructor is not modelled.
- **The placeholder execution in `execute_sql`:** it cannot raise. The model still takes the failure as a parameter so that the exception branch is covered.
- **The query key:** the query is always present, as the API always sets it.
- Graph.FalsySqlLoops: states that the run stays at `generate_sql` or `execute_sql` forever. It does not state the strict alternation between them.
- HeuristicSql.GenerateSql: the 4300-digit cap of `int()` is CPython's default. The model fixes it and does not follow `sys.set_int_max_str_digits` or older interpreters without the cap. The error text is the fixed start of CPython's message.
- **Character classes:** Python's Unicode `\w`, `\d`, `\s` and `lower()` are modelled on ASCII only.
- **Floating-point similarity scores:** written as integer hundredths.

## Findings

| source | as written | input that shows it | evidently intended | confidence | as-written member | corrected member |
|---|---|---|---|---|---|---|
| services/pilot_orchestrator/src/nodes.py:61-64 | The "No SQL generated" branch of `execute_sql` sets `sql_error` but never increments `retry_count`. `should_retry_sql` therefore keeps sending the run back to `generate_sql`, and the bound of two retries never applies. The graph as declared loops forever. Under the langgraph runtime, the default recursion limit of 25 steps ends the run instead: it raises `GraphRecursionError`, which services/pilot_orchestrator/src/api.py:46-47 turns into an HTTP 500. | A `sql`-intent query whose generator returns `None` or "" every time. For example, the language-model generator when the model call raises. | Every failed attempt counts towards the retry bound, so the loop stops after at most two retries (three attempts). | not executed | Graph.FalsySqlLoops | Graph.CountedTerminates |
