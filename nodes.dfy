/**
 * The nodes of the orchestrator's graph. Each node reads the shared state
 * dictionary, writes some of its keys in place and returns it. The state is the
 * class `AgentState`, whose methods are the nodes; each method is proved against
 * a step function on the value `State`, which the graph is built from. A key
 * that was never written is `Absent`; reading it with `state[...]` raises
 * `KeyError`, while `state.get(...)` gives `None`.
 */
module Nodes {
  import opened Wrappers
  import opened Strings

  /** One key of the state dictionary: missing, bound to `None`, or bound to a value. */
  datatype Slot<T> = Absent | Null | Set(value: T)

  /** Python truthiness of an optional string: `None` and "" are false. */
  predicate Truthy(slot: Slot<string>) {
    slot.Set? && slot.value != ""
  }

  /** How an f-string shows `state.get(key)`. */
  function Show(slot: Slot<string>): string {
    if slot.Set? then slot.value else "None"
  }

  datatype State = State(
    query: string,
    intent: Slot<string>,
    sqlQuery: Slot<string>,
    sqlResult: Slot<string>,
    sqlError: Slot<string>,
    ragContext: Slot<string>,
    finalAnswer: Slot<string>,
    retryCount: Slot<int>)

  /** The state the API hands to the graph: the query and nothing else a node reads. */
  function Initial(query: string): (s: State)
    ensures s.query == query
  {
    State(query, Absent, Absent, Absent, Absent, Absent, Absent, Absent)
  }

  /** The exception a node raises. */
  datatype NodeError = KeyError(key: string) | TypeError | Raised(message: string)

  /** A node's effect: the state as the node left it, and the exception it raised, if any. */
  datatype Outcome = Outcome(state: State, raised: Option<NodeError>)

  const SqlWords: seq<string> := ["count", "how many", "list", "show", "select", "find"]
  const RagWords: seq<string> := ["why", "how to", "explain", "what is", "fix"]

  const NoSqlMessage := "No SQL generated"
  const MockPrefix := "Mock Result for: "
  const KbErrorPrefix := "Error retrieving context: "
  const AmbiguousContext := "Ambiguous intent."

  /** The intent `classify_intent` stores for a query. */
  function IntentOf(query: string): (intent: string)
    ensures intent in {"sql", "rag", "ambiguous"}
  {
    var q := Lower(query);
    if ContainsAny(q, SqlWords) then "sql"
    else if ContainsAny(q, RagWords) then "rag"
    else "ambiguous"
  }

  /** `classify_intent`. */
  function ClassifyStep(s: State): State {
    s.(intent := Set(IntentOf(s.query)))
  }

  /**
   * `generate_sql`. `sqlTool` is `SQLGenerator.generate_sql`: the generated SQL
   * (`None` allowed), or the text of the exception it raises.
   */
  function GenerateSqlStep(s: State, sqlTool: string -> Result<Option<string>, string>): State {
    match sqlTool(s.query)
    case Ok(sql) => s.(sqlQuery := if sql.Some? then Set(sql.value) else Null, sqlError := Null)
    case Err(e) => s.(sqlError := Set(e))
  }

  /** `state.get("retry_count", 0) + 1`; adding to `None` raises `TypeError`. */
  function Bumped(count: Slot<int>): (r: Result<Slot<int>, NodeError>)
    ensures count.Null? <==> r.Err?
    ensures r.Err? ==> r.error == TypeError
  {
    match count
    case Absent => Ok(Set(1))
    case Null => Err(TypeError)
    case Set(n) => Ok(Set(n + 1))
  }

  /** Store the incremented count; when the increment raises, the state is left as it is. */
  function Retried(s: State): Outcome {
    match Bumped(s.retryCount)
    case Ok(count) => Outcome(s.(retryCount := count), None)
    case Err(error) => Outcome(s, Some(error))
  }

  /**
   * `execute_sql` as written. `failure` is the exception the execution of the SQL
   * raises, if any; the placeholder that stands for the database call cannot
   * raise, so in the repository it is always `None`.
   */
  function ExecuteSqlStep(s: State, failure: Option<string>): Outcome {
    if s.sqlQuery.Absent? then Outcome(s, Some(KeyError("sql_query")))
    else if !Truthy(s.sqlQuery) then Outcome(s.(sqlError := Set(NoSqlMessage)), None)
    else match failure
      case None => Outcome(s.(sqlResult := Set(MockPrefix + s.sqlQuery.value)), None)
      case Some(e) => Retried(s.(sqlError := Set(e)))
  }

  /** `execute_sql` with the count also raised when no SQL was generated, so that every failed attempt is counted. */
  function ExecuteSqlCounted(s: State, failure: Option<string>): Outcome {
    if s.sqlQuery.Absent? then Outcome(s, Some(KeyError("sql_query")))
    else if !Truthy(s.sqlQuery) then Retried(s.(sqlError := Set(NoSqlMessage)))
    else match failure
      case None => Outcome(s.(sqlResult := Set(MockPrefix + s.sqlQuery.value)), None)
      case Some(e) => Retried(s.(sqlError := Set(e)))
  }

  /** `retrieve_context`. `kb` is `KnowledgeStore.query`: the answer, or the text of the exception it raises. */
  function RetrieveStep(s: State, kb: string -> Result<string, string>): State {
    match kb(s.query)
    case Ok(context) => s.(ragContext := Set(context))
    case Err(e) => s.(ragContext := Set(KbErrorPrefix + e))
  }

  /** The context text `synthesize_answer` builds for the state's intent. */
  function Context(s: State): string {
    if s.intent == Set("sql") then
      if Truthy(s.sqlError) then "SQL Error: " + s.sqlError.value
      else "SQL: " + Show(s.sqlQuery) + "\nResult: " + Show(s.sqlResult)
    else if s.intent == Set("rag") then "Retrieved Context: " + Show(s.ragContext)
    else AmbiguousContext
  }

  function Prompt(query: string, context: string): string {
    "User Query: " + query + "\nContext: " + context + "\n\nProvide a helpful answer."
  }

  /**
   * `synthesize_answer`. `llm` is `LLMClient.generate` with the fast model: the
   * reply, or the text of the exception it raises, which propagates.
   */
  function SynthesizeStep(s: State, llm: string -> Result<string, string>): Outcome {
    if s.intent.Absent? then Outcome(s, Some(KeyError("intent")))
    else match llm(Prompt(s.query, Context(s)))
      case Ok(answer) => Outcome(s.(finalAnswer := Set(answer)), None)
      case Err(e) => Outcome(s, Some(Raised(e)))
  }

  /** The shared state dictionary, updated in place by the nodes. */
  class AgentState {
    var query: string
    var intent: Slot<string>
    var sqlQuery: Slot<string>
    var sqlResult: Slot<string>
    var sqlError: Slot<string>
    var ragContext: Slot<string>
    var finalAnswer: Slot<string>
    var retryCount: Slot<int>

    function Snapshot(): State
      reads this
    {
      State(query, intent, sqlQuery, sqlResult, sqlError, ragContext, finalAnswer, retryCount)
    }

    constructor (query: string)
      ensures Snapshot() == Initial(query)
    {
      this.query := query;
      intent, sqlQuery, sqlResult, sqlError := Absent, Absent, Absent, Absent;
      ragContext, finalAnswer, retryCount := Absent, Absent, Absent;
    }

    method ClassifyIntent()
      modifies this
      ensures Snapshot() == ClassifyStep(old(Snapshot()))
    {
      var q := Lower(query);
      if ContainsAny(q, SqlWords) {
        intent := Set("sql");
      } else if ContainsAny(q, RagWords) {
        intent := Set("rag");
      } else {
        intent := Set("ambiguous");
      }
    }

    method GenerateSql(sqlTool: string -> Result<Option<string>, string>)
      modifies this
      ensures Snapshot() == GenerateSqlStep(old(Snapshot()), sqlTool)
    {
      var reply := sqlTool(query);
      if reply.Ok? {
        sqlQuery := if reply.value.Some? then Set(reply.value.value) else Null;
        sqlError := Null;
      } else {
        sqlError := Set(reply.error);
      }
    }

    method ExecuteSql(failure: Option<string>) returns (raised: Option<NodeError>)
      modifies this
      ensures Outcome(Snapshot(), raised) == ExecuteSqlStep(old(Snapshot()), failure)
    {
      if sqlQuery.Absent? {
        return Some(KeyError("sql_query"));
      }
      var sql := sqlQuery;
      if !Truthy(sql) {
        sqlError := Set(NoSqlMessage);
        return None;
      }
      if failure.None? {
        sqlResult := Set(MockPrefix + sql.value);
        return None;
      }
      sqlError := Set(failure.value);
      match retryCount {
        case Absent =>
          retryCount := Set(1);
          raised := None;
        case Null =>
          raised := Some(TypeError);
        case Set(n) =>
          retryCount := Set(n + 1);
          raised := None;
      }
    }

    method RetrieveContext(kb: string -> Result<string, string>)
      modifies this
      ensures Snapshot() == RetrieveStep(old(Snapshot()), kb)
    {
      var answer := kb(query);
      if answer.Ok? {
        ragContext := Set(answer.value);
      } else {
        ragContext := Set(KbErrorPrefix + answer.error);
      }
    }

    method SynthesizeAnswer(llm: string -> Result<string, string>) returns (raised: Option<NodeError>)
      modifies this
      ensures Outcome(Snapshot(), raised) == SynthesizeStep(old(Snapshot()), llm)
    {
      if intent.Absent? {
        return Some(KeyError("intent"));
      }
      var context: string;
      if intent == Set("sql") {
        context := "SQL: " + Show(sqlQuery) + "\nResult: " + Show(sqlResult);
        if Truthy(sqlError) {
          context := "SQL Error: " + sqlError.value;
        }
      } else if intent == Set("rag") {
        context := "Retrieved Context: " + Show(ragContext);
      } else {
        context := AmbiguousContext;
      }
      var reply := llm(Prompt(query, context));
      if reply.Ok? {
        finalAnswer := Set(reply.value);
        raised := None;
      } else {
        raised := Some(Raised(reply.error));
      }
    }
  }

  /** The SQL keywords win over the RAG keywords; each intent in both directions. */
  lemma IntentRule(query: string)
    ensures IntentOf(query) == "sql" <==> ContainsAny(Lower(query), SqlWords)
    ensures IntentOf(query) == "rag" <==> !ContainsAny(Lower(query), SqlWords) && ContainsAny(Lower(query), RagWords)
    ensures IntentOf(query) == "ambiguous" <==>
      !ContainsAny(Lower(query), SqlWords) && !ContainsAny(Lower(query), RagWords)
  {
  }

  /** The intent does not depend on case. */
  lemma IntentCaseInsensitive(query: string)
    ensures IntentOf(Lower(query)) == IntentOf(query)
  {
    LowerIdempotent(query);
  }

  /**
   * `generate_sql` writes the SQL and clears the error on success; on an
   * exception it records the message and keeps the earlier SQL. `intent`,
   * results, context, answer and count stay as they were.
   */
  lemma GenerateSqlRule(s: State, sqlTool: string -> Result<Option<string>, string>)
    ensures sqlTool(s.query).Ok? ==> GenerateSqlStep(s, sqlTool).sqlError == Null
    ensures sqlTool(s.query) == Ok(None) ==> GenerateSqlStep(s, sqlTool).sqlQuery == Null
    ensures forall sql :: sqlTool(s.query) == Ok(Some(sql)) ==> GenerateSqlStep(s, sqlTool).sqlQuery == Set(sql)
    ensures sqlTool(s.query).Err? ==> GenerateSqlStep(s, sqlTool) == s.(sqlError := Set(sqlTool(s.query).error))
    ensures var r := GenerateSqlStep(s, sqlTool);
      r.query == s.query && r.intent == s.intent && r.sqlResult == s.sqlResult && r.ragContext == s.ragContext &&
      r.finalAnswer == s.finalAnswer && r.retryCount == s.retryCount
  {
  }

  /**
   * `execute_sql`: a missing SQL key raises; falsy SQL records "No SQL generated"
   * and touches neither the result nor the count; otherwise the result is the
   * mock text for that SQL. Only an execution failure moves the count, and then
   * by exactly one.
   */
  lemma ExecuteSqlRule(s: State, failure: Option<string>)
    ensures s.sqlQuery.Absent? ==> ExecuteSqlStep(s, failure) == Outcome(s, Some(KeyError("sql_query")))
    ensures !s.sqlQuery.Absent? && !Truthy(s.sqlQuery) ==>
      ExecuteSqlStep(s, failure) == Outcome(s.(sqlError := Set(NoSqlMessage)), None)
    ensures Truthy(s.sqlQuery) && failure.None? ==>
      ExecuteSqlStep(s, failure).state.sqlResult == Set(MockPrefix + s.sqlQuery.value) &&
      ExecuteSqlStep(s, failure).state.sqlError == s.sqlError && ExecuteSqlStep(s, failure).raised == None
    ensures ExecuteSqlStep(s, failure).state.retryCount != s.retryCount ==>
      failure.Some? && Truthy(s.sqlQuery) && ExecuteSqlStep(s, failure).state.retryCount == Set(CountOf(s.retryCount) + 1)
    ensures ExecuteSqlStep(s, failure).raised == Some(TypeError) <==>
      Truthy(s.sqlQuery) && failure.Some? && s.retryCount.Null?
  {
  }

  /** The count `state.get("retry_count", 0)` reads, with `None` read as 0. */
  function CountOf(count: Slot<int>): int {
    if count.Set? then count.value else 0
  }

  /** The mock result always carries the "Mock Result" marker and ends with the SQL it stands for. */
  lemma MockResultShape(sql: string)
    ensures Contains(MockPrefix + sql, "Mock Result")
    ensures (MockPrefix + sql)[|MockPrefix|..] == sql
  {
    var r := MockPrefix + sql;
    assert r[0..11] == "Mock Result";
    ContainsAt(r, "Mock Result", 0);
  }

  /** A knowledge-store failure is kept as text in the context and never raised. */
  lemma RetrieveRule(s: State, kb: string -> Result<string, string>)
    ensures kb(s.query).Ok? ==> RetrieveStep(s, kb).ragContext == Set(kb(s.query).value)
    ensures kb(s.query).Err? ==> RetrieveStep(s, kb).ragContext == Set(KbErrorPrefix + kb(s.query).error)
    ensures RetrieveStep(s, kb) == s.(ragContext := RetrieveStep(s, kb).ragContext)
  {
  }

  /**
   * For the `sql` intent a truthy error replaces the SQL and result text; the
   * final answer is the model's reply to the prompt built from the query and that
   * context, and nothing else changes.
   */
  lemma SynthesizeRule(s: State, llm: string -> Result<string, string>)
    ensures s.intent == Set("sql") && Truthy(s.sqlError) ==> Context(s) == "SQL Error: " + s.sqlError.value
    ensures s.intent == Set("sql") && !Truthy(s.sqlError) ==>
      Context(s) == "SQL: " + Show(s.sqlQuery) + "\nResult: " + Show(s.sqlResult)
    ensures s.intent == Set("rag") ==> Context(s) == "Retrieved Context: " + Show(s.ragContext)
    ensures !s.intent.Absent? && llm(Prompt(s.query, Context(s))).Ok? ==>
      SynthesizeStep(s, llm) == Outcome(s.(finalAnswer := Set(llm(Prompt(s.query, Context(s))).value)), None)
    ensures s.intent.Absent? ==> SynthesizeStep(s, llm) == Outcome(s, Some(KeyError("intent")))
  {
  }

  /** The prompt starts with the query and carries the context after it. */
  lemma PromptShape(query: string, context: string)
    ensures Prompt(query, context)[..12 + |query|] == "User Query: " + query
    ensures Prompt(query, context)[12 + |query| + 10..12 + |query| + 10 + |context|] == context
  {
  }
}
