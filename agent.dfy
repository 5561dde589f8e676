/**
 * `LogPilotAgent.process_query`, the keyword router of the orchestrator's
 * prototype agent. The lowered query is a knowledge question when it holds one
 * of the knowledge words, otherwise a data question when it holds one of the
 * data words, otherwise not understood. A data question goes to the SQL tool and
 * a knowledge question to the retriever, both with the query as typed.
 */
module Agent {
  import opened Strings
  import RagRetriever

  const KnowledgeWords: seq<string> := ["why", "cause", "fix", "solution", "similar", "root cause"]

  const DataWords: seq<string> := ["count", "how many", "show", "list", "errors", "fail", "trend"]

  const UnknownMessage := "I didn't understand that. Try asking " + "'How many errors?' or 'Why is payment failing?'"

  const SqlToolName := "SQLGenerator"
  const RagToolName := "RAGRetriever"

  datatype Intent = KnowledgeQuery | DataQuery | Unknown

  /** The `intent` string of the response. */
  function IntentName(intent: Intent): (name: string)
    ensures name in {"knowledge_query", "data_query", "unknown"}
  {
    match intent
    case KnowledgeQuery => "knowledge_query"
    case DataQuery => "data_query"
    case Unknown => "unknown"
  }

  /** What the tool returned: the SQL tool's answer, or the retrieved records. */
  datatype ToolResult<S> = SqlAnswer(answer: S) | Records(records: seq<RagRetriever.Incident>)

  /** The response dictionary: `intent`, `tool` and `result`, or `intent` and `message`. */
  datatype Response<S> =
    | ToolResponse(intent: Intent, tool: string, result: ToolResult<S>)
    | MessageResponse(intent: Intent, message: string)

  function Classify(query: string): Intent {
    var q := Lower(query);
    if ContainsAny(q, KnowledgeWords) then KnowledgeQuery
    else if ContainsAny(q, DataWords) then DataQuery
    else Unknown
  }

  /**
   * `process_query`. `sqlTool` stands for `SQLGenerator.execute` of a module
   * that is not part of this model.
   */
  function ProcessQuery<S>(query: string, sqlTool: string -> S): Response<S> {
    match Classify(query)
    case DataQuery => ToolResponse(DataQuery, SqlToolName, SqlAnswer(sqlTool(query)))
    case KnowledgeQuery => ToolResponse(KnowledgeQuery, RagToolName, Records(RagRetriever.Retrieve(query)))
    case Unknown => MessageResponse(Unknown, UnknownMessage)
  }

  /** `response.get("tool", "unknown")`. */
  function ToolUsed<S>(response: Response<S>): string {
    if response.ToolResponse? then response.tool else "unknown"
  }

  /** A knowledge word is found in the lowered query. */
  predicate AsksKnowledge(query: string) {
    exists i :: 0 <= i < |KnowledgeWords| && Contains(Lower(query), KnowledgeWords[i])
  }

  /** A data word is found in the lowered query. */
  predicate AsksData(query: string) {
    exists i :: 0 <= i < |DataWords| && Contains(Lower(query), DataWords[i])
  }

  /** The knowledge words are checked first; each intent in both directions. */
  lemma ClassifyRule(query: string)
    ensures Classify(query) == KnowledgeQuery <==> AsksKnowledge(query)
    ensures Classify(query) == DataQuery <==> !AsksKnowledge(query) && AsksData(query)
    ensures Classify(query) == Unknown <==> !AsksKnowledge(query) && !AsksData(query)
  {
  }

  /** Routing ignores case. */
  lemma ClassifyCaseInsensitive(query: string)
    ensures Classify(Lower(query)) == Classify(query)
  {
    LowerIdempotent(query);
  }

  /** Text that holds `pat` holds every slice of `pat`. */
  lemma ContainsSlice(s: string, pat: string, a: nat, b: nat)
    requires a <= b <= |pat| && Contains(s, pat)
    ensures Contains(s, pat[a..b])
  {
    var i := Find(s, pat).value;
    assert OccursAt(s, pat, i);
    var w := s[i..i + |pat|];
    assert w == pat;
    SliceOfSlice(s, i, i + |pat|, a, b);
    ContainsAt(s, pat[a..b], i + a);
  }

  /** "root cause" never decides anything: any text holding it holds "cause". */
  lemma RootCauseRedundant(query: string)
    ensures AsksKnowledge(query) <==> exists i :: 0 <= i < 5 && Contains(Lower(query), KnowledgeWords[i])
  {
    var q := Lower(query);
    if AsksKnowledge(query) {
      var i :| 0 <= i < |KnowledgeWords| && Contains(q, KnowledgeWords[i]);
      if i == 5 {
        var root := KnowledgeWords[5];
        ContainsSlice(q, root, 5, 10);
        assert root[5..10] == KnowledgeWords[1];
        assert Contains(q, KnowledgeWords[1]);
      }
    }
  }

  /** The response names a tool exactly when the intent is understood, and the tool matches the intent. */
  lemma ResponseShape<S>(query: string, sqlTool: string -> S)
    ensures ProcessQuery(query, sqlTool).intent == Classify(query)
    ensures ProcessQuery(query, sqlTool).ToolResponse? <==> Classify(query) != Unknown
    ensures ToolUsed(ProcessQuery(query, sqlTool)) == SqlToolName <==> Classify(query) == DataQuery
    ensures ToolUsed(ProcessQuery(query, sqlTool)) == RagToolName <==> Classify(query) == KnowledgeQuery
    ensures ToolUsed(ProcessQuery(query, sqlTool)) == "unknown" <==> Classify(query) == Unknown
    ensures Classify(query) == Unknown ==> ProcessQuery(query, sqlTool).message == UnknownMessage
  {
    assert SqlToolName[0] != RagToolName[0] && SqlToolName[0] != 'u' && RagToolName[0] != 'u';
  }

  /**
   * The SQL tool is consulted only for a data question, and then with the query
   * as typed; a knowledge question gets the retriever's records for that query.
   */
  lemma ToolsCalled<S>(query: string, t1: string -> S, t2: string -> S)
    ensures Classify(query) != DataQuery ==> ProcessQuery(query, t1) == ProcessQuery(query, t2)
    ensures Classify(query) == DataQuery ==>
      (t1(query) == t2(query) <==> ProcessQuery(query, t1) == ProcessQuery(query, t2))
    ensures Classify(query) == DataQuery ==> ProcessQuery(query, t1).result == SqlAnswer(t1(query))
    ensures Classify(query) == KnowledgeQuery ==>
      ProcessQuery(query, t1).result == Records(RagRetriever.Retrieve(query))
  {
  }
}
