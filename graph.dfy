/**
 * The orchestrator's state graph: five nodes, the entry `classify_intent`, the
 * intent router, the SQL retry edge and the fixed edges, run one node per step.
 * The outside world (SQL tool, execution failure, knowledge store, language
 * model) is given per step.
 */
module Graph {
  import opened Wrappers
  import opened Nodes
  import SqlExecution
  import LlmSql

  datatype Node = Classify | GenerateSql | ExecuteSql | RetrieveContext | Synthesize

  /** Where a run stands: before a node, past END, or stopped by an exception. */
  datatype Position = At(node: Node) | Finished | Failed(error: NodeError)

  datatype Config = Config(pos: Position, state: State)

  /** What the outside world answers during one step. */
  datatype World = World(
    sqlTool: string -> Result<Option<string>, string>,
    failure: Option<string>,
    kb: string -> Result<string, string>,
    llm: string -> Result<string, string>)

  /** `execute_sql` as written, or with every failed attempt counted. */
  datatype Variant = AsWritten | Counted

  const Entry := Classify

  /** `route_intent`. */
  function RouteIntent(s: State): (next: Node)
    ensures next in {GenerateSql, RetrieveContext, Synthesize}
  {
    if s.intent == Set("sql") then GenerateSql
    else if s.intent == Set("rag") then RetrieveContext
    else Synthesize
  }

  /** `should_retry_sql`; comparing a `None` count with 3 raises `TypeError`. */
  function ShouldRetrySql(s: State): (r: Result<Node, NodeError>)
    ensures r.Ok? ==> r.value in {GenerateSql, Synthesize}
  {
    if !Truthy(s.sqlError) then Ok(Synthesize)
    else if s.retryCount.Null? then Err(TypeError)
    else if CountOf(s.retryCount) < 3 then Ok(GenerateSql)
    else Ok(Synthesize)
  }

  /** The edge taken after a node: the next node, `None` for END, or an exception. */
  function Edge(n: Node, s: State): Result<Option<Node>, NodeError> {
    match n
    case Classify => Ok(Some(RouteIntent(s)))
    case GenerateSql => Ok(Some(ExecuteSql))
    case ExecuteSql => if ShouldRetrySql(s).Ok? then Ok(Some(ShouldRetrySql(s).value)) else Err(ShouldRetrySql(s).error)
    case RetrieveContext => Ok(Some(Synthesize))
    case Synthesize => Ok(None)
  }

  /** The declared successors of each node. */
  function Successors(n: Node): set<Node> {
    match n
    case Classify => {GenerateSql, RetrieveContext, Synthesize}
    case GenerateSql => {ExecuteSql}
    case ExecuteSql => {GenerateSql, Synthesize}
    case RetrieveContext => {Synthesize}
    case Synthesize => {}
  }

  function RunNode(v: Variant, n: Node, s: State, w: World): Outcome {
    match n
    case Classify => Outcome(ClassifyStep(s), None)
    case GenerateSql => Outcome(GenerateSqlStep(s, w.sqlTool), None)
    case ExecuteSql => if v == AsWritten then ExecuteSqlStep(s, w.failure) else ExecuteSqlCounted(s, w.failure)
    case RetrieveContext => Outcome(RetrieveStep(s, w.kb), None)
    case Synthesize => SynthesizeStep(s, w.llm)
  }

  predicate Terminal(c: Config) {
    !c.pos.At?
  }

  /** One step: run the node, then follow its edge. */
  function Step(v: Variant, c: Config, w: World): (next: Config)
    ensures Terminal(c) ==> next == c
  {
    if Terminal(c) then c
    else
      var out := RunNode(v, c.pos.node, c.state, w);
      if out.raised.Some? then Config(Failed(out.raised.value), out.state)
      else match Edge(c.pos.node, out.state)
        case Ok(Some(m)) => Config(At(m), out.state)
        case Ok(None) => Config(Finished, out.state)
        case Err(e) => Config(Failed(e), out.state)
  }

  /** `n` steps from `c`, step `k` seeing the world `worlds(k)`. */
  function Run(v: Variant, c: Config, worlds: nat -> World, n: nat): Config {
    if n == 0 then c else Step(v, Run(v, c, worlds, n - 1), worlds(n - 1))
  }

  function Start(s: State): Config {
    Config(At(Entry), s)
  }

  /** `route_intent` in both directions; a missing or `None` intent goes to `synthesize_answer`. */
  lemma RouteIntentRule(s: State)
    ensures RouteIntent(s) == GenerateSql <==> s.intent == Set("sql")
    ensures RouteIntent(s) == RetrieveContext <==> s.intent == Set("rag")
    ensures RouteIntent(s) == Synthesize <==> s.intent != Set("sql") && s.intent != Set("rag")
  {
  }

  /**
   * `should_retry_sql` retries exactly when the error is truthy and the count,
   * with a missing one read as 0, is below 3; with no error or with the count at 3
   * or more it proceeds.
   */
  lemma ShouldRetryRule(s: State)
    ensures ShouldRetrySql(s) == Ok(GenerateSql) <==>
      Truthy(s.sqlError) && !s.retryCount.Null? && CountOf(s.retryCount) < 3
    ensures !Truthy(s.sqlError) ==> ShouldRetrySql(s) == Ok(Synthesize)
    ensures s.retryCount.Set? && s.retryCount.value >= 3 ==> ShouldRetrySql(s) == Ok(Synthesize)
    ensures ShouldRetrySql(s).Err? <==> Truthy(s.sqlError) && s.retryCount.Null?
    ensures ShouldRetrySql(s.(retryCount := Absent)) == ShouldRetrySql(s.(retryCount := Set(0)))
  {
  }

  function Sample(intent: Slot<string>, error: Slot<string>): State {
    Initial("").(intent := intent, sqlError := error)
  }

  /** Each conditional edge can take every target its table lists, and no other. */
  lemma ConditionalTargets()
    ensures forall s :: RouteIntent(s) in Successors(Classify)
    ensures forall s :: ShouldRetrySql(s).Ok? ==> ShouldRetrySql(s).value in Successors(ExecuteSql)
    ensures forall n :: n in Successors(Classify) ==> exists s :: RouteIntent(s) == n
    ensures forall n :: n in Successors(ExecuteSql) ==> exists s :: ShouldRetrySql(s) == Ok(n)
  {
    assert RouteIntent(Sample(Set("sql"), Absent)) == GenerateSql;
    assert RouteIntent(Sample(Set("rag"), Absent)) == RetrieveContext;
    assert RouteIntent(Sample(Absent, Absent)) == Synthesize;
    assert ShouldRetrySql(Sample(Absent, Set("e"))) == Ok(GenerateSql);
    assert ShouldRetrySql(Sample(Absent, Absent)) == Ok(Synthesize);
  }

  /** Every edge a run takes is a declared one, and only `synthesize_answer` leads to END. */
  lemma EdgeDeclared(n: Node, s: State)
    ensures Edge(n, s).Ok? && Edge(n, s).value.Some? ==> Edge(n, s).value.value in Successors(n)
    ensures Edge(n, s) == Ok(None) <==> n == Synthesize
  {
  }

  function Rank(n: Node): nat {
    match n
    case Classify => 3
    case GenerateSql => 2
    case ExecuteSql => 2
    case RetrieveContext => 1
    case Synthesize => 0
  }

  /**
   * Every declared edge lowers the rank except the two between `generate_sql`
   * and `execute_sql`, so the retry loop is the only cycle.
   */
  lemma OnlyCycle(n: Node, m: Node)
    requires m in Successors(n)
    ensures Rank(m) < Rank(n) || (n in {GenerateSql, ExecuteSql} && m in {GenerateSql, ExecuteSql} && n != m)
  {
  }

  /** A run reaches END only straight after `synthesize_answer`. */
  lemma EndAfterSynthesize(v: Variant, c: Config, w: World)
    requires !Terminal(c) && Step(v, c, w).pos == Finished
    ensures c.pos == At(Synthesize)
  {
  }

  /** The state of the SQL loop when the SQL tool brings back nothing usable. */
  predicate Stuck(c: Config, s: State) {
    c.state.query == s.query && c.state.intent == Set("sql") && c.state.retryCount == s.retryCount &&
    (c.pos == At(GenerateSql) || (c.pos == At(ExecuteSql) && !c.state.sqlQuery.Absent? && !Truthy(c.state.sqlQuery)))
  }

  /** The world of one step hands back falsy SQL for the query. */
  predicate FalsyTool(w: World, query: string) {
    w.sqlTool(query).Ok? && SqlExecution.Falsy(w.sqlTool(query).value)
  }

  lemma FirstStep(s: State, w: World)
    requires IntentOf(s.query) == "sql"
    ensures Stuck(Step(AsWritten, Start(s), w), s) && Step(AsWritten, Start(s), w).pos == At(GenerateSql)
  {
  }

  lemma GenerateStuck(c: Config, s: State, w: World)
    requires Stuck(c, s) && c.pos == At(GenerateSql) && FalsyTool(w, s.query)
    ensures Stuck(Step(AsWritten, c, w), s) && Step(AsWritten, c, w).pos == At(ExecuteSql)
  {
    var r := GenerateSqlStep(c.state, w.sqlTool);
    assert r.sqlQuery.Set? ==> r.sqlQuery.value == "";
  }

  lemma ExecuteStuck(c: Config, s: State, w: World)
    requires Stuck(c, s) && c.pos == At(ExecuteSql)
    requires !s.retryCount.Null? && CountOf(s.retryCount) < 3
    ensures Stuck(Step(AsWritten, c, w), s) && Step(AsWritten, c, w).pos == At(GenerateSql)
  {
    var out := ExecuteSqlStep(c.state, w.failure);
    assert out == Outcome(c.state.(sqlError := Set(NoSqlMessage)), None);
    assert NoSqlMessage[0] == 'N';
    assert ShouldRetrySql(out.state) == Ok(GenerateSql);
  }

  /**
   * As written, a `sql` query whose generator keeps returning falsy SQL, from a
   * state whose count lets one retry happen, never leaves the loop: after the
   * first step the run is at `generate_sql` or `execute_sql` forever, since
   * "No SQL generated" is an error that never raises the count.
   */
  lemma FalsySqlLoops(s: State, worlds: nat -> World, n: nat)
    requires IntentOf(s.query) == "sql"
    requires !s.retryCount.Null? && CountOf(s.retryCount) < 3
    requires forall k {:trigger FalsyTool(worlds(k), s.query)} :: FalsyTool(worlds(k), s.query)
    requires n >= 1
    ensures Stuck(Run(AsWritten, Start(s), worlds, n), s)
  {
    FirstStep(s, worlds(0));
    StaysStuck(s, worlds, n);
  }

  /** Once stuck after the first step, every further step with a falsy tool stays stuck. */
  lemma {:induction false} StaysStuck(s: State, worlds: nat -> World, n: nat)
    requires Stuck(Step(AsWritten, Start(s), worlds(0)), s)
    requires !s.retryCount.Null? && CountOf(s.retryCount) < 3
    requires forall k {:trigger FalsyTool(worlds(k), s.query)} :: FalsyTool(worlds(k), s.query)
    requires n >= 1
    ensures Stuck(Run(AsWritten, Start(s), worlds, n), s)
  {
    if n > 1 {
      StaysStuck(s, worlds, n - 1);
      StuckStep(Run(AsWritten, Start(s), worlds, n - 1), s, worlds(n - 1));
    }
  }

  lemma StuckStep(c: Config, s: State, w: World)
    requires Stuck(c, s) && FalsyTool(w, s.query)
    requires !s.retryCount.Null? && CountOf(s.retryCount) < 3
    ensures Stuck(Step(AsWritten, c, w), s)
  {
    if c.pos == At(GenerateSql) {
      GenerateStuck(c, s, w);
    } else {
      ExecuteStuck(c, s, w);
    }
  }

  /**
   * The loop above is what the language-model SQL generator produces when the
   * model call keeps raising for the query: its `generate_sql` then answers `None`.
   */
  lemma ModelDownLoops(s: State, model: string -> Result<string, string>, worlds: nat -> World, n: nat)
    requires IntentOf(s.query) == "sql" && s.retryCount == Absent
    requires model(s.query).Err?
    requires forall k :: worlds(k).sqlTool(s.query) == Ok(LlmSql.GenerateSql(s.query, model))
    requires n >= 1
    ensures Run(AsWritten, Start(s), worlds, n).pos in {At(GenerateSql), At(ExecuteSql)}
  {
    assert forall k :: FalsyTool(worlds(k), s.query);
    FalsySqlLoops(s, worlds, n);
  }

  /** The world of one step: the SQL tool gives nonempty SQL, and running it raises a nonempty message. */
  predicate ExecutionFails(w: World, query: string) {
    w.sqlTool(query).Ok? && w.sqlTool(query).value.Some? && w.sqlTool(query).value.value != "" &&
    w.failure.Some? && w.failure.value != ""
  }

  /**
   * One failed attempt, as written: `generate_sql` and then a failing `execute_sql`
   * raise the count by one, and the run goes back to `generate_sql` only while
   * the raised count is below 3.
   */
  lemma FailedAttempt(c: Config, w1: World, w2: World, k: nat)
    requires c.pos == At(GenerateSql) && !c.state.retryCount.Null? && CountOf(c.state.retryCount) == k
    requires ExecutionFails(w1, c.state.query) && ExecutionFails(w2, c.state.query)
    ensures var d := Step(AsWritten, Step(AsWritten, c, w1), w2);
      d.state.query == c.state.query && d.state.retryCount == Set(k + 1) &&
      d.pos == (if k + 1 < 3 then At(GenerateSql) else At(Synthesize))
  {
    var g := Step(AsWritten, c, w1);
    assert g.pos == At(ExecuteSql) && Truthy(g.state.sqlQuery) && g.state.retryCount == c.state.retryCount;
    var out := ExecuteSqlStep(g.state, w2.failure);
    assert out.state.retryCount == Set(k + 1) && Truthy(out.state.sqlError);
  }

  /**
   * As written, when every execution fails, a run at `generate_sql` with no count
   * yet retries twice: it is back at `generate_sql` after two and after four steps,
   * and the third failure, six steps in, sends it on to `synthesize_answer` with
   * the count at 3. Three attempts in all.
   */
  lemma TwoRetries(c: Config, worlds: nat -> World)
    requires c.pos == At(GenerateSql) && c.state.retryCount.Absent?
    requires forall k {:trigger worlds(k)} :: ExecutionFails(worlds(k), c.state.query)
    ensures Run(AsWritten, c, worlds, 2).pos == At(GenerateSql) && Run(AsWritten, c, worlds, 2).state.retryCount == Set(1)
    ensures Run(AsWritten, c, worlds, 4).pos == At(GenerateSql) && Run(AsWritten, c, worlds, 4).state.retryCount == Set(2)
    ensures Run(AsWritten, c, worlds, 6).pos == At(Synthesize) && Run(AsWritten, c, worlds, 6).state.retryCount == Set(3)
  {
    assert Run(AsWritten, c, worlds, 0) == c;
    RunTwoMore(c, worlds, 0);
    FailedAttempt(c, worlds(0), worlds(1), 0);
    RunTwoMore(c, worlds, 2);
    FailedAttempt(Run(AsWritten, c, worlds, 2), worlds(2), worlds(3), 1);
    RunTwoMore(c, worlds, 4);
    FailedAttempt(Run(AsWritten, c, worlds, 4), worlds(4), worlds(5), 2);
  }

  lemma RunTwoMore(c: Config, worlds: nat -> World, n: nat)
    ensures Run(AsWritten, c, worlds, n + 2) ==
      Step(AsWritten, Step(AsWritten, Run(AsWritten, c, worlds, n), worlds(n)), worlds(n + 1))
  {
    assert Run(AsWritten, c, worlds, n + 1) == Step(AsWritten, Run(AsWritten, c, worlds, n), worlds(n));
  }

  /** The invariant of the counted variant while the SQL tool never raises. */
  predicate CountedInv(c: Config) {
    (c.state.retryCount.Set? ==> c.state.retryCount.value >= 0) &&
    (c.pos == At(ExecuteSql) ==> c.state.sqlError == Null)
  }

  /** Retries still allowed from a count below 2. */
  function Rounds(count: Slot<int>): nat {
    if CountOf(count) < 2 then (2 - CountOf(count)) as nat else 0
  }

  /** An upper bound on the steps left to a terminal position. */
  function Fuel(c: Config): nat {
    match c.pos
    case Finished => 0
    case Failed(_) => 0
    case At(n) =>
      match n
      case Classify => 8
      case GenerateSql => 3 + 2 * Rounds(c.state.retryCount)
      case ExecuteSql => 2 + 2 * Rounds(c.state.retryCount)
      case RetrieveContext => 2
      case Synthesize => 1
  }

  lemma CountedStep(c: Config, w: World)
    requires CountedInv(c) && !Terminal(c)
    requires forall q :: w.sqlTool(q).Ok?
    ensures CountedInv(Step(Counted, c, w))
    ensures Fuel(Step(Counted, c, w)) < Fuel(c)
  {
    match c.pos.node
    case Classify => CountedClassify(c, w);
    case GenerateSql => CountedGenerate(c, w);
    case ExecuteSql => CountedExecute(c, w);
    case RetrieveContext =>
    case Synthesize =>
  }

  lemma CountedClassify(c: Config, w: World)
    requires CountedInv(c) && c.pos == At(Classify)
    ensures CountedInv(Step(Counted, c, w))
    ensures Fuel(Step(Counted, c, w)) < Fuel(c)
  {
    ClassifyNext(c, w, Step(Counted, c, w));
  }

  lemma ClassifyNext(c: Config, w: World, next: Config)
    requires CountedInv(c) && c.pos == At(Classify) && next == Step(Counted, c, w)
    ensures next.state.retryCount == c.state.retryCount
    ensures next.pos in {At(GenerateSql), At(RetrieveContext), At(Synthesize)}
  {
  }

  lemma CountedGenerate(c: Config, w: World)
    requires CountedInv(c) && c.pos == At(GenerateSql)
    requires forall q :: w.sqlTool(q).Ok?
    ensures CountedInv(Step(Counted, c, w))
    ensures Fuel(Step(Counted, c, w)) < Fuel(c)
  {
    assert GenerateSqlStep(c.state, w.sqlTool).retryCount == c.state.retryCount;
  }

  lemma CountedExecute(c: Config, w: World)
    requires CountedInv(c) && c.pos == At(ExecuteSql)
    ensures CountedInv(Step(Counted, c, w))
    ensures Fuel(Step(Counted, c, w)) < Fuel(c)
  {
    var s := c.state;
    var out := ExecuteSqlCounted(s, w.failure);
    if out.raised.None? && out.state.retryCount != s.retryCount {
      assert CountOf(out.state.retryCount) == CountOf(s.retryCount) + 1;
    }
  }

  lemma {:induction false} CountedRun(c: Config, worlds: nat -> World, n: nat)
    requires CountedInv(c)
    requires forall k, q :: worlds(k).sqlTool(q).Ok?
    ensures CountedInv(Run(Counted, c, worlds, n))
    ensures Terminal(Run(Counted, c, worlds, n)) || Fuel(Run(Counted, c, worlds, n)) + n <= Fuel(c)
  {
    if n > 0 {
      CountedRun(c, worlds, n - 1);
      var prev := Run(Counted, c, worlds, n - 1);
      if !Terminal(prev) {
        CountedStep(prev, worlds(n - 1));
      }
    }
  }

  /**
   * With every failed attempt counted and a SQL tool that never raises (the
   * language-model generator catches everything), every run from the entry ends,
   * at END or with an exception, within eight steps whatever the tool, the
   * database, the store and the model answer.
   */
  lemma CountedTerminates(s: State, worlds: nat -> World, n: nat)
    requires s.retryCount.Set? ==> s.retryCount.value >= 0
    requires forall k, q :: worlds(k).sqlTool(q).Ok?
    requires n >= 8
    ensures Terminal(Run(Counted, Start(s), worlds, n))
  {
    CountedRun(Start(s), worlds, n);
  }
}
