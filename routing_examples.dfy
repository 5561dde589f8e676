/**
 * The routing examples of the orchestrator's tests, for both keyword routers:
 * the five queries of the agent's test table and the two queries of the
 * classification tests. Each query's lowered text is checked character by
 * character, a long one in two pieces and the seam between them.
 */
module RoutingExamples {
  import opened Strings
  import opened Agent
  import RagRetriever
  import Nodes

  lemma NoKnowledgeWord(t: string)
    requires !Contains(t, "why") && !Contains(t, "cause") && !Contains(t, "fix")
    requires !Contains(t, "solution") && !Contains(t, "similar") && !Contains(t, "root cause")
    ensures !ContainsAny(t, KnowledgeWords)
  {
  }

  lemma NoDataWord(t: string)
    requires !Contains(t, "count") && !Contains(t, "how many") && !Contains(t, "show")
    requires !Contains(t, "list") && !Contains(t, "errors") && !Contains(t, "fail")
    requires !Contains(t, "trend")
    ensures !ContainsAny(t, DataWords)
  {
  }

  lemma NoSqlWord(t: string)
    requires !Contains(t, "count") && !Contains(t, "how many") && !Contains(t, "list")
    requires !Contains(t, "show") && !Contains(t, "select") && !Contains(t, "find")
    ensures !ContainsAny(t, Nodes.SqlWords)
  {
  }

  lemma CountAllLowered()
    ensures LoweredFrom("Count all errors", "count all errors", 0)
  {
    assert LoweredFrom("Count all errors", "count all errors", 12);
    assert LoweredFrom("Count all errors", "count all errors", 6);
  }

  lemma CountAllLacks1()
    ensures NoMatchFrom("count all errors", "why", 0)
    ensures NoMatchFrom("count all errors", "cause", 0)
  {
    assert NoMatchFrom("count all errors", "why", 12);
    assert NoMatchFrom("count all errors", "why", 8);
    assert NoMatchFrom("count all errors", "why", 4);
    assert NoMatchFrom("count all errors", "cause", 8);
    assert NoMatchFrom("count all errors", "cause", 4);
  }

  lemma CountAllNo1(t1: string)
    requires t1 == "count all errors"
    ensures !Contains(t1, "why")
    ensures !Contains(t1, "cause")
  {
    CountAllLacks1();
    Absent(t1, "why");
    Absent(t1, "cause");
  }

  lemma CountAllLacks2()
    ensures NoMatchFrom("count all errors", "fix", 0)
    ensures NoMatchFrom("count all errors", "solution", 0)
  {
    assert NoMatchFrom("count all errors", "fix", 12);
    assert NoMatchFrom("count all errors", "fix", 8);
    assert NoMatchFrom("count all errors", "fix", 4);
    assert NoMatchFrom("count all errors", "solution", 8);
    assert NoMatchFrom("count all errors", "solution", 4);
  }

  lemma CountAllNo2(t1: string)
    requires t1 == "count all errors"
    ensures !Contains(t1, "fix")
    ensures !Contains(t1, "solution")
  {
    CountAllLacks2();
    Absent(t1, "fix");
    Absent(t1, "solution");
  }

  lemma CountAllLacks3()
    ensures NoMatchFrom("count all errors", "similar", 0)
    ensures NoMatchFrom("count all errors", "root cause", 0)
  {
    assert NoMatchFrom("count all errors", "similar", 8);
    assert NoMatchFrom("count all errors", "similar", 4);
    assert NoMatchFrom("count all errors", "root cause", 4);
  }

  lemma CountAllNo3(t1: string)
    requires t1 == "count all errors"
    ensures !Contains(t1, "similar")
    ensures !Contains(t1, "root cause")
  {
    CountAllLacks3();
    Absent(t1, "similar");
    Absent(t1, "root cause");
  }

  lemma CountAllHas(t1: string)
    requires t1 == "count all errors"
    ensures Contains(t1, "count")
  {
    assert MatchFrom("count all errors", "count", 0, 0);
    Present(t1, "count", 0);
  }

  /** What the routers see in "Count all errors". */
  lemma CountAllFacts(q: string) returns (t: string)
    requires q == "Count all errors"
    ensures Lower(q) == t
    ensures !Contains(t, "why")
    ensures !Contains(t, "cause")
    ensures !Contains(t, "fix")
    ensures !Contains(t, "solution")
    ensures !Contains(t, "similar")
    ensures !Contains(t, "root cause")
    ensures Contains(t, "count")
  {
    CountAllLowered();
    var q1, t1 := "Count all errors", "count all errors";
    LoweredIs(q1, t1);
    t := t1;
    CountAllNo1(t1);
    CountAllNo2(t1);
    CountAllNo3(t1);
    CountAllHas(t1);
  }

  lemma CountAllErrors<S>(q: string, sqlTool: string -> S)
    requires q == "Count all errors"
    ensures ProcessQuery(q, sqlTool) == ToolResponse(DataQuery, SqlToolName, SqlAnswer(sqlTool(q)))
  {
    var t := CountAllFacts(q);
    NoKnowledgeWord(t);
    assert Contains(t, DataWords[0]);
  }

  lemma HowManyLowered()
    ensures LoweredFrom("How many failures ", "how many failures ", 0)
    ensures LoweredFrom("in payment-service?", "in payment-service?", 0)
  {
    assert LoweredFrom("How many failures ", "how many failures ", 12);
    assert LoweredFrom("How many failures ", "how many failures ", 6);
    assert LoweredFrom("in payment-service?", "in payment-service?", 18);
    assert LoweredFrom("in payment-service?", "in payment-service?", 12);
    assert LoweredFrom("in payment-service?", "in payment-service?", 6);
  }

  lemma HowManyLacks1a()
    ensures NoMatchFrom("how many failures ", "why", 0)
  {
    assert NoMatchFrom("how many failures ", "why", 12);
    assert NoMatchFrom("how many failures ", "why", 8);
    assert NoMatchFrom("how many failures ", "why", 4);
  }

  lemma HowManyLacks1b()
    ensures NoMatchFrom("in payment-service?", "why", 0)
  {
    assert NoMatchFrom("in payment-service?", "why", 16);
    assert NoMatchFrom("in payment-service?", "why", 12);
    assert NoMatchFrom("in payment-service?", "why", 8);
    assert NoMatchFrom("in payment-service?", "why", 4);
  }

  lemma HowManyLacks1c()
    ensures NoMatchFrom("s in", "why", 0)
    ensures "s in" == "how many failures "[16..] + "in payment-service?"[..2]
  {
  }

  lemma HowManyNo1(t1: string, t2: string)
    requires t1 == "how many failures " && t2 == "in payment-service?"
    ensures !Contains(t1 + t2, "why")
  {
    HowManyLacks1a();
    HowManyLacks1b();
    HowManyLacks1c();
    Absent(t1, "why");
    Absent(t2, "why");
    Absent("s in", "why");
    AbsentAppend(t1, t2, "why", "s in");
  }

  lemma HowManyLacks2a()
    ensures NoMatchFrom("how many failures ", "cause", 0)
  {
    assert NoMatchFrom("how many failures ", "cause", 12);
    assert NoMatchFrom("how many failures ", "cause", 8);
    assert NoMatchFrom("how many failures ", "cause", 4);
  }

  lemma HowManyLacks2b()
    ensures NoMatchFrom("in payment-service?", "cause", 0)
  {
    assert NoMatchFrom("in payment-service?", "cause", 12);
    assert NoMatchFrom("in payment-service?", "cause", 8);
    assert NoMatchFrom("in payment-service?", "cause", 4);
  }

  lemma HowManyLacks2c()
    ensures NoMatchFrom("res in p", "cause", 0)
    ensures "res in p" == "how many failures "[14..] + "in payment-service?"[..4]
  {
  }

  lemma HowManyNo2(t1: string, t2: string)
    requires t1 == "how many failures " && t2 == "in payment-service?"
    ensures !Contains(t1 + t2, "cause")
  {
    HowManyLacks2a();
    HowManyLacks2b();
    HowManyLacks2c();
    Absent(t1, "cause");
    Absent(t2, "cause");
    Absent("res in p", "cause");
    AbsentAppend(t1, t2, "cause", "res in p");
  }

  lemma HowManyLacks3a()
    ensures NoMatchFrom("how many failures ", "fix", 0)
  {
    assert NoMatchFrom("how many failures ", "fix", 12);
    assert NoMatchFrom("how many failures ", "fix", 8);
    assert NoMatchFrom("how many failures ", "fix", 4);
  }

  lemma HowManyLacks3b()
    ensures NoMatchFrom("in payment-service?", "fix", 0)
  {
    assert NoMatchFrom("in payment-service?", "fix", 16);
    assert NoMatchFrom("in payment-service?", "fix", 12);
    assert NoMatchFrom("in payment-service?", "fix", 8);
    assert NoMatchFrom("in payment-service?", "fix", 4);
  }

  lemma HowManyLacks3c()
    ensures NoMatchFrom("s in", "fix", 0)
    ensures "s in" == "how many failures "[16..] + "in payment-service?"[..2]
  {
  }

  lemma HowManyNo3(t1: string, t2: string)
    requires t1 == "how many failures " && t2 == "in payment-service?"
    ensures !Contains(t1 + t2, "fix")
  {
    HowManyLacks3a();
    HowManyLacks3b();
    HowManyLacks3c();
    Absent(t1, "fix");
    Absent(t2, "fix");
    Absent("s in", "fix");
    AbsentAppend(t1, t2, "fix", "s in");
  }

  lemma HowManyLacks4a()
    ensures NoMatchFrom("how many failures ", "solution", 0)
  {
    assert NoMatchFrom("how many failures ", "solution", 8);
    assert NoMatchFrom("how many failures ", "solution", 4);
  }

  lemma HowManyLacks4b()
    ensures NoMatchFrom("in payment-service?", "solution", 0)
  {
    assert NoMatchFrom("in payment-service?", "solution", 8);
    assert NoMatchFrom("in payment-service?", "solution", 4);
  }

  lemma HowManyLacks4c()
    ensures NoMatchFrom("ilures in paym", "solution", 0)
    ensures "ilures in paym" == "how many failures "[11..] + "in payment-service?"[..7]
  {
    assert NoMatchFrom("ilures in paym", "solution", 4);
  }

  lemma HowManyNo4(t1: string, t2: string)
    requires t1 == "how many failures " && t2 == "in payment-service?"
    ensures !Contains(t1 + t2, "solution")
  {
    HowManyLacks4a();
    HowManyLacks4b();
    HowManyLacks4c();
    Absent(t1, "solution");
    Absent(t2, "solution");
    Absent("ilures in paym", "solution");
    AbsentAppend(t1, t2, "solution", "ilures in paym");
  }

  lemma HowManyLacks5a()
    ensures NoMatchFrom("how many failures ", "similar", 0)
  {
    assert NoMatchFrom("how many failures ", "similar", 8);
    assert NoMatchFrom("how many failures ", "similar", 4);
  }

  lemma HowManyLacks5b()
    ensures NoMatchFrom("in payment-service?", "similar", 0)
  {
    assert NoMatchFrom("in payment-service?", "similar", 12);
    assert NoMatchFrom("in payment-service?", "similar", 8);
    assert NoMatchFrom("in payment-service?", "similar", 4);
  }

  lemma HowManyLacks5c()
    ensures NoMatchFrom("lures in pay", "similar", 0)
    ensures "lures in pay" == "how many failures "[12..] + "in payment-service?"[..6]
  {
    assert NoMatchFrom("lures in pay", "similar", 4);
  }

  lemma HowManyNo5(t1: string, t2: string)
    requires t1 == "how many failures " && t2 == "in payment-service?"
    ensures !Contains(t1 + t2, "similar")
  {
    HowManyLacks5a();
    HowManyLacks5b();
    HowManyLacks5c();
    Absent(t1, "similar");
    Absent(t2, "similar");
    Absent("lures in pay", "similar");
    AbsentAppend(t1, t2, "similar", "lures in pay");
  }

  lemma HowManyLacks6a()
    ensures NoMatchFrom("how many failures ", "root cause", 0)
  {
    assert NoMatchFrom("how many failures ", "root cause", 8);
    assert NoMatchFrom("how many failures ", "root cause", 4);
  }

  lemma HowManyLacks6b()
    ensures NoMatchFrom("in payment-service?", "root cause", 0)
  {
    assert NoMatchFrom("in payment-service?", "root cause", 8);
    assert NoMatchFrom("in payment-service?", "root cause", 4);
  }

  lemma HowManySeam()
    ensures "failures in paymen" == "how many failures "[9..] + "in payment-service?"[..9]
  {
    assert "how many failures "[9..] == "failures ";
    assert "in payment-service?"[..9] == "in paymen";
  }

  lemma HowManyLacks6c()
    ensures NoMatchFrom("failures in paymen", "root cause", 0)
  {
    assert NoMatchFrom("failures in paymen", "root cause", 8);
    assert NoMatchFrom("failures in paymen", "root cause", 6);
    assert NoMatchFrom("failures in paymen", "root cause", 4);
    assert NoMatchFrom("failures in paymen", "root cause", 2);
  }

  lemma HowManyNo6(t1: string, t2: string)
    requires t1 == "how many failures " && t2 == "in payment-service?"
    ensures !Contains(t1 + t2, "root cause")
  {
    HowManyLacks6a();
    HowManyLacks6b();
    HowManyLacks6c();
    HowManySeam();
    Absent(t1, "root cause");
    Absent(t2, "root cause");
    Absent("failures in paymen", "root cause");
    AbsentAppend(t1, t2, "root cause", "failures in paymen");
  }

  lemma HowManyHas(t1: string, t2: string)
    requires t1 == "how many failures " && t2 == "in payment-service?"
    ensures Contains(t1 + t2, "how many")
  {
    assert MatchFrom("how many failures ", "how many", 0, 0);
    Present(t1, "how many", 0);
    ContainsAppend(t1, t2, "how many");
  }

  /** What the routers see in "How many failures " + "in payment-service?". */
  lemma HowManyFacts(q: string) returns (t: string)
    requires q == "How many failures " + "in payment-service?"
    ensures Lower(q) == t
    ensures !Contains(t, "why")
    ensures !Contains(t, "cause")
    ensures !Contains(t, "fix")
    ensures !Contains(t, "solution")
    ensures !Contains(t, "similar")
    ensures !Contains(t, "root cause")
    ensures Contains(t, "how many")
  {
    HowManyLowered();
    var q1, q2 := "How many failures ", "in payment-service?";
    var t1, t2 := "how many failures ", "in payment-service?";
    LoweredIs(q1, t1);
    LoweredIs(q2, t2);
    LowerAppend(q1, q2);
    t := t1 + t2;
    HowManyNo1(t1, t2);
    HowManyNo2(t1, t2);
    HowManyNo3(t1, t2);
    HowManyNo4(t1, t2);
    HowManyNo5(t1, t2);
    HowManyNo6(t1, t2);
    HowManyHas(t1, t2);
  }

  lemma HowManyFailures<S>(q: string, sqlTool: string -> S)
    requires q == "How many failures " + "in payment-service?"
    ensures ProcessQuery(q, sqlTool) == ToolResponse(DataQuery, SqlToolName, SqlAnswer(sqlTool(q)))
  {
    var t := HowManyFacts(q);
    NoKnowledgeWord(t);
    assert Contains(t, DataWords[1]);
  }

  lemma WhyAuthLowered()
    ensures LoweredFrom("Why is the auth ", "why is the auth ", 0)
    ensures LoweredFrom("service failing?", "service failing?", 0)
  {
    assert LoweredFrom("Why is the auth ", "why is the auth ", 12);
    assert LoweredFrom("Why is the auth ", "why is the auth ", 6);
    assert LoweredFrom("service failing?", "service failing?", 12);
    assert LoweredFrom("service failing?", "service failing?", 6);
  }

  lemma WhyAuthLacks1a()
    ensures NoMatchFrom("why is the auth ", "payment", 0)
  {
    assert NoMatchFrom("why is the auth ", "payment", 8);
    assert NoMatchFrom("why is the auth ", "payment", 4);
  }

  lemma WhyAuthLacks1b()
    ensures NoMatchFrom("service failing?", "payment", 0)
  {
    assert NoMatchFrom("service failing?", "payment", 8);
    assert NoMatchFrom("service failing?", "payment", 4);
  }

  lemma WhyAuthLacks1c()
    ensures NoMatchFrom(" auth servic", "payment", 0)
    ensures " auth servic" == "why is the auth "[10..] + "service failing?"[..6]
  {
    assert NoMatchFrom(" auth servic", "payment", 4);
  }

  lemma WhyAuthNo1(t1: string, t2: string)
    requires t1 == "why is the auth " && t2 == "service failing?"
    ensures !Contains(t1 + t2, "payment")
  {
    WhyAuthLacks1a();
    WhyAuthLacks1b();
    WhyAuthLacks1c();
    Absent(t1, "payment");
    Absent(t2, "payment");
    Absent(" auth servic", "payment");
    AbsentAppend(t1, t2, "payment", " auth servic");
  }

  lemma WhyAuthHas(t1: string, t2: string)
    requires t1 == "why is the auth " && t2 == "service failing?"
    ensures Contains(t1 + t2, "why")
    ensures Contains(t1 + t2, "auth")
  {
    assert MatchFrom("why is the auth ", "why", 0, 0);
    Present(t1, "why", 0);
    ContainsAppend(t1, t2, "why");
    assert MatchFrom("why is the auth ", "auth", 11, 0);
    Present(t1, "auth", 11);
    ContainsAppend(t1, t2, "auth");
  }

  /** What the routers see in "Why is the auth " + "service failing?". */
  lemma WhyAuthFacts(q: string) returns (t: string)
    requires q == "Why is the auth " + "service failing?"
    ensures Lower(q) == t
    ensures !Contains(t, "payment")
    ensures Contains(t, "why")
    ensures Contains(t, "auth")
  {
    WhyAuthLowered();
    var q1, q2 := "Why is the auth ", "service failing?";
    var t1, t2 := "why is the auth ", "service failing?";
    LoweredIs(q1, t1);
    LoweredIs(q2, t2);
    LowerAppend(q1, q2);
    t := t1 + t2;
    WhyAuthNo1(t1, t2);
    WhyAuthHas(t1, t2);
  }

  /** Routed to the retriever, which answers with the authentication incident. */
  lemma WhyAuthFailing<S>(q: string, sqlTool: string -> S)
    requires q == "Why is the auth " + "service failing?"
    ensures ProcessQuery(q, sqlTool) ==
      ToolResponse(KnowledgeQuery, RagToolName, Records([RagRetriever.AuthIncident]))
  {
    var t := WhyAuthFacts(q);
    assert Contains(t, KnowledgeWords[0]);
    RagRetriever.RetrieveRule(q);
  }

  lemma SolutionLowered()
    ensures LoweredFrom("What is the ", "what is the ", 0)
    ensures LoweredFrom("solution for timeout?", "solution for timeout?", 0)
  {
    assert LoweredFrom("What is the ", "what is the ", 6);
    assert LoweredFrom("solution for timeout?", "solution for timeout?", 18);
    assert LoweredFrom("solution for timeout?", "solution for timeout?", 12);
    assert LoweredFrom("solution for timeout?", "solution for timeout?", 6);
  }

  lemma SolutionLacks1a()
    ensures NoMatchFrom("what is the ", "payment", 0)
  {
    assert NoMatchFrom("what is the ", "payment", 4);
  }

  lemma SolutionLacks1b()
    ensures NoMatchFrom("solution for timeout?", "payment", 0)
  {
    assert NoMatchFrom("solution for timeout?", "payment", 12);
    assert NoMatchFrom("solution for timeout?", "payment", 8);
    assert NoMatchFrom("solution for timeout?", "payment", 4);
  }

  lemma SolutionLacks1c()
    ensures NoMatchFrom("s the soluti", "payment", 0)
    ensures "s the soluti" == "what is the "[6..] + "solution for timeout?"[..6]
  {
    assert NoMatchFrom("s the soluti", "payment", 4);
  }

  lemma SolutionNo1(t1: string, t2: string)
    requires t1 == "what is the " && t2 == "solution for timeout?"
    ensures !Contains(t1 + t2, "payment")
  {
    SolutionLacks1a();
    SolutionLacks1b();
    SolutionLacks1c();
    Absent(t1, "payment");
    Absent(t2, "payment");
    Absent("s the soluti", "payment");
    AbsentAppend(t1, t2, "payment", "s the soluti");
  }

  lemma SolutionLacks2a()
    ensures NoMatchFrom("what is the ", "auth", 0)
  {
    assert NoMatchFrom("what is the ", "auth", 8);
    assert NoMatchFrom("what is the ", "auth", 4);
  }

  lemma SolutionLacks2b()
    ensures NoMatchFrom("solution for timeout?", "auth", 0)
  {
    assert NoMatchFrom("solution for timeout?", "auth", 16);
    assert NoMatchFrom("solution for timeout?", "auth", 12);
    assert NoMatchFrom("solution for timeout?", "auth", 8);
    assert NoMatchFrom("solution for timeout?", "auth", 4);
  }

  lemma SolutionLacks2c()
    ensures NoMatchFrom("he sol", "auth", 0)
    ensures "he sol" == "what is the "[9..] + "solution for timeout?"[..3]
  {
  }

  lemma SolutionNo2(t1: string, t2: string)
    requires t1 == "what is the " && t2 == "solution for timeout?"
    ensures !Contains(t1 + t2, "auth")
  {
    SolutionLacks2a();
    SolutionLacks2b();
    SolutionLacks2c();
    Absent(t1, "auth");
    Absent(t2, "auth");
    Absent("he sol", "auth");
    AbsentAppend(t1, t2, "auth", "he sol");
  }

  lemma SolutionLacks3a()
    ensures NoMatchFrom("what is the ", "login", 0)
  {
    assert NoMatchFrom("what is the ", "login", 4);
  }

  lemma SolutionLacks3b()
    ensures NoMatchFrom("solution for timeout?", "login", 0)
  {
    assert NoMatchFrom("solution for timeout?", "login", 16);
    assert NoMatchFrom("solution for timeout?", "login", 12);
    assert NoMatchFrom("solution for timeout?", "login", 8);
    assert NoMatchFrom("solution for timeout?", "login", 4);
  }

  lemma SolutionLacks3c()
    ensures NoMatchFrom("the solu", "login", 0)
    ensures "the solu" == "what is the "[8..] + "solution for timeout?"[..4]
  {
  }

  lemma SolutionNo3(t1: string, t2: string)
    requires t1 == "what is the " && t2 == "solution for timeout?"
    ensures !Contains(t1 + t2, "login")
  {
    SolutionLacks3a();
    SolutionLacks3b();
    SolutionLacks3c();
    Absent(t1, "login");
    Absent(t2, "login");
    Absent("the solu", "login");
    AbsentAppend(t1, t2, "login", "the solu");
  }

  lemma SolutionHas(t1: string, t2: string)
    requires t1 == "what is the " && t2 == "solution for timeout?"
    ensures Contains(t1 + t2, "solution")
  {
    assert MatchFrom("solution for timeout?", "solution", 0, 0);
    Present(t2, "solution", 0);
    ContainsAppend(t1, t2, "solution");
  }

  /** What the routers see in "What is the " + "solution for timeout?". */
  lemma SolutionFacts(q: string) returns (t: string)
    requires q == "What is the " + "solution for timeout?"
    ensures Lower(q) == t
    ensures !Contains(t, "payment")
    ensures !Contains(t, "auth")
    ensures !Contains(t, "login")
    ensures Contains(t, "solution")
  {
    SolutionLowered();
    var q1, q2 := "What is the ", "solution for timeout?";
    var t1, t2 := "what is the ", "solution for timeout?";
    LoweredIs(q1, t1);
    LoweredIs(q2, t2);
    LowerAppend(q1, q2);
    t := t1 + t2;
    SolutionNo1(t1, t2);
    SolutionNo2(t1, t2);
    SolutionNo3(t1, t2);
    SolutionHas(t1, t2);
  }

  /** Routed to the retriever, which falls back to the general guide. */
  lemma SolutionForTimeout<S>(q: string, sqlTool: string -> S)
    requires q == "What is the " + "solution for timeout?"
    ensures ProcessQuery(q, sqlTool) ==
      ToolResponse(KnowledgeQuery, RagToolName, Records([RagRetriever.GeneralGuide]))
  {
    var t := SolutionFacts(q);
    assert Contains(t, KnowledgeWords[3]);
    RagRetriever.RetrieveRule(q);
  }

  lemma HelloLowered()
    ensures LoweredFrom("Hello world", "hello world", 0)
  {
    assert LoweredFrom("Hello world", "hello world", 6);
  }

  lemma HelloLacks1()
    ensures NoMatchFrom("hello world", "why", 0)
    ensures NoMatchFrom("hello world", "cause", 0)
    ensures NoMatchFrom("hello world", "fix", 0)
  {
    assert NoMatchFrom("hello world", "why", 8);
    assert NoMatchFrom("hello world", "why", 4);
    assert NoMatchFrom("hello world", "cause", 4);
    assert NoMatchFrom("hello world", "fix", 8);
    assert NoMatchFrom("hello world", "fix", 4);
  }

  lemma HelloNo1(t1: string)
    requires t1 == "hello world"
    ensures !Contains(t1, "why")
    ensures !Contains(t1, "cause")
    ensures !Contains(t1, "fix")
  {
    HelloLacks1();
    Absent(t1, "why");
    Absent(t1, "cause");
    Absent(t1, "fix");
  }

  lemma HelloLacks2()
    ensures NoMatchFrom("hello world", "solution", 0)
    ensures NoMatchFrom("hello world", "similar", 0)
    ensures NoMatchFrom("hello world", "root cause", 0)
  {
    assert NoMatchFrom("hello world", "similar", 4);
  }

  lemma HelloNo2(t1: string)
    requires t1 == "hello world"
    ensures !Contains(t1, "solution")
    ensures !Contains(t1, "similar")
    ensures !Contains(t1, "root cause")
  {
    HelloLacks2();
    Absent(t1, "solution");
    Absent(t1, "similar");
    Absent(t1, "root cause");
  }

  lemma HelloLacks3()
    ensures NoMatchFrom("hello world", "count", 0)
    ensures NoMatchFrom("hello world", "how many", 0)
    ensures NoMatchFrom("hello world", "show", 0)
  {
    assert NoMatchFrom("hello world", "count", 4);
    assert NoMatchFrom("hello world", "show", 4);
  }

  lemma HelloNo3(t1: string)
    requires t1 == "hello world"
    ensures !Contains(t1, "count")
    ensures !Contains(t1, "how many")
    ensures !Contains(t1, "show")
  {
    HelloLacks3();
    Absent(t1, "count");
    Absent(t1, "how many");
    Absent(t1, "show");
  }

  lemma HelloLacks4()
    ensures NoMatchFrom("hello world", "list", 0)
    ensures NoMatchFrom("hello world", "errors", 0)
    ensures NoMatchFrom("hello world", "fail", 0)
  {
    assert NoMatchFrom("hello world", "list", 4);
    assert NoMatchFrom("hello world", "errors", 4);
    assert NoMatchFrom("hello world", "fail", 4);
  }

  lemma HelloNo4(t1: string)
    requires t1 == "hello world"
    ensures !Contains(t1, "list")
    ensures !Contains(t1, "errors")
    ensures !Contains(t1, "fail")
  {
    HelloLacks4();
    Absent(t1, "list");
    Absent(t1, "errors");
    Absent(t1, "fail");
  }

  lemma HelloLacks5()
    ensures NoMatchFrom("hello world", "trend", 0)
  {
    assert NoMatchFrom("hello world", "trend", 4);
  }

  lemma HelloNo5(t1: string)
    requires t1 == "hello world"
    ensures !Contains(t1, "trend")
  {
    HelloLacks5();
    Absent(t1, "trend");
  }

  /** What the routers see in "Hello world". */
  lemma HelloFacts(q: string) returns (t: string)
    requires q == "Hello world"
    ensures Lower(q) == t
    ensures !Contains(t, "why")
    ensures !Contains(t, "cause")
    ensures !Contains(t, "fix")
    ensures !Contains(t, "solution")
    ensures !Contains(t, "similar")
    ensures !Contains(t, "root cause")
    ensures !Contains(t, "count")
    ensures !Contains(t, "how many")
    ensures !Contains(t, "show")
    ensures !Contains(t, "list")
    ensures !Contains(t, "errors")
    ensures !Contains(t, "fail")
    ensures !Contains(t, "trend")
  {
    HelloLowered();
    var q1, t1 := "Hello world", "hello world";
    LoweredIs(q1, t1);
    t := t1;
    HelloNo1(t1);
    HelloNo2(t1);
    HelloNo3(t1);
    HelloNo4(t1);
    HelloNo5(t1);
  }

  lemma HelloWorld<S>(q: string, sqlTool: string -> S)
    requires q == "Hello world"
    ensures ProcessQuery(q, sqlTool) == MessageResponse(Unknown, UnknownMessage)
    ensures ToolUsed(ProcessQuery(q, sqlTool)) == "unknown"
  {
    var t := HelloFacts(q);
    NoKnowledgeWord(t);
    NoDataWord(t);
  }

  lemma CountErrorsLowered()
    ensures LoweredFrom("count errors", "count errors", 0)
  {
    assert LoweredFrom("count errors", "count errors", 6);
  }

  lemma CountErrorsHas(t1: string)
    requires t1 == "count errors"
    ensures Contains(t1, "count")
  {
    assert MatchFrom("count errors", "count", 0, 0);
    Present(t1, "count", 0);
  }

  /** What the routers see in "count errors". */
  lemma CountErrorsFacts(q: string) returns (t: string)
    requires q == "count errors"
    ensures Lower(q) == t
    ensures Contains(t, "count")
  {
    CountErrorsLowered();
    var q1, t1 := "count errors", "count errors";
    LoweredIs(q1, t1);
    t := t1;
    CountErrorsHas(t1);
  }

  lemma CountErrorsIsSql(q: string)
    requires q == "count errors"
    ensures Nodes.IntentOf(q) == "sql"
  {
    var t := CountErrorsFacts(q);
    assert Contains(t, Nodes.SqlWords[0]);
  }

  lemma WhyFailLowered()
    ensures LoweredFrom("why did it fail?", "why did it fail?", 0)
  {
    assert LoweredFrom("why did it fail?", "why did it fail?", 12);
    assert LoweredFrom("why did it fail?", "why did it fail?", 6);
  }

  lemma WhyFailLacks1()
    ensures NoMatchFrom("why did it fail?", "count", 0)
    ensures NoMatchFrom("why did it fail?", "how many", 0)
  {
    assert NoMatchFrom("why did it fail?", "count", 8);
    assert NoMatchFrom("why did it fail?", "count", 4);
    assert NoMatchFrom("why did it fail?", "how many", 8);
    assert NoMatchFrom("why did it fail?", "how many", 4);
  }

  lemma WhyFailNo1(t1: string)
    requires t1 == "why did it fail?"
    ensures !Contains(t1, "count")
    ensures !Contains(t1, "how many")
  {
    WhyFailLacks1();
    Absent(t1, "count");
    Absent(t1, "how many");
  }

  lemma WhyFailLacks2()
    ensures NoMatchFrom("why did it fail?", "list", 0)
    ensures NoMatchFrom("why did it fail?", "show", 0)
  {
    assert NoMatchFrom("why did it fail?", "list", 12);
    assert NoMatchFrom("why did it fail?", "list", 8);
    assert NoMatchFrom("why did it fail?", "list", 4);
    assert NoMatchFrom("why did it fail?", "show", 12);
    assert NoMatchFrom("why did it fail?", "show", 8);
    assert NoMatchFrom("why did it fail?", "show", 4);
  }

  lemma WhyFailNo2(t1: string)
    requires t1 == "why did it fail?"
    ensures !Contains(t1, "list")
    ensures !Contains(t1, "show")
  {
    WhyFailLacks2();
    Absent(t1, "list");
    Absent(t1, "show");
  }

  lemma WhyFailLacks3()
    ensures NoMatchFrom("why did it fail?", "select", 0)
    ensures NoMatchFrom("why did it fail?", "find", 0)
  {
    assert NoMatchFrom("why did it fail?", "select", 8);
    assert NoMatchFrom("why did it fail?", "select", 4);
    assert NoMatchFrom("why did it fail?", "find", 12);
    assert NoMatchFrom("why did it fail?", "find", 8);
    assert NoMatchFrom("why did it fail?", "find", 4);
  }

  lemma WhyFailNo3(t1: string)
    requires t1 == "why did it fail?"
    ensures !Contains(t1, "select")
    ensures !Contains(t1, "find")
  {
    WhyFailLacks3();
    Absent(t1, "select");
    Absent(t1, "find");
  }

  lemma WhyFailHas(t1: string)
    requires t1 == "why did it fail?"
    ensures Contains(t1, "why")
  {
    assert MatchFrom("why did it fail?", "why", 0, 0);
    Present(t1, "why", 0);
  }

  /** What the routers see in "why did it fail?". */
  lemma WhyFailFacts(q: string) returns (t: string)
    requires q == "why did it fail?"
    ensures Lower(q) == t
    ensures !Contains(t, "count")
    ensures !Contains(t, "how many")
    ensures !Contains(t, "list")
    ensures !Contains(t, "show")
    ensures !Contains(t, "select")
    ensures !Contains(t, "find")
    ensures Contains(t, "why")
  {
    WhyFailLowered();
    var q1, t1 := "why did it fail?", "why did it fail?";
    LoweredIs(q1, t1);
    t := t1;
    WhyFailNo1(t1);
    WhyFailNo2(t1);
    WhyFailNo3(t1);
    WhyFailHas(t1);
  }

  lemma WhyDidItFailIsRag(q: string)
    requires q == "why did it fail?"
    ensures Nodes.IntentOf(q) == "rag"
  {
    var t := WhyFailFacts(q);
    NoSqlWord(t);
    assert Contains(t, Nodes.RagWords[0]);
  }
}
