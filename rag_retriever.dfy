/**
 * `RAGRetriever.retrieve` of the tool service: a keyword stand-in for vector
 * search. The lowered query picks one canned record: the payment incident when
 * it mentions "payment", else the authentication incident when it mentions
 * "auth" or "login", else the general troubleshooting guide.
 */
module RagRetriever {
  import opened Strings

  /** One returned dictionary; `similarity` is the score in hundredths (0.92 is 92). */
  datatype Incident = Incident(id: string, summary: string, rootCause: string, resolution: string, similarity: nat)

  const PaymentIncident := Incident("INC-001", "Payment Gateway Timeout",
    "Upstream provider API latency > 2s", "Retried transaction after 5s backoff.", 92)

  const AuthIncident := Incident("INC-002", "Auth Service Rate Limiting",
    "Redis cache full, evicting keys", "Scaled up Redis cluster.", 88)

  const GeneralGuide := Incident("DOC-101", "General Troubleshooting Guide",
    "N/A", "Check system metrics (CPU/Memory).", 50)

  predicate MentionsPayment(query: string) {
    Contains(Lower(query), "payment")
  }

  predicate MentionsAuth(query: string) {
    Contains(Lower(query), "auth") || Contains(Lower(query), "login")
  }

  /** Always exactly one record, the best-scoring canned one that the query's keywords allow. */
  function Retrieve(query: string): (r: seq<Incident>)
    ensures |r| == 1
    ensures r[0] in {PaymentIncident, AuthIncident, GeneralGuide}
  {
    if MentionsPayment(query) then [PaymentIncident]
    else if MentionsAuth(query) then [AuthIncident]
    else [GeneralGuide]
  }

  /** The three canned records are told apart by their ids. */
  lemma IdsDistinct()
    ensures PaymentIncident.id != AuthIncident.id
    ensures PaymentIncident.id != GeneralGuide.id
    ensures AuthIncident.id != GeneralGuide.id
  {
    assert PaymentIncident.id[6] != AuthIncident.id[6];
    assert GeneralGuide.id[0] != 'I';
  }

  /**
   * Which record comes back, in both directions: payment wins over
   * authentication, and the guide is returned exactly when neither is mentioned.
   */
  lemma RetrieveRule(query: string)
    ensures Retrieve(query) == [PaymentIncident] <==> MentionsPayment(query)
    ensures Retrieve(query) == [AuthIncident] <==> !MentionsPayment(query) && MentionsAuth(query)
    ensures Retrieve(query) == [GeneralGuide] <==> !MentionsPayment(query) && !MentionsAuth(query)
  {
    IdsDistinct();
  }

  /** The keywords are matched on the lowered query, so case does not matter. */
  lemma RetrieveCaseInsensitive(query: string)
    ensures Retrieve(Lower(query)) == Retrieve(query)
  {
    LowerIdempotent(query);
  }
}
