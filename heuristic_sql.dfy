/**
 * The keyword-rule `SQLGenerator` of the hyphenated orchestrator. The query is
 * lowercased, then three rules are tried in order: a count rule, a recent-logs
 * rule whose LIMIT is the first number in the query, and a service rule that
 * pulls a `...-service` name out with the regular expression `[a-z-]+-service`.
 * No rule firing gives no SQL. `int()` refuses a digit run longer than CPython's
 * default conversion cap, and that `ValueError` leaves `generate_sql` and
 * `execute` uncaught.
 */
module HeuristicSql {
  import opened Wrappers
  import opened Strings
  import SqlExecution

  const CountErrorsSql := "SELECT count(*) as error_count " + "FROM logs WHERE severity='ERROR'"
  const CountAllSql := "SELECT count(*) as total_logs FROM logs"
  const RecentPrefix := "SELECT timestamp, severity, service_name, " + "body FROM logs ORDER BY " + "timestamp DESC LIMIT "
  const ServicePrefix := "SELECT timestamp, severity, body FROM logs " + "WHERE service_name='"
  const ErrorClause := "AND severity='ERROR'"
  const ServiceTail := " ORDER BY timestamp DESC LIMIT 10"
  const DefaultLimit := 5
  const NameSuffix := "-service"

  /** CPython's default cap on the digits `int()` converts from text (`sys.get_int_max_str_digits()`). */
  const MaxStrDigits := 4300
  const DigitsLimitError := "Exceeds the limit (4300 digits) for integer string conversion"

  predicate AsksCount(q: string) {
    Contains(q, "count") || Contains(q, "how many")
  }

  predicate AsksRecent(q: string) {
    Contains(q, "recent") || Contains(q, "last")
  }

  predicate MentionsErrors(q: string) {
    Contains(q, "error") || Contains(q, "fail")
  }

  function RecentSql(limit: nat): string {
    RecentPrefix + NatToString(limit)
  }

  /** The service query; with no ERROR clause two spaces stand between the quote and `ORDER`. */
  function ServiceSql(service: string, errors: bool): string {
    ServicePrefix + service + "' " + (if errors then ErrorClause else "") + ServiceTail
  }

  /** Where `re.search(r'\d+', q)` starts: the first ASCII digit at or after `i`. */
  function FirstDigit(q: string, i: nat): (r: Option<nat>)
    requires i <= |q|
    ensures r.Some? ==> i <= r.value < |q| && IsDigit(q[r.value])
    ensures r.Some? ==> forall j :: i <= j < r.value ==> !IsDigit(q[j])
    ensures r.None? ==> forall j :: i <= j < |q| ==> !IsDigit(q[j])
    decreases |q| - i
  {
    if i == |q| then None else if IsDigit(q[i]) then Some(i) else FirstDigit(q, i + 1)
  }

  /** `int(match.group())` for the greedy digit run starting at `i`; a run over the cap raises `ValueError`. */
  function RunValue(q: string, i: nat): Result<nat, string>
    requires i <= |q|
  {
    var e := RunEnd(q, i, Digit);
    var run := q[i..e];
    assert forall k :: 0 <= k < |run| ==> run[k] == q[i + k];
    if |run| > MaxStrDigits then Err(DigitsLimitError) else Ok(DigitsValue(run))
  }

  /** The LIMIT of the recent-logs rule, or the `ValueError` of `int()`. */
  function Limit(q: string): Result<nat, string> {
    match FirstDigit(q, 0)
    case None => Ok(DefaultLimit)
    case Some(i) => RunValue(q, i)
  }

  predicate IsNameChar(c: char) {
    IsLowerLetter(c) || c == '-'
  }

  /** End of the greedy `[a-z-]+` run starting at `i`. */
  function NameRunEnd(q: string, i: nat): (e: nat)
    requires i <= |q|
    ensures i <= e <= |q|
    ensures forall j :: i <= j < e ==> IsNameChar(q[j])
    ensures e == |q| || !IsNameChar(q[e])
    decreases |q| - i
  {
    if i < |q| && IsNameChar(q[i]) then NameRunEnd(q, i + 1) else i
  }

  /** `[a-z-]+-service` matches `q[s..m + 8]`: the class part is `q[s..m]`, the literal suffix follows. */
  predicate MatchAt(q: string, s: nat, m: nat) {
    s < m && OccursAt(q, NameSuffix, m) && forall j :: s <= j < m ==> IsNameChar(q[j])
  }

  /** A match from `s` ends its class part inside the greedy run from `s`. */
  lemma WithinRun(q: string, s: nat)
    requires s <= |q|
    ensures forall m: nat :: MatchAt(q, s, m) ==> m <= NameRunEnd(q, s)
  {
    var e := NameRunEnd(q, s);
    forall m: nat | MatchAt(q, s, m) ensures m <= e {
    }
  }

  /** The greedy run gives back one character at a time: the suffix is tried at `m`, `m - 1`, ..., `s + 1`. */
  function Backtrack(q: string, s: nat, m: nat): (r: Option<nat>)
    ensures r.Some? ==> s < r.value <= m && OccursAt(q, NameSuffix, r.value)
    ensures r.Some? ==> forall k :: r.value < k <= m ==> !OccursAt(q, NameSuffix, k)
    ensures r.None? ==> forall k :: s < k <= m ==> !OccursAt(q, NameSuffix, k)
    decreases m
  {
    if m <= s then None
    else if OccursAt(q, NameSuffix, m) then Some(m)
    else Backtrack(q, s, m - 1)
  }

  /**
   * `re.search` from position `s` on: the first start at which the pattern matches,
   * with the end of the longest class part there.
   */
  function Search(q: string, s: nat): (r: Option<(nat, nat)>)
    requires s <= |q|
    ensures r.Some? ==> s <= r.value.0 && MatchAt(q, r.value.0, r.value.1)
    ensures r.Some? ==> forall t: nat, m: nat :: s <= t < r.value.0 ==> !MatchAt(q, t, m)
    ensures r.Some? ==> forall m: nat :: r.value.1 < m ==> !MatchAt(q, r.value.0, m)
    ensures r.None? ==> forall t: nat, m: nat :: s <= t ==> !MatchAt(q, t, m)
    decreases |q| - s
  {
    WithinRun(q, s);
    match Backtrack(q, s, NameRunEnd(q, s))
    case Some(m) => Some((s, m))
    case None => if s == |q| then None else Search(q, s + 1)
  }

  /** `match.group(1)` of `re.search(r'([a-z-]+-service)', q)`. */
  function ServiceName(q: string): Option<string> {
    match Search(q, 0)
    case None => None
    case Some((s, m)) => Some(q[s..m + |NameSuffix|])
  }

  /** `SQLGenerator.generate_sql`: the SQL or `None`, or the `ValueError` it raises. */
  function GenerateSql(query: string): Result<Option<string>, string> {
    var q := Lower(query);
    if AsksCount(q) then Ok(Some(if MentionsErrors(q) then CountErrorsSql else CountAllSql))
    else if AsksRecent(q) then
      match Limit(q)
      case Err(e) => Err(e)
      case Ok(n) => Ok(Some(RecentSql(n)))
    else if Contains(q, "service") && ServiceName(q).Some? then Ok(Some(ServiceSql(ServiceName(q).value, MentionsErrors(q))))
    else Ok(None)
  }

  /** `SQLGenerator.execute`; the `ValueError` of `generate_sql` is raised before the `try`. */
  function Execute<R>(query: string, db: string -> Result<seq<R>, string>): Result<seq<SqlExecution.Entry<R>>, string> {
    match GenerateSql(query)
    case Err(e) => Err(e)
    case Ok(sql) => Ok(SqlExecution.Execute(sql, db))
  }

  /** Every rule looks at the lowercased query only, so the case of the query does not matter. */
  lemma CaseInsensitive(query: string)
    ensures GenerateSql(query) == GenerateSql(Lower(query))
  {
    LowerIdempotent(query);
  }

  /** The three SQL shapes differ in their first characters, so an answer tells which rule gave it. */
  lemma ShapesDiffer(n: nat, service: string, errors: bool)
    ensures CountErrorsSql != CountAllSql
    ensures RecentSql(n) != CountErrorsSql && RecentSql(n) != CountAllSql
    ensures ServiceSql(service, errors) != CountErrorsSql && ServiceSql(service, errors) != CountAllSql
    ensures ServiceSql(service, errors) != RecentSql(n)
  {
    CountsDiffer();
    RecentDiffers(n);
    ServiceDiffers(n, service, errors);
  }

  lemma CountsDiffer()
    ensures CountErrorsSql != CountAllSql && CountErrorsSql[7] == CountAllSql[7] == 'c'
  {
    assert CountErrorsSql[19] == 'e' && CountAllSql[19] == 't';
  }

  lemma RecentDiffers(n: nat)
    ensures RecentSql(n)[7] == 't' && RecentSql(n)[28] == 's'
  {
  }

  lemma ServiceDiffers(n: nat, service: string, errors: bool)
    ensures ServiceSql(service, errors)[7] == 't' && ServiceSql(service, errors)[28] == 'b'
  {
  }

  /**
   * The count rule wins over the others; it asks for the ERROR count exactly when
   * "error" or "fail" appears, and for the total otherwise.
   */
  lemma CountRule(query: string)
    ensures var q := Lower(query);
      (GenerateSql(query) == Ok(Some(CountErrorsSql)) <==> AsksCount(q) && MentionsErrors(q)) &&
      (GenerateSql(query) == Ok(Some(CountAllSql)) <==> AsksCount(q) && !MentionsErrors(q))
  {
    GenerateSqlShape(query);
    CountsDiffer();
  }

  /**
   * Without a count request the answer, if any, has a `t` where both count queries
   * have a `c`; `generate_sql` raises only from the recent-logs rule's `int()`.
   */
  lemma GenerateSqlShape(query: string)
    ensures var q := Lower(query);
      (AsksCount(q) ==> GenerateSql(query) == Ok(Some(if MentionsErrors(q) then CountErrorsSql else CountAllSql))) &&
      (!AsksCount(q) && GenerateSql(query).Ok? ==>
        GenerateSql(query).value.None? || (|GenerateSql(query).value.value| > 7 && GenerateSql(query).value.value[7] == 't'))
    ensures GenerateSql(query).Ok? && GenerateSql(query).value.Some? ==> GenerateSql(query).value.value != ""
    ensures var q := Lower(query);
      GenerateSql(query).Err? <==> !AsksCount(q) && AsksRecent(q) && Limit(q).Err?
  {
    var q := Lower(query);
    if !AsksCount(q) {
      if AsksRecent(q) {
        if Limit(q).Ok? {
          RecentDiffers(Limit(q).value);
        }
      } else if Contains(q, "service") && ServiceName(q).Some? {
        ServiceDiffers(0, ServiceName(q).value, MentionsErrors(q));
      }
    }
  }

  /**
   * Without a count request, the recent-logs rule fires exactly when "recent" or
   * "last" appears and `int()` accepts the number; the LIMIT is written in decimal
   * and reads back as `Limit`.
   */
  lemma RecentRule(query: string)
    ensures var q := Lower(query);
      (exists n: nat :: GenerateSql(query) == Ok(Some(RecentSql(n)))) <==> !AsksCount(q) && AsksRecent(q) && Limit(q).Ok?
    ensures var q := Lower(query);
      !AsksCount(q) && AsksRecent(q) && Limit(q).Ok? ==>
        GenerateSql(query) == Ok(Some(RecentPrefix + NatToString(Limit(q).value))) &&
        DigitsValue(NatToString(Limit(q).value)) == Limit(q).value
  {
    var q := Lower(query);
    if !AsksCount(q) && AsksRecent(q) && Limit(q).Ok? {
      NatToStringRoundTrip(Limit(q).value);
      assert GenerateSql(query) == Ok(Some(RecentSql(Limit(q).value)));
    }
    if exists n: nat :: GenerateSql(query) == Ok(Some(RecentSql(n))) {
      var n: nat :| GenerateSql(query) == Ok(Some(RecentSql(n)));
      ShapesDiffer(n, if ServiceName(q).Some? then ServiceName(q).value else "", MentionsErrors(q));
    }
  }

  /** With no digit in the query the LIMIT is 5. */
  lemma LimitDefault(q: string)
    requires forall j :: 0 <= j < |q| ==> !IsDigit(q[j])
    ensures Limit(q) == Ok(5)
  {
  }

  /**
   * Otherwise the LIMIT is the value of the first maximal run of digits, leading
   * zeros and all, unless the run is longer than 4300 digits: then `int()` raises.
   */
  lemma LimitFirstRun(q: string, i: nat, e: nat)
    requires i < e <= |q|
    requires forall j :: 0 <= j < i ==> !IsDigit(q[j])
    requires forall j :: i <= j < e ==> IsDigit(q[j])
    requires e == |q| || !IsDigit(q[e])
    ensures e - i <= MaxStrDigits ==> Limit(q) == Ok(DigitsValue(q[i..e]))
    ensures e - i > MaxStrDigits ==> Limit(q) == Err(DigitsLimitError)
  {
    assert IsDigit(q[i]);
    RunEndAt(q, i, e, Digit);
  }

  /**
   * An extracted service name is made only of lowercase letters and `-`, ends in
   * `-service` and so holds no quote; the query contains it, so it also contains
   * "service".
   */
  lemma ServiceNameShape(q: string)
    requires ServiceName(q).Some?
    ensures var name := ServiceName(q).value;
      |name| > |NameSuffix| && name[|name| - |NameSuffix|..] == NameSuffix &&
      (forall k :: 0 <= k < |name| ==> IsNameChar(name[k])) && '\'' !in name &&
      Contains(q, name) && Contains(q, "service")
  {
    var found := Search(q, 0).value;
    NameShape(q, ServiceName(q).value, found.0, found.1);
  }

  lemma NameShape(q: string, name: string, s: nat, m: nat)
    requires MatchAt(q, s, m) && name == q[s..m + |NameSuffix|]
    ensures |name| > |NameSuffix| && name[|name| - |NameSuffix|..] == NameSuffix
    ensures (forall k :: 0 <= k < |name| ==> IsNameChar(name[k])) && '\'' !in name
    ensures Contains(q, name) && Contains(q, "service")
  {
    MatchChars(q, s, m);
    MatchContains(q, s, m);
  }

  lemma SuffixChars()
    ensures forall k :: 0 <= k < |NameSuffix| ==> IsNameChar(NameSuffix[k])
    ensures NameSuffix[1..] == "service"
  {
  }

  /** The text a match covers is made of lowercase letters and `-` and ends in the suffix. */
  lemma MatchChars(q: string, s: nat, m: nat)
    requires MatchAt(q, s, m)
    ensures var name := q[s..m + |NameSuffix|];
      |name| > |NameSuffix| && name[|name| - |NameSuffix|..] == NameSuffix &&
      (forall k :: 0 <= k < |name| ==> IsNameChar(name[k])) && '\'' !in name
  {
    var name := q[s..m + |NameSuffix|];
    var tail := q[m..m + |NameSuffix|];
    SuffixChars();
    forall k | 0 <= k < |name| ensures IsNameChar(name[k]) {
      if s + k >= m {
        assert name[k] == tail[s + k - m];
      } else {
        assert name[k] == q[s + k];
      }
    }
    assert name[|name| - |NameSuffix|..] == tail;
  }

  /** The query contains the matched text, and with it the word "service". */
  lemma MatchContains(q: string, s: nat, m: nat)
    requires MatchAt(q, s, m)
    ensures Contains(q, q[s..m + |NameSuffix|]) && Contains(q, "service")
  {
    var name := q[s..m + |NameSuffix|];
    assert q[s..s + |name|] == name;
    ContainsAt(q, name, s);
    SuffixChars();
    assert q[m + 1..m + 1 + 7] == q[m..m + |NameSuffix|][1..];
    ContainsAt(q, "service", m + 1);
  }

  /**
   * The name is the leftmost match and, at that start, the longest: nothing
   * matches further left, and nothing longer matches from the same start.
   */
  lemma ServiceNameLeftmostLongest(q: string, s: nat, m: nat)
    requires MatchAt(q, s, m)
    requires forall t: nat, k: nat :: t < s ==> !MatchAt(q, t, k)
    requires forall k: nat :: m < k ==> !MatchAt(q, s, k)
    ensures ServiceName(q) == Some(q[s..m + |NameSuffix|])
  {
    var r := Search(q, 0);
    assert r.Some?;
    var (s', m') := r.value;
    assert s' == s;
    assert m' == m;
  }

  /** A service name is found exactly when the pattern matches somewhere. */
  lemma ServiceNameIff(q: string)
    ensures ServiceName(q).Some? <==> exists s: nat, m: nat :: MatchAt(q, s, m)
  {
    if ServiceName(q).Some? {
      var (s, m) := Search(q, 0).value;
      assert MatchAt(q, s, m);
    }
  }

  /**
   * With neither a count nor a recent request, a service name in the query gives
   * the service query with LIMIT 10, filtered to ERROR exactly when "error" or
   * "fail" appears.
   */
  lemma ServiceRule(query: string)
    requires var q := Lower(query); !AsksCount(q) && !AsksRecent(q) && ServiceName(q).Some?
    ensures var q := Lower(query);
      GenerateSql(query) == Ok(Some(ServiceSql(ServiceName(q).value, MentionsErrors(q)))) &&
      (MentionsErrors(q) <==> GenerateSql(query) == Ok(Some(ServicePrefix + ServiceName(q).value + "' " + ErrorClause + ServiceTail)))
  {
    var q := Lower(query);
    ServiceNameShape(q);
    var pre := ServicePrefix + ServiceName(q).value + "' ";
    if !MentionsErrors(q) {
      assert GenerateSql(query).value.value == pre + "" + ServiceTail;
      assert (pre + "" + ServiceTail)[|pre|] == ' ';
      assert (pre + ErrorClause + ServiceTail)[|pre|] == 'A';
    }
  }

  /**
   * No SQL is produced exactly when no rule fires; "service" in the query without
   * a `...-service` match is one such case.
   */
  lemma NoRule(query: string)
    ensures var q := Lower(query);
      GenerateSql(query) == Ok(None) <==> !AsksCount(q) && !AsksRecent(q) && forall s: nat, m: nat :: !MatchAt(q, s, m)
  {
    var q := Lower(query);
    ServiceNameIff(q);
    if ServiceName(q).Some? {
      ServiceNameShape(q);
    }
  }

  /**
   * The generated SQL is never empty, so `execute` reports "could not understand"
   * exactly when no rule fires, and raises exactly when `generate_sql` does.
   */
  lemma ExecuteNotUnderstood<R>(query: string, db: string -> Result<seq<R>, string>)
    ensures GenerateSql(query).Ok? && GenerateSql(query).value.Some? ==> GenerateSql(query).value.value != ""
    ensures Execute(query, db) == Ok([SqlExecution.Error(SqlExecution.NotUnderstood)]) <==> GenerateSql(query) == Ok(None)
    ensures Execute(query, db).Err? <==> GenerateSql(query).Err?
  {
    GenerateSqlShape(query);
    if GenerateSql(query).Ok? {
      SqlExecution.NotUnderstoodIff(GenerateSql(query).value, db);
    }
  }
}
