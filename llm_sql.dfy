/**
 * The LLM-backed `SQLGenerator` of the underscored orchestrator. The prompt is
 * built and sent to the model; markdown fences are cut out of the reply (first
 * every "```sql", then every "```") and the rest is stripped. An exception while
 * building the prompt or calling the model gives no SQL instead of propagating.
 */
module LlmSql {
  import opened Wrappers
  import opened Strings
  import SqlExecution

  const Fence := "```"
  const SqlFence := "```sql"

  /** `sql.replace("```sql", "").replace("```", "").strip()`: no fence is left and nothing surrounds the text. */
  function CleanSql(reply: string): (sql: string)
    ensures !Contains(sql, Fence)
    ensures sql == [] || (!IsSpace(sql[0]) && !IsSpace(sql[|sql| - 1]))
  {
    var unfenced := Replace(Replace(reply, SqlFence, ""), Fence, "");
    RemoveFences(Replace(reply, SqlFence, ""));
    StripFree(unfenced, Fence);
    Strip(unfenced)
  }

  /**
   * `generate_sql`. `model` stands for the prompt construction and the model call
   * for a query: the reply, or the text of the exception either raises.
   */
  function GenerateSql(query: string, model: string -> Result<string, string>): Option<string> {
    match model(query)
    case Err(_) => None
    case Ok(reply) => Some(CleanSql(reply))
  }

  /** `SQLGenerator.execute`. */
  function Execute<R>(query: string, model: string -> Result<string, string>, db: string -> Result<seq<R>, string>)
    : seq<SqlExecution.Entry<R>>
  {
    SqlExecution.Execute(GenerateSql(query, model), db)
  }

  /** Text that does not end in a backtick. */
  predicate EndsClean(p: string) {
    p == [] || p[|p| - 1] != '`'
  }

  /** The text in front of the first fence does not end in a backtick, or the fence would start one place earlier. */
  lemma HeadEndsClean(s: string, i: nat)
    requires Find(s, Fence) == Some(i)
    ensures EndsClean(s[..i])
  {
    if i > 0 {
      assert !OccursAt(s, Fence, i - 1);
      assert s[i..i + 3] == Fence;
      assert s[i..i + 2] == s[i..i + 3][..2];
      assert Fence[..2] == "``";
      assert s[i - 1..i + 2] == [s[i - 1]] + s[i..i + 2] != Fence;
      assert ['`'] + "``" == Fence;
      assert s[..i][i - 1] == s[i - 1];
    }
  }

  /** Every piece of `s.split("```")` but the last ends clean. */
  lemma {:induction false} PiecesEndClean(s: string)
    ensures forall k :: 0 <= k < |Split(s, Fence)| - 1 ==> EndsClean(Split(s, Fence)[k])
    decreases |s|
  {
    match Find(s, Fence)
    case None =>
    case Some(i) =>
      var rest := s[i + |Fence|..];
      PiecesEndClean(rest);
      SplitUnfold(s, Fence, i);
      HeadEndsClean(s, i);
      ConsEndsClean(Split(s, Fence), s[..i], Split(rest, Fence));
  }

  lemma ConsEndsClean(parts: seq<string>, head: string, tail: seq<string>)
    requires parts == [head] + tail && EndsClean(head)
    requires forall k :: 0 <= k < |tail| - 1 ==> EndsClean(tail[k])
    ensures forall k :: 0 <= k < |parts| - 1 ==> EndsClean(parts[k])
  {
    forall k | 0 <= k < |parts| - 1 ensures EndsClean(parts[k]) {
      if k > 0 {
        assert parts[k] == tail[k - 1];
      }
    }
  }

  /** Two fence-free texts, the first not ending in a backtick, join without forming a fence. */
  lemma NoFenceAcross(a: string, b: string)
    requires !Contains(a, Fence) && !Contains(b, Fence)
    requires EndsClean(a)
    ensures !Contains(a + b, Fence)
  {
    forall j: nat ensures !OccursAt(a + b, Fence, j) {
      FenceNotAt(a, b, j);
    }
  }

  lemma FenceNotAt(a: string, b: string, j: nat)
    requires !Contains(a, Fence) && !Contains(b, Fence)
    requires EndsClean(a)
    ensures !OccursAt(a + b, Fence, j)
  {
    var s := a + b;
    if j + 3 <= |s| {
      if j + 3 <= |a| {
        NotContains(a, Fence, j);
        assert s[j..j + 3] == a[j..j + 3];
      } else if j >= |a| {
        NotContains(b, Fence, j - |a|);
        OccursShift(a, b, Fence, j - |a|);
      } else {
        assert s[j..j + 3][|a| - 1 - j] == a[|a| - 1];
      }
    }
  }

  lemma {:induction false} JoinNoFence(parts: seq<string>)
    requires forall k :: 0 <= k < |parts| ==> !Contains(parts[k], Fence)
    requires forall k :: 0 <= k < |parts| - 1 ==> EndsClean(parts[k])
    ensures !Contains(Join("", parts), Fence)
    decreases |parts|
  {
    if |parts| == 0 {
      TooShort("", Fence);
    } else if |parts| > 1 {
      var rest := parts[1..];
      assert forall k :: 0 <= k < |rest| ==> rest[k] == parts[k + 1];
      JoinNoFence(rest);
      assert parts == [parts[0]] + rest;
      JoinCons(parts[0], "", rest);
      assert parts[0] + "" == parts[0];
      NoFenceAcross(parts[0], Join("", rest));
    }
  }

  /** `t.replace("```", "")` holds no fence, not even one formed where a fence was cut out. */
  lemma RemoveFences(t: string)
    ensures !Contains(Replace(t, Fence, ""), Fence)
  {
    SplitPiecesFree(t, Fence);
    PiecesEndClean(t);
    JoinNoFence(Split(t, Fence));
  }

  /** Stripping text free of a pattern leaves it free of the pattern. */
  lemma StripFree(s: string, pat: string)
    requires !Contains(s, pat)
    ensures !Contains(Strip(s), pat)
  {
    var r := Strip(s);
    SliceFree(s, LeadingSpaces(s), LeadingSpaces(s) + |r|, pat);
  }

  /** A slice of text without `pat` has none either. */
  lemma SliceFree(s: string, a: nat, b: nat, pat: string)
    requires a <= b <= |s| && !Contains(s, pat)
    ensures !Contains(s[a..b], pat)
  {
    forall j: nat ensures !OccursAt(s[a..b], pat, j) {
      SliceOccurs(s, a, b, pat, j);
      NotContains(s, pat, a + j);
    }
  }

  lemma SliceOccurs(s: string, a: nat, b: nat, pat: string, j: nat)
    requires a <= b <= |s|
    ensures OccursAt(s[a..b], pat, j) ==> OccursAt(s, pat, a + j)
  {
    if j + |pat| <= b - a {
      SliceOfSlice(s, a, b, j, j + |pat|);
    }
  }

  /** Replacing a target that does not occur changes nothing. */
  lemma ReplaceAbsent(s: string, target: string, replacement: string)
    requires |target| > 0 && !Contains(s, target)
    ensures Replace(s, target, replacement) == s
  {
    SplitHead(s, target);
  }

  /** Already-trimmed text without fences comes through the cleaning unchanged. */
  lemma CleanUnchanged(s: string)
    requires !Contains(s, Fence)
    requires s == [] || (!IsSpace(s[0]) && !IsSpace(s[|s| - 1]))
    ensures CleanSql(s) == s
  {
    forall j: nat ensures !OccursAt(s, SqlFence, j) {
      NotContains(s, Fence, j);
      if j + 6 <= |s| {
        assert s[j..j + 6][..3] == s[j..j + 3];
      }
    }
    ReplaceAbsent(s, SqlFence, "");
    ReplaceAbsent(s, Fence, "");
    StripTrimmed(s);
  }

  /** Cleaning is idempotent. */
  lemma CleanIdempotent(reply: string)
    ensures CleanSql(CleanSql(reply)) == CleanSql(reply)
  {
    CleanUnchanged(CleanSql(reply));
  }

  /** A text that starts with none of `pat`'s first character, followed by less than `pat`, does not hold `pat`. */
  lemma NoStartIn(a: string, t: string, pat: string)
    requires 0 < |pat| && pat[0] !in a && |t| < |pat|
    ensures !Contains(a + t, pat)
  {
    var s := a + t;
    forall j: nat | j + |pat| <= |s| ensures !OccursAt(s, pat, j) {
      assert s[j..j + |pat|][0] == s[j] == a[j];
    }
  }

  /** A reply fenced as a `sql` code block cleans to the stripped text inside the block. */
  lemma CleanFenced(x: string)
    requires '`' !in x
    ensures CleanSql(SqlFence + x + Fence) == Strip(x)
  {
    DropSqlFence(x);
    DropFence(x);
  }

  lemma DropSqlFence(x: string)
    requires '`' !in x
    ensures Replace(SqlFence + x + Fence, SqlFence, "") == x + Fence
  {
    var s := SqlFence + x + Fence;
    assert s[0..6] == SqlFence;
    FindFromAt(s, SqlFence, 0, 0);
    assert s[6..] == x + Fence;
    NoStartIn(x, Fence, SqlFence);
    SplitNoMatch(x + Fence, SqlFence);
    assert Split(s, SqlFence) == ["", x + Fence];
    JoinTwo("", x + Fence);
  }

  lemma DropFence(x: string)
    requires '`' !in x
    ensures Replace(x + Fence, Fence, "") == x
  {
    NoStartIn(x, Fence[..2], Fence);
    FindAfter(x, Fence, Fence);
    SplitUnfold(x + Fence, Fence, |x|);
    assert (x + Fence)[|x| + 3..] == "";
    assert (x + Fence)[..|x|] == x;
    SplitNoMatch("", Fence);
    assert Split(x + Fence, Fence) == [x, ""];
    JoinTwo(x, "");
  }

  lemma JoinTwo(a: string, b: string)
    ensures Join("", [a, b]) == a + b
  {
    assert [a, b][1..] == [b];
  }

  lemma SplitNoMatch(s: string, sep: string)
    requires |sep| > 0 && !Contains(s, sep)
    ensures Split(s, sep) == [s]
  {
    SplitHead(s, sep);
  }

  /** A `sql` code block around trimmed fence-free SQL, with any whitespace inside the fences, gives that SQL. */
  lemma FencedReply(pre: string, body: string, post: string)
    requires forall i :: 0 <= i < |pre| ==> IsSpace(pre[i])
    requires forall i :: 0 <= i < |post| ==> IsSpace(post[i])
    requires body != [] && !IsSpace(body[0]) && !IsSpace(body[|body| - 1]) && '`' !in body
    ensures CleanSql(SqlFence + (pre + body + post) + Fence) == body
  {
    var x := pre + body + post;
    assert '`' !in x by {
      forall i | 0 <= i < |x| ensures x[i] != '`' {
        if i < |pre| { assert x[i] == pre[i]; }
        else if i < |pre| + |body| { assert x[i] == body[i - |pre|]; }
        else { assert x[i] == post[i - |pre| - |body|]; }
      }
    }
    CleanFenced(x);
    StripSurrounded(pre, body, post);
  }

  /**
   * A reply made only of fences and whitespace cleans to the empty text, so
   * `execute` answers "could not understand" and never reaches the database.
   */
  lemma FencesOnly<R>(query: string, model: string -> Result<string, string>, ws: string, db: string -> Result<seq<R>, string>)
    requires forall i :: 0 <= i < |ws| ==> IsSpace(ws[i])
    requires model(query) == Ok(SqlFence + ws + Fence)
    ensures GenerateSql(query, model) == Some("")
    ensures Execute(query, model, db) == [SqlExecution.Error(SqlExecution.NotUnderstood)]
  {
    CleanFenced(ws);
    assert LeadingSpaces(ws) == |ws|;
  }

  /**
   * No SQL comes back exactly when prompt construction or the model call raises;
   * otherwise the SQL is the cleaned reply.
   */
  lemma GenerateSqlOutcome(query: string, model: string -> Result<string, string>)
    ensures GenerateSql(query, model).None? <==> model(query).Err?
    ensures model(query).Ok? ==> GenerateSql(query, model) == Some(CleanSql(model(query).value))
  {
  }

  /**
   * `execute` answers "could not understand", without consulting the database,
   * exactly when the model call raised or its reply cleaned to nothing.
   */
  lemma ExecuteNotUnderstood<R>(query: string, model: string -> Result<string, string>, db: string -> Result<seq<R>, string>)
    ensures Execute(query, model, db) == [SqlExecution.Error(SqlExecution.NotUnderstood)] <==>
      model(query).Err? || CleanSql(model(query).value) == ""
  {
    SqlExecution.NotUnderstoodIff(GenerateSql(query, model), db);
  }
}
