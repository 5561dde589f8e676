/**
 * `SQLGenerator.execute`, which both SQL tools share word for word: generate the
 * SQL, answer with a one-entry error list when it is falsy, otherwise hand it to
 * the database and return its rows, turning a database exception into a
 * one-entry error list. The database is a function from SQL text to its rows or
 * to the text of the exception it raises.
 */
module SqlExecution {
  import opened Wrappers

  /** One entry of the returned list: a database row, or the `{"error": ...}` dictionary. */
  datatype Entry<R> = Row(row: R) | Error(message: string)

  const NotUnderstood := "Could not understand query. " + "Try 'count errors' or 'show recent logs'."

  const FailedPrefix := "SQL Execution failed: "

  /** Python's `not sql` for an `Optional[str]`. */
  predicate Falsy(sql: Option<string>) {
    sql.None? || sql.value == ""
  }

  function Rows<R>(rows: seq<R>): (r: seq<Entry<R>>)
    ensures |r| == |rows| && forall i :: 0 <= i < |rows| ==> r[i] == Row(rows[i])
  {
    if rows == [] then [] else [Row(rows[0])] + Rows(rows[1..])
  }

  function Execute<R>(sql: Option<string>, db: string -> Result<seq<R>, string>): seq<Entry<R>> {
    if Falsy(sql) then [Error(NotUnderstood)]
    else
      match db(sql.value)
      case Ok(rows) => Rows(rows)
      case Err(e) => [Error(FailedPrefix + e)]
  }

  /**
   * Falsy SQL gives the one-entry "could not understand" list whatever the
   * database would have answered, so the database is not consulted.
   */
  lemma FalsyNotSent<R>(sql: Option<string>, db1: string -> Result<seq<R>, string>, db2: string -> Result<seq<R>, string>)
    requires Falsy(sql)
    ensures Execute(sql, db1) == Execute(sql, db2) == [Error(NotUnderstood)]
  {
  }

  /**
   * Truthy SQL is sent as it is: the answer depends on the database only through
   * its reply to that text; the rows come back in order, and an exception becomes
   * a single error entry carrying its message.
   */
  lemma TruthySent<R>(sql: string, db1: string -> Result<seq<R>, string>, db2: string -> Result<seq<R>, string>)
    requires sql != ""
    ensures db1(sql) == db2(sql) ==> Execute(Some(sql), db1) == Execute(Some(sql), db2)
    ensures db1(sql).Ok? ==> (|Execute(Some(sql), db1)| == |db1(sql).value| &&
      forall i :: 0 <= i < |db1(sql).value| ==> Execute(Some(sql), db1)[i] == Row(db1(sql).value[i]))
    ensures db1(sql).Err? ==> Execute(Some(sql), db1) == [Error(FailedPrefix + db1(sql).error)]
  {
  }

  /** The "could not understand" answer comes exactly from falsy SQL: a database failure reads differently. */
  lemma NotUnderstoodIff<R>(sql: Option<string>, db: string -> Result<seq<R>, string>)
    ensures Execute(sql, db) == [Error(NotUnderstood)] <==> Falsy(sql)
  {
    if !Falsy(sql) && db(sql.value).Err? {
      var e := db(sql.value).error;
      assert FailedPrefix[0] == 'S' && NotUnderstood[0] == 'C';
      assert (FailedPrefix + e)[0] != NotUnderstood[0];
    }
  }
}
