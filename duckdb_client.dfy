/**
 * `DuckDBConnector.insert_batch`: the record dictionaries of one batch become
 * eleven-column rows in the column order of the `logs` table, and one
 * `executemany` hands them to the engine. The engine is a sink that appends the
 * rows to the table; which of its calls raise is fixed up front by `failing`.
 */
module DuckDb {
  import opened Wrappers
  import opened LogSchema

  /** Column order of the table and of the INSERT statement. */
  const Columns: seq<string> := [
    "timestamp", "severity", "service_name", "trace_id", "body", "environment",
    "app_id", "department", "host", "region", "context"]

  /** The keys read with `log[...]`, in the order the row reads them. */
  const Required: seq<string> := ["timestamp", "severity", "service_name", "body"]

  type Row = seq<Value>

  datatype InsertError = KeyError(key: string) | ExecuteFailed

  /** `log.get(key)`. */
  function Get(rec: Record, key: string): Value {
    if key in rec then rec[key] else Null
  }

  /** `log.get("context", {})`. */
  function ContextOf(rec: Record): Value {
    if "context" in rec then rec["context"] else Dict(map[])
  }

  /** The tuple built for one record; a missing required key raises `KeyError`. */
  function RowOf(rec: Record): Result<Row, InsertError> {
    if "timestamp" !in rec then Err(KeyError("timestamp"))
    else if "severity" !in rec then Err(KeyError("severity"))
    else if "service_name" !in rec then Err(KeyError("service_name"))
    else if "body" !in rec then Err(KeyError("body"))
    else
      Ok([rec["timestamp"], rec["severity"], rec["service_name"], Get(rec, "trace_id"), rec["body"],
          Get(rec, "environment"), Get(rec, "app_id"), Get(rec, "department"), Get(rec, "host"),
          Get(rec, "region"), Json(ContextOf(rec))])
  }

  /** The rows of a whole batch, or the first record's error. */
  function Rows(logs: seq<Record>): Result<seq<Row>, InsertError>
    decreases |logs|
  {
    if logs == [] then Ok([])
    else
      match RowOf(logs[0])
      case Err(e) => Err(e)
      case Ok(row) => Prefix([row], Rows(logs[1..]))
  }

  function Prefix(rows: seq<Row>, r: Result<seq<Row>, InsertError>): Result<seq<Row>, InsertError> {
    match r case Err(e) => Err(e) case Ok(rest) => Ok(rows + rest)
  }

  /**
   * A row holds eleven values, each the record's value under the column of the same
   * position, a missing optional key giving `None` and the context column the JSON
   * text of the context or of the empty mapping.
   */
  lemma RowColumns(rec: Record)
    ensures RowOf(rec).Ok? <==> forall k :: 0 <= k < |Required| ==> Required[k] in rec
    ensures RowOf(rec).Ok? ==>
      var row := RowOf(rec).value;
      |row| == |Columns| == 11 &&
      (forall c :: 0 <= c < 10 ==> row[c] == Get(rec, Columns[c])) &&
      row[10] == Json(ContextOf(rec))
  {
    if RowOf(rec).Ok? {
      var row := RowOf(rec).value;
      forall c | 0 <= c < 10 ensures row[c] == Get(rec, Columns[c]) {
      }
    } else {
      assert exists k :: 0 <= k < |Required| && Required[k] !in rec by {
        if "timestamp" !in rec {
          assert Required[0] !in rec;
        } else if "severity" !in rec {
          assert Required[1] !in rec;
        } else if "service_name" !in rec {
          assert Required[2] !in rec;
        } else {
          assert Required[3] !in rec;
        }
      }
    }
  }

  /** The error names the first required key, in row order, that the record lacks. */
  lemma RowError(rec: Record)
    requires RowOf(rec).Err?
    ensures exists k :: 0 <= k < |Required| && RowOf(rec) == Err(KeyError(Required[k])) && Required[k] !in rec &&
                        forall j :: 0 <= j < k ==> Required[j] in rec
  {
    if "timestamp" !in rec {
      assert RowOf(rec) == Err(KeyError(Required[0]));
    } else if "severity" !in rec {
      assert RowOf(rec) == Err(KeyError(Required[1]));
    } else if "service_name" !in rec {
      assert RowOf(rec) == Err(KeyError(Required[2]));
    } else {
      assert RowOf(rec) == Err(KeyError(Required[3]));
    }
  }

  /** One row per record and in record order, exactly when every record has the required keys. */
  lemma {:induction false} RowsInOrder(logs: seq<Record>)
    ensures Rows(logs).Ok? <==> forall i :: 0 <= i < |logs| ==> RowOf(logs[i]).Ok?
    ensures Rows(logs).Ok? ==>
      |Rows(logs).value| == |logs| && forall i :: 0 <= i < |logs| ==> Rows(logs).value[i] == RowOf(logs[i]).value
    decreases |logs|
  {
    if logs != [] {
      var rest := logs[1..];
      RowsInOrder(rest);
      assert forall i :: 0 <= i < |rest| ==> rest[i] == logs[i + 1];
      if RowOf(logs[0]).Ok? && Rows(rest).Ok? {
        var rows := Rows(logs).value;
        assert rows == [RowOf(logs[0]).value] + Rows(rest).value;
        forall i | 0 <= i < |logs| ensures rows[i] == RowOf(logs[i]).value {
          if i > 0 {
            assert rows[i] == Rows(rest).value[i - 1];
          }
        }
      }
    }
  }

  /** Records holding every field of a dumped event, as the bulk loader's are, always have their rows. */
  lemma CompleteRecordsHaveRows(logs: seq<Record>)
    requires forall i :: 0 <= i < |logs| ==> HasAllFields(logs[i])
    ensures Rows(logs).Ok? && |Rows(logs).value| == |logs|
  {
    forall i | 0 <= i < |logs| ensures RowOf(logs[i]).Ok? {
      assert "timestamp" in FieldNames && "severity" in FieldNames;
      assert "service_name" in FieldNames && "body" in FieldNames;
    }
    RowsInOrder(logs);
  }

  /** The rows of two batches back to back are the rows of the first, then of the second. */
  lemma {:induction false} RowsConcat(a: seq<Record>, b: seq<Record>)
    requires Rows(a).Ok? && Rows(b).Ok?
    ensures Rows(a + b) == Ok(Rows(a).value + Rows(b).value)
    decreases |a|
  {
    if a == [] {
      assert a + b == b;
      assert Rows(a).value + Rows(b).value == Rows(b).value;
    } else {
      assert (a + b)[0] == a[0];
      assert (a + b)[1..] == a[1..] + b;
      assert Rows(a) == Prefix([RowOf(a[0]).value], Rows(a[1..]));
      RowsConcat(a[1..], b);
      assert Rows(a + b) == Prefix([RowOf(a[0]).value], Rows(a[1..] + b));
      assert [RowOf(a[0]).value] + (Rows(a[1..]).value + Rows(b).value)
          == ([RowOf(a[0]).value] + Rows(a[1..]).value) + Rows(b).value;
    }
  }

  /** The `for log in logs` loop that fills `values`. */
  method PrepareRows(logs: seq<Record>) returns (r: Result<seq<Row>, InsertError>)
    ensures r == Rows(logs)
  {
    var values: seq<Row> := [];
    var i := 0;
    assert logs[0..] == logs;
    PrefixEmpty(Rows(logs));
    while i < |logs|
      invariant 0 <= i <= |logs|
      invariant Rows(logs) == Prefix(values, Rows(logs[i..]))
    {
      assert logs[i..][1..] == logs[i + 1..];
      var row := RowOf(logs[i]);
      if row.Err? {
        return Err(row.error);
      }
      PrefixTwice(values, [row.value], Rows(logs[i + 1..]));
      values := values + [row.value];
      i := i + 1;
    }
    assert logs[i..] == [];
    assert values + [] == values;
    return Ok(values);
  }

  lemma PrefixEmpty(r: Result<seq<Row>, InsertError>)
    ensures Prefix([], r) == r
  {
    if r.Ok? {
      assert [] + r.value == r.value;
    }
  }

  lemma PrefixTwice(a: seq<Row>, b: seq<Row>, r: Result<seq<Row>, InsertError>)
    ensures Prefix(a, Prefix(b, r)) == Prefix(a + b, r)
  {
    if r.Ok? {
      assert a + (b + r.value) == (a + b) + r.value;
    }
  }

  class DuckDBConnector {
    /** Every batch handed to `insert_batch`, in call order, including those that raised. */
    var calls: seq<seq<Record>>
    /** The rows of the `logs` table, in insertion order. */
    var table: seq<Row>
    /** Every batch that reached the table, in call order. */
    var batches: seq<seq<Record>>
    /** The number of `executemany` calls so far. */
    var executions: nat
    /** The `executemany` calls, by number, that raise. */
    const failing: set<nat>

    /**
     * `DuckDBConnector()` on the persistent database file: `CREATE TABLE IF NOT EXISTS`
     * keeps the rows earlier runs stored, given as `existing`.
     */
    constructor(existing: seq<Row>, failing: set<nat>)
      ensures calls == [] && table == existing && batches == [] && executions == 0 && this.failing == failing
    {
      calls := [];
      table := existing;
      batches := [];
      executions := 0;
      this.failing := failing;
    }

    /**
     * An empty batch returns at once; a record lacking a required key raises before
     * anything is executed; otherwise one `executemany` runs, and either all rows
     * reach the table or it raises and none do.
     */
    method InsertBatch(logs: seq<Record>) returns (r: Result<(), InsertError>)
      modifies this
      ensures calls == old(calls) + [logs]
      ensures logs == [] ==> r == Ok(()) && table == old(table) && batches == old(batches) && executions == old(executions)
      ensures logs != [] && Rows(logs).Err? ==>
        r == Err(Rows(logs).error) && table == old(table) && batches == old(batches) && executions == old(executions)
      ensures logs != [] && Rows(logs).Ok? ==> executions == old(executions) + 1
      ensures logs != [] && Rows(logs).Ok? && old(executions) in failing ==>
        r == Err(ExecuteFailed) && table == old(table) && batches == old(batches)
      ensures logs != [] && Rows(logs).Ok? && old(executions) !in failing ==>
        r == Ok(()) && table == old(table) + Rows(logs).value && batches == old(batches) + [logs]
    {
      calls := calls + [logs];
      if logs == [] {
        return Ok(());
      }
      var values := PrepareRows(logs);
      if values.Err? {
        return Err(values.error);
      }
      var fails := executions in failing;
      executions := executions + 1;
      if fails {
        return Err(ExecuteFailed);
      }
      table := table + values.value;
      batches := batches + [logs];
      return Ok(());
    }
  }
}
