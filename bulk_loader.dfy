/**
 * `BulkLoaderJob.process_file`: every line of a log file is stripped and, unless
 * blank or shorter than four space-separated tokens, read by position like the
 * streaming worker does, templated, scanned for `key=value` context on top of
 * `{"source_file": basename}`, given its metadata from that context and dumped
 * into a buffer; the buffer goes to `insert_batch` whenever it holds 100 records
 * and once more, if nonempty, after the last line. Any exception while a line is
 * handled, a failed mid-file insert included, skips the rest of that line only.
 */
module BulkLoader {
  import opened Wrappers
  import opened Strings
  import opened Timestamps
  import opened Drain
  import opened ContextScan
  import opened LogSchema
  import opened DuckDb
  import IngestionWorker

  /** `batch_size`. */
  const BatchSize: nat := 100

  /** `os.path.basename`: everything after the last `/`. */
  function Basename(path: string): string {
    var pieces := Split(path, "/");
    pieces[|pieces| - 1]
  }

  /** The base name is the slash-free tail of the path that starts right after its last `/`. */
  lemma BasenameTail(path: string)
    ensures var b := Basename(path);
      '/' !in b && |b| <= |path| && path[|path| - |b|..] == b &&
      (|b| == |path| || path[|path| - |b| - 1] == '/')
  {
    BasenameSlashFree(path);
    BasenameSuffix(path);
  }

  lemma BasenameSlashFree(path: string)
    ensures '/' !in Basename(path)
  {
    var pieces := Split(path, "/");
    SplitPiecesFree(path, "/");
    assert !Contains(pieces[|pieces| - 1], "/");
    CharFree(pieces[|pieces| - 1], '/');
  }

  lemma BasenameSuffix(path: string)
    ensures var b := Basename(path);
      |b| <= |path| && path[|path| - |b|..] == b &&
      (|b| == |path| || path[|path| - |b| - 1] == '/')
  {
    JoinSplit(path, "/");
    LastPieceSuffix(Split(path, "/"), path);
  }

  /** Joining with `/` ends with the last piece, which is all of it or comes right after a `/`. */
  lemma LastPieceSuffix(pieces: seq<string>, p: string)
    requires |pieces| >= 1 && p == Join("/", pieces)
    ensures var b := pieces[|pieces| - 1];
      |b| <= |p| && p[|p| - |b|..] == b && (|b| == |p| || p[|p| - |b| - 1] == '/')
  {
    if |pieces| >= 2 {
      JoinSnoc(pieces, "/");
      SlashTail(Join("/", pieces[..|pieces| - 1]), pieces[|pieces| - 1], p);
    }
  }

  /** What follows the last added `/` is the tail of the joined text. */
  lemma SlashTail(init: string, b: string, p: string)
    requires p == init + "/" + b
    ensures |b| < |p| && p[|p| - |b|..] == b && p[|p| - |b| - 1] == '/'
  {
    assert p[|p| - |b|..] == b;
  }

  /** Joining ends with the last piece, after one separator. */
  lemma {:induction false} JoinSnoc(parts: seq<string>, sep: string)
    requires |parts| >= 2
    ensures Join(sep, parts) == Join(sep, parts[..|parts| - 1]) + sep + parts[|parts| - 1]
    decreases |parts|
  {
    if |parts| > 2 {
      var tail := parts[1..];
      JoinSnoc(tail, sep);
      assert tail[..|tail| - 1] == parts[1..|parts| - 1];
      assert parts[..|parts| - 1] == [parts[0]] + parts[1..|parts| - 1];
      JoinCons(parts[0], sep, parts[1..|parts| - 1]);
    }
  }

  /** `ctx.get(key)`. */
  function Lookup(ctx: Context, key: string): Option<string> {
    if key in ctx then Some(ctx[key]) else None
  }

  /** Python's `a or b` on two optional strings: `a` when it is a nonempty string, `b` otherwise. */
  function Either(a: Option<string>, b: Option<string>): Option<string> {
    if a.Some? && a.value != "" then a else b
  }

  /** What becomes of one line of the file. */
  datatype LineOutcome = Blank | Malformed | Failed | Built(event: LogEvent)

  /** The event built from the tokens of a stripped line with at least four of them. */
  function EventOf(parts: seq<string>, filename: string): LineOutcome
    requires |parts| >= 4
  {
    match Scan(map["source_file" := filename], parts[4..])
    case Err(_) => Failed
    case Ok(ctx) =>
      match Strptime(parts[0] + " " + parts[1])
      case None => Failed
      case Some(ts) =>
        Built(LogEvent(ts, parts[2], Replace(parts[3], ":", ""), None, Transform(Join(" ", parts[4..])),
                       Either(Lookup(ctx, "environment"), Lookup(ctx, "env")),
                       Lookup(ctx, "app_id"),
                       Either(Lookup(ctx, "department"), Lookup(ctx, "dept")),
                       Lookup(ctx, "host"), Lookup(ctx, "region"), ctx))
  }

  /** One turn of the `for line in f` loop, without the flush. */
  function Outcome(raw: string, filename: string): LineOutcome {
    var line := Strip(raw);
    if line == [] then Blank
    else
      var parts := Split(line, " ");
      if |parts| < 4 then Malformed else EventOf(parts, filename)
  }

  /** What one line's outcome appends to the buffer: the dump of a built event, nothing otherwise. */
  function Extra(o: LineOutcome): seq<Record> {
    match o
    case Built(e) => [Dump(e)]
    case _ => []
  }

  /** The dumps of the built events among `outs`, in order. */
  function Kept(outs: seq<LineOutcome>): seq<Record>
    decreases |outs|
  {
    if outs == [] then [] else Kept(outs[..|outs| - 1]) + Extra(outs[|outs| - 1])
  }

  /** The outcome of line `k`. */
  function OutcomeAt(lines: seq<string>, k: nat, filename: string): LineOutcome
    requires k < |lines|
  {
    Outcome(lines[k], filename)
  }

  /** `outs` holds the outcome of each line, in order. */
  predicate OutcomesOf(outs: seq<LineOutcome>, lines: seq<string>, filename: string) {
    |outs| == |lines| && forall k {:trigger OutcomeAt(lines, k, filename)} :: 0 <= k < |lines| ==> outs[k] == OutcomeAt(lines, k, filename)
  }

  /** The outcome of every line of the file, in file order. */
  ghost function Outcomes(lines: seq<string>, filename: string): seq<LineOutcome> {
    assert OutcomesOf(seq(|lines|, k requires 0 <= k < |lines| => OutcomeAt(lines, k, filename)), lines, filename);
    var outs :| OutcomesOf(outs, lines, filename);
    outs
  }

  /** The records appended to the buffer for `lines`, in file order. */
  ghost function Loaded(lines: seq<string>, filename: string): seq<Record> {
    Kept(Outcomes(lines, filename))
  }

  /** There is only one sequence of outcomes for a file. */
  lemma OutcomesUnique(outs: seq<LineOutcome>, lines: seq<string>, filename: string)
    requires OutcomesOf(outs, lines, filename)
    ensures outs == Outcomes(lines, filename)
  {
    var chosen := Outcomes(lines, filename);
    forall k | 0 <= k < |lines| ensures outs[k] == chosen[k] {
      assert outs[k] == OutcomeAt(lines, k, filename);
    }
  }

  /** Keeping the built events of each line's outcome is loading the lines. */
  lemma KeptLoaded(outs: seq<LineOutcome>, lines: seq<string>, filename: string)
    requires OutcomesOf(outs, lines, filename)
    ensures Kept(outs) == Loaded(lines, filename)
  {
    OutcomesUnique(outs, lines, filename);
  }

  /** The dumps kept from two runs of outcomes back to back. */
  lemma {:induction false} KeptConcat(x: seq<LineOutcome>, y: seq<LineOutcome>)
    ensures Kept(x + y) == Kept(x) + Kept(y)
    decreases |y|
  {
    if y == [] {
      assert x + y == x;
    } else {
      var y0, last := y[..|y| - 1], y[|y| - 1];
      KeptConcat(x, y0);
      assert y == y0 + [last];
      assert x + y == (x + y0) + [last];
      KeptSnoc(y, y0, last);
      KeptSnoc(x + y, x + y0, last);
      Regroup(Kept(x + y), Kept(x), Kept(y0), Extra(last), Kept(y));
    }
  }

  lemma Regroup<T>(s: seq<T>, a: seq<T>, b: seq<T>, c: seq<T>, bc: seq<T>)
    requires s == a + b + c && bc == b + c
    ensures s == a + bc
  {
  }

  lemma KeptSnoc(outs: seq<LineOutcome>, init: seq<LineOutcome>, last: LineOutcome)
    requires outs == init + [last]
    ensures Kept(outs) == Kept(init) + Extra(last)
  {
    assert outs[..|outs| - 1] == init;
  }

  lemma OutcomesConcat(a: seq<string>, b: seq<string>, filename: string)
    ensures Outcomes(a + b, filename) == Outcomes(a, filename) + Outcomes(b, filename)
  {
    var x, y := Outcomes(a, filename), Outcomes(b, filename);
    forall k | 0 <= k < |a + b| ensures (x + y)[k] == OutcomeAt(a + b, k, filename) {
      if k < |a| {
        assert x[k] == OutcomeAt(a, k, filename);
      } else {
        assert y[k - |a|] == OutcomeAt(b, k - |a|, filename);
      }
    }
    OutcomesUnique(x + y, a + b, filename);
  }

  /** The batches back to back. */
  function Flatten(batches: seq<seq<Record>>): seq<Record>
    decreases |batches|
  {
    if batches == [] then [] else Flatten(batches[..|batches| - 1]) + batches[|batches| - 1]
  }

  lemma Tail<T>(a: seq<T>, b: seq<T>)
    ensures |a| <= |a + b| && (a + b)[..|a|] == a && (a + b)[|a|..] == b
  {
  }

  lemma Last<T>(a: seq<T>, b: seq<T>)
    requires b != []
    ensures (a + b)[|a + b| - 1] == b[|b| - 1]
  {
  }

  /**
   * What one file does to the database, from the state before (`calls0`, ...) to
   * the state after: calls and stored batches only grow, each new call is one
   * `executemany`, nonempty and, but for the last, of at least 100 records; the
   * table gains the rows of the newly stored batches; and while no insert raises,
   * every call is stored, the mid-file ones of exactly 100 records.
   */
  ghost predicate Delivered(calls0: seq<seq<Record>>, batches0: seq<seq<Record>>, table0: seq<Row>, exec0: nat,
                            calls: seq<seq<Record>>, batches: seq<seq<Record>>, table: seq<Row>, exec: nat,
                            failing: set<nat>) {
    |calls0| <= |calls| && calls[..|calls0|] == calls0 &&
    |batches0| <= |batches| && batches[..|batches0|] == batches0 &&
    exec == exec0 + (|calls| - |calls0|) &&
    (forall k :: |calls0| <= k < |calls| ==> calls[k] != []) &&
    (forall k :: |calls0| <= k < |calls| - 1 ==> |calls[k]| >= BatchSize) &&
    Rows(Flatten(batches[|batches0|..])).Ok? && table == table0 + Rows(Flatten(batches[|batches0|..])).value &&
    (NoFailures(exec0, exec, failing) ==>
       batches[|batches0|..] == calls[|calls0|..] &&
       (forall k :: |calls0| <= k < |calls| - 1 ==> |calls[k]| == BatchSize) &&
       (|calls| > |calls0| ==> |calls[|calls| - 1]| <= BatchSize))
  }

  lemma NothingDelivered(calls: seq<seq<Record>>, batches: seq<seq<Record>>, table: seq<Row>, exec: nat, failing: set<nat>)
    ensures Delivered(calls, batches, table, exec, calls, batches, table, exec, failing)
  {
    assert batches[|batches|..] == [];
    assert table + [] == table;
  }

  /** None of the `executemany` calls numbered `from` up to `to` raises. */
  predicate NoFailures(from: nat, to: nat, failing: set<nat>) {
    forall n :: from <= n < to ==> n !in failing
  }

  /**
   * The loader's bookkeeping on values: every call was at least a full batch, the
   * buffer holds complete records, the table gained the rows of the stored batches,
   * and while no insert has raised (`clean`) the buffer is short and every call
   * was stored and exactly full.
   */
  predicate Books(sentCalls: seq<seq<Record>>, stored: seq<seq<Record>>, batch: seq<Record>,
                  t0: seq<Row>, table: seq<Row>, clean: bool) {
    (forall k :: 0 <= k < |sentCalls| ==> |sentCalls[k]| >= BatchSize) &&
    (forall j :: 0 <= j < |batch| ==> HasAllFields(batch[j])) &&
    Rows(Flatten(stored)).Ok? && table == t0 + Rows(Flatten(stored)).value &&
    (clean ==> |batch| < BatchSize && stored == sentCalls && forall k :: 0 <= k < |sentCalls| ==> |sentCalls[k]| == BatchSize)
  }

  /** A record joins a buffer that stays short of a batch. */
  lemma BooksBuffered(sentCalls: seq<seq<Record>>, stored: seq<seq<Record>>, batch: seq<Record>, rec: Record,
                      t0: seq<Row>, table: seq<Row>, clean: bool)
    requires Books(sentCalls, stored, batch, t0, table, clean) && HasAllFields(rec) && |batch + [rec]| < BatchSize
    ensures Books(sentCalls, stored, batch + [rec], t0, table, clean)
    ensures Flatten(stored) + (batch + [rec]) == Flatten(stored) + batch + [rec]
  {
    var next := batch + [rec];
    assert forall j :: 0 <= j < |next| ==> next[j] == if j < |batch| then batch[j] else rec;
  }

  /** The full buffer is stored as one more batch and the buffer emptied. */
  lemma BooksFlushed(sentCalls: seq<seq<Record>>, stored: seq<seq<Record>>, batch: seq<Record>, rec: Record,
                     t0: seq<Row>, before: seq<Row>, table: seq<Row>, clean: bool, inserted: bool)
    requires Books(sentCalls, stored, batch, t0, before, clean)
    requires |batch + [rec]| >= BatchSize
    requires Rows(Flatten(stored + [batch + [rec]])).Ok? && table == t0 + Rows(Flatten(stored + [batch + [rec]])).value
    ensures Books(sentCalls + [batch + [rec]], stored + [batch + [rec]], [], t0, table, clean && inserted)
    ensures Flatten(stored + [batch + [rec]]) + [] == Flatten(stored) + batch + [rec]
  {
    var next := batch + [rec];
    FlattenSnoc(stored, next);
    var sc := sentCalls + [next];
    assert forall k :: 0 <= k < |sc| ==> sc[k] == if k < |sentCalls| then sentCalls[k] else next;
  }

  /** The full buffer's insert raised: the call was made, nothing stored, the records stay buffered. */
  lemma BooksFailed(sentCalls: seq<seq<Record>>, stored: seq<seq<Record>>, batch: seq<Record>, rec: Record,
                    t0: seq<Row>, table: seq<Row>, clean: bool)
    requires Books(sentCalls, stored, batch, t0, table, clean) && HasAllFields(rec) && |batch + [rec]| >= BatchSize
    ensures Books(sentCalls + [batch + [rec]], stored, batch + [rec], t0, table, false)
    ensures Flatten(stored) + (batch + [rec]) == Flatten(stored) + batch + [rec]
  {
    var next := batch + [rec];
    assert forall j :: 0 <= j < |next| ==> next[j] == if j < |batch| then batch[j] else rec;
    var sc := sentCalls + [next];
    assert forall k :: 0 <= k < |sc| ==> sc[k] == if k < |sentCalls| then sentCalls[k] else next;
  }

  /**
   * The bookkeeping once the file is done: every call nonempty and all but the
   * last at least a full batch, the table holding the rows of the stored batches,
   * and while no insert raised, every call stored, exactly full but for the last,
   * which is at most full.
   */
  predicate Closed(sentAfter: seq<seq<Record>>, storedAfter: seq<seq<Record>>, t0: seq<Row>, table: seq<Row>, clean: bool) {
    (forall k :: 0 <= k < |sentAfter| ==> sentAfter[k] != []) &&
    (forall k :: 0 <= k < |sentAfter| - 1 ==> |sentAfter[k]| >= BatchSize) &&
    Rows(Flatten(storedAfter)).Ok? && table == t0 + Rows(Flatten(storedAfter)).value &&
    (clean ==>
       storedAfter == sentAfter &&
       (forall k :: 0 <= k < |sentAfter| - 1 ==> |sentAfter[k]| == BatchSize) &&
       (sentAfter != [] ==> |sentAfter[|sentAfter| - 1]| <= BatchSize))
  }

  /** An empty buffer at the end of the file: nothing more goes out. */
  lemma ClosedEmpty(sentCalls: seq<seq<Record>>, stored: seq<seq<Record>>, t0: seq<Row>, table: seq<Row>, clean: bool)
    requires Books(sentCalls, stored, [], t0, table, clean)
    ensures Closed(sentCalls, stored, t0, table, clean)
  {
  }

  /** The last buffer is stored. */
  lemma ClosedFlushed(sentCalls: seq<seq<Record>>, stored: seq<seq<Record>>, batch: seq<Record>,
                      t0: seq<Row>, before: seq<Row>, table: seq<Row>, clean: bool, inserted: bool)
    requires Books(sentCalls, stored, batch, t0, before, clean) && batch != []
    requires Rows(Flatten(stored + [batch])).Ok? && table == t0 + Rows(Flatten(stored + [batch])).value
    ensures Closed(sentCalls + [batch], stored + [batch], t0, table, clean && inserted)
  {
    var sc := sentCalls + [batch];
    assert forall k :: 0 <= k < |sc| ==> sc[k] == if k < |sentCalls| then sentCalls[k] else batch;
  }

  /** The last buffer's insert raised: the call was made and nothing stored. */
  lemma ClosedFailed(sentCalls: seq<seq<Record>>, stored: seq<seq<Record>>, batch: seq<Record>,
                     t0: seq<Row>, table: seq<Row>, clean: bool)
    requires Books(sentCalls, stored, batch, t0, table, clean) && batch != []
    ensures Closed(sentCalls + [batch], stored, t0, table, false)
  {
    var sc := sentCalls + [batch];
    assert forall k :: 0 <= k < |sc| ==> sc[k] == if k < |sentCalls| then sentCalls[k] else batch;
  }

  /** The bookkeeping at the end of a file is what the file delivered. */
  lemma ClosedDelivered(c0: seq<seq<Record>>, b0: seq<seq<Record>>, t0: seq<Row>, e0: nat,
                        sentAfter: seq<seq<Record>>, storedAfter: seq<seq<Record>>,
                        calls: seq<seq<Record>>, batches: seq<seq<Record>>, table: seq<Row>, exec: nat, failing: set<nat>)
    requires calls == c0 + sentAfter && batches == b0 + storedAfter && exec == e0 + |sentAfter|
    requires Closed(sentAfter, storedAfter, t0, table, NoFailures(e0, exec, failing))
    ensures Delivered(c0, b0, t0, e0, calls, batches, table, exec, failing)
  {
    Tail(c0, sentAfter);
    Tail(b0, storedAfter);
    assert forall k :: |c0| <= k < |calls| ==> calls[k] == sentAfter[k - |c0|];
  }

  /** Counting one more call: no failure so far and none at the new call. */
  lemma NoFailuresStep(e0: nat, e: nat, failing: set<nat>)
    requires e0 <= e
    ensures NoFailures(e0, e + 1, failing) <==> NoFailures(e0, e, failing) && e !in failing
  {
  }

  lemma FlattenSnoc(batches: seq<seq<Record>>, b: seq<Record>)
    ensures Flatten(batches + [b]) == Flatten(batches) + b
  {
    assert (batches + [b])[..|batches|] == batches;
  }

  /**
   * A line is skipped exactly when it is blank, has fewer than four tokens, holds a
   * token with two `=` after the service, or carries a timestamp `strptime` rejects.
   */
  lemma OutcomeBuiltIff(raw: string, filename: string)
    ensures var line := Strip(raw); var parts := Split(line, " ");
      Outcome(raw, filename).Built? <==>
        line != [] && |parts| >= 4 &&
        (forall k :: 4 <= k < |parts| ==> !IsBad(parts[k])) &&
        Strptime(parts[0] + " " + parts[1]).Some?
  {
    var line := Strip(raw);
    var parts := Split(line, " ");
    if line != [] && |parts| >= 4 {
      var toks := parts[4..];
      ScanFailsIff(map["source_file" := filename], toks);
      if exists k :: 4 <= k < |parts| && IsBad(parts[k]) {
        var k :| 4 <= k < |parts| && IsBad(parts[k]);
        assert toks[k - 4] == parts[k];
      }
      if exists k :: 0 <= k < |toks| && IsBad(toks[k]) {
        var k :| 0 <= k < |toks| && IsBad(toks[k]);
        assert parts[k + 4] == toks[k];
      }
    }
  }

  /**
   * The bulk loader builds an event from a line exactly when the streaming worker's
   * `parse_log` succeeds on the stripped line, with the same timestamp, severity,
   * service name and template. The worker itself does not strip, and the contexts
   * differ: the loader's starts with `source_file`.
   */
  lemma SameReadingAsWorker(raw: string, filename: string)
    requires Strip(raw) != [] && |Split(Strip(raw), " ")| >= 4
    ensures Outcome(raw, filename).Built? <==> IngestionWorker.Event(Strip(raw)).Ok?
    ensures Outcome(raw, filename).Built? ==>
      var e := Outcome(raw, filename).event; var w := IngestionWorker.Event(Strip(raw)).value;
      e.timestamp == w.timestamp && e.severity == w.severity && e.serviceName == w.serviceName &&
      e.body == w.body && e.traceId.None?
  {
    var parts := Split(Strip(raw), " ");
    ScanFailsIff(map["source_file" := filename], parts[4..]);
    ScanFailsIff(map[], parts[4..]);
  }

  /**
   * The context starts as `{"source_file": filename}`: without a token keyed
   * `source_file` it keeps that entry (the last such token overrides it, see
   * `SourceFileOverride`).
   */
  lemma SourceFileEntry(parts: seq<string>, filename: string)
    requires |parts| >= 4 && EventOf(parts, filename).Built?
    ensures var ctx := EventOf(parts, filename).event.context;
      "source_file" in ctx &&
      ((forall k :: 4 <= k < |parts| ==> KeyOf(parts[k]) != Some("source_file")) ==> ctx["source_file"] == filename)
  {
    var toks := parts[4..];
    var init := map["source_file" := filename];
    KeysStay(init, toks, "source_file");
    if forall k :: 4 <= k < |parts| ==> KeyOf(parts[k]) != Some("source_file") {
      forall i | 0 <= i < |toks| ensures KeyOf(toks[i]) != Some("source_file") {
        assert toks[i] == parts[i + 4];
      }
      Untouched(init, toks, "source_file");
    }
  }

  /** The last token keyed `source_file` replaces the file name in the context. */
  lemma SourceFileOverride(parts: seq<string>, filename: string, j: nat, value: string)
    requires |parts| >= 4 && EventOf(parts, filename).Built?
    requires 4 <= j < |parts| && Contains(parts[j], "=")
    requires Split(parts[j], "=")[0] == "source_file" && Split(parts[j], "=")[1] == value
    requires forall i :: j < i < |parts| ==> KeyOf(parts[i]) != Some("source_file")
    ensures var ctx := EventOf(parts, filename).event.context; "source_file" in ctx && ctx["source_file"] == value
  {
    BuiltContext(parts, filename);
    TailOverride(map["source_file" := filename], parts, j, "source_file", value);
  }

  /** A built event's context is the scan of the tokens after the service. */
  lemma BuiltContext(parts: seq<string>, filename: string)
    requires |parts| >= 4 && EventOf(parts, filename).Built?
    ensures Scan(map["source_file" := filename], parts[4..]).Ok?
    ensures EventOf(parts, filename).event.context == Scan(map["source_file" := filename], parts[4..]).value
  {
  }

  lemma TailOverride(init: Context, parts: seq<string>, j: nat, key: string, value: string)
    requires 4 <= j < |parts| && Scan(init, parts[4..]).Ok? && Contains(parts[j], "=")
    requires Split(parts[j], "=")[0] == key && Split(parts[j], "=")[1] == value
    requires forall i :: j < i < |parts| ==> KeyOf(parts[i]) != Some(key)
    ensures key in Scan(init, parts[4..]).value && Scan(init, parts[4..]).value[key] == value
  {
    var toks := parts[4..];
    assert toks[j - 4] == parts[j];
    forall i | j - 4 < i < |toks| ensures KeyOf(toks[i]) != Some(key) {
      assert toks[i] == parts[i + 4];
    }
    LastWriteWins(init, toks, j - 4, key, value);
  }

  /** A key present in the starting map stays present through a successful scan. */
  lemma {:induction false} KeysStay(ctx: Context, toks: seq<string>, key: string)
    requires Scan(ctx, toks).Ok? && key in ctx
    ensures key in Scan(ctx, toks).value
    decreases |toks|
  {
    if toks != [] {
      KeysStay(Step(ctx, toks[0]).value, toks[1..], key);
    }
  }

  /**
   * `environment` is the context's `environment` when that is a nonempty string and
   * its `env` otherwise (`None` when absent); `department` likewise falls back to
   * `dept`; `app_id`, `host` and `region` are copied as they are.
   */
  lemma Metadata(raw: string, filename: string)
    requires Outcome(raw, filename).Built?
    ensures var e := Outcome(raw, filename).event; var ctx := e.context;
      ("environment" in ctx && ctx["environment"] != "" ==> e.environment == Some(ctx["environment"])) &&
      (!("environment" in ctx && ctx["environment"] != "") ==>
         (e.environment.Some? <==> "env" in ctx) && ("env" in ctx ==> e.environment == Some(ctx["env"]))) &&
      ("department" in ctx && ctx["department"] != "" ==> e.department == Some(ctx["department"])) &&
      (!("department" in ctx && ctx["department"] != "") ==>
         (e.department.Some? <==> "dept" in ctx) && ("dept" in ctx ==> e.department == Some(ctx["dept"]))) &&
      (e.appId.Some? <==> "app_id" in ctx) && ("app_id" in ctx ==> e.appId == Some(ctx["app_id"])) &&
      (e.host.Some? <==> "host" in ctx) && ("host" in ctx ==> e.host == Some(ctx["host"])) &&
      (e.region.Some? <==> "region" in ctx) && ("region" in ctx ==> e.region == Some(ctx["region"]))
  {
  }

  /** A file's records are those of its first part followed by those of the rest: one line never affects another. */
  lemma LoadedConcat(a: seq<string>, b: seq<string>, filename: string)
    ensures Loaded(a + b, filename) == Loaded(a, filename) + Loaded(b, filename)
  {
    OutcomesConcat(a, b, filename);
    KeptConcat(Outcomes(a, filename), Outcomes(b, filename));
  }

  /** A line that builds nothing, wherever it stands, leaves the records as they are. */
  lemma SkippedLine(a: seq<string>, line: string, b: seq<string>, filename: string)
    requires !Outcome(line, filename).Built?
    ensures Loaded(a + [line] + b, filename) == Loaded(a + b, filename)
  {
    LoadedConcat(a + [line], b, filename);
    LoadedConcat(a, [line], filename);
    LoadedConcat(a, b, filename);
    LoadedSkipped(line, filename);
    assert Loaded(a, filename) + [] == Loaded(a, filename);
  }

  lemma LoadedSkipped(line: string, filename: string)
    requires !Outcome(line, filename).Built?
    ensures Loaded([line], filename) == []
  {
    var one := [Outcome(line, filename)];
    assert OutcomeAt([line], 0, filename) == Outcome(line, filename);
    KeptLoaded(one, [line], filename);
    assert one[..0] == [];
  }

  /** Every buffered record is the dump of a built event and so holds every field. */
  lemma LoadedComplete(lines: seq<string>, filename: string)
    ensures forall j :: 0 <= j < |Loaded(lines, filename)| ==> HasAllFields(Loaded(lines, filename)[j])
  {
    KeptComplete(Outcomes(lines, filename));
  }

  lemma {:induction false} KeptComplete(outs: seq<LineOutcome>)
    ensures forall j :: 0 <= j < |Kept(outs)| ==> HasAllFields(Kept(outs)[j])
    decreases |outs|
  {
    if outs != [] {
      KeptComplete(outs[..|outs| - 1]);
    }
  }

  /** The line handling inside the `try`, with the context filled by the loop. */
  method BuildEvent(raw: string, filename: string) returns (o: LineOutcome)
    ensures o == Outcome(raw, filename)
  {
    var line := Strip(raw);
    if line == [] {
      return Blank;
    }
    var parts := Split(line, " ");
    if |parts| < 4 {
      return Malformed;
    }
    var timestampText := parts[0] + " " + parts[1];
    var severity := parts[2];
    var serviceName := Replace(parts[3], ":", "");
    var template := Transform(Join(" ", parts[4..]));
    var context := ExtractContext(map["source_file" := filename], parts[4..]);
    if context.Err? {
      return Failed;
    }
    var ctx := context.value;
    var environment := Either(Lookup(ctx, "environment"), Lookup(ctx, "env"));
    var appId := Lookup(ctx, "app_id");
    var department := Either(Lookup(ctx, "department"), Lookup(ctx, "dept"));
    var host := Lookup(ctx, "host");
    var region := Lookup(ctx, "region");
    var timestamp := Strptime(timestampText);
    if timestamp.None? {
      return Failed;
    }
    return Built(LogEvent(timestamp.value, severity, serviceName, None, template, environment, appId, department, host, region, ctx));
  }

  /** The outcome of line `i`, appended to those of the lines before it. */
  method NextOutcome(lines: seq<string>, i: nat, filename: string, ghost outs: seq<LineOutcome>) returns (o: LineOutcome)
    requires i < |lines| && OutcomesOf(outs, lines[..i], filename)
    ensures OutcomesOf(outs + [o], lines[..i + 1], filename)
    ensures o.Built? ==> HasAllFields(Dump(o.event))
  {
    o := BuildEvent(lines[i], filename);
    var prefix := lines[..i + 1];
    forall k | 0 <= k < i + 1 ensures (outs + [o])[k] == OutcomeAt(prefix, k, filename) {
      if k < i {
        assert outs[k] == OutcomeAt(lines[..i], k, filename);
      }
    }
  }

  class BulkLoaderJob {
    const db: DuckDBConnector

    /** `BulkLoaderJob()`: a new connection to the database file, which holds `existing` already. */
    constructor(existing: seq<Row>, failing: set<nat>)
      ensures fresh(db) && db.calls == [] && db.table == existing && db.batches == [] && db.executions == 0
      ensures db.failing == failing
    {
      db := new DuckDBConnector(existing, failing);
    }

    /**
     * `process_file(path)`, the file's lines given as `file` (`None` when it does
     * not exist). Every batch handed to the database is nonempty and, except the
     * final flush, holds at least 100 records; the batches that reach the table
     * plus the buffer always make up the records built so far, so a batch whose
     * insert raised stays buffered and goes out again with the next record; a
     * failing final flush propagates. While no insert raises, every batch is sent
     * once, the mid-file ones holding exactly 100 records.
     */
    method ProcessFile(path: string, file: Option<seq<string>>) returns (r: Result<(), InsertError>)
      modifies db
      ensures Delivered(old(db.calls), old(db.batches), old(db.table), old(db.executions),
                        db.calls, db.batches, db.table, db.executions, db.failing)
      ensures file.None? ==> r == Ok(()) && db.calls == old(db.calls) && db.batches == old(db.batches) && db.table == old(db.table)
      ensures NoFailures(old(db.executions), db.executions, db.failing) ==> r.Ok?
      ensures file.Some? && r.Ok? ==> Flatten(db.batches[|old(db.batches)|..]) == Loaded(file.value, Basename(path))
      ensures r.Err? ==>
        file.Some? && r == Err(ExecuteFailed) && |db.calls| > |old(db.calls)| &&
        Flatten(db.batches[|old(db.batches)|..] + [db.calls[|db.calls| - 1]]) == Loaded(file.value, Basename(path))
    {
      if file.None? {
        NothingDelivered(db.calls, db.batches, db.table, db.executions, db.failing);
        return Ok(());
      }
      var lines := file.value;
      var filename := Basename(path);
      ghost var c0, b0, t0, e0 := db.calls, db.batches, db.table, db.executions;
      assert c0 + [] == c0 && b0 + [] == b0;
      var batch: seq<Record>;
      ghost var outs: seq<LineOutcome>, sentCalls: seq<seq<Record>>, stored: seq<seq<Record>>;
      batch, outs, sentCalls, stored := ReadLines(lines, filename, c0, b0, t0, e0);
      ghost var sentAfter: seq<seq<Record>>, storedAfter: seq<seq<Record>>;
      r, sentAfter, storedAfter := FinalFlush(batch, c0, b0, t0, e0, sentCalls, stored);
      ClosedDelivered(c0, b0, t0, e0, sentAfter, storedAfter, db.calls, db.batches, db.table, db.executions, db.failing);
      Tail(c0, sentAfter);
      Tail(b0, storedAfter);
      ghost var records := Flatten(db.batches[|b0|..]);
      if r.Err? {
        Last(c0, sentAfter);
        ghost var pending := db.calls[|db.calls| - 1];
        FlattenSnoc(db.batches[|b0|..], pending);
        assert Kept(outs) == Flatten(db.batches[|b0|..] + [pending]);
      } else {
        assert Kept(outs) == records;
      }
      KeptLoaded(outs, lines, filename);
    }

    /** The flush after the last line: the buffer goes out once more when it is nonempty, and a failure propagates. */
    method FinalFlush(batch: seq<Record>, ghost c0: seq<seq<Record>>, ghost b0: seq<seq<Record>>, ghost t0: seq<Row>,
                      ghost e0: nat, ghost sentCalls: seq<seq<Record>>, ghost stored: seq<seq<Record>>)
      returns (r: Result<(), InsertError>, ghost sentAfter: seq<seq<Record>>, ghost storedAfter: seq<seq<Record>>)
      requires Buffered(c0, b0, t0, e0, sentCalls, stored, batch)
      modifies db
      ensures db.calls == c0 + sentAfter && db.batches == b0 + storedAfter && db.executions == e0 + |sentAfter|
      ensures Closed(sentAfter, storedAfter, t0, db.table, NoFailures(e0, db.executions, db.failing))
      ensures r.Ok? ==> Flatten(storedAfter) == Flatten(stored) + batch
      ensures r.Err? ==>
        r == Err(ExecuteFailed) && sentAfter != [] && Flatten(storedAfter) + sentAfter[|sentAfter| - 1] == Flatten(stored) + batch
      ensures NoFailures(e0, db.executions, db.failing) ==> r.Ok?
    {
      r, sentAfter, storedAfter := Ok(()), sentCalls, stored;
      if batch != [] {
        ghost var e, before := db.executions, db.table;
        var sent := Flush(batch, stored, t0);
        sentAfter := sentCalls + [batch];
        r := sent;
        NoFailuresStep(e0, e, db.failing);
        if sent.Ok? {
          FlattenSnoc(stored, batch);
          storedAfter := stored + [batch];
          ClosedFlushed(sentCalls, stored, batch, t0, before, db.table, NoFailures(e0, e, db.failing), e !in db.failing);
        } else {
          ClosedFailed(sentCalls, stored, batch, t0, db.table, NoFailures(e0, e, db.failing));
        }
      } else {
        ClosedEmpty(sentCalls, stored, t0, db.table, NoFailures(e0, db.executions, db.failing));
      }
    }

    /** The `for line in f` loop: every line handled, the buffer flushed whenever it is full. */
    method ReadLines(lines: seq<string>, filename: string, ghost c0: seq<seq<Record>>, ghost b0: seq<seq<Record>>,
                     ghost t0: seq<Row>, ghost e0: nat)
      returns (batch: seq<Record>, ghost outs: seq<LineOutcome>, ghost sentCalls: seq<seq<Record>>, ghost stored: seq<seq<Record>>)
      requires Buffered(c0, b0, t0, e0, [], [], [])
      modifies db
      ensures OutcomesOf(outs, lines, filename)
      ensures Flatten(stored) + batch == Kept(outs)
      ensures Buffered(c0, b0, t0, e0, sentCalls, stored, batch)
    {
      sentCalls, stored, outs := [], [], [];
      batch := [];
      var i := 0;
      while i < |lines|
        invariant 0 <= i <= |lines|
        invariant OutcomesOf(outs, lines[..i], filename)
        invariant Flatten(stored) + batch == Kept(outs)
        invariant Buffered(c0, b0, t0, e0, sentCalls, stored, batch)
      {
        var outcome := NextOutcome(lines, i, filename, outs);
        outs := outs + [outcome];
        if outcome.Built? {
          batch, sentCalls, stored := Append(Dump(outcome.event), batch, c0, b0, t0, e0, sentCalls, stored);
        }
        i := i + 1;
      }
      assert lines[..i] == lines;
    }

    /**
     * The loader's bookkeeping since the start of a file: the calls made, the
     * batches stored, the table and the buffer, with every call so far mid-file.
     */
    ghost predicate Buffered(c0: seq<seq<Record>>, b0: seq<seq<Record>>, t0: seq<Row>, e0: nat,
                             sentCalls: seq<seq<Record>>, stored: seq<seq<Record>>, batch: seq<Record>)
      reads db
    {
      db.calls == c0 + sentCalls && db.batches == b0 + stored && db.executions == e0 + |sentCalls| &&
      Books(sentCalls, stored, batch, t0, db.table, NoFailures(e0, db.executions, db.failing))
    }

    /** `batch.append(...)` and, once the buffer holds 100 records, the mid-file flush. */
    method Append(rec: Record, batch: seq<Record>, ghost c0: seq<seq<Record>>, ghost b0: seq<seq<Record>>,
                  ghost t0: seq<Row>, ghost e0: nat, ghost sentCalls: seq<seq<Record>>, ghost stored: seq<seq<Record>>)
      returns (next: seq<Record>, ghost sentAfter: seq<seq<Record>>, ghost storedAfter: seq<seq<Record>>)
      requires HasAllFields(rec) && Buffered(c0, b0, t0, e0, sentCalls, stored, batch)
      modifies db
      ensures Buffered(c0, b0, t0, e0, sentAfter, storedAfter, next)
      ensures Flatten(storedAfter) + next == Flatten(stored) + batch + [rec]
    {
      next := batch + [rec];
      sentAfter, storedAfter := sentCalls, stored;
      if |next| >= BatchSize {
        ghost var e, before := db.executions, db.table;
        var sent := Flush(next, stored, t0);
        sentAfter := sentCalls + [next];
        NoFailuresStep(e0, e, db.failing);
        if sent.Ok? {
          BooksFlushed(sentCalls, stored, batch, rec, t0, before, db.table, NoFailures(e0, e, db.failing), e !in db.failing);
          storedAfter := stored + [next];
          next := [];
        } else {
          BooksFailed(sentCalls, stored, batch, rec, t0, db.table, NoFailures(e0, e, db.failing));
        }
      } else {
        BooksBuffered(sentCalls, stored, batch, rec, t0, db.table, NoFailures(e0, db.executions, db.failing));
      }
    }

    /** One `insert_batch` of a nonempty buffer of complete records, seen from the loader. */
    method Flush(batch: seq<Record>, ghost stored: seq<seq<Record>>, ghost t0: seq<Row>)
      returns (sent: Result<(), InsertError>)
      requires batch != [] && forall j :: 0 <= j < |batch| ==> HasAllFields(batch[j])
      requires Rows(Flatten(stored)).Ok? && db.table == t0 + Rows(Flatten(stored)).value
      modifies db
      ensures db.calls == old(db.calls) + [batch] && db.executions == old(db.executions) + 1
      ensures sent.Ok? <==> old(db.executions) !in db.failing
      ensures sent.Err? ==> sent == Err(ExecuteFailed) && db.batches == old(db.batches) && db.table == old(db.table)
      ensures sent.Ok? ==>
        db.batches == old(db.batches) + [batch] &&
        Rows(Flatten(stored + [batch])).Ok? && db.table == t0 + Rows(Flatten(stored + [batch])).value
    {
      CompleteRecordsHaveRows(batch);
      sent := db.InsertBatch(batch);
      if sent.Ok? {
        FlattenSnoc(stored, batch);
        RowsConcat(Flatten(stored), batch);
      }
    }
  }
}
