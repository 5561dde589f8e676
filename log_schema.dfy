/**
 * The log record both ingestion paths build and the dictionary form in which the
 * bulk loader hands it to the database client. The schema class itself is not
 * part of this model; its fields are the eleven columns of the `logs` table, with
 * every metadata field optional and the context a string-to-string map.
 */
module LogSchema {
  import opened Wrappers
  import opened Timestamps

  datatype LogEvent = LogEvent(
    timestamp: DateTime,
    severity: string,
    serviceName: string,
    traceId: Option<string>,
    body: string,
    environment: Option<string>,
    appId: Option<string>,
    department: Option<string>,
    host: Option<string>,
    region: Option<string>,
    context: map<string, string>)

  /** A value in a record dictionary; `Json(v)` stands for the text `json.dumps(v)`. */
  datatype Value = Null | Str(s: string) | Time(t: DateTime) | Dict(m: map<string, string>) | Json(of: Value)

  /** A record as a Python dictionary: keys may be missing. */
  type Record = map<string, Value>

  function OptValue(o: Option<string>): Value {
    match o case None => Null case Some(s) => Str(s)
  }

  /** `event.model_dump()`: every field under its own name, absent options as `None`. */
  function Dump(e: LogEvent): (r: Record)
    ensures forall k :: k in r <==> k in FieldNames
  {
    map[
      "timestamp" := Time(e.timestamp),
      "severity" := Str(e.severity),
      "service_name" := Str(e.serviceName),
      "trace_id" := OptValue(e.traceId),
      "body" := Str(e.body),
      "environment" := OptValue(e.environment),
      "app_id" := OptValue(e.appId),
      "department" := OptValue(e.department),
      "host" := OptValue(e.host),
      "region" := OptValue(e.region),
      "context" := Dict(e.context)]
  }

  /** A record with a value under every field name, as every dump has. */
  predicate HasAllFields(r: Record) {
    forall k :: k in FieldNames ==> k in r
  }

  const FieldNames: set<string> := {
    "timestamp", "severity", "service_name", "trace_id", "body", "environment",
    "app_id", "department", "host", "region", "context"}
}
