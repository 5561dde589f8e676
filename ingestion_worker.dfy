/**
 * `LogIngestor.parse_log` of the streaming ingestion worker: a raw line is split on
 * single spaces and read by position (date, time, severity, service), the rest is
 * rejoined as the message, templated by `MockDrain3.transform` and scanned for
 * `key=value` tokens; the timestamp goes through `strptime` and stays naive.
 */
module IngestionWorker {
  import opened Wrappers
  import opened Strings
  import opened Timestamps
  import opened Drain
  import opened ContextScan
  import opened LogSchema

  /** What `parse_log` raises: too few tokens, a token with two `=`, or a bad timestamp. */
  datatype ParseLogError = IndexError | ContextError(token: string) | TimestampError

  /** What `parse_log` computes for `raw`. */
  function Event(raw: string): Result<LogEvent, ParseLogError> {
    var parts := Split(raw, " ");
    if |parts| < 4 then Err(IndexError)
    else Reading(parts[0], parts[1], parts[2], parts[3], parts[4..])
  }

  /** The event read from the first four tokens and the tokens after them. */
  function Reading(date: string, time: string, severity: string, service: string, tokens: seq<string>)
    : Result<LogEvent, ParseLogError>
  {
    match Scan(map[], tokens)
    case Err(e) => Err(ContextError(e.token))
    case Ok(ctx) =>
      match Strptime(date + " " + time)
      case None => Err(TimestampError)
      case Some(ts) =>
        Ok(LogEvent(ts, severity, Replace(service, ":", ""), None, Transform(Join(" ", tokens)),
                    None, None, None, None, None, ctx))
  }

  /** `parse_log` itself, with the context filled by the loop. */
  method ParseLog(raw: string) returns (r: Result<LogEvent, ParseLogError>)
    ensures r == Event(raw)
  {
    var parts := Split(raw, " ");
    if |parts| < 4 {
      return Err(IndexError);
    }
    var timestampText := parts[0] + " " + parts[1];
    var severity := parts[2];
    var serviceName := Replace(parts[3], ":", "");
    var template := Transform(Join(" ", parts[4..]));
    var context := ExtractContext(map[], parts[4..]);
    if context.Err? {
      return Err(ContextError(context.error.token));
    }
    var timestamp := Strptime(timestampText);
    if timestamp.None? {
      return Err(TimestampError);
    }
    return Ok(LogEvent(timestamp.value, severity, serviceName, None, template, None, None, None, None, None, context.value));
  }

  /** Fewer than four tokens, that is fewer than three spaces, is exactly the `IndexError` case. */
  lemma IndexErrorIff(raw: string)
    ensures Event(raw) == Err(IndexError) <==> multiset(raw)[' '] < 3
  {
    SplitCharCount(raw, ' ');
  }

  /**
   * Reading by position: the 3rd token is the severity, the 4th with its colons
   * removed the service, and everything after the 4th space is the message that is
   * templated and scanned for context.
   */
  lemma FieldsByPosition(date: string, time: string, severity: string, service: string, rest: string)
    requires ' ' !in date && ' ' !in time && ' ' !in severity && ' ' !in service
    ensures Event(date + " " + time + " " + severity + " " + service + " " + rest) ==
      match Scan(map[], Split(rest, " "))
      case Err(e) => Err(ContextError(e.token))
      case Ok(ctx) =>
        match Strptime(date + " " + time)
        case None => Err(TimestampError)
        case Some(ts) => Ok(LogEvent(ts, severity, Replace(service, ":", ""), None, Transform(rest), None, None, None, None, None, ctx))
  {
    var raw := date + " " + time + " " + severity + " " + service + " " + rest;
    var parts := Split(raw, " ");
    PositionsSplit(date, time, severity, service, rest);
    assert parts[..4] == [date, time, severity, service] && parts[4..] == Split(rest, " ");
    assert Event(raw) == Reading(date, time, severity, service, Split(rest, " "));
    JoinSplit(rest, " ");
  }

  lemma PositionsSplit(date: string, time: string, severity: string, service: string, rest: string)
    requires ' ' !in date && ' ' !in time && ' ' !in severity && ' ' !in service
    ensures Split(date + " " + time + " " + severity + " " + service + " " + rest, " ") ==
            [date, time, severity, service] + Split(rest, " ")
  {
    SpacedConcat(date, time, severity, service, rest);
    SplitFour(date, time, severity, service, rest);
  }

  lemma SplitFour(a: string, b: string, c: string, d: string, rest: string)
    requires ' ' !in a && ' ' !in b && ' ' !in c && ' ' !in d
    ensures Split(a + " " + (b + " " + (c + " " + (d + " " + rest))), " ") == [a, b, c, d] + Split(rest, " ")
  {
    SplitThree(b, c, d, rest);
    SplitAtSpace(a, b + " " + (c + " " + (d + " " + rest)));
    assert [a] + ([b, c, d] + Split(rest, " ")) == [a, b, c, d] + Split(rest, " ");
  }

  lemma SplitThree(b: string, c: string, d: string, rest: string)
    requires ' ' !in b && ' ' !in c && ' ' !in d
    ensures Split(b + " " + (c + " " + (d + " " + rest)), " ") == [b, c, d] + Split(rest, " ")
  {
    SplitTwo(c, d, rest);
    SplitAtSpace(b, c + " " + (d + " " + rest));
    assert [b] + ([c, d] + Split(rest, " ")) == [b, c, d] + Split(rest, " ");
  }

  lemma SplitTwo(c: string, d: string, rest: string)
    requires ' ' !in c && ' ' !in d
    ensures Split(c + " " + (d + " " + rest), " ") == [c, d] + Split(rest, " ")
  {
    SplitAtSpace(d, rest);
    SplitAtSpace(c, d + " " + rest);
    assert [c] + ([d] + Split(rest, " ")) == [c, d] + Split(rest, " ");
  }

  lemma SpacedConcat(date: string, time: string, severity: string, service: string, rest: string)
    ensures date + " " + time + " " + severity + " " + service + " " + rest ==
            date + " " + (time + " " + (severity + " " + (service + " " + rest)))
  {
  }

  lemma SplitAtSpace(a: string, b: string)
    requires ' ' !in a
    ensures Split(a + " " + b, " ") == [a] + Split(b, " ")
  {
    SplitAtChar(a, ' ', b);
  }

  /**
   * A parsed event has a colon-free service name, a template without surrounding
   * whitespace, a naive calendar-valid timestamp and no metadata fields.
   */
  lemma EventShape(raw: string)
    requires Event(raw).Ok?
    ensures var e := Event(raw).value;
      ':' !in e.serviceName &&
      (e.body == [] || (!IsSpace(e.body[0]) && !IsSpace(e.body[|e.body| - 1]))) &&
      !e.timestamp.utc &&
      ValidCalendar(e.timestamp.year, e.timestamp.month, e.timestamp.day, e.timestamp.hour, e.timestamp.minute, e.timestamp.second) &&
      e.traceId.None? && e.environment.None? && e.appId.None? && e.department.None? && e.host.None? && e.region.None?
  {
    var parts := Split(raw, " ");
    var e := Event(raw).value;
    RemoveCharGone(parts[3], ':');
    assert e.serviceName == Replace(parts[3], [':'], "");
  }

  /**
   * Among lines with at least four tokens, parsing fails exactly on a token with two
   * `=` after the service or on a bad timestamp, and the context error is raised
   * first, whatever the timestamp.
   */
  lemma ErrorOrder(raw: string)
    requires |Split(raw, " ")| >= 4
    ensures var parts := Split(raw, " ");
      (Event(raw).Err? <==>
        (exists k :: 4 <= k < |parts| && IsBad(parts[k])) || Strptime(parts[0] + " " + parts[1]).None?) &&
      ((exists k :: 4 <= k < |parts| && IsBad(parts[k])) ==> Event(raw).error.ContextError?)
  {
    var parts := Split(raw, " ");
    var toks := parts[4..];
    ScanFailsIff(map[], toks);
    assert (exists k :: 4 <= k < |parts| && IsBad(parts[k])) <==> (exists k :: 0 <= k < |toks| && IsBad(toks[k])) by {
      if exists k :: 4 <= k < |parts| && IsBad(parts[k]) {
        var k :| 4 <= k < |parts| && IsBad(parts[k]);
        assert toks[k - 4] == parts[k];
      }
      if exists k :: 0 <= k < |toks| && IsBad(toks[k]) {
        var k :| 0 <= k < |toks| && IsBad(toks[k]);
        assert parts[k + 4] == toks[k];
      }
    }
  }

  /** The first sample line of the mock consumer. */
  const FirstLine := "2025-11-20" + " " + "10:00:01" + " " + "INFO" + " " + "payment-service:" + " " + PaymentMessage

  /**
   * The first sample line parses to the naive timestamp 2025-11-20 10:00:01, severity
   * `INFO`, service `payment-service`, the masked template and the two context pairs.
   */
  lemma ExampleFirstLine()
    ensures Event(FirstLine) == Ok(LogEvent(
      DateTime(2025, 11, 20, 10, 0, 1, false), "INFO", "payment-service", None, PaymentTemplate,
      None, None, None, None, None, map["user_id" := "101", "amount" := "50.00"]))
  {
    FieldsByPosition("2025-11-20", "10:00:01", "INFO", "payment-service:", PaymentMessage);
    ExampleFirstContext();
    ExampleTimestampText();
    ExampleServiceName();
    ExamplePayment();
  }

  lemma ExampleTimestampText()
    ensures Strptime("2025-11-20" + " " + "10:00:01") == Some(DateTime(2025, 11, 20, 10, 0, 1, false))
  {
    assert "2025-11-20" + " " + "10:00:01" == "2025-11-20 10:00:01";
    ExampleTimestamp();
  }

  lemma ExampleServiceName()
    ensures Replace("payment-service:", ":", "") == "payment-service"
  {
    SplitNoChar("", ':');
    SplitAtChar("payment-service", ':', "");
    assert "payment-service" + [':'] + "" == "payment-service:";
  }

  lemma ExampleFirstContext()
    ensures Scan(map[], Split(PaymentMessage, " ")) == Ok(map["user_id" := "101", "amount" := "50.00"])
  {
    PaymentContextFor("101", "50.00");
  }

  /** A payment message gives its two pairs as context, whatever the values. */
  lemma PaymentContextFor(uid: string, amount: string)
    requires ' ' !in uid && '=' !in uid && ' ' !in amount && '=' !in amount
    ensures Scan(map[], Split(PaymentPrefix + UserIdKey + uid + " " + AmountKey + amount, " "))
         == Ok(map["user_id" := uid, "amount" := amount])
  {
    var words := ["Payment", "processed", "for"];
    var pairs := ["user_id" + "=" + uid, "amount" + "=" + amount];
    PaymentJoin(uid, amount);
    assert ["Payment", "processed", "for", "user_id" + "=" + uid, "amount" + "=" + amount] == words + pairs;
    PaymentWordsFree(words);
    WordsThenPairs(words, "user_id", uid, "amount", amount);
  }

  lemma PaymentJoin(uid: string, amount: string)
    ensures PaymentPrefix + UserIdKey + uid + " " + AmountKey + amount
         == Join(" ", ["Payment", "processed", "for", "user_id" + "=" + uid, "amount" + "=" + amount])
  {
    var u, a := "user_id" + "=" + uid, "amount" + "=" + amount;
    JoinFive("Payment", "processed", "for", u, a);
    assert "Payment" + " " + "processed" + " " + "for" + " " == PaymentPrefix;
    assert u == UserIdKey + uid && a == AmountKey + amount;
    Assoc5(PaymentPrefix, UserIdKey, uid, AmountKey, amount);
  }

  lemma Assoc5(p: string, k1: string, v1: string, k2: string, v2: string)
    ensures p + k1 + v1 + " " + k2 + v2 == p + (k1 + v1) + " " + (k2 + v2)
  {
  }

  lemma JoinFive(a: string, b: string, c: string, d: string, e: string)
    ensures Join(" ", [a, b, c, d, e]) == a + " " + b + " " + c + " " + d + " " + e
  {
    JoinCons(a, " ", [b, c, d, e]);
    assert [a, b, c, d, e] == [a] + [b, c, d, e];
    JoinCons(b, " ", [c, d, e]);
    assert [b, c, d, e] == [b] + [c, d, e];
    JoinCons(c, " ", [d, e]);
    assert [c, d, e] == [c] + [d, e];
    JoinCons(d, " ", [e]);
    assert [d, e] == [d] + [e];
  }

  lemma PaymentWordsFree(words: seq<string>)
    requires words == ["Payment", "processed", "for"]
    ensures forall i :: 0 <= i < |words| ==> ' ' !in words[i] && '=' !in words[i]
  {
    assert ' ' !in words[0] && '=' !in words[0];
    assert ' ' !in words[1] && '=' !in words[1];
    assert ' ' !in words[2] && '=' !in words[2];
  }

  /** The message of the fourth sample line yields `{"user_id": "102", "amount": "25.00"}`. */
  lemma ExampleFourthLineContext()
    ensures Scan(map[], Split(PaymentPrefix + UserIdKey + "102" + " " + AmountKey + "25.00", " "))
         == Ok(map["user_id" := "102", "amount" := "25.00"])
  {
    PaymentContextFor("102", "25.00");
  }
}
