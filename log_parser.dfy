/**
 * `LogParser` of shared/utils: recognises `TIMESTAMP SEVERITY SERVICE[:] MESSAGE`
 * with the regular expression LOG_PATTERN
 *   (\d{4}-\d{2}-\d{2} \d{2}:\d{2}:\d{2})\s+(\w+)\s+([\w-]+)(?::)?\s+(.*)   (DOTALL)
 * anchored at the start of the stripped record, and tags the naive timestamp as UTC.
 */
module LogParser {
  import opened Wrappers
  import opened Strings
  import opened Timestamps

  /** The named groups of the pattern. */
  datatype PatternMatch = PatternMatch(timestamp: string, severity: string, service: string, message: string)

  /** The dict `parse` returns: exactly the keys timestamp, severity, service_name, body. */
  datatype ParsedLog = ParsedLog(timestamp: DateTime, severity: string, serviceName: string, body: string)

  /** Both are `ValueError`s: "Log format not recognized", and the one `strptime` raises. */
  datatype ParseError = FormatNotRecognized | TimestampInvalid

  /**
   * The pattern, stated as a decomposition of the text into the pieces the regex
   * consumes; `.*` under DOTALL takes whatever is left.
   */
  ghost predicate Decomposes(s: string, ts: string, ws1: string, sev: string, ws2: string,
                             svc: string, colon: string, ws3: string, msg: string)
  {
    && s == ts + ws1 + sev + ws2 + svc + colon + ws3 + msg
    && IsStrictTimestamp(ts)
    && |ws1| > 0 && AllIn(ws1, Space)
    && |sev| > 0 && AllIn(sev, Word)
    && |ws2| > 0 && AllIn(ws2, Space)
    && |svc| > 0 && AllIn(svc, WordOrDash)
    && (colon == "" || colon == ":")
    && |ws3| > 0 && AllIn(ws3, Space)
  }

  /** Where the scanner cuts the text: start and end of each group and separator. */
  datatype Cuts = Cuts(sevAt: nat, sevEnd: nat, svcAt: nat, svcEnd: nat, colonEnd: nat, msgAt: nat)

  /**
   * Scans maximal runs after the timestamp. Every quantifier of the pattern is
   * greedy and every backtracking alternative fails (a shorter `\w+` or `[\w-]+`
   * is followed by a class character, not by whitespace or a colon), so the regex
   * match cuts the text exactly here.
   */
  function ScanCuts(s: string): (c: Cuts)
    requires |s| >= 19
    ensures 19 <= c.sevAt <= c.sevEnd <= c.svcAt <= c.svcEnd <= c.colonEnd <= c.msgAt <= |s|
  {
    var sevAt := RunEnd(s, 19, Space);
    var sevEnd := RunEnd(s, sevAt, Word);
    var svcAt := RunEnd(s, sevEnd, Space);
    var svcEnd := RunEnd(s, svcAt, WordOrDash);
    var colonEnd := if svcEnd < |s| && s[svcEnd] == ':' then svcEnd + 1 else svcEnd;
    Cuts(sevAt, sevEnd, svcAt, svcEnd, colonEnd, RunEnd(s, colonEnd, Space))
  }

  /** Every `+` of the pattern consumed at least one character. */
  predicate NonEmptyRuns(c: Cuts) {
    19 < c.sevAt < c.sevEnd < c.svcAt < c.svcEnd && c.colonEnd < c.msgAt
  }

  /** `LOG_PATTERN.match(s)`. */
  function MatchPattern(s: string): (r: Option<PatternMatch>)
    ensures r.Some? ==> |r.value.severity| > 0 && AllIn(r.value.severity, Word)
    ensures r.Some? ==> |r.value.service| > 0 && AllIn(r.value.service, WordOrDash)
    ensures r.Some? ==> r.value.message == [] || !IsSpace(r.value.message[0])
    ensures r.Some? ==> |r.value.message| <= |s| && r.value.message == s[|s| - |r.value.message|..]
    ensures r.Some? && |s| > 0 && !IsSpace(s[|s| - 1]) ==> |r.value.message| > 0
  {
    if |s| < 19 || !IsStrictTimestamp(s[..19]) then None
    else
      var c := ScanCuts(s);
      if !NonEmptyRuns(c) then None
      else
        RunSlice(s, c.sevAt, Word);
        RunSlice(s, c.svcAt, WordOrDash);
        Some(PatternMatch(s[..19], s[c.sevAt..c.sevEnd], s[c.svcAt..c.svcEnd], s[c.msgAt..]))
  }

  /** `LogParser.parse(raw)`. */
  function Parse(raw: string): (r: Result<ParsedLog, ParseError>)
    ensures r.Ok? ==> r.value.timestamp.utc && WellFormed(r.value)
  {
    var s := Strip(raw);
    assert |s| > 0 ==> !IsSpace(s[|s| - 1]);
    match MatchPattern(s)
    case None => Err(FormatNotRecognized)
    case Some(m) =>
      match Strptime(m.timestamp)
      case None => Err(TimestampInvalid)
      case Some(dt) =>
        MatchWellFormed(s, m);
        Ok(ParsedLog(dt.(utc := true), m.severity, m.service, m.message))
  }

  /**
   * What a parsed record's text fields look like: a nonempty run of word
   * characters, a nonempty run of word characters or dashes without the colon,
   * and a body that starts and ends with a non-whitespace character.
   */
  predicate WellFormed(p: ParsedLog) {
    && |p.severity| > 0 && AllIn(p.severity, Word)
    && |p.serviceName| > 0 && AllIn(p.serviceName, WordOrDash)
    && (forall i :: 0 <= i < |p.serviceName| ==> p.serviceName[i] != ':')
    && |p.body| > 0 && !IsSpace(p.body[0]) && !IsSpace(p.body[|p.body| - 1])
  }

  lemma MatchWellFormed(s: string, m: PatternMatch)
    requires MatchPattern(s) == Some(m)
    requires |s| > 0 ==> !IsSpace(s[|s| - 1])
    ensures forall dt :: WellFormed(ParsedLog(dt, m.severity, m.service, m.message))
  {
    ServiceHasNoColon(m.service);
    BodyEndsLikeRecord(s, m.message);
  }

  lemma ServiceHasNoColon(svc: string)
    requires AllIn(svc, WordOrDash)
    ensures forall i :: 0 <= i < |svc| ==> svc[i] != ':'
  {
    forall i | 0 <= i < |svc| ensures svc[i] != ':' {
      assert InClass(svc[i], WordOrDash);
    }
  }

  lemma BodyEndsLikeRecord(s: string, body: string)
    requires |body| > 0 && |body| <= |s| && body == s[|s| - |body|..]
    requires !IsSpace(s[|s| - 1])
    ensures !IsSpace(body[|body| - 1])
  {
    assert body[|body| - 1] == s[|s| - 1];
  }

  lemma SpaceIsNoWord(c: char)
    requires IsSpace(c)
    ensures !InClass(c, Word) && !InClass(c, WordOrDash) && c != ':'
  {
  }

  /** Whatever the scanner accepts is a decomposition of the text in the pattern's shape. */
  lemma MatchSound(s: string)
    requires MatchPattern(s).Some?
    ensures var m := MatchPattern(s).value;
      exists ws1, ws2, colon, ws3 :: Decomposes(s, m.timestamp, ws1, m.severity, ws2, m.service, colon, ws3, m.message)
  {
    var c := ScanCuts(s);
    MatchFrom(s, c, s[c.msgAt..]);
    var ws1, ws2, colon, ws3 := s[19..c.sevAt], s[c.sevEnd..c.svcAt], s[c.svcEnd..c.colonEnd], s[c.colonEnd..c.msgAt];
    CutsDecompose(s, c, s[..19], ws1, s[c.sevAt..c.sevEnd], ws2, s[c.svcAt..c.svcEnd], colon, ws3, s[c.msgAt..]);
  }

  /** The match the scanner's cut points give. */
  lemma MatchFrom(s: string, c: Cuts, msg: string)
    requires |s| >= 19 && IsStrictTimestamp(s[..19]) && c == ScanCuts(s) && NonEmptyRuns(c) && msg == s[c.msgAt..]
    ensures MatchPattern(s) == Some(PatternMatch(s[..19], s[c.sevAt..c.sevEnd], s[c.svcAt..c.svcEnd], msg))
  {
  }

  /** The slices between the scanner's cut points are the pieces of a decomposition. */
  lemma CutsDecompose(s: string, c: Cuts, ts: string, ws1: string, sev: string, ws2: string,
                      svc: string, colon: string, ws3: string, msg: string)
    requires |s| >= 19 && IsStrictTimestamp(ts) && c == ScanCuts(s) && NonEmptyRuns(c)
    requires ts == s[..19] && ws1 == s[19..c.sevAt] && sev == s[c.sevAt..c.sevEnd] && ws2 == s[c.sevEnd..c.svcAt]
    requires svc == s[c.svcAt..c.svcEnd] && colon == s[c.svcEnd..c.colonEnd] && ws3 == s[c.colonEnd..c.msgAt] && msg == s[c.msgAt..]
    ensures Decomposes(s, ts, ws1, sev, ws2, svc, colon, ws3, msg)
  {
    RunSlice(s, 19, Space);
    RunSlice(s, c.sevAt, Word);
    RunSlice(s, c.sevEnd, Space);
    RunSlice(s, c.svcAt, WordOrDash);
    RunSlice(s, c.colonEnd, Space);
    Glue(s, 19, c.sevAt, c.sevEnd, c.svcAt, c.svcEnd, c.colonEnd, c.msgAt);
  }

  /** The run scanned from `i` is a class-`k` slice. */
  lemma RunSlice(s: string, i: nat, k: CharClass)
    requires i <= |s|
    ensures AllIn(s[i..RunEnd(s, i, k)], k)
  {
    var e := RunEnd(s, i, k);
    forall j | 0 <= j < e - i ensures InClass(s[i..e][j], k) {
      assert s[i..e][j] == s[i + j];
    }
  }

  /** Consecutive slices at the given cut points put the text back together. */
  lemma Glue(s: string, c0: nat, c1: nat, c2: nat, c3: nat, c4: nat, c5: nat, c6: nat)
    requires c0 <= c1 <= c2 <= c3 <= c4 <= c5 <= c6 <= |s|
    ensures s == s[..c0] + s[c0..c1] + s[c1..c2] + s[c2..c3] + s[c3..c4] + s[c4..c5] + s[c5..c6] + s[c6..]
  {
    Cut(s, c0, c1);
    Cut(s, c1, c2);
    Cut(s, c2, c3);
    Cut(s, c3, c4);
    Cut(s, c4, c5);
    Cut(s, c5, c6);
    assert s == s[..c6] + s[c6..];
  }

  lemma Cut(s: string, i: nat, j: nat)
    requires i <= j <= |s|
    ensures s[..j] == s[..i] + s[i..j]
  {
  }

  /** The pieces of a decomposition sit at consecutive offsets of the text. */
  lemma Pieces(s: string, ts: string, ws1: string, sev: string, ws2: string,
               svc: string, colon: string, ws3: string, msg: string)
    requires s == ts + ws1 + sev + ws2 + svc + colon + ws3 + msg
    ensures var p1 := |ts|; var p2 := p1 + |ws1|; var p3 := p2 + |sev|; var p4 := p3 + |ws2|;
      var p5 := p4 + |svc|; var p6 := p5 + |colon|; var p7 := p6 + |ws3|;
      && s[..p1] == ts && s[p1..p2] == ws1 && s[p2..p3] == sev && s[p3..p4] == ws2
      && s[p4..p5] == svc && s[p5..p6] == colon && s[p6..p7] == ws3 && s[p7..] == msg
  {
    var a1 := ts + ws1;
    var a2 := a1 + sev;
    var a3 := a2 + ws2;
    var a4 := a3 + svc;
    var a5 := a4 + colon;
    var a6 := a5 + ws3;
    Halves(a6, msg);
    Halves(a5, ws3);
    Halves(a4, colon);
    Halves(a3, svc);
    Halves(a2, ws2);
    Halves(a1, sev);
    Halves(ts, ws1);
    PrefixChain(s, a6, a5);
    PrefixChain(s, a5, a4);
    PrefixChain(s, a4, a3);
    PrefixChain(s, a3, a2);
    PrefixChain(s, a2, a1);
    PrefixChain(s, a1, ts);
    Between(s, a6, a5);
    Between(s, a5, a4);
    Between(s, a4, a3);
    Between(s, a3, a2);
    Between(s, a2, a1);
    Between(s, a1, ts);
  }

  lemma Halves(a: string, b: string)
    ensures (a + b)[..|a|] == a && (a + b)[|a|..] == b
  {
  }

  /** A prefix of a prefix of the text is a prefix of the text. */
  lemma PrefixChain(s: string, p: string, q: string)
    requires |q| <= |p| <= |s| && p == s[..|p|] && q == p[..|q|]
    ensures q == s[..|q|]
  {
  }

  /** What lies in the text between two of its prefixes is what lies in the longer one past the shorter. */
  lemma Between(s: string, p: string, q: string)
    requires |q| <= |p| <= |s| && p == s[..|p|]
    ensures s[|q|..|p|] == p[|q|..]
  {
  }

  /**
   * Whenever the text decomposes in the pattern's shape, the scanner matches and
   * returns the same timestamp, severity and service; the message group is the rest
   * with its leading whitespace taken by the greedy `\s+`.
   */
  lemma MatchComplete(s: string, ts: string, ws1: string, sev: string, ws2: string,
                      svc: string, colon: string, ws3: string, msg: string)
    requires Decomposes(s, ts, ws1, sev, ws2, svc, colon, ws3, msg)
    ensures MatchPattern(s) == Some(PatternMatch(ts, sev, svc, msg[LeadingSpaces(msg)..]))
  {
    var p2 := 19 + |ws1|;
    var p3 := p2 + |sev|;
    var p4 := p3 + |ws2|;
    var p5 := p4 + |svc|;
    var p6 := p5 + |colon|;
    var p7 := p6 + |ws3|;
    Pieces(s, ts, ws1, sev, ws2, svc, colon, ws3, msg);
    if colon == ":" {
      assert s[p5] == s[p5..p6][0];
    }
    MatchPieces(s, p2, p3, p4, p5, p6, p7, ts, sev, svc, msg);
  }

  lemma MatchPieces(s: string, p2: nat, p3: nat, p4: nat, p5: nat, p6: nat, p7: nat,
                    ts: string, sev: string, svc: string, msg: string)
    requires 19 < p2 < p3 < p4 < p5 <= p6 < p7 <= |s| && p6 <= p5 + 1 && IsStrictTimestamp(s[..19])
    requires AllIn(s[19..p2], Space) && AllIn(s[p2..p3], Word) && AllIn(s[p3..p4], Space)
    requires AllIn(s[p4..p5], WordOrDash) && AllIn(s[p6..p7], Space)
    requires p6 == p5 + 1 ==> s[p5] == ':'
    requires s[..19] == ts && s[p2..p3] == sev && s[p4..p5] == svc && s[p7..] == msg
    ensures MatchPattern(s) == Some(PatternMatch(ts, sev, svc, msg[LeadingSpaces(msg)..]))
  {
    MatchAt(s, p2, p3, p4, p5, p6, p7);
  }

  /** The match on text whose runs are placed at the given offsets. */
  lemma MatchAt(s: string, p2: nat, p3: nat, p4: nat, p5: nat, p6: nat, p7: nat)
    requires 19 < p2 < p3 < p4 < p5 <= p6 < p7 <= |s| && p6 <= p5 + 1 && IsStrictTimestamp(s[..19])
    requires AllIn(s[19..p2], Space) && AllIn(s[p2..p3], Word) && AllIn(s[p3..p4], Space)
    requires AllIn(s[p4..p5], WordOrDash) && AllIn(s[p6..p7], Space)
    requires p6 == p5 + 1 ==> s[p5] == ':'
    ensures MatchPattern(s) == Some(PatternMatch(s[..19], s[p2..p3], s[p4..p5], s[p7..][LeadingSpaces(s[p7..])..]))
  {
    CutsAt(s, p2, p3, p4, p5, p6, p7);
    SpaceRun(s, p7);
    var lead := LeadingSpaces(s[p7..]);
    assert s[p7 + lead..] == s[p7..][lead..];
    MatchFrom(s, Cuts(p2, p3, p4, p5, p6, p7 + lead), s[p7..][lead..]);
  }

  /** The scanner's cut points on text whose runs are placed at the given offsets. */
  lemma CutsAt(s: string, p2: nat, p3: nat, p4: nat, p5: nat, p6: nat, p7: nat)
    requires 19 < p2 < p3 < p4 < p5 <= p6 < p7 <= |s| && p6 <= p5 + 1
    requires AllIn(s[19..p2], Space) && AllIn(s[p2..p3], Word) && AllIn(s[p3..p4], Space)
    requires AllIn(s[p4..p5], WordOrDash) && AllIn(s[p6..p7], Space)
    requires p6 == p5 + 1 ==> s[p5] == ':'
    ensures ScanCuts(s) == Cuts(p2, p3, p4, p5, p6, RunEnd(s, p7, Space))
  {
    SliceAt(s, p2, p3, Word, p2);
    SliceRun(s, 19, p2, Space);
    SliceAt(s, p3, p4, Space, p3);
    SliceRun(s, p2, p3, Word);
    SliceAt(s, p4, p5, WordOrDash, p4);
    SliceRun(s, p3, p4, Space);
    if p6 == p5 {
      SliceAt(s, p6, p7, Space, p6);
    }
    SliceRun(s, p4, p5, WordOrDash);
    RunSkip(s, p6, p7, Space);
  }

  lemma SliceAt(s: string, i: nat, e: nat, k: CharClass, j: nat)
    requires i <= j < e <= |s| && AllIn(s[i..e], k)
    ensures InClass(s[j], k)
  {
    assert s[i..e][j - i] == s[j];
  }

  /** A class-`k` slice followed by a character outside the class is a maximal run. */
  lemma SliceRun(s: string, i: nat, e: nat, k: CharClass)
    requires i <= e <= |s| && AllIn(s[i..e], k)
    requires e == |s| || !InClass(s[e], k)
    ensures RunEnd(s, i, k) == e
  {
    forall j | i <= j < e ensures InClass(s[j], k) {
      SliceAt(s, i, e, k, j);
    }
    RunEndAt(s, i, e, k);
  }

  /** A run scanned from `i` passes over a class-`k` slice starting there. */
  lemma {:induction false} RunSkip(s: string, i: nat, e: nat, k: CharClass)
    requires i <= e <= |s| && AllIn(s[i..e], k)
    ensures RunEnd(s, i, k) == RunEnd(s, e, k)
    decreases e - i
  {
    if i < e {
      SliceAt(s, i, e, k, i);
      var rest := s[i + 1..e];
      assert AllIn(rest, k) by {
        forall j | 0 <= j < |rest| ensures InClass(rest[j], k) {
          assert rest[j] == s[i..e][j + 1];
        }
      }
      RunSkip(s, i + 1, e, k);
    }
  }

  /** The whitespace run from `i` is what `LeadingSpaces` counts on the rest of the text. */
  lemma SpaceRun(s: string, i: nat)
    requires i <= |s|
    ensures RunEnd(s, i, Space) == i + LeadingSpaces(s[i..])
  {
    var n := LeadingSpaces(s[i..]);
    forall j | i <= j < i + n ensures InClass(s[j], Space) {
      assert s[i..][j - i] == s[j];
    }
    if i + n < |s| {
      assert s[i..][n] == s[i + n];
    }
    RunEndAt(s, i, i + n, Space);
  }

  /** `parse` fails with "Log format not recognized" exactly when the stripped record is not in the pattern's shape. */
  lemma ParseFormatError(raw: string)
    ensures Parse(raw) == Err(FormatNotRecognized) <==>
      !exists ts, ws1, sev, ws2, svc, colon, ws3, msg :: Decomposes(Strip(raw), ts, ws1, sev, ws2, svc, colon, ws3, msg)
  {
    var s := Strip(raw);
    if MatchPattern(s).Some? {
      MatchSound(s);
    } else {
      forall ts, ws1, sev, ws2, svc, colon, ws3, msg | Decomposes(s, ts, ws1, sev, ws2, svc, colon, ws3, msg)
        ensures false
      {
        MatchComplete(s, ts, ws1, sev, ws2, svc, colon, ws3, msg);
      }
    }
  }

  /**
   * A record in the pattern's shape parses exactly when its timestamp is a valid
   * calendar date and time; the result then carries the written wall-clock fields
   * unchanged, tagged UTC, and the groups of the match.
   */
  lemma ParseTimestamp(raw: string)
    requires MatchPattern(Strip(raw)).Some?
    ensures var m := MatchPattern(Strip(raw)).value;
      IsStrictTimestamp(m.timestamp) &&
      var f := StrictFields(m.timestamp);
      Parse(raw) == if ValidCalendar(f[0], f[1], f[2], f[3], f[4], f[5])
                    then Ok(ParsedLog(DateTime(f[0], f[1], f[2], f[3], f[4], f[5], true), m.severity, m.service, m.message))
                    else Err(TimestampInvalid)
  {
    var m := MatchPattern(Strip(raw)).value;
    StrictTimestamp(m.timestamp);
  }

  /** A fractional-seconds suffix breaks the match: whitespace must follow the seconds. */
  lemma FractionalSecondsRejected(raw: string)
    requires |Strip(raw)| > 19 && Strip(raw)[19] == '.'
    ensures Parse(raw) == Err(FormatNotRecognized)
  {
  }

  /** The example record of the class comment. */
  lemma ExampleRecord()
    ensures Parse("2025-11-20 10:00:01" + " INFO payment-service: " + "Payment processed...")
         == Ok(ParsedLog(DateTime(2025, 11, 20, 10, 0, 1, true), "INFO", "payment-service", "Payment processed..."))
  {
    ExampleStripped();
    ExampleMatch();
    ExampleTimestamp();
  }

  lemma ExampleStripped()
    ensures var raw := "2025-11-20 10:00:01" + " INFO payment-service: " + "Payment processed...";
      Strip(raw) == raw
  {
    var raw := "2025-11-20 10:00:01" + " INFO payment-service: " + "Payment processed...";
    assert raw[0] == '2' && raw[|raw| - 1] == '.';
    StripTrimmed(raw);
  }

  lemma ExampleMatch()
    ensures MatchPattern("2025-11-20 10:00:01" + " INFO payment-service: " + "Payment processed...")
         == Some(PatternMatch("2025-11-20 10:00:01", "INFO", "payment-service", "Payment processed..."))
  {
    var msg := "Payment processed...";
    ExampleDecomposes();
    MatchComplete("2025-11-20 10:00:01" + " INFO payment-service: " + msg,
                  "2025-11-20 10:00:01", " ", "INFO", " ", "payment-service", ":", " ", msg);
    ExampleMessage();
  }

  lemma ExampleMessage()
    ensures LeadingSpaces("Payment processed...") == 0
  {
    var msg := "Payment processed...";
    assert msg[0] == 'P';
  }

  lemma ExampleDecomposes()
    ensures Decomposes("2025-11-20 10:00:01" + " INFO payment-service: " + "Payment processed...",
                       "2025-11-20 10:00:01", " ", "INFO", " ", "payment-service", ":", " ", "Payment processed...")
  {
    ExampleShape();
    ExampleService();
    assert " INFO payment-service: " == " " + "INFO" + " " + "payment-service" + ":" + " ";
  }

  lemma ExampleService()
    ensures AllIn("payment-service", WordOrDash)
  {
    var svc := "payment-service";
    forall i | 0 <= i < |svc| ensures InClass(svc[i], WordOrDash) {
      assert svc[i] in "payment-service";
    }
  }
}
