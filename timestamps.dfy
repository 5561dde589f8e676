/**
 * `datetime.strptime(text, "%Y-%m-%d %H:%M:%S")` on ASCII text.
 *
 * CPython compiles the format into one regular expression: `%Y` is exactly four
 * digits; `%m`, `%d`, `%H`, `%M`, `%S` accept one or two digits with values up to
 * 12, 31, 23, 59 and 61 (`%d` also accepts a space followed by one digit); the
 * space of the format matches one or more whitespace characters; the whole text
 * must be consumed. The date is then checked against the calendar (year 1..9999,
 * day within its month) and the `datetime` constructor rejects seconds 60 and 61.
 * Every failure is a `ValueError`, here `None`.
 */
module Timestamps {
  import opened Wrappers
  import opened Strings

  /** A `datetime`; `utc` says whether its `tzinfo` is `timezone.utc` (false: naive). */
  datatype DateTime = DateTime(year: int, month: int, day: int, hour: int, minute: int, second: int, utc: bool)

  predicate IsLeapYear(y: int) {
    y % 4 == 0 && (y % 100 != 0 || y % 400 == 0)
  }

  function DaysInMonth(y: int, m: int): int
    requires 1 <= m <= 12
  {
    if m == 2 then (if IsLeapYear(y) then 29 else 28)
    else if m == 4 || m == 6 || m == 9 || m == 11 then 30
    else 31
  }

  /** The wall-clock fields form a date and time a `datetime` can hold. */
  predicate ValidCalendar(y: int, m: int, d: int, hh: int, mm: int, ss: int) {
    1 <= y <= 9999 && 1 <= m <= 12 && 1 <= d <= DaysInMonth(y, m)
    && 0 <= hh <= 23 && 0 <= mm <= 59 && 0 <= ss <= 59
  }

  /** A numeric directive's value and the index just after it. */
  datatype Field = Field(value: nat, end: nat)

  /**
   * A one- or two-digit directive with value in lo..hi starting at `i`. The
   * directive is always followed by a non-digit (a separator or the end), so the
   * regex alternative that succeeds is the one covering the whole digit run.
   */
  function NumberField(s: string, i: nat, lo: nat, hi: nat): Option<Field>
    requires i <= |s|
  {
    var e := RunEnd(s, i, Digit);
    if 1 <= e - i <= 2 && lo <= DigitsValue(s[i..e]) <= hi then Some(Field(DigitsValue(s[i..e]), e)) else None
  }

  /** `%d`: a number 1..31, or a space followed by one digit 1..9. */
  function DayField(s: string, i: nat): Option<Field>
    requires i <= |s|
  {
    if i + 1 < |s| && s[i] == ' ' && '1' <= s[i + 1] <= '9' then Some(Field(DigitValue(s[i + 1]), i + 2))
    else NumberField(s, i, 1, 31)
  }

  predicate YearDigits(s: string) {
    |s| >= 4 && IsDigit(s[0]) && IsDigit(s[1]) && IsDigit(s[2]) && IsDigit(s[3])
  }

  /** `datetime.strptime(s, "%Y-%m-%d %H:%M:%S")`; `None` is the `ValueError`. */
  function Strptime(s: string): (r: Option<DateTime>)
    ensures r.Some? ==> !r.value.utc
    ensures r.Some? ==> ValidCalendar(r.value.year, r.value.month, r.value.day, r.value.hour, r.value.minute, r.value.second)
  {
    if !(YearDigits(s) && |s| > 4 && s[4] == '-') then None
    else
      var year := DigitsValue(s[..4]);
      match NumberField(s, 5, 1, 12)
      case None => None
      case Some(mo) =>
        if !(mo.end < |s| && s[mo.end] == '-') then None
        else match DayField(s, mo.end + 1)
        case None => None
        case Some(d) =>
          var hourAt := RunEnd(s, d.end, Space);
          if hourAt == d.end then None
          else match NumberField(s, hourAt, 0, 23)
          case None => None
          case Some(hh) =>
            if !(hh.end < |s| && s[hh.end] == ':') then None
            else match NumberField(s, hh.end + 1, 0, 59)
            case None => None
            case Some(mm) =>
              if !(mm.end < |s| && s[mm.end] == ':') then None
              else match NumberField(s, mm.end + 1, 0, 61)
              case None => None
              case Some(ss) =>
                if ss.end != |s| then None
                else if ValidCalendar(year, mo.value, d.value, hh.value, mm.value, ss.value)
                then Some(DateTime(year, mo.value, d.value, hh.value, mm.value, ss.value, false))
                else None
  }

  /** The text has the fixed shape `DDDD-DD-DD DD:DD:DD`. */
  predicate IsStrictTimestamp(t: string) {
    |t| == 19
    && (forall k :: k in {0, 1, 2, 3, 5, 6, 8, 9, 11, 12, 14, 15, 17, 18} ==> IsDigit(t[k]))
    && t[4] == '-' && t[7] == '-' && t[10] == ' ' && t[13] == ':' && t[16] == ':'
  }

  /** The value of the two digits at `i` and `i + 1`. */
  function Pair(t: string, i: nat): nat
    requires i + 2 <= |t| && IsDigit(t[i]) && IsDigit(t[i + 1])
  {
    DigitValue(t[i]) * 10 + DigitValue(t[i + 1])
  }

  /** The wall-clock fields written in a strict timestamp text. */
  function StrictFields(t: string): (f: seq<int>)
    requires IsStrictTimestamp(t)
  {
    [DigitsValue(t[..4]), Pair(t, 5), Pair(t, 8), Pair(t, 11), Pair(t, 14), Pair(t, 17)]
  }

  /**
   * On text of the strict shape, `strptime` succeeds exactly when the written
   * fields form a valid date and time, and then returns those very fields, naive.
   */
  lemma StrictTimestamp(t: string)
    requires IsStrictTimestamp(t)
    ensures var f := StrictFields(t);
      Strptime(t) == if ValidCalendar(f[0], f[1], f[2], f[3], f[4], f[5])
                     then Some(DateTime(f[0], f[1], f[2], f[3], f[4], f[5], false))
                     else None
  {
    StrictDigits(t);
    StrictAt(t, DigitsValue(t[..4]), Pair(t, 5), Pair(t, 8), Pair(t, 11), Pair(t, 14), Pair(t, 17));
  }

  /** `StrictTimestamp` with the written fields named. */
  lemma StrictAt(t: string, y: nat, mo: nat, d: nat, hh: nat, mi: nat, ss: nat)
    requires IsStrictTimestamp(t) && YearDigits(t) && y == DigitsValue(t[..4])
    requires IsDigit(t[5]) && IsDigit(t[6]) && mo == Pair(t, 5)
    requires IsDigit(t[8]) && IsDigit(t[9]) && d == Pair(t, 8)
    requires IsDigit(t[11]) && IsDigit(t[12]) && hh == Pair(t, 11)
    requires IsDigit(t[14]) && IsDigit(t[15]) && mi == Pair(t, 14)
    requires IsDigit(t[17]) && IsDigit(t[18]) && ss == Pair(t, 17)
    ensures Strptime(t) == if ValidCalendar(y, mo, d, hh, mi, ss) then Some(DateTime(y, mo, d, hh, mi, ss, false)) else None
  {
    PairField(t, 5, 1, 12);
    PairField(t, 8, 1, 31);
    PairField(t, 11, 0, 23);
    PairField(t, 14, 0, 59);
    PairField(t, 17, 0, 61);
    RunEndAt(t, 10, 11, Space);
    assert DayField(t, 8) == NumberField(t, 8, 1, 31);
  }

  lemma StrictDigits(t: string)
    requires IsStrictTimestamp(t)
    ensures YearDigits(t) && IsDigit(t[5]) && IsDigit(t[6]) && IsDigit(t[8]) && IsDigit(t[9])
    ensures IsDigit(t[11]) && IsDigit(t[12]) && IsDigit(t[14]) && IsDigit(t[15]) && IsDigit(t[17]) && IsDigit(t[18])
  {
    assert IsDigit(t[5]) && IsDigit(t[6]) && IsDigit(t[8]) && IsDigit(t[9]);
    assert IsDigit(t[11]) && IsDigit(t[12]) && IsDigit(t[14]) && IsDigit(t[15]);
    assert IsDigit(t[17]) && IsDigit(t[18]);
    assert IsDigit(t[0]) && IsDigit(t[1]) && IsDigit(t[2]) && IsDigit(t[3]);
  }

  /** A two-digit run followed by a non-digit is read as one field. */
  lemma PairField(t: string, i: nat, lo: nat, hi: nat)
    requires i + 2 <= |t| && IsDigit(t[i]) && IsDigit(t[i + 1])
    requires i + 2 == |t| || !IsDigit(t[i + 2])
    ensures NumberField(t, i, lo, hi) == if lo <= Pair(t, i) <= hi then Some(Field(Pair(t, i), i + 2)) else None
  {
    RunEndAt(t, i, i + 2, Digit);
    var ds := t[i..i + 2];
    assert ds[..|ds| - 1] == [t[i]] && ds[|ds| - 1] == t[i + 1];
    assert [t[i]][..0] == [];
    assert DigitsValue([t[i]]) == DigitValue(t[i]);
  }

  /** `datetime.strptime("2025-11-20 10:00:01", ...)` is 20 November 2025, 10:00:01, naive. */
  lemma ExampleTimestamp()
    ensures Strptime("2025-11-20 10:00:01") == Some(DateTime(2025, 11, 20, 10, 0, 1, false))
  {
    var t := "2025-11-20 10:00:01";
    ExampleShape();
    ExampleFields();
    StrictTimestamp(t);
    assert ValidCalendar(2025, 11, 20, 10, 0, 1);
  }

  lemma ExampleFields()
    ensures IsStrictTimestamp("2025-11-20 10:00:01")
    ensures StrictFields("2025-11-20 10:00:01") == [2025, 11, 20, 10, 0, 1]
  {
    var t := "2025-11-20 10:00:01";
    ExampleShape();
    assert t[..4] == "2025";
    YearValue("2025");
    assert t[5] == '1' && t[6] == '1' && t[8] == '2' && t[9] == '0' && t[11] == '1' && t[12] == '0';
    assert t[14] == '0' && t[15] == '0' && t[17] == '0' && t[18] == '1';
  }

  lemma ExampleShape()
    ensures IsStrictTimestamp("2025-11-20 10:00:01")
  {
  }

  lemma YearValue(y: string)
    requires YearDigits(y) && |y| == 4
    ensures DigitsValue(y) == DigitValue(y[0]) * 1000 + DigitValue(y[1]) * 100 + DigitValue(y[2]) * 10 + DigitValue(y[3])
  {
    var a, b, c := y[..1], y[..2], y[..3];
    assert a[..0] == [] && b[..1] == a && c[..2] == b && y[..3] == c;
    assert DigitsValue(a) == DigitValue(y[0]);
    assert DigitsValue(b) == DigitsValue(a) * 10 + DigitValue(y[1]);
    assert DigitsValue(c) == DigitsValue(b) * 10 + DigitValue(y[2]);
  }

  /** Month 13 is refused even though the text has the strict shape. */
  lemma MonthThirteenRejected()
    ensures Strptime("2025-13-01 00:00:00") == None
  {
    var t := "2025-13-01 00:00:00";
    assert IsStrictTimestamp(t);
    StrictTimestamp(t);
  }
}
