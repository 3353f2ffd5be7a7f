/**
 * The time encoder of absolute_time.py. `abs_time` reads a visit instant and
 * a leave instant, each as an "H:MM AM|PM" time and an "M/D/YYYY" date, and
 * turns each into an approximate minute count
 *   minute + 60 * hour24 + 1440 * day + 44640 * month
 * (every month counted as 31 days, the year ignored). Malformed text raises
 * instead of guessing.
 */
module AbsoluteTime {
  import opened Wrappers
  import opened Text

  /** What `abs_time` raises: IndexError for a missing token, ValueError for a non-numeric one. */
  datatype ParseError = MissingField | NotANumber

  /** A 12-hour clock reading as parsed; neither number is range-checked. */
  datatype Clock = Clock(hour: nat, minute: nat, pm: bool)

  /** A date as parsed; the year is read but never used. */
  datatype Date = Date(month: nat, day: nat, year: nat)

  const MinutesPerHour: nat := 60
  const MinutesPerDay: nat := 1440
  const MinutesPerMonth: nat := 44640

  /**
   * Text the model reads exactly as Python does: printable ASCII or ASCII
   * whitespace, with no sign and no underscore (Python's `int()` would accept
   * "+5", "-5" and "1_0", which this model does not cover).
   */
  predicate PlainText(s: string) {
    forall i :: 0 <= i < |s| ==>
      (' ' <= s[i] <= '~' || IsSpace(s[i])) && s[i] != '+' && s[i] != '-' && s[i] != '_'
  }

  /** `int(s)`, raising ValueError on anything but digits. */
  function Number(s: string): Result<nat, ParseError>
  {
    match ParseNat(s)
    case Some(n) => Ok(n)
    case None => Err(NotANumber)
  }

  /** The AM/PM test: the token upper-cased must be "PM"; every other token counts as AM. */
  predicate IsPm(token: string) {
    Upper(token) == "PM"
  }

  /**
   * Parsing one "H:MM AM|PM" time, in Python's evaluation order: the hour is
   * converted before the minute is looked up, and the AM/PM token is looked
   * up last.
   */
  function ParseTime(t: string): Result<Clock, ParseError>
  {
    var tokens := Split(Strip(t), ' ');
    var hm := Split(tokens[0], ':');
    var hour :- Number(hm[0]);
    if |hm| < 2 then Err(MissingField) else
    var minute :- Number(hm[1]);
    if |tokens| < 2 then Err(MissingField) else
    Ok(Clock(hour, minute, IsPm(tokens[1])))
  }

  /** Parsing one "M/D/YYYY" date; parts after the third are ignored. */
  function ParseDate(d: string): Result<Date, ParseError>
  {
    var parts := Split(Strip(d), '/');
    var month :- Number(parts[0]);
    if |parts| < 2 then Err(MissingField) else
    var day :- Number(parts[1]);
    if |parts| < 3 then Err(MissingField) else
    var year :- Number(parts[2]);
    Ok(Date(month, day, year))
  }

  /** The 12-hour to 24-hour conversion. */
  function To24(hour: nat, pm: bool): nat
  {
    if pm && hour != 12 then hour + 12
    else if !pm && hour == 12 then 0
    else hour
  }

  /** The 12-hour reading of a 24-hour hour: the inverse of To24. */
  function To12(hour24: nat): (r: (nat, bool))
    requires hour24 < 24
  {
    if hour24 == 0 then (12, false)
    else if hour24 < 12 then (hour24, false)
    else if hour24 == 12 then (12, true)
    else (hour24 - 12, true)
  }

  /** The approximate minute count of one instant. */
  function Tick(c: Clock, d: Date): nat
  {
    c.minute + To24(c.hour, c.pm) * MinutesPerHour + d.day * MinutesPerDay + d.month * MinutesPerMonth
  }

  /** The first failure among the four parses in evaluation order, else the two minute counts. */
  function Encode(vc: Result<Clock, ParseError>, vd: Result<Date, ParseError>,
                  lc: Result<Clock, ParseError>, ld: Result<Date, ParseError>): Result<(nat, nat), ParseError>
  {
    var visitClock :- vc;
    var visitDay :- vd;
    var leaveClock :- lc;
    var leaveDay :- ld;
    Ok((Tick(visitClock, visitDay), Tick(leaveClock, leaveDay)))
  }

  /** `abs_time(visit_t, visit_d, leave_t, leave_d)`: the visit and leave minute counts. */
  function AbsTime(visitTime: string, visitDate: string, leaveTime: string, leaveDate: string)
    : Result<(nat, nat), ParseError>
    requires PlainText(visitTime) && PlainText(visitDate)
    requires PlainText(leaveTime) && PlainText(leaveDate)
  {
    Encode(ParseTime(visitTime), ParseDate(visitDate), ParseTime(leaveTime), ParseDate(leaveDate))
  }

  // ---------------------------------------------------------------------
  // The hour conversion

  /** 12 AM is hour 0, 12 PM stays 12, other PM hours gain 12, other AM hours are kept. */
  lemma To24Cases(hour: nat)
    ensures To24(12, false) == 0 && To24(12, true) == 12
    ensures hour != 12 ==> To24(hour, true) == hour + 12 && To24(hour, false) == hour
  {
  }

  /** On the hours 1..12 the conversion is a bijection onto 0..23. */
  lemma To24RoundTrip(hour: nat, pm: bool)
    requires 1 <= hour <= 12
    ensures To24(hour, pm) < 24 && To12(To24(hour, pm)) == (hour, pm)
  {
  }

  lemma To12RoundTrip(hour24: nat)
    requires hour24 < 24
    ensures 1 <= To12(hour24).0 <= 12 && To24(To12(hour24).0, To12(hour24).1) == hour24
  {
  }

  /** The PM test accepts exactly the four spellings of "pm"; every other token reads as AM. */
  lemma PmTokens(token: string)
    ensures IsPm(token) <==> token in {"PM", "Pm", "pM", "pm"}
  {
    if IsPm(token) {
      var u := Upper(token);
      assert |token| == 2;
      assert u[0] == UpperChar(token[0]) && u[0] == 'P';
      assert u[1] == UpperChar(token[1]) && u[1] == 'M';
      assert token == [token[0], token[1]];
    }
  }

  // ---------------------------------------------------------------------
  // The result of abs_time

  /** abs_time succeeds exactly when all four texts parse, and then each result is the minute formula. */
  lemma AbsTimeFormula(vt: string, vd: string, lt: string, ld: string)
    requires PlainText(vt) && PlainText(vd) && PlainText(lt) && PlainText(ld)
    ensures AbsTime(vt, vd, lt, ld).Ok? <==>
      ParseTime(vt).Ok? && ParseDate(vd).Ok? && ParseTime(lt).Ok? && ParseDate(ld).Ok?
    ensures AbsTime(vt, vd, lt, ld).Ok? ==>
      var (c1, d1, c2, d2) := (ParseTime(vt).value, ParseDate(vd).value, ParseTime(lt).value, ParseDate(ld).value);
      && AbsTime(vt, vd, lt, ld).value.0
         == c1.minute + To24(c1.hour, c1.pm) * 60 + d1.day * 1440 + d1.month * 44640
      && AbsTime(vt, vd, lt, ld).value.1
         == c2.minute + To24(c2.hour, c2.pm) * 60 + d2.day * 1440 + d2.month * 44640
  {
  }

  /** The year of the visit date plays no part in the encoding. */
  lemma EncodeIgnoresYear(vc: Result<Clock, ParseError>, d1: Date, d2: Date,
                          lc: Result<Clock, ParseError>, ld: Result<Date, ParseError>)
    requires d1.month == d2.month && d1.day == d2.day
    ensures Encode(vc, Ok(d1), lc, ld) == Encode(vc, Ok(d2), lc, ld)
  {
  }

  /** A successful encoding computes each count from its own pair alone. */
  lemma EncodePairs(vc: Result<Clock, ParseError>, vd: Result<Date, ParseError>,
                    lc: Result<Clock, ParseError>, ld: Result<Date, ParseError>)
    requires Encode(vc, vd, lc, ld).Ok?
    ensures Encode(lc, ld, lc, ld).Ok? && Encode(vc, vd, vc, vd).Ok?
    ensures Encode(vc, vd, lc, ld).value.1 == Encode(lc, ld, lc, ld).value.0
    ensures Encode(vc, vd, lc, ld).value.0 == Encode(vc, vd, vc, vd).value.0
  {
  }

  /** Two dates that differ only in the year give the same result. */
  lemma YearIgnored(vt: string, vd: string, vd': string, lt: string, ld: string)
    requires PlainText(vt) && PlainText(vd) && PlainText(vd') && PlainText(lt) && PlainText(ld)
    requires ParseDate(vd).Ok? && ParseDate(vd').Ok?
    requires ParseDate(vd).value.month == ParseDate(vd').value.month
    requires ParseDate(vd).value.day == ParseDate(vd').value.day
    ensures AbsTime(vt, vd, lt, ld) == AbsTime(vt, vd', lt, ld)
  {
    EncodeIgnoresYear(ParseTime(vt), ParseDate(vd).value, ParseDate(vd').value, ParseTime(lt), ParseDate(ld));
  }

  /** The leave count follows the same rule as the visit count and depends only on the leave texts. */
  lemma LeaveUsesVisitRule(vt: string, vd: string, lt: string, ld: string)
    requires PlainText(vt) && PlainText(vd) && PlainText(lt) && PlainText(ld)
    requires AbsTime(vt, vd, lt, ld).Ok?
    ensures AbsTime(lt, ld, lt, ld).Ok?
    ensures AbsTime(vt, vd, lt, ld).value.1 == AbsTime(lt, ld, lt, ld).value.0
    ensures AbsTime(vt, vd, vt, vd).Ok?
    ensures AbsTime(vt, vd, lt, ld).value.0 == AbsTime(vt, vd, vt, vd).value.0
  {
    EncodePairs(ParseTime(vt), ParseDate(vd), ParseTime(lt), ParseDate(ld));
  }

  // ---------------------------------------------------------------------
  // Order

  /** Readings within the ranges a well-formed time and date use. */
  predicate InRange(c: Clock, d: Date) {
    1 <= c.hour <= 12 && c.minute < 60 && 1 <= d.day <= 31
  }

  /** Lexicographic order on (month, day, 24-hour hour, minute). */
  predicate Before(c1: Clock, d1: Date, c2: Clock, d2: Date) {
    var h1, h2 := To24(c1.hour, c1.pm), To24(c2.hour, c2.pm);
    || d1.month < d2.month
    || (d1.month == d2.month && d1.day < d2.day)
    || (d1.month == d2.month && d1.day == d2.day && h1 < h2)
    || (d1.month == d2.month && d1.day == d2.day && h1 == h2 && c1.minute < c2.minute)
  }

  /** The minutes an in-range reading adds on top of its month: 1440 to 46079, less than one month's weight. */
  lemma WithinMonth(c: Clock, d: Date)
    requires InRange(c, d)
    ensures MinutesPerDay <= Tick(c, d) - d.month * MinutesPerMonth < MinutesPerDay + MinutesPerMonth
    ensures c.minute + To24(c.hour, c.pm) * MinutesPerHour < MinutesPerDay
  {
    To24RoundTrip(c.hour, c.pm);
  }

  /**
   * For in-range readings, tick order is exactly the lexicographic order of
   * (month, day, hour24, minute): 24 * 60 = 1440 and 31 * 1440 = 44640 keep
   * each unit's weight above everything below it.
   */
  lemma TickOrder(c1: Clock, d1: Date, c2: Clock, d2: Date)
    requires InRange(c1, d1) && InRange(c2, d2)
    ensures Tick(c1, d1) < Tick(c2, d2) <==> Before(c1, d1, c2, d2)
    ensures Tick(c1, d1) == Tick(c2, d2) <==>
      d1.month == d2.month && d1.day == d2.day &&
      To24(c1.hour, c1.pm) == To24(c2.hour, c2.pm) && c1.minute == c2.minute
  {
    WithinMonth(c1, d1);
    WithinMonth(c2, d2);
  }

  // ---------------------------------------------------------------------
  // Round trips through the text formats

  /** Two-digit minutes, as in "1:05 PM". */
  function TwoDigits(m: nat): string
  {
    if m < 10 then "0" + Decimal(m) else Decimal(m)
  }

  /** The "H:MM AM|PM" text of a reading. */
  function TimeText(c: Clock): string
  {
    Decimal(c.hour) + ":" + TwoDigits(c.minute) + " " + (if c.pm then "PM" else "AM")
  }

  /** The "M/D/YYYY" text of a date. */
  function DateText(d: Date): string
  {
    Decimal(d.month) + "/" + Decimal(d.day) + "/" + Decimal(d.year)
  }

  lemma DigitsArePlain(s: string)
    requires AllDigits(s)
    ensures PlainText(s)
    ensures ' ' !in s && ':' !in s && '/' !in s
  {
  }

  /** A non-empty run of digits parses to its value. */
  lemma ParseDigits(t: string)
    requires t != [] && AllDigits(t)
    ensures ParseNat(t) == Some(DigitsValue(t))
  {
    assert !IsSpace(t[0]) && !IsSpace(t[|t| - 1]);
  }

  lemma TwoDigitsValue(m: nat)
    ensures AllDigits(TwoDigits(m)) && |TwoDigits(m)| >= 1
    ensures DigitsValue(TwoDigits(m)) == m
  {
    DecimalValue(m);
    if m < 10 {
      LeadingZero(Decimal(m));
    }
  }

  /** Two separator-free texts around one separator split into exactly those two. */
  lemma SplitPair(a: string, b: string, sep: char)
    requires sep !in a && sep !in b
    ensures Split(a + [sep] + b, sep) == [a, b]
  {
    SplitAround(a, b, sep);
    SplitWhole(b, sep);
  }

  /** "H:MM X" with digit runs H and MM and a one-word X parses to those numbers and X's PM test. */
  lemma ParseTimeParts(h: string, mm: string, ap: string)
    requires h != [] && AllDigits(h) && mm != [] && AllDigits(mm)
    requires ap != [] && ' ' !in ap && !IsSpace(ap[|ap| - 1])
    ensures ParseTime(h + [':'] + mm + [' '] + ap) == Ok(Clock(DigitsValue(h), DigitsValue(mm), IsPm(ap)))
  {
    var hm := h + [':'] + mm;
    var t := hm + [' '] + ap;
    assert ' ' !in hm by {
      DigitsArePlain(h);
      DigitsArePlain(mm);
    }
    assert !IsSpace(t[0]) && !IsSpace(t[|t| - 1]);
    assert Strip(t) == t;
    SplitPair(hm, ap, ' ');
    DigitsArePlain(h);
    DigitsArePlain(mm);
    SplitPair(h, mm, ':');
    ParseDigits(h);
    ParseDigits(mm);
  }

  /** "M/D/Y" with digit runs M, D and Y parses to their values. */
  lemma ParseDateParts(m: string, dd: string, y: string)
    requires m != [] && AllDigits(m) && dd != [] && AllDigits(dd) && y != [] && AllDigits(y)
    ensures ParseDate(m + ['/'] + (dd + ['/'] + y)) == Ok(Date(DigitsValue(m), DigitsValue(dd), DigitsValue(y)))
  {
    var t := m + ['/'] + (dd + ['/'] + y);
    DigitsArePlain(m);
    DigitsArePlain(dd);
    DigitsArePlain(y);
    assert !IsSpace(t[0]) && !IsSpace(t[|t| - 1]);
    assert Strip(t) == t;
    SplitPair(dd, y, '/');
    SplitAround(m, dd + ['/'] + y, '/');
    assert Split(t, '/') == [m, dd, y];
    ParseDigits(m);
    ParseDigits(dd);
    ParseDigits(y);
  }

  /** The two tokens the time text is written with. */
  lemma AmPmTokens()
    ensures IsPm("PM") && !IsPm("AM")
  {
    var am := Upper("AM");
    assert am[0] == UpperChar('A') == 'A';
    var pm := Upper("PM");
    assert pm[0] == 'P' && pm[1] == 'M';
    assert pm == "PM";
  }

  lemma TimeTextPlain(c: Clock)
    ensures PlainText(TimeText(c))
  {
    DigitsArePlain(Decimal(c.hour));
    TwoDigitsValue(c.minute);
    DigitsArePlain(TwoDigits(c.minute));
  }

  lemma DateTextPlain(d: Date)
    ensures PlainText(DateText(d))
  {
    DigitsArePlain(Decimal(d.month));
    DigitsArePlain(Decimal(d.day));
    DigitsArePlain(Decimal(d.year));
  }

  /** Parsing the text of a reading gives back the reading. */
  lemma ParseTimeText(c: Clock)
    ensures PlainText(TimeText(c))
    ensures ParseTime(TimeText(c)) == Ok(c)
  {
    TimeTextPlain(c);
    var h, mm := Decimal(c.hour), TwoDigits(c.minute);
    var ap := if c.pm then "PM" else "AM";
    DecimalValue(c.hour);
    TwoDigitsValue(c.minute);
    assert TimeText(c) == h + [':'] + mm + [' '] + ap;
    ParseTimeParts(h, mm, ap);
    AmPmTokens();
  }

  /** Parsing the text of a date gives back the date. */
  lemma ParseDateText(d: Date)
    ensures PlainText(DateText(d))
    ensures ParseDate(DateText(d)) == Ok(d)
  {
    DateTextPlain(d);
    var m, dd, y := Decimal(d.month), Decimal(d.day), Decimal(d.year);
    DecimalValue(d.month);
    DecimalValue(d.day);
    DecimalValue(d.year);
    assert DateText(d) == m + ['/'] + (dd + ['/'] + y);
    ParseDateParts(m, dd, y);
  }

  /** abs_time on well-formed texts yields the ticks of the readings they spell. */
  lemma AbsTimeOfText(c1: Clock, d1: Date, c2: Clock, d2: Date)
    ensures PlainText(TimeText(c1)) && PlainText(DateText(d1))
    ensures PlainText(TimeText(c2)) && PlainText(DateText(d2))
    ensures AbsTime(TimeText(c1), DateText(d1), TimeText(c2), DateText(d2)) == Ok((Tick(c1, d1), Tick(c2, d2)))
  {
    ParseTimeText(c1);
    ParseDateText(d1);
    ParseTimeText(c2);
    ParseDateText(d2);
  }

  /** The text of hour 13, minute 75, PM, and of the first of January 2025. */
  lemma ExampleTexts()
    ensures TimeText(Clock(13, 75, true)) == "13:75 PM"
    ensures DateText(Date(1, 1, 2025)) == "1/1/2025"
  {
  }

  /**
   * No range check: the text "13:75 PM" (see ExampleTexts) is accepted as
   * hour 13, minute 75, and counted as hour 25 on any date.
   */
  lemma NoRangeCheck(d: Date)
    ensures ParseTime(TimeText(Clock(13, 75, true))) == Ok(Clock(13, 75, true))
    ensures Tick(Clock(13, 75, true), d) == 75 + 25 * 60 + d.day * 1440 + d.month * 44640
    ensures PlainText(TimeText(Clock(13, 75, true))) && PlainText(DateText(d))
    ensures AbsTime(TimeText(Clock(13, 75, true)), DateText(d), TimeText(Clock(13, 75, true)), DateText(d))
         == Ok((Tick(Clock(13, 75, true), d), Tick(Clock(13, 75, true), d)))
  {
    var c := Clock(13, 75, true);
    ParseTimeText(c);
    AbsTimeOfText(c, d, c, d);
  }

  // ---------------------------------------------------------------------
  // Malformed text

  /** A time without a space-separated AM/PM token, or without a ":" in its first token, fails. */
  lemma MalformedTimeFails(t: string)
    requires ' ' !in Strip(t) || ':' !in Split(Strip(t), ' ')[0]
    ensures ParseTime(t).Err?
  {
  }

  /** A date with fewer than two "/" fails. */
  lemma MalformedDateFails(d: string)
    requires |Split(Strip(d), '/')| < 3
    ensures ParseDate(d).Err?
  {
  }

  /** A non-numeric hour is a ValueError, whatever follows it. */
  lemma NonNumericHourFails(t: string)
    requires ParseNat(Split(Split(Strip(t), ' ')[0], ':')[0]).None?
    ensures ParseTime(t) == Err(NotANumber)
  {
  }

  /** A numeric hour followed by a non-numeric minute is a ValueError, whatever follows it. */
  lemma NonNumericMinuteFails(t: string)
    requires ParseNat(Split(Split(Strip(t), ' ')[0], ':')[0]).Some?
    requires |Split(Split(Strip(t), ' ')[0], ':')| >= 2
    requires ParseNat(Split(Split(Strip(t), ' ')[0], ':')[1]).None?
    ensures ParseTime(t) == Err(NotANumber)
  {
  }

  /** A non-numeric month is a ValueError, whatever follows it. */
  lemma NonNumericMonthFails(d: string)
    requires ParseNat(Split(Strip(d), '/')[0]).None?
    ensures ParseDate(d) == Err(NotANumber)
  {
  }

  /** A numeric month followed by a non-numeric day is a ValueError. */
  lemma NonNumericDayFails(d: string)
    requires ParseNat(Split(Strip(d), '/')[0]).Some?
    requires |Split(Strip(d), '/')| >= 2
    requires ParseNat(Split(Strip(d), '/')[1]).None?
    ensures ParseDate(d) == Err(NotANumber)
  {
  }

  /** A numeric month and day followed by a non-numeric year is a ValueError. */
  lemma NonNumericYearFails(d: string)
    requires ParseNat(Split(Strip(d), '/')[0]).Some?
    requires |Split(Strip(d), '/')| >= 3 && ParseNat(Split(Strip(d), '/')[1]).Some?
    requires ParseNat(Split(Strip(d), '/')[2]).None?
    ensures ParseDate(d) == Err(NotANumber)
  {
  }
}
