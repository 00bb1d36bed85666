/** Days since 1970 as dates of the proleptic Gregorian calendar (section 3.2.1 of
    ISO 8601:2004). */
module Civil {
  import opened Basics

  datatype Date = Date(year: int, month: int, day: int)

  // The calendar's own rules

  predicate IsLeap(year: int) {
    year % 4 == 0 && (year % 100 != 0 || year % 400 == 0)
  }

  function YearLength(year: int): int {
    if IsLeap(year) then 366 else 365
  }

  function MonthLength(year: int, month: int): int {
    if month == 2 then (if IsLeap(year) then 29 else 28)
    else if month == 4 || month == 6 || month == 9 || month == 11 then 30
    else 31
  }

  predicate IsDate(d: Date) {
    1 <= d.month <= 12 && 1 <= d.day <= MonthLength(d.year, d.month)
  }

  /** Days from the start of 1970 to the start of a year, counted year by year. */
  function DaysToYear(year: int): int
    decreases if year >= 1970 then year - 1970 else 1970 - year
  {
    if year == 1970 then 0
    else if year > 1970 then DaysToYear(year - 1) + YearLength(year - 1)
    else DaysToYear(year + 1) - YearLength(year)
  }

  /** Days of a year before a month, counted month by month. */
  function DaysToMonth(year: int, month: int): int
    requires 1 <= month <= 13
    decreases month
  {
    if month == 1 then 0 else DaysToMonth(year, month - 1) + MonthLength(year, month - 1)
  }

  /** The number of a date's day, counted by the rules. */
  function DayNumber(d: Date): int
    requires 1 <= d.month <= 12
  {
    DaysToYear(d.year) + DaysToMonth(d.year, d.month) + d.day - 1
  }

  /** The day after, by the rules. */
  function DayAfter(d: Date): Date {
    if d.day < MonthLength(d.year, d.month) then Date(d.year, d.month, d.day + 1)
    else if d.month < 12 then Date(d.year, d.month + 1, 1)
    else Date(d.year + 1, 1, 1)
  }

  // The fast form

  /** The year of its 400, counted from March, that day `doe` of them is in. */
  function YearOfEra(doe: int): int {
    (doe - doe / 1460 + doe / 36_524 - doe / 146_096) / 365
  }

  /** Days of the 400 years before one of them. */
  function YearStart(yoe: int): int {
    365 * yoe + yoe / 4 - yoe / 100
  }

  function CivilOf(days: int): Date {
    var z := days + 719_468;
    var era, doe := z / 146_097, z % 146_097;
    var yoe := YearOfEra(doe);
    var doy := doe - YearStart(yoe);
    var mp := (5 * doy + 2) / 153;
    var day := doy - (153 * mp + 2) / 5 + 1;
    var month := if mp < 10 then mp + 3 else mp - 9;
    Date(yoe + era * 400 + if month <= 2 then 1 else 0, month, day)
  }

  // The years of an era

  /** A day of an era: the century, the four years of it, the year of those, and the day. */
  predicate Placed(doe: int, c: int, q: int, r: int, doy: int) {
    && 0 <= c <= 3 && 0 <= q <= 24 && 0 <= r <= 3 && 0 <= doy <= 365
    && (doy == 365 ==> r == 3 && (q == 24 ==> c == 3))
    && doe == 36_524 * c + 1461 * q + 365 * r + doy
  }

  lemma Place(doe: int) returns (c: int, q: int, r: int, doy: int)
    requires 0 <= doe < 146_097
    ensures Placed(doe, c, q, r, doy)
  {
    c := Min(doe / 36_524, 3);
    var a := doe - 36_524 * c;
    assert 0 <= a <= 36_524 && (a == 36_524 ==> c == 3);
    q := Min(a / 1461, 24);
    var b := a - 1461 * q;
    assert 0 <= b <= 1460 && (q == 24 ==> b <= 1459 || c == 3);
    r := Min(b / 365, 3);
    doy := b - 365 * r;
  }

  /** The fast form finds the year. */
  lemma YearFound(doe: int, c: int, q: int, r: int, doy: int)
    requires Placed(doe, c, q, r, doy)
    ensures YearOfEra(doe) == 100 * c + 4 * q + r
    ensures YearStart(100 * c + 4 * q + r) == 36_524 * c + 1461 * q + 365 * r
  {
    var rest := 24 * c + q + 365 * r + doy;
    var more := if rest >= 1460 then 1 else 0;
    assert doe == 1460 * (25 * c + q) + rest;
    assert doe / 1460 == 25 * c + q + more;
    var last := if doe == 146_096 then 1 else 0;
    assert doe / 146_096 == last;
    assert doe / 36_524 == c + last;
    var yoe := 100 * c + 4 * q + r;
    assert doe - doe / 1460 + doe / 36_524 - doe / 146_096 == 365 * yoe + (doy - more);
    assert 0 <= doy - more <= 364;
    assert yoe / 4 == 25 * c + q && yoe / 100 == c;
  }

  /** The last day of such a year is February's, and there only in a leap year. */
  lemma LeapEnds(era: int, c: int, q: int, r: int)
    requires 0 <= c <= 3 && 0 <= q <= 24 && 0 <= r <= 3
    ensures IsLeap(100 * c + 4 * q + r + 400 * era + 1) <==> r == 3 && (q == 24 ==> c == 3)
  {
    var y := 100 * c + 4 * q + r + 1;
    EraRepeats(y, era);
    assert y % 4 == (r + 1) % 4;
    assert y % 100 == (4 * q + r + 1) % 100;
    assert y % 400 == y - if y == 400 then 400 else 0;
  }

  lemma EraRepeats(y: int, era: int)
    ensures IsLeap(y + 400 * era) == IsLeap(y)
  {
    Repeats4(y, 100 * era);
    Repeats100(y, 4 * era);
    Repeats400(y, era);
  }

  lemma Repeats4(y: int, k: int)
    ensures (y + 4 * k) % 4 == y % 4
  {
  }

  lemma Repeats100(y: int, k: int)
    ensures (y + 100 * k) % 100 == y % 100
  {
  }

  lemma Repeats400(y: int, k: int)
    ensures (y + 400 * k) % 400 == y % 400
  {
  }

  // The months of a year from March

  /** Days before a month, of a year that starts with March. */
  function MarchTo(mp: int): int {
    (153 * mp + 2) / 5
  }

  /** The fast form finds the month. */
  lemma MonthFound(doy: int)
    requires 0 <= doy <= 365
    ensures var mp := (5 * doy + 2) / 153;
      0 <= mp <= 11 && MarchTo(mp) <= doy && (mp < 11 ==> doy < MarchTo(mp + 1))
  {
  }

  /** Counted by the rules, with the year before's March the start. */
  lemma FromMarch(year: int, mp: int, day: int)
    requires 0 <= mp <= 11
    ensures var month := if mp < 10 then mp + 3 else mp - 9;
      var civil := if month <= 2 then year + 1 else year;
      DayNumber(Date(civil, month, day)) == DaysToYear(year) + DaysToMonth(year, 3) + MarchTo(mp) + day - 1
  {
    var month := if mp < 10 then mp + 3 else mp - 9;
    if month <= 2 {
      AllMonths(year);
      AllMonths(year + 1);
      NextYear(year);
    } else {
      AllMonths(year);
    }
  }

  lemma AllMonths(year: int)
    ensures var f := DaysToMonth(year, 3);
      DaysToMonth(year, 1) == 0 && DaysToMonth(year, 2) == 31 && f == 59 + (if IsLeap(year) then 1 else 0)
      && DaysToMonth(year, 4) == f + 31 && DaysToMonth(year, 5) == f + 61 && DaysToMonth(year, 6) == f + 92
      && DaysToMonth(year, 7) == f + 122 && DaysToMonth(year, 8) == f + 153 && DaysToMonth(year, 9) == f + 184
      && DaysToMonth(year, 10) == f + 214 && DaysToMonth(year, 11) == f + 245 && DaysToMonth(year, 12) == f + 275
      && DaysToMonth(year, 13) == f + 306 == YearLength(year)
  {
  }

  lemma NextYear(year: int)
    ensures DaysToYear(year + 1) == DaysToYear(year) + YearLength(year)
  {
  }

  /** Leap years up to a year. */
  function Leaps(year: int): int {
    year / 4 - year / 100 + year / 400
  }

  lemma LeapCounted(year: int)
    ensures Leaps(year) - Leaps(year - 1) == if IsLeap(year) then 1 else 0
  {
    Fours(year);
    Hundreds(year);
    FourHundreds(year);
  }

  lemma Fours(year: int)
    ensures year / 4 - (year - 1) / 4 == if year % 4 == 0 then 1 else 0
  {
  }

  lemma Hundreds(year: int)
    ensures year / 100 - (year - 1) / 100 == if year % 100 == 0 then 1 else 0
  {
  }

  lemma FourHundreds(year: int)
    ensures year / 400 - (year - 1) / 400 == if year % 400 == 0 then 1 else 0
  {
  }

  /** Year by year comes to this. */
  lemma {:induction false} DaysToYearIs(year: int)
    ensures DaysToYear(year) == 365 * (year - 1970) + Leaps(year - 1) - 477
    decreases if year >= 1970 then year - 1970 else 1970 - year
  {
    if year > 1970 {
      DaysToYearIs(year - 1);
      LeapCounted(year - 1);
    } else if year < 1970 {
      DaysToYearIs(year + 1);
      LeapCounted(year);
    }
  }

  /** To the first of March, by the same count: the 400 years of an era repeat. */
  lemma ToMarch(era: int, yoe: int)
    requires 0 <= yoe < 400
    ensures DaysToYear(yoe + era * 400) + DaysToMonth(yoe + era * 400, 3) == era * 146_097 + YearStart(yoe) - 719_468
  {
    var year := yoe + era * 400;
    DaysToYearIs(year);
    AllMonths(year);
    LeapCounted(year);
    assert year / 4 == yoe / 4 + 100 * era;
    assert year / 100 == yoe / 100 + 4 * era;
    assert year / 400 == era;
  }

  // What it is for

  /** For every day, the date is one of the calendar's, and its day counted by the rules is
      that day. */
  lemma CivilIsRight(days: int)
    ensures IsDate(CivilOf(days)) && DayNumber(CivilOf(days)) == days
  {
    hide DaysToYear, DaysToMonth, YearOfEra, YearStart, MarchTo, IsLeap;
    var z := days + 719_468;
    var era, doe := z / 146_097, z % 146_097;
    var c, q, r, doy := Place(doe);
    YearFound(doe, c, q, r, doy);
    var yoe := 100 * c + 4 * q + r;
    LeapEnds(era, c, q, r);
    DateFound(yoe + era * 400, doy);
    CivilParts(days, era, doe, yoe, doy);
    ToMarch(era, yoe);
    FromMarch(yoe + era * 400, (5 * doy + 2) / 153, doy - MarchTo((5 * doy + 2) / 153) + 1);
  }

  /** The date of a day of a year that starts with March. */
  function DateOf(year: int, doy: int): Date {
    var mp := (5 * doy + 2) / 153;
    var month := if mp < 10 then mp + 3 else mp - 9;
    Date(if month <= 2 then year + 1 else year, month, doy - MarchTo(mp) + 1)
  }

  lemma DateFound(year: int, doy: int)
    requires 0 <= doy <= 365 && (doy == 365 ==> IsLeap(year + 1))
    ensures IsDate(DateOf(year, doy)) && 0 <= (5 * doy + 2) / 153 <= 11
  {
    hide IsLeap;
    MonthFound(doy);
  }

  lemma CivilParts(days: int, era: int, doe: int, yoe: int, doy: int)
    requires era == (days + 719_468) / 146_097 && doe == (days + 719_468) % 146_097
    requires YearOfEra(doe) == yoe && doy == doe - YearStart(yoe)
    ensures CivilOf(days) == DateOf(yoe + era * 400, doy)
  {
    hide YearOfEra, YearStart;
  }

  // And the other way

  predicate Earlier(a: Date, b: Date) {
    a.year < b.year || (a.year == b.year && (a.month < b.month || (a.month == b.month && a.day < b.day)))
  }

  lemma {:induction false} YearsPass(a: int, b: int)
    requires a < b
    ensures DaysToYear(a) + YearLength(a) <= DaysToYear(b)
    decreases b - a
  {
    NextYear(b - 1);
    if a < b - 1 {
      YearsPass(a, b - 1);
    }
  }

  lemma {:induction false} MonthsPass(year: int, a: int, b: int)
    requires 1 <= a < b <= 13
    ensures DaysToMonth(year, a) + MonthLength(year, a) <= DaysToMonth(year, b)
    decreases b
  {
    if a < b - 1 {
      MonthsPass(year, a, b - 1);
    }
  }

  /** An earlier date has a lower number: no two dates are the same day. */
  lemma EarlierIsLower(a: Date, b: Date)
    requires IsDate(a) && IsDate(b) && Earlier(a, b)
    ensures DayNumber(a) < DayNumber(b)
  {
    hide DaysToYear, DaysToMonth, IsLeap;
    if a.year < b.year {
      YearsPass(a.year, b.year);
      YearHolds(a);
      YearHolds(b);
    } else if a.month < b.month {
      MonthsPass(a.year, a.month, b.month);
    }
  }

  /** A date's day is one of its year's. */
  lemma YearHolds(d: Date)
    requires IsDate(d)
    ensures 0 <= DaysToMonth(d.year, d.month) + d.day - 1 < YearLength(d.year)
  {
    AllMonths(d.year);
    MonthsPass(d.year, d.month, 13);
    hide DaysToMonth, IsLeap;
  }

  /** Every date comes back from its day. */
  lemma DateComesBack(d: Date)
    requires IsDate(d)
    ensures CivilOf(DayNumber(d)) == d
  {
    hide DayNumber, CivilOf, IsDate;
    MonthsIn(d);
    var e := CivilOf(DayNumber(d));
    CivilIsRight(DayNumber(d));
    if e != d {
      MonthsIn(e);
      if Earlier(d, e) {
        EarlierIsLower(d, e);
      } else {
        EarlierIsLower(e, d);
      }
    }
  }

  lemma MonthsIn(d: Date)
    requires IsDate(d)
    ensures 1 <= d.month <= 12
  {
  }

  /** So the next day's date is the one after, by the rules. */
  lemma DaysFollow(days: int)
    ensures CivilOf(days + 1) == DayAfter(CivilOf(days))
  {
    hide CivilOf;
    var d := CivilOf(days);
    CivilIsRight(days);
    DayAfterIs(d);
    DateComesBack(DayAfter(d));
  }

  lemma DayAfterIs(d: Date)
    requires IsDate(d)
    ensures IsDate(DayAfter(d)) && DayNumber(DayAfter(d)) == DayNumber(d) + 1
  {
    AllMonths(d.year);
    AllMonths(d.year + 1);
    NextYear(d.year);
  }

  // The time of day

  datatype Time = Time(date: Date, hour: int, minute: int, second: int)

  /** What is printed of a time, in seconds since the epoch. */
  function Utc(secs: int): Time {
    var rem := secs % 86_400;
    Time(CivilOf(secs / 86_400), rem / 3600, rem % 3600 / 60, rem % 60)
  }

  /** Every second has a date and a time of day, and comes back from them. */
  lemma UtcIsRight(secs: int)
    ensures var t := Utc(secs);
      IsDate(t.date) && 0 <= t.hour < 24 && 0 <= t.minute < 60 && 0 <= t.second < 60
      && DayNumber(t.date) * 86_400 + t.hour * 3600 + t.minute * 60 + t.second == secs
  {
    hide CivilOf, DayNumber;
    CivilIsRight(secs / 86_400);
  }
}
