/** The expiry date the extractor reads out of a post.

    Dates are proleptic Gregorian, as in Python's `date`: years 1 to 9999, compared field by
    field, subtracted by day number. */
module Calendar {
  import opened Common

  datatype Date = Date(year: int, month: int, day: int)

  predicate IsLeap(year: int) {
    year % 4 == 0 && (year % 100 != 0 || year % 400 == 0)
  }

  function DaysInMonth(year: int, month: int): int {
    if month == 2 then (if IsLeap(year) then 29 else 28)
    else if month == 4 || month == 6 || month == 9 || month == 11 then 30
    else 31
  }

  predicate IsDate(d: Date) {
    1 <= d.year <= 9999 && 1 <= d.month <= 12 && 1 <= d.day <= DaysInMonth(d.year, d.month)
  }

  function DaysBeforeYear(year: int): int {
    var y := year - 1;
    y * 365 + y / 4 - y / 100 + y / 400
  }

  function DaysBeforeMonth(year: int, month: int): int
    decreases month
  {
    if month <= 1 then 0 else DaysBeforeMonth(year, month - 1) + DaysInMonth(year, month - 1)
  }

  /** The day number; 1 January of year 1 is day 1. */
  function Ordinal(d: Date): int {
    DaysBeforeYear(d.year) + DaysBeforeMonth(d.year, d.month) + d.day
  }

  predicate Before(a: Date, b: Date) {
    a.year < b.year || (a.year == b.year && (a.month < b.month || (a.month == b.month && a.day < b.day)))
  }

  function NextDay(d: Date): Date {
    if d.day < DaysInMonth(d.year, d.month) then d.(day := d.day + 1)
    else if d.month < 12 then Date(d.year, d.month + 1, 1)
    else Date(d.year + 1, 1, 1)
  }

  // ---- Day numbers count days ----

  /** The lengths of the twelve months. */
  lemma MonthLengths(year: int, month: int)
    requires 1 <= month <= 12
    ensures
      var february := if IsLeap(year) then 29 else 28;
      DaysInMonth(year, month) == [31, february, 31, 30, 31, 30, 31, 31, 30, 31, 30, 31][month - 1]
  {
  }

  lemma YearLength(year: int)
    requires year >= 1
    ensures DaysBeforeYear(year + 1) == DaysBeforeYear(year) + if IsLeap(year) then 366 else 365
  {
    var y := year - 1;
    assert (y + 1) / 4 == y / 4 + if year % 4 == 0 then 1 else 0;
    assert (y + 1) / 100 == y / 100 + if year % 100 == 0 then 1 else 0;
    assert (y + 1) / 400 == y / 400 + if year % 400 == 0 then 1 else 0;
  }

  lemma MonthsAddUp(year: int)
    ensures DaysBeforeMonth(year, 12) + DaysInMonth(year, 12) == if IsLeap(year) then 366 else 365
    ensures DaysBeforeMonth(year, 1) == 0
  {
    assert DaysBeforeMonth(year, 4) == DaysInMonth(year, 2) + 62;
    assert DaysBeforeMonth(year, 7) == DaysInMonth(year, 2) + 153;
    assert DaysBeforeMonth(year, 10) == DaysInMonth(year, 2) + 245;
    assert DaysBeforeMonth(year, 12) == DaysInMonth(year, 2) + 306;
  }

  /** The day number of the next day is one more, across months, years and leap days. */
  lemma OrdinalCountsDays(d: Date)
    requires IsDate(d)
    ensures Ordinal(NextDay(d)) == Ordinal(d) + 1
  {
    if d.day == DaysInMonth(d.year, d.month) && d.month == 12 {
      var next := Date(d.year + 1, 1, 1);
      assert NextDay(d) == next && DaysBeforeMonth(next.year, 1) == 0;
      YearLength(d.year);
      MonthsAddUp(d.year);
    }
  }

  lemma {:induction false} MonthsRise(year: int, a: int, b: int)
    requires 1 <= a < b <= 12
    ensures DaysBeforeMonth(year, a) + DaysInMonth(year, a) <= DaysBeforeMonth(year, b)
    decreases b
  {
    if a < b - 1 {
      MonthsRise(year, a, b - 1);
    }
  }

  /** A date's place in its own year. */
  lemma DayOfYear(d: Date)
    requires IsDate(d)
    ensures 1 <= DaysBeforeMonth(d.year, d.month) + d.day <= if IsLeap(d.year) then 366 else 365
  {
    MonthsAddUp(d.year);
    if d.month > 1 {
      MonthsRise(d.year, 1, d.month);
    }
    if d.month < 12 {
      MonthsRise(d.year, d.month, 12);
    }
  }

  lemma {:induction false} YearsRise(a: int, b: int)
    requires 1 <= a < b
    ensures DaysBeforeYear(a) + (if IsLeap(a) then 366 else 365) <= DaysBeforeYear(b)
    decreases b
  {
    YearLength(b - 1);
    if a < b - 1 {
      YearsRise(a, b - 1);
    }
  }

  lemma EarlierIsSmaller(a: Date, b: Date)
    requires IsDate(a) && IsDate(b) && Before(a, b)
    ensures Ordinal(a) < Ordinal(b)
  {
    DayOfYear(a);
    DayOfYear(b);
    if a.year < b.year {
      YearsRise(a.year, b.year);
    } else if a.month < b.month {
      MonthsRise(a.year, a.month, b.month);
    }
  }

  /** Comparing dates field by field is comparing day numbers. */
  lemma OrderIsOrdinal(a: Date, b: Date)
    requires IsDate(a) && IsDate(b)
    ensures Before(a, b) <==> Ordinal(a) < Ordinal(b)
  {
    if Before(a, b) {
      EarlierIsSmaller(a, b);
    } else if Before(b, a) {
      EarlierIsSmaller(b, a);
    }
  }

  /** 31 December 9999. */
  const LastDay := Date(9999, 12, 31)

  const LAST_ORDINAL := 3652059

  lemma LastDayIsLast()
    ensures IsDate(LastDay) && Ordinal(LastDay) == LAST_ORDINAL
    ensures forall d :: IsDate(d) ==> Ordinal(d) <= LAST_ORDINAL && (Ordinal(d) == LAST_ORDINAL ==> d == LastDay)
  {
    assert DaysBeforeMonth(9999, 12) == 334 by {
      MonthsAddUp(9999);
    }
    forall d | IsDate(d)
      ensures Ordinal(d) <= LAST_ORDINAL && (Ordinal(d) == LAST_ORDINAL ==> d == LastDay)
    {
      OrderIsOrdinal(d, LastDay);
      OrderIsOrdinal(LastDay, d);
    }
  }

  lemma {:induction false} DateOfOrdinal(n: int) returns (d: Date)
    requires 1 <= n <= LAST_ORDINAL
    ensures IsDate(d) && Ordinal(d) == n
    decreases n
  {
    if n == 1 {
      d := Date(1, 1, 1);
    } else {
      var before := DateOfOrdinal(n - 1);
      LastDayIsLast();
      OrdinalCountsDays(before);
      d := NextDay(before);
    }
  }

  /** The dates are exactly the days from 1 January of year 1 to 31 December 9999, one for each number from 1 to
      3652059. */
  lemma DatesAreDays(n: int)
    ensures 1 <= n <= 3652059 <==> exists d :: IsDate(d) && Ordinal(d) == n
    ensures forall a, b :: IsDate(a) && IsDate(b) && Ordinal(a) == Ordinal(b) ==> a == b
  {
    if 1 <= n <= 3652059 {
      var d := DateOfOrdinal(n);
    }
    LastDayIsLast();
    forall d | IsDate(d)
      ensures Ordinal(d) >= 1
    {
      DayOfYear(d);
      assert DaysBeforeYear(d.year) >= 0;
    }
    forall a, b | IsDate(a) && IsDate(b) && Ordinal(a) == Ordinal(b)
      ensures a == b
    {
      OrderIsOrdinal(a, b);
      OrderIsOrdinal(b, a);
    }
  }

  // ---- The extractor's reading ----

  const MAX_DAYS_BACK := 180

  /** A date long past is taken for the same day of the year after. */
  predicate RollsOver(candidate: Date, published: Date) {
    Before(candidate, published) && Ordinal(published) - Ordinal(candidate) > MAX_DAYS_BACK
  }

  /** `_safe_date`: the constructor of an impossible date raises, which reads as no date. */
  function SafeDate(day: int, month: int, year: int, published: Date): Option<Date> {
    var candidate := Date(year, month, day);
    if !IsDate(candidate) then None
    else if RollsOver(candidate, published) then
      var next := Date(year + 1, month, day);
      if IsDate(next) then Some(next) else None
    else Some(candidate)
  }

  function FullYear(digits: Option<nat>, fallback: int): int {
    match digits
    case None => fallback
    case Some(parsed) => if parsed < 100 then 2000 + parsed else parsed
  }

  /** What the regular expressions found in the text. */
  datatype Reading =
    | OnlyToday
    | Numeric(day: nat, month: nat, year: Option<nat>)
    | Worded(day: nat, month: nat, year: Option<nat>)
    | NoDate

  function ValidUntil(reading: Reading, published: Date): Option<Date> {
    match reading
    case OnlyToday => Some(published)
    case Numeric(day, month, year) => SafeDate(day, month, FullYear(year, published.year), published)
    case Worded(day, month, year) => SafeDate(day, month, if year.Some? then year.value else published.year, published)
    case NoDate => None
  }

  predicate WithoutYear(reading: Reading) {
    (reading.Numeric? || reading.Worded?) && reading.year.None?
  }

  lemma LeapYearsAreApart(year: int)
    requires IsLeap(year)
    ensures !IsLeap(year + 1)
  {
  }

  /** Which dates roll over into nothing: 29 February, and any date of the year 9999. */
  lemma NextYearExists(candidate: Date)
    requires IsDate(candidate)
    ensures IsDate(candidate.(year := candidate.year + 1))
       <==> candidate.year < 9999 && !(candidate.month == 2 && candidate.day == 29)
  {
    if candidate.month == 2 && candidate.day == 29 {
      LeapYearsAreApart(candidate.year);
    }
  }

  /** For any year: a date that is given back keeps its day and month, is of the written year
      or the one after, and the latter exactly when the written date is more than 180
      days before publication.  No date exactly when the text names none that exists. */
  lemma SafeDateExactly(day: int, month: int, year: int, published: Date)
    requires IsDate(published)
    ensures
      var r, candidate := SafeDate(day, month, year, published), Date(year, month, day);
      var past := IsDate(candidate) && Ordinal(published) - Ordinal(candidate) > 180;
      && (r.Some? ==> IsDate(r.value) && r.value == Date(if past then year + 1 else year, month, day))
      && (r.None? <==> !IsDate(candidate) || (past && (year == 9999 || (month == 2 && day == 29))))
  {
    var candidate := Date(year, month, day);
    if IsDate(candidate) {
      OrderIsOrdinal(candidate, published);
      NextYearExists(candidate);
    }
  }

  /** The year a text means: the one written in full, the one of this century with the two digits written in
      a numeric date, or the year of publication. */
  ghost predicate Means(reading: Reading, published: Date, year: int)
    requires reading.Numeric? || reading.Worded?
  {
    match reading.year
    case None => year == published.year
    case Some(written) =>
      if reading.Numeric? && written < 100 then 2000 <= year < 2100 && year % 100 == written else year == written
  }

  /** The expiry date for every reading: today when it says so, none when it names none, and otherwise the written
      day and month in the year meant or, exactly if that is more than 180 days past, in the next; none
      exactly when there is no such date. */
  lemma ValidUntilExactly(reading: Reading, published: Date)
    requires IsDate(published)
    ensures reading.OnlyToday? ==> ValidUntil(reading, published) == Some(published)
    ensures reading.NoDate? ==> ValidUntil(reading, published) == None
    ensures reading.Numeric? || reading.Worded? ==>
      exists year :: Means(reading, published, year) && ValidInYear(reading, published, year)
  {
    if reading.Numeric? || reading.Worded? {
      var year := if reading.Numeric? then FullYear(reading.year, published.year)
                  else if reading.year.Some? then reading.year.value else published.year;
      SafeDateExactly(reading.day, reading.month, year, published);
      assert Means(reading, published, year) && ValidInYear(reading, published, year);
    }
  }

  ghost predicate ValidInYear(reading: Reading, published: Date, year: int)
    requires reading.Numeric? || reading.Worded?
  {
    var r, candidate := ValidUntil(reading, published), Date(year, reading.month, reading.day);
    var past := IsDate(candidate) && Ordinal(published) - Ordinal(candidate) > 180;
    && (r.Some? ==> IsDate(r.value) && r.value == Date(if past then year + 1 else year, reading.month, reading.day))
    && (r.None? <==> !IsDate(candidate) || (past && (year == 9999 || (reading.month == 2 && reading.day == 29))))
  }

  /** Between two years a month starts at most one day apart. */
  lemma MonthShift(year: int, month: int)
    requires 1 <= month <= 12
    ensures DaysBeforeMonth(year, month) - 1 <= DaysBeforeMonth(year + 1, month) <= DaysBeforeMonth(year, month) + 1
  {
    if month >= 3 {
      MonthStarts(year, month);
      MonthStarts(year + 1, month);
    }
  }

  lemma {:induction false} MonthStarts(year: int, month: int)
    requires 3 <= month <= 12
    ensures DaysBeforeMonth(year, month) == DaysBeforeMonth(1, month) - 28 + DaysInMonth(year, 2)
    decreases month
  {
    if month == 3 {
      assert DaysBeforeMonth(year, 2) == 31 && DaysBeforeMonth(1, 2) == 31;
    } else {
      MonthStarts(year, month - 1);
    }
  }

  lemma SameYearIsNear(candidate: Date, published: Date)
    requires IsDate(candidate) && IsDate(published) && candidate.year == published.year
    ensures Ordinal(candidate) - Ordinal(published) <= 365
    ensures Ordinal(published) - Ordinal(candidate) < if IsLeap(published.year) then 366 else 365
  {
    DayOfYear(candidate);
    DayOfYear(published);
  }

  /** The same day a year later is at most a day more or less than a year away. */
  lemma NextYearIsNear(candidate: Date, published: Date)
    requires IsDate(candidate) && IsDate(published) && candidate.year == published.year
    requires Ordinal(published) - Ordinal(candidate) > 180
    ensures 0 <= Ordinal(candidate.(year := candidate.year + 1)) - Ordinal(published) <= 365
  {
    SameYearIsNear(candidate, published);
    YearLength(published.year);
    MonthShift(candidate.year, candidate.month);
  }

  /** Main result: when the text gives no year, a date that is given back lies between 180 days
      before and 365 days after publication; none is given back exactly when the day and month
      do not exist in the year of publication, or are more than 180 days past and are
      29 February or in the year 9999. */
  lemma YearlessDateIsNear(reading: Reading, published: Date)
    requires IsDate(published) && WithoutYear(reading)
    ensures
      var r, candidate := ValidUntil(reading, published), Date(published.year, reading.month, reading.day);
      && (r.Some? ==> -180 <= Ordinal(r.value) - Ordinal(published) <= 365)
      && (r.None? <==>
            || !IsDate(candidate)
            || (Ordinal(published) - Ordinal(candidate) > 180
                && (published.year == 9999 || (reading.month == 2 && reading.day == 29))))
  {
    var candidate := Date(published.year, reading.month, reading.day);
    SafeDateExactly(reading.day, reading.month, published.year, published);
    assert ValidUntil(reading, published) == SafeDate(reading.day, reading.month, published.year, published);
    if IsDate(candidate) {
      SameYearIsNear(candidate, published);
      if Ordinal(published) - Ordinal(candidate) > 180 {
        NextYearIsNear(candidate, published);
      }
    }
  }
}
