/** Calendar dates from Unix seconds: the closed formula, and the calendar it must follow. */
module CivilDate {
  import opened Numbers

  datatype Date = Date(year: int, month: int, day: int)

  // ---- The proleptic Gregorian calendar ----

  predicate Leap(year: int) {
    year % 4 == 0 && (year % 100 != 0 || year % 400 == 0)
  }

  function DaysIn(year: int, month: int): int {
    if month == 2 then (if Leap(year) then 29 else 28)
    else if month in {4, 6, 9, 11} then 30
    else 31
  }

  predicate ValidDate(date: Date) {
    1 <= date.month <= 12 && 1 <= date.day <= DaysIn(date.year, date.month)
  }

  function Next(date: Date): Date {
    if date.day < DaysIn(date.year, date.month) then date.(day := date.day + 1)
    else if date.month < 12 then Date(date.year, date.month + 1, 1)
    else Date(date.year + 1, 1, 1)
  }

  function Previous(date: Date): Date {
    if date.day > 1 then date.(day := date.day - 1)
    else if date.month > 1 then Date(date.year, date.month - 1, DaysIn(date.year, date.month - 1))
    else Date(date.year - 1, 12, 31)
  }

  /** The date so many whole days after, or before, the first of January 1970. */
  function DateOfDay(n: int): Date
    decreases if n < 0 then -n else n
  {
    if n == 0 then Date(1970, 1, 1)
    else if n > 0 then Next(DateOfDay(n - 1))
    else Previous(DateOfDay(n + 1))
  }

  // ---- The formula, with the division the program uses ----

  /** Division that drops the fraction, toward zero. */
  function TruncatingDivide(a: int, b: int): int
    requires b > 0
  {
    if a >= 0 then a / b else -((-a) / b)
  }

  datatype Working = Working(
    z: int, era: int, doe: int, yoe: int, doy: int, mp: int)

  function Work(days: int): Working {
    var z := days + 719_468;
    var era := TruncatingDivide(if z >= 0 then z else z - 146_096, 146_097);
    var doe := z - era * 146_097;
    var yoe := TruncatingDivide(
      doe - TruncatingDivide(doe, 1460) + TruncatingDivide(doe, 36_524) - TruncatingDivide(doe, 146_096), 365);
    var doy := doe - (365 * yoe + TruncatingDivide(yoe, 4) - TruncatingDivide(yoe, 100));
    var mp := TruncatingDivide(5 * doy + 2, 153);
    Working(z, era, doe, yoe, doy, mp)
  }

  function UnixToYmd(secs: int): Date {
    YmdOfDays(secs / 86_400)
  }

  function YmdOfDays(days: int): Date {
    var w := Work(days);
    var year := w.yoe + w.era * 400;
    var day := w.doy - TruncatingDivide(153 * w.mp + 2, 5) + 1;
    var month := if w.mp < 10 then w.mp + 3 else w.mp - 9;
    Date(if month <= 2 then year + 1 else year, month, day)
  }

  // ---- Years that begin in March ----

  /** Days from the first of March of year 0 to that of the given year. */
  function MarchStart(year: int): int {
    365 * year + year / 4 - year / 100 + year / 400
  }

  function MarchLength(year: int): int {
    if Leap(year + 1) then 366 else 365
  }

  lemma MarchStartStep(year: int)
    ensures MarchStart(year + 1) == MarchStart(year) + MarchLength(year)
  {
    var y := year + 1;
    assert y / 4 - year / 4 == if y % 4 == 0 then 1 else 0;
    assert y / 100 - year / 100 == if y % 100 == 0 then 1 else 0;
    assert y / 400 - year / 400 == if y % 400 == 0 then 1 else 0;
    assert y % 400 == 0 ==> y % 100 == 0;
    assert y % 100 == 0 ==> y % 4 == 0;
  }

  /** A day belongs to one March year only. */
  lemma MarchYearUnique(z: int, a: int, b: int)
    requires MarchStart(a) <= z < MarchStart(a + 1) && MarchStart(b) <= z < MarchStart(b + 1)
    ensures a == b
  {
  }

  /** The date of a day, counted from zero, of a March year. */
  function MarchDate(year: int, doy: int): Date
    requires 0 <= doy < 366
  {
    var mp := (5 * doy + 2) / 153;
    var month := if mp < 10 then mp + 3 else mp - 9;
    Date(if month <= 2 then year + 1 else year, month, doy - (153 * mp + 2) / 5 + 1)
  }

  lemma MonthOfDay(doy: int)
    requires 0 <= doy < 366
    ensures var mp := (5 * doy + 2) / 153;
      0 <= mp <= 11 && (153 * mp + 2) / 5 <= doy && (mp < 11 ==> doy < (153 * (mp + 1) + 2) / 5)
  {
  }

  lemma MarchDateValid(year: int, doy: int)
    requires 0 <= doy < MarchLength(year)
    ensures ValidDate(MarchDate(year, doy))
    ensures doy == 0 ==> MarchDate(year, doy) == Date(year, 3, 1)
  {
  }

  /** Months of a March year are as long as in the calendar. */
  lemma MonthLength(year: int, mp: int)
    requires 0 <= mp <= 11
    ensures var month := if mp < 10 then mp + 3 else mp - 9;
      DaysIn(if month <= 2 then year + 1 else year, month) ==
        (if mp < 11 then (153 * (mp + 1) + 2) / 5 else MarchLength(year)) - (153 * mp + 2) / 5
  {
  }

  lemma MarchDateNext(year: int, doy: int)
    requires 0 <= doy && doy + 1 < MarchLength(year)
    ensures MarchDate(year, doy + 1) == Next(MarchDate(year, doy))
  {
    MonthOfDay(doy);
    MonthOfDay(doy + 1);
    var mp, mp' := (5 * doy + 2) / 153, (5 * (doy + 1) + 2) / 153;
    MonthLength(year, mp);
    assert mp' == if mp < 11 && doy + 1 == (153 * (mp + 1) + 2) / 5 then mp + 1 else mp;
    hide DaysIn, MarchLength;
  }

  lemma MarchYearEnds(year: int)
    ensures MarchDate(year + 1, 0) == Next(MarchDate(year, MarchLength(year) - 1))
  {
  }

  // ---- What the formula works out ----

  /** Rounding down by hand before dividing makes truncation the floor. */
  lemma EraIsFloor(z: int)
    ensures TruncatingDivide(if z >= 0 then z else z - 146_096, 146_097) == z / 146_097
  {
  }

  /** The year of the era, from its century, four-year cycle, year and day. */
  lemma YearOfEra(doe: int, c: int, q: int, y: int, d: int)
    requires 0 <= c <= 3 && 0 <= q <= 24 && 0 <= y <= 3
    requires 0 <= d <= 364 || (d == 365 && y == 3 && (q == 24 ==> c == 3))
    requires doe == 36_524 * c + 1461 * q + 365 * y + d
    ensures (doe - doe / 1460 + doe / 36_524 - doe / 146_096) / 365 == 100 * c + 4 * q + y
  {
    var extra := if 24 * c + q + 365 * y + d >= 1460 then 1 else 0;
    assert doe / 1460 == 25 * c + q + extra;
    var last := if doe == 146_096 then 1 else 0;
    assert doe / 36_524 == c + last;
    assert doe / 146_096 == last;
  }

  /** Every day of an era has a century, cycle, year and day. */
  lemma SplitEra(doe: int) returns (c: int, q: int, y: int, d: int)
    requires 0 <= doe < 146_097
    ensures 0 <= c <= 3 && 0 <= q <= 24 && 0 <= y <= 3
    ensures 0 <= d <= 364 || (d == 365 && y == 3 && (q == 24 ==> c == 3))
    ensures doe == 36_524 * c + 1461 * q + 365 * y + d
  {
    c := if doe == 146_096 then 3 else doe / 36_524;
    var r := doe - 36_524 * c;
    q := r / 1461;
    var s := r - 1461 * q;
    y := if s == 1460 then 3 else s / 365;
    d := s - 365 * y;
  }

  /** The formula finds the March year and the day in it. */
  lemma FormulaFindsMarchYear(days: int)
    ensures var w := Work(days);
      var year := w.yoe + w.era * 400;
      && 0 <= w.doe < 146_097 && 0 <= w.yoe <= 399
      && 0 <= w.doy < MarchLength(year)
      && w.z == MarchStart(year) + w.doy
  {
    var w := Work(days);
    EraIsFloor(w.z);
    var c, q, y, d := SplitEra(w.doe);
    YearOfEra(w.doe, c, q, y, d);
    assert w.yoe == 100 * c + 4 * q + y;
    assert w.yoe / 4 == 25 * c + q && w.yoe / 100 == c;
    EraStart(w.era, c, q, y);
    assert w.doy == d;
  }

  lemma EraQuotients(era: int, c: int, q: int, y: int)
    requires 0 <= c <= 3 && 0 <= q <= 24 && 0 <= y <= 3
    ensures var year := 100 * c + 4 * q + y + era * 400;
      && year / 4 == 100 * era + 25 * c + q && year / 100 == 4 * era + c && year / 400 == era
      && year % 4 == y && year % 100 == 4 * q + y && year % 400 == 100 * c + 4 * q + y
  {
  }

  lemma EraStart(era: int, c: int, q: int, y: int)
    requires 0 <= c <= 3 && 0 <= q <= 24 && 0 <= y <= 3
    ensures var year := 100 * c + 4 * q + y + era * 400;
      && MarchStart(year) == 146_097 * era + 36_524 * c + 1461 * q + 365 * y
      && (Leap(year + 1) <==> y == 3 && (q == 24 ==> c == 3))
  {
    EraQuotients(era, c, q, y);
    var year := 100 * c + 4 * q + y + era * 400;
    NextRemainder(year, 4);
    NextRemainder(year, 100);
    NextRemainder(year, 400);
  }

  lemma NextRemainder(a: int, b: int)
    requires b > 1
    ensures (a + 1) % b == if a % b == b - 1 then 0 else a % b + 1
  {
    var q, r := a / b, a % b;
    if r == b - 1 {
      assert a + 1 == b * (q + 1);
      UniqueRemainder(a + 1, b, q + 1, 0);
    } else {
      UniqueRemainder(a + 1, b, q, r + 1);
    }
  }

  lemma UniqueRemainder(a: int, b: int, q: int, r: int)
    requires 0 <= r < b && a == b * q + r
    ensures a % b == r
  {
    var d := a / b - q;
    assert b * d == r - a % b;
    assert d >= 1 ==> b * d >= b;
    assert d <= -1 ==> b * d <= -b;
  }

  /** So the result is a date of a March year, located by the day's number alone. */
  lemma FormulaLocates(days: int) returns (year: int, doy: int)
    ensures 0 <= doy < MarchLength(year)
    ensures days + 719_468 == MarchStart(year) + doy
    ensures YmdOfDays(days) == MarchDate(year, doy)
  {
    FormulaFindsMarchYear(days);
    var w := Work(days);
    year, doy := w.yoe + w.era * 400, w.doy;
    MonthOfDay(doy);
  }

  /** The day after a day of a March year. */
  lemma MarchSuccessor(year: int, doy: int, year': int, doy': int)
    requires 0 <= doy < MarchLength(year) && 0 <= doy' < MarchLength(year')
    requires MarchStart(year') + doy' == MarchStart(year) + doy + 1
    ensures if doy + 1 < MarchLength(year) then year' == year && doy' == doy + 1
      else year' == year + 1 && doy' == 0 && doy == MarchLength(year) - 1
  {
    MarchStartStep(year);
    MarchStartStep(year');
    var z := MarchStart(year') + doy';
    if doy + 1 < MarchLength(year) {
      MarchYearUnique(z, year, year');
    } else {
      MarchStartStep(year + 1);
      MarchYearUnique(z, year + 1, year');
    }
  }

  // ---- The main results ----

  /** The result is always a date of the calendar. */
  lemma ResultIsValid(days: int)
    ensures ValidDate(YmdOfDays(days))
  {
    var year, doy := FormulaLocates(days);
    MarchDateValid(year, doy);
  }

  /** Consecutive days give consecutive dates. */
  lemma ConsecutiveDays(days: int)
    ensures YmdOfDays(days + 1) == Next(YmdOfDays(days))
  {
    hide YmdOfDays, MarchStart, MarchDate, Next;
    var year, doy := FormulaLocates(days);
    var year', doy' := FormulaLocates(days + 1);
    MarchSuccessor(year, doy, year', doy');
    if doy + 1 < MarchLength(year) {
      MarchDateNext(year, doy);
    } else {
      MarchYearEnds(year);
    }
  }

  lemma NextThenPrevious(date: Date)
    requires ValidDate(date)
    ensures ValidDate(Next(date)) && Previous(Next(date)) == date
  {
  }

  lemma FirstDay()
    ensures YmdOfDays(0) == Date(1970, 1, 1)
  {
    var year, doy := FormulaLocates(0);
    MarchStartStep(1969);
    MarchStartStep(year);
    MarchYearUnique(719_468, 1969, year);
  }

  /** Whatever starts on the first of January 1970 and moves on by the calendar is the calendar. */
  lemma {:induction false} CalendarIsUnique(dates: int -> Date, n: int)
    requires dates(0) == Date(1970, 1, 1)
    requires forall k :: ValidDate(dates(k)) && dates(k + 1) == Next(dates(k))
    ensures dates(n) == DateOfDay(n)
    decreases if n < 0 then -n else n
  {
    if n > 0 {
      CalendarIsUnique(dates, n - 1);
      assert dates(n - 1 + 1) == Next(dates(n - 1));
    } else if n < 0 {
      CalendarIsUnique(dates, n + 1);
      assert ValidDate(dates(n)) && dates(n + 1) == Next(dates(n));
      NextThenPrevious(dates(n));
    }
  }

  /** The formula is the calendar: for every second, the date that many whole days
      from the first of January 1970. */
  lemma FormulaIsCalendar(secs: int)
    ensures UnixToYmd(secs) == DateOfDay(secs / 86_400)
  {
    forall days ensures ValidDate(YmdOfDays(days)) && YmdOfDays(days + 1) == Next(YmdOfDays(days)) {
      ResultIsValid(days);
      ConsecutiveDays(days);
    }
    FirstDay();
    CalendarIsUnique(YmdOfDays, secs / 86_400);
  }

  /** Every value the program computes on the way, in the order it computes them. */
  function Intermediates(days: int): seq<int> {
    var w := Work(days);
    DaySteps(days, w.z, w.era, w.doe, w.yoe) + YearSteps(w.era, w.yoe, w.doy, w.mp)
  }

  function DaySteps(days: int, z: int, era: int, doe: int, yoe: int): seq<int> {
    [ days, z, z - 146_096, era, era * 146_097, doe,
      doe / 1460, doe - doe / 1460, doe / 36_524,
      doe - doe / 1460 + doe / 36_524, doe / 146_096,
      doe - doe / 1460 + doe / 36_524 - doe / 146_096, yoe ]
  }

  function YearSteps(era: int, yoe: int, doy: int, mp: int): seq<int> {
    [ era * 400, yoe + era * 400, yoe + era * 400 + 1,
      365 * yoe, yoe / 4, 365 * yoe + yoe / 4, yoe / 100, 365 * yoe + yoe / 4 - yoe / 100,
      doy, 5 * doy, 5 * doy + 2, mp, 153 * mp, 153 * mp + 2,
      (153 * mp + 2) / 5, doy - (153 * mp + 2) / 5, doy - (153 * mp + 2) / 5 + 1, mp + 3, mp - 9 ]
  }

  predicate Fit(values: seq<int>) {
    forall i :: 0 <= i < |values| ==> MIN_I64 <= values[i] <= MAX_I64
  }

  lemma WorkIsSmall(days: int)
    requires -200_000_000_000_000 <= days <= 200_000_000_000_000
    ensures var w := Work(days);
      && w.z == days + 719_468 && -2_000_000_000 <= w.era <= 2_000_000_000
      && 0 <= w.doe < 146_097 && 0 <= w.yoe <= 399 && 0 <= w.doy < 366 && 0 <= w.mp <= 11
  {
    FormulaFindsMarchYear(days);
    var w := Work(days);
    MonthOfDay(w.doy);
    EraIsFloor(w.z);
  }

  lemma StepsFit(days: int, z: int, era: int, doe: int, yoe: int, doy: int, mp: int)
    requires -200_000_000_000_000 <= days <= 200_000_000_000_000
    requires z == days + 719_468 && -2_000_000_000 <= era <= 2_000_000_000
    requires 0 <= doe < 146_097 && 0 <= yoe <= 399 && 0 <= doy < 366 && 0 <= mp <= 11
    ensures Fit(DaySteps(days, z, era, doe, yoe) + YearSteps(era, yoe, doy, mp))
  {
    assert Fit(DaySteps(days, z, era, doe, yoe));
    assert Fit(YearSteps(era, yoe, doy, mp));
  }

  /** No 64-bit second count makes any intermediate value overflow. */
  lemma NothingOverflows(secs: int)
    requires MIN_I64 <= secs <= MAX_I64
    ensures Fit(Intermediates(secs / 86_400))
  {
    hide Fit, DaySteps, YearSteps, Work;
    var days := secs / 86_400;
    WorkIsSmall(days);
    var w := Work(days);
    StepsFit(days, w.z, w.era, w.doe, w.yoe, w.doy, w.mp);
  }
}
