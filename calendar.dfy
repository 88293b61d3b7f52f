/**
 * The month grid of the admin calendar: a blank cell for every weekday before the first of
 * the month, then one cell per day numbered from 1, each marked when its `YYYY-MM-DD` key is
 * among the selected dates. Clicking a day toggles its key in the selection.
 */
module Calendar {
  import opened Text
  import Lists

  /** A Gregorian leap year. */
  predicate IsLeapYear(year: int) {
    year % 4 == 0 && (year % 100 != 0 || year % 400 == 0)
  }

  /** `new Date(year, month + 1, 0).getDate()`: the length of month `month` (0 = January). */
  function DaysInMonth(year: int, month: int): (n: int)
    requires 0 <= month < 12
    ensures 28 <= n <= 31
    ensures n == 29 <==> month == 1 && IsLeapYear(year)
  {
    if month == 1 then (if IsLeapYear(year) then 29 else 28)
    else if month == 3 || month == 5 || month == 8 || month == 10 then 30
    else 31
  }

  /** The per-month offsets of the weekday formula. */
  const MonthOffsets: seq<int> := [0, 3, 2, 5, 0, 3, 5, 1, 4, 6, 2, 4]

  /** The count the weekday formula adds the day of the month to. */
  function WeekBase(year: int, month: int): int
    requires 0 <= month < 12
  {
    var y := if month < 2 then year - 1 else year;
    y + y / 4 - y / 100 + y / 400 + MonthOffsets[month]
  }

  /**
   * `getDay()` of a date in the proleptic Gregorian calendar, 0 = Sunday; January and
   * February count as months of the previous year.
   */
  function Weekday(year: int, month: int, day: int): (w: int)
    requires 0 <= month < 12
    ensures 0 <= w < 7
  {
    (WeekBase(year, month) + day) % 7
  }

  /** `new Date(year, month, 1).getDay()`. */
  function FirstWeekday(year: int, month: int): (w: int)
    requires 0 <= month < 12
    ensures 0 <= w < 7
  {
    Weekday(year, month, 1)
  }

  /** 1 January 2024 was a Monday. */
  lemma FirstOf2024IsMonday()
    ensures FirstWeekday(2024, 0) == 1
  {
  }

  lemma ModShift(x: int, q: int)
    ensures (x + 7 * q) % 7 == x % 7
  {
  }

  lemma ModAdd(a: int, b: int)
    ensures (a % 7 + b) % 7 == (a + b) % 7
  {
    ModShift(a % 7 + b, a / 7);
  }

  lemma LeapStep(y: int)
    ensures y / 4 - (y - 1) / 4 == (if y % 4 == 0 then 1 else 0)
    ensures y / 100 - (y - 1) / 100 == (if y % 100 == 0 then 1 else 0)
    ensures y / 400 - (y - 1) / 400 == (if y % 400 == 0 then 1 else 0)
  {
  }

  /** A year divisible by 400 is divisible by 100. */
  lemma FourHundredsAreHundreds(y: int)
    requires y % 400 == 0
    ensures y % 100 == 0
  {
    assert y == 100 * (4 * (y / 400));
  }

  /** A year divisible by 100 is divisible by 4. */
  lemma HundredsAreFours(y: int)
    requires y % 100 == 0
    ensures y % 4 == 0
  {
    assert y == 4 * (25 * (y / 100));
  }

  /** The leap day shows up in the formula exactly between February and March. */
  lemma FebruaryStep(year: int)
    ensures WeekBase(year, 2) == WeekBase(year, 1) + DaysInMonth(year, 1) - 28
  {
    LeapStep(year);
    if year % 400 == 0 {
      FourHundredsAreHundreds(year);
    }
    if year % 100 == 0 {
      HundredsAreFours(year);
    }
    var leap := (if year % 4 == 0 then 1 else 0) - (if year % 100 == 0 then 1 else 0) + (if year % 400 == 0 then 1 else 0);
    assert leap == (if IsLeapYear(year) then 1 else 0);
    assert WeekBase(year, 2) == WeekBase(year, 1) + leap;
  }

  /** From one month's formula count to the next one's: the month's length, less whole weeks. */
  lemma WeekBaseStep(year: int, month: int) returns (weeks: int)
    requires 0 <= month < 12
    ensures month < 11 ==> WeekBase(year, month + 1) == WeekBase(year, month) + DaysInMonth(year, month) - 7 * weeks
    ensures month == 11 ==> WeekBase(year + 1, 0) == WeekBase(year, month) + DaysInMonth(year, month) - 7 * weeks
  {
    if month == 1 {
      FebruaryStep(year);
      weeks := 4;
    } else if month == 11 {
      weeks := 5;
      assert MonthOffsets[0] == MonthOffsets[11] + 31 - 7 * weeks;
    } else {
      weeks := if month == 3 || month == 6 || month == 9 then 5 else 4;
      assert MonthOffsets[month + 1] == MonthOffsets[month] + DaysInMonth(year, month) - 7 * weeks;
      assert (if month + 1 < 2 then year - 1 else year) == (if month < 2 then year - 1 else year);
    }
  }

  /**
   * The weekday formula and the month lengths agree: the first of the next month falls
   * `DaysInMonth` days after the first of this one (December runs into January of the next year).
   */
  lemma NextMonthFollows(year: int, month: int)
    requires 0 <= month < 12
    ensures month < 11 ==>
      FirstWeekday(year, month + 1) == (FirstWeekday(year, month) + DaysInMonth(year, month)) % 7
    ensures month == 11 ==>
      FirstWeekday(year + 1, 0) == (FirstWeekday(year, month) + DaysInMonth(year, month)) % 7
  {
    var weeks := WeekBaseStep(year, month);
    var b := WeekBase(year, month) + 1;
    ModAdd(b, DaysInMonth(year, month));
    ModShift(b + DaysInMonth(year, month) - 7 * weeks, weeks);
  }

  /** Day `d` sits `d - 1` cells after the first, so in the grid's column of its own weekday. */
  lemma DayInItsWeekdayColumn(year: int, month: int, d: int)
    requires 0 <= month < 12
    ensures (FirstWeekday(year, month) + d - 1) % 7 == Weekday(year, month, d)
  {
    ModAdd(WeekBase(year, month) + 1, d - 1);
  }

  // ---------------------------------------------------------------------------
  // Date keys
  // ---------------------------------------------------------------------------

  /** A number below 100 as two digits. */
  function Pad2(n: nat): (r: string)
    requires n < 100
    ensures |r| == 2
  {
    [DigitChar(n / 10), DigitChar(n % 10)]
  }

  /** A number below 10000 as four digits. */
  function Pad4(n: nat): (r: string)
    requires n < 10000
    ensures |r| == 4
  {
    [DigitChar(n / 1000), DigitChar(n / 100 % 10), DigitChar(n / 10 % 10), DigitChar(n % 10)]
  }

  lemma Pad2Injective(a: nat, b: nat)
    requires a < 100 && b < 100 && Pad2(a) == Pad2(b)
    ensures a == b
  {
    assert Pad2(a)[0] == Pad2(b)[0] && Pad2(a)[1] == Pad2(b)[1];
    assert a / 10 == b / 10 && a % 10 == b % 10;
  }

  /** A date's key: `date.toISOString().split('T')[0]`, the form `YYYY-MM-DD`. */
  function DateKey(year: int, month: int, day: int): (k: string)
    requires 0 <= year < 10000 && 0 <= month < 12 && 1 <= day <= 31
    ensures |k| == 10 && k[4] == '-' && k[7] == '-'
  {
    Pad4(year) + "-" + Pad2(month + 1) + "-" + Pad2(day)
  }

  /** Different days of a month have different keys. */
  lemma DateKeyInjective(year: int, month: int, d: int, e: int)
    requires 0 <= year < 10000 && 0 <= month < 12 && 1 <= d <= 31 && 1 <= e <= 31
    requires DateKey(year, month, d) == DateKey(year, month, e)
    ensures d == e
  {
    assert DateKey(year, month, d)[8..] == Pad2(d);
    assert DateKey(year, month, e)[8..] == Pad2(e);
    Pad2Injective(d, e);
  }

  // ---------------------------------------------------------------------------
  // The grid
  // ---------------------------------------------------------------------------

  /** A grid cell: a leading blank, or a numbered day with its key and its selection mark. */
  datatype Cell = Blank | Day(day: int, key: string, selected: bool)

  /** The cell of day `d`: marked exactly when its key is among the selected dates. */
  function DayCell(year: int, month: int, d: int, selectedDates: seq<string>): (c: Cell)
    requires 0 <= year < 10000 && 0 <= month < 12 && 1 <= d <= 31
    ensures c.Day? && c.day == d && c.key == DateKey(year, month, d)
    ensures c.selected <==> DateKey(year, month, d) in selectedDates
  {
    Day(d, DateKey(year, month, d), DateKey(year, month, d) in selectedDates)
  }

  /**
   * `renderCalendar`: first-weekday blanks, then the days 1 to the month's length in order,
   * each marked when its key is selected.
   */
  method RenderCalendar(year: int, month: int, selectedDates: seq<string>) returns (days: seq<Cell>)
    requires 0 <= year < 10000 && 0 <= month < 12
    ensures |days| == FirstWeekday(year, month) + DaysInMonth(year, month)
    ensures forall i :: 0 <= i < FirstWeekday(year, month) ==> days[i] == Blank
    ensures forall d :: 1 <= d <= DaysInMonth(year, month) ==>
      days[FirstWeekday(year, month) + d - 1] == DayCell(year, month, d, selectedDates)
  {
    var first := FirstWeekday(year, month);
    var last := DaysInMonth(year, month);
    days := [];
    var i := 0;
    while i < first
      invariant 0 <= i <= first && |days| == i
      invariant forall k :: 0 <= k < i ==> days[k] == Blank
    {
      days := days + [Blank];
      i := i + 1;
    }
    var day := 1;
    while day <= last
      invariant 1 <= day <= last + 1
      invariant |days| == first + day - 1
      invariant forall k :: 0 <= k < first ==> days[k] == Blank
      invariant forall d :: 1 <= d < day ==> days[first + d - 1] == DayCell(year, month, d, selectedDates)
    {
      var dateString := DateKey(year, month, day);
      var isSelected := dateString in selectedDates;
      days := days + [Day(day, dateString, isSelected)];
      day := day + 1;
    }
  }

  /** `toggleDate(dateString)`: the selection with the key removed if present, appended if not. */
  function ToggleDate(selectedDates: seq<string>, dateString: string): (r: seq<string>)
    ensures dateString in r <==> dateString !in selectedDates
    ensures forall k :: k != dateString ==> (k in r <==> k in selectedDates)
  {
    Lists.Toggle(selectedDates, dateString)
  }

  /** Clicking day `d` flips the mark of day `d` and of no other day of the month. */
  lemma ClickFlipsOnlyThatDay(year: int, month: int, d: int, e: int, selectedDates: seq<string>)
    requires 0 <= year < 10000 && 0 <= month < 12 && 1 <= d <= 31 && 1 <= e <= 31
    ensures DayCell(year, month, e, ToggleDate(selectedDates, DateKey(year, month, d))).selected
         == (if e == d then !DayCell(year, month, e, selectedDates).selected
             else DayCell(year, month, e, selectedDates).selected)
  {
    if e != d && DateKey(year, month, e) == DateKey(year, month, d) {
      DateKeyInjective(year, month, e, d);
    }
  }

  /** Clicking a day twice restores every mark of the grid. */
  lemma ClickTwiceRestoresMarks(year: int, month: int, d: int, e: int, selectedDates: seq<string>)
    requires 0 <= year < 10000 && 0 <= month < 12 && 1 <= d <= 31 && 1 <= e <= 31
    ensures DayCell(year, month, e, ToggleDate(ToggleDate(selectedDates, DateKey(year, month, d)), DateKey(year, month, d)))
         == DayCell(year, month, e, selectedDates)
  {
    var key := DateKey(year, month, d);
    Lists.ToggleTwiceSameMembers(selectedDates, key);
  }
}
