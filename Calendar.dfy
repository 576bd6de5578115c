/** The medication calendar screen: a six-week month grid around the
    selected date, the reminders due on a date, marking a dose as taken and
    moving the selected date by a month. */
module MedicationCalendar {
  import Lists
  import opened Shared

  /** A calendar date; `month` runs 1..12 (JavaScript's `getMonth() + 1`). */
  datatype Date = Date(year: int, month: int, day: int)

  /** Gregorian leap years, as JavaScript's `Date` counts them. */
  predicate IsLeapYear(year: int) {
    year % 4 == 0 && (year % 100 != 0 || year % 400 == 0)
  }

  /** The last day of a month (`new Date(year, month, 0).getDate()`). */
  function DaysInMonth(year: int, month: int): (n: int)
    requires 1 <= month <= 12
    ensures 28 <= n <= 31
    ensures n == 29 <==> month == 2 && IsLeapYear(year)
  {
    if month == 2 then (if IsLeapYear(year) then 29 else 28)
    else if month == 4 || month == 6 || month == 9 || month == 11 then 30
    else 31
  }

  predicate IsValidDate(d: Date) {
    1 <= d.month <= 12 && 1 <= d.day <= DaysInMonth(d.year, d.month)
  }

  /** Months counted from year 0, so that consecutive months differ by one. */
  function MonthNumber(year: int, month: int): int {
    12 * year + month - 1
  }

  /** The month before `month`, going back into the previous year from January. */
  function PreviousMonth(year: int, month: int): (r: (int, int))
    requires 1 <= month <= 12
    ensures 1 <= r.1 <= 12
    ensures MonthNumber(r.0, r.1) == MonthNumber(year, month) - 1
  {
    if month == 1 then (year - 1, 12) else (year, month - 1)
  }

  /** The month after `month`, going on into the next year from December. */
  function FollowingMonth(year: int, month: int): (r: (int, int))
    requires 1 <= month <= 12
    ensures 1 <= r.1 <= 12
    ensures MonthNumber(r.0, r.1) == MonthNumber(year, month) + 1
  {
    if month == 12 then (year + 1, 1) else (year, month + 1)
  }

  /** The calendar day after `d`. */
  function NextDay(d: Date): (r: Date)
    requires IsValidDate(d)
    ensures IsValidDate(r)
  {
    if d.day < DaysInMonth(d.year, d.month) then d.(day := d.day + 1)
    else
      var (y, m) := FollowingMonth(d.year, d.month);
      Date(y, m, 1)
  }

  /** `new Date(year, month - 1, day)` for the arguments the grid builder
      passes: a month one past December stands for January of the next year,
      and a day of 0 or less counts back from the end of the month before. */
  function NewDate(year: int, month: int, day: int): (d: Date)
    requires 1 <= month <= 13
    requires -27 <= day
    requires month <= 12 ==> day <= DaysInMonth(year, month)
    requires month == 13 ==> day <= 31
    ensures IsValidDate(d)
    ensures month <= 12 && 1 <= day ==> d == Date(year, month, day)
    ensures month <= 12 && day < 1 ==>
      var (py, pm) := PreviousMonth(year, month);
      d == Date(py, pm, DaysInMonth(py, pm) + day)
    ensures month == 13 && 1 <= day ==> d == Date(year + 1, 1, day)
    ensures month == 13 && day < 1 ==> d == Date(year, 12, 31 + day)
    decreases month
  {
    if month == 13 then NewDate(year + 1, 1, day)
    else if day < 1 then
      var (py, pm) := PreviousMonth(year, month);
      Date(py, pm, DaysInMonth(py, pm) + day)
    else Date(year, month, day)
  }

  /** Day of the week, 0 = Sunday .. 6 = Saturday (`getDay()`), by Sakamoto's
      method over the proleptic Gregorian calendar. */
  function Weekday(d: Date): (w: int)
    requires 1 <= d.month <= 12
    ensures 0 <= w <= 6
  {
    (MonthBase(d.year, d.month) + d.day) % 7
  }

  /** Sakamoto's count for day 0 of a month: the year term (taken from the
      previous year for January and February) plus a per-month offset. */
  function MonthBase(year: int, month: int): int
    requires 1 <= month <= 12
  {
    var offsets := [0, 3, 2, 5, 0, 3, 5, 1, 4, 6, 2, 4];
    YearTerm(if month < 3 then year - 1 else year) + offsets[month - 1]
  }

  /** Fixed points of the calendar: 1 January 1970 was a Thursday, 1 January
      2000 a Saturday and 1 October 2025 a Wednesday. Together with
      `WeekdayNextDay` they pin `Weekday` down on every date. */
  lemma WeekdayAnchors()
    ensures Weekday(Date(1970, 1, 1)) == 4
    ensures Weekday(Date(2000, 1, 1)) == 6
    ensures Weekday(Date(2025, 10, 1)) == 3
  {
  }

  function YearTerm(y: int): int {
    y + y / 4 - y / 100 + y / 400
  }

  /** Going from year `y - 1` to year `y` adds one day of the week, two when
      `y` is a leap year. */
  lemma YearTermStep(y: int)
    ensures YearTerm(y) - YearTerm(y - 1) == if IsLeapYear(y) then 2 else 1
  {
    QuotientStep4(y);
    QuotientStep100(y);
    QuotientStep400(y);
    MultipleOf400(y);
    MultipleOf100(y);
    assert YearTerm(y) - YearTerm(y - 1)
        == 1 + (y / 4 - (y - 1) / 4) - (y / 100 - (y - 1) / 100) + (y / 400 - (y - 1) / 400);
  }

  lemma MultipleOf400(y: int)
    ensures y % 400 == 0 ==> y % 100 == 0
  {
    if y % 400 == 0 {
      assert y == 100 * (4 * (y / 400));
    }
  }

  lemma MultipleOf100(y: int)
    ensures y % 100 == 0 ==> y % 4 == 0
  {
    if y % 100 == 0 {
      assert y == 4 * (25 * (y / 100));
    }
  }

  lemma QuotientStep4(y: int)
    ensures y / 4 - (y - 1) / 4 == if y % 4 == 0 then 1 else 0
  {
  }

  lemma QuotientStep100(y: int)
    ensures y / 100 - (y - 1) / 100 == if y % 100 == 0 then 1 else 0
  {
  }

  lemma QuotientStep400(y: int)
    ensures y / 400 - (y - 1) / 400 == if y % 400 == 0 then 1 else 0
  {
  }

  /** Day 0 of the following month lies a whole number of weeks (four or
      five) after day 0 of this month plus its length. */
  lemma MonthBaseStep(year: int, month: int)
    requires 1 <= month <= 12
    ensures var (ny, nm) := FollowingMonth(year, month);
      var gap := MonthBase(year, month) + DaysInMonth(year, month) - MonthBase(ny, nm);
      gap == 28 || gap == 35
  {
    if month == 2 {
      YearTermStep(year);
    }
  }

  /** Numbers that differ by a multiple of seven fall on the same day of the week. */
  lemma SameWeekday(x: int, k: int)
    ensures (x + 7 * k) % 7 == x % 7
  {
  }

  /** `Weekday` agrees with the calendar: the day after a date falls on the
      next day of the week. */
  lemma WeekdayNextDay(d: Date)
    requires IsValidDate(d)
    ensures Weekday(NextDay(d)) == (Weekday(d) + 1) % 7
  {
    if d.day < DaysInMonth(d.year, d.month) {
      NextRemainder(MonthBase(d.year, d.month) + d.day + 1);
    } else {
      WeekdayNextMonth(d.year, d.month);
    }
  }

  /** The 1st of the following month falls on the day of the week after the
      last day of this one. */
  lemma WeekdayNextMonth(year: int, month: int)
    requires 1 <= month <= 12
    ensures var (ny, nm) := FollowingMonth(year, month);
      Weekday(Date(ny, nm, 1)) == (Weekday(Date(year, month, DaysInMonth(year, month))) + 1) % 7
  {
    var (ny, nm) := FollowingMonth(year, month);
    var last := MonthBase(year, month) + DaysInMonth(year, month);
    MonthBaseStep(year, month);
    NextRemainder(last + 1);
    SameWeekday(MonthBase(ny, nm) + 1, (last - MonthBase(ny, nm)) / 7);
  }

  /** A month view always has six rows of seven days. */
  const GridCells := 42

  /** Cell `i` of the month view of `month`, given the day of the week its 1st
      falls on: the last `firstWeekday` days of the previous month, every day
      of the month, then the first days of the next month. */
  function GridCell(year: int, month: int, firstWeekday: int, i: int): Date
    requires 1 <= month <= 12 && 0 <= firstWeekday <= 6
  {
    var n := DaysInMonth(year, month);
    if i < firstWeekday then
      var (py, pm) := PreviousMonth(year, month);
      Date(py, pm, DaysInMonth(py, pm) - firstWeekday + 1 + i)
    else if i < firstWeekday + n then Date(year, month, i - firstWeekday + 1)
    else
      var (ny, nm) := FollowingMonth(year, month);
      Date(ny, nm, i - firstWeekday - n + 1)
  }

  /** The 42 cells of the month view. */
  function MonthGrid(year: int, month: int, firstWeekday: int): (grid: seq<Date>)
    requires 1 <= month <= 12 && 0 <= firstWeekday <= 6
  {
    seq(GridCells, i requires 0 <= i < GridCells => GridCell(year, month, firstWeekday, i))
  }

  /** The grid effect: three loops push the leading, current and trailing days
      into a local list, in that order. */
  method BuildMonthGrid(year: int, month: int, firstWeekday: int) returns (days: seq<Date>)
    requires 1 <= month <= 12 && 0 <= firstWeekday <= 6
    ensures days == MonthGrid(year, month, firstWeekday)
    ensures |days| == GridCells
  {
    days := [];
    var i := firstWeekday - 1;
    while i >= 0
      invariant -1 <= i < firstWeekday
      invariant |days| == firstWeekday - 1 - i
      invariant forall k :: 0 <= k < |days| ==> days[k] == GridCell(year, month, firstWeekday, k)
    {
      days := days + [NewDate(year, month, -i)];
      i := i - 1;
    }
    var lastDay := DaysInMonth(year, month);
    i := 1;
    while i <= lastDay
      invariant 1 <= i <= lastDay + 1
      invariant |days| == firstWeekday + i - 1
      invariant forall k :: 0 <= k < |days| ==> days[k] == GridCell(year, month, firstWeekday, k)
    {
      days := days + [NewDate(year, month, i)];
      i := i + 1;
    }
    var remainingDays := GridCells - |days|;
    i := 1;
    while i <= remainingDays
      invariant 1 <= i <= remainingDays + 1
      invariant |days| == firstWeekday + lastDay + i - 1
      invariant forall k :: 0 <= k < |days| ==> days[k] == GridCell(year, month, firstWeekday, k)
    {
      days := days + [NewDate(year, month + 1, i)];
      i := i + 1;
    }
  }

  /** The shape of the grid: 42 cells, `firstWeekday` of them from the previous
      month and ending on its last day, then days 1..n of the month in order,
      then the next month's days from 1 on. */
  lemma MonthGridShape(year: int, month: int, firstWeekday: int)
    requires 1 <= month <= 12 && 0 <= firstWeekday <= 6
    ensures var grid := MonthGrid(year, month, firstWeekday);
      var (py, pm) := PreviousMonth(year, month);
      var (ny, nm) := FollowingMonth(year, month);
      var n := DaysInMonth(year, month);
      && |grid| == GridCells
      && (forall i :: 0 <= i < firstWeekday ==>
            grid[i] == Date(py, pm, DaysInMonth(py, pm) - firstWeekday + 1 + i))
      && (firstWeekday > 0 ==> grid[firstWeekday - 1] == Date(py, pm, DaysInMonth(py, pm)))
      && (forall i :: firstWeekday <= i < firstWeekday + n ==> grid[i] == Date(year, month, i - firstWeekday + 1))
      && (forall i :: firstWeekday + n <= i < GridCells ==>
            grid[i] == Date(ny, nm, i - firstWeekday - n + 1))
  {
  }

  /** Each cell is a real date and the next cell is the day after it. */
  lemma GridCellStep(year: int, month: int, firstWeekday: int, i: int)
    requires 1 <= month <= 12 && 0 <= firstWeekday <= 6 && 0 <= i < GridCells - 1
    ensures IsValidDate(GridCell(year, month, firstWeekday, i))
    ensures GridCell(year, month, firstWeekday, i + 1) == NextDay(GridCell(year, month, firstWeekday, i))
  {
    var (py, pm) := PreviousMonth(year, month);
    assert FollowingMonth(py, pm) == (year, month);
  }

  /** The 42 cells are 42 consecutive calendar days. */
  lemma MonthGridConsecutive(year: int, month: int, firstWeekday: int)
    requires 1 <= month <= 12 && 0 <= firstWeekday <= 6
    ensures var grid := MonthGrid(year, month, firstWeekday);
      && (forall i :: 0 <= i < |grid| ==> IsValidDate(grid[i]))
      && (forall i :: 0 <= i < |grid| - 1 ==> grid[i + 1] == NextDay(grid[i]))
  {
    var grid := MonthGrid(year, month, firstWeekday);
    forall i | 0 <= i < |grid| - 1
      ensures IsValidDate(grid[i]) && grid[i + 1] == NextDay(grid[i])
    {
      GridCellStep(year, month, firstWeekday, i);
    }
    GridCellStep(year, month, firstWeekday, GridCells - 2);
  }

  /** When the 1st's day of the week is computed by `Weekday`, every cell lands
      in the column of its own day of the week (column 0 = Sunday). */
  lemma MonthGridWeekdays(year: int, month: int)
    requires 1 <= month <= 12
    ensures var grid := MonthGrid(year, month, Weekday(Date(year, month, 1)));
      forall i :: 0 <= i < |grid| ==> IsValidDate(grid[i]) && Weekday(grid[i]) == i % 7
  {
    var grid := MonthGrid(year, month, Weekday(Date(year, month, 1)));
    forall i | 0 <= i < |grid| ensures IsValidDate(grid[i]) && Weekday(grid[i]) == i % 7 {
      CellWeekday(year, month, i);
    }
  }

  /** One cell of the month view lands in the column of its day of the week. */
  lemma CellWeekday(year: int, month: int, i: int)
    requires 1 <= month <= 12 && 0 <= i < GridCells
    ensures var cell := GridCell(year, month, Weekday(Date(year, month, 1)), i);
      IsValidDate(cell) && Weekday(cell) == i % 7
  {
    if i >= Weekday(Date(year, month, 1)) {
      CellWeekdayForward(year, month, i);
    } else {
      CellWeekdayBackward(year, month, i);
    }
  }

  /** Counting forwards from the 1st, one day per cell. */
  lemma {:induction false} CellWeekdayForward(year: int, month: int, i: int)
    requires 1 <= month <= 12 && Weekday(Date(year, month, 1)) <= i < GridCells
    ensures var cell := GridCell(year, month, Weekday(Date(year, month, 1)), i);
      IsValidDate(cell) && Weekday(cell) == i % 7
    decreases i
  {
    var fw := Weekday(Date(year, month, 1));
    if i > fw {
      CellWeekdayForward(year, month, i - 1);
      GridCellStep(year, month, fw, i - 1);
      NextColumn(GridCell(year, month, fw, i - 1), i);
    }
  }

  /** The day after a date in column `i - 1` is in column `i`. */
  lemma NextColumn(d: Date, i: int)
    requires IsValidDate(d) && Weekday(d) == (i - 1) % 7
    ensures Weekday(NextDay(d)) == i % 7
  {
    WeekdayNextDay(d);
    NextRemainder(i);
  }

  /** Counting backwards from the 1st, within the first week. */
  lemma {:induction false} CellWeekdayBackward(year: int, month: int, i: int)
    requires 1 <= month <= 12 && 0 <= i <= Weekday(Date(year, month, 1))
    ensures var cell := GridCell(year, month, Weekday(Date(year, month, 1)), i);
      IsValidDate(cell) && Weekday(cell) == i
    decreases Weekday(Date(year, month, 1)) - i
  {
    var fw := Weekday(Date(year, month, 1));
    if i < fw {
      CellWeekdayBackward(year, month, i + 1);
      var cell := GridCell(year, month, fw, i);
      GridCellStep(year, month, fw, i);
      WeekdayNextDay(cell);
      PreviousColumn(Weekday(cell), i);
    }
  }

  /** Within one week, the day before column `i + 1` is column `i`. */
  lemma PreviousColumn(w: int, i: int)
    requires 0 <= w <= 6 && 0 <= i < 6 && (w + 1) % 7 == i + 1
    ensures w == i
  {
  }

  lemma NextRemainder(i: int)
    ensures ((i - 1) % 7 + 1) % 7 == i % 7
  {
  }

  /** A calendar reminder; its `date` key stands for the `YYYY-MM-DD` string. */
  datatype Reminder = Reminder(
    id: string, name: string, time: string, date: Date,
    dosage: string, status: DoseStatus, notes: Option<string>)

  /** `getRemindersForDate`: exactly the reminders keyed to `date`, in list
      order, each as often as it occurs. */
  function RemindersForDate(reminders: seq<Reminder>, date: Date): (r: seq<Reminder>)
    ensures Lists.IsSubsequence(r, reminders)
    ensures forall x :: multiset(r)[x] == if x.date == date then multiset(reminders)[x] else 0
    ensures forall i :: 0 <= i < |r| ==> r[i].date == date
  {
    Lists.Filter(reminders, (x: Reminder) => x.date == date)
  }

  /** `hasReminders`: some reminder is keyed to `date`. */
  function HasReminders(reminders: seq<Reminder>, date: Date): (b: bool)
    ensures b <==> exists i :: 0 <= i < |reminders| && reminders[i].date == date
  {
    var r := RemindersForDate(reminders, date);
    assert r != [] ==> r[0] in multiset(r);
    |r| > 0
  }

  /** `handleMarkAsTaken`: every reminder with `id` becomes taken and keeps its
      other fields; all other reminders stay as they are, in place. */
  function MarkAsTaken(reminders: seq<Reminder>, id: string): (r: seq<Reminder>)
    ensures |r| == |reminders|
    ensures forall i :: 0 <= i < |r| ==>
      if reminders[i].id == id then r[i] == reminders[i].(status := Taken) else r[i] == reminders[i]
  {
    Lists.ReplaceWhere(reminders, (x: Reminder) => x.id == id, (x: Reminder) => x.(status := Taken))
  }

  /** Marking a dose taken twice is marking it once. */
  lemma MarkAsTakenIdempotent(reminders: seq<Reminder>, id: string)
    ensures MarkAsTaken(MarkAsTaken(reminders, id), id) == MarkAsTaken(reminders, id)
  {
  }

  /** Marking an id no reminder has changes nothing. */
  lemma MarkAsTakenUnknownId(reminders: seq<Reminder>, id: string)
    requires forall i :: 0 <= i < |reminders| ==> reminders[i].id != id
    ensures MarkAsTaken(reminders, id) == reminders
  {
  }

  /** The selected date moved by one month as `setMonth(getMonth() + delta)`
      does it: the day of the month is kept, and when the target month is too
      short for it the excess days spill into the month after the target. */
  function SetMonthAsWritten(d: Date, delta: int): (r: Date)
    requires IsValidDate(d) && (delta == 1 || delta == -1)
    ensures IsValidDate(r)
    ensures MonthNumber(r.year, r.month) == MonthNumber(d.year, d.month) + delta
      <==> d.day <= DaysInMonth(TargetMonth(d, delta).0, TargetMonth(d, delta).1)
    ensures var (ty, tm) := TargetMonth(d, delta);
      var n := DaysInMonth(ty, tm);
      && (d.day <= n ==> r == Date(ty, tm, d.day))
      && (d.day > n ==> r == Date(FollowingMonth(ty, tm).0, FollowingMonth(ty, tm).1, d.day - n))
  {
    var (ty, tm) := TargetMonth(d, delta);
    var n := DaysInMonth(ty, tm);
    if d.day <= n then Date(ty, tm, d.day)
    else
      var (ay, am) := FollowingMonth(ty, tm);
      Date(ay, am, d.day - n)
  }

  function TargetMonth(d: Date, delta: int): (r: (int, int))
    requires 1 <= d.month <= 12 && (delta == 1 || delta == -1)
    ensures 1 <= r.1 <= 12
    ensures MonthNumber(r.0, r.1) == MonthNumber(d.year, d.month) + delta
  {
    if delta == 1 then FollowingMonth(d.year, d.month) else PreviousMonth(d.year, d.month)
  }

  /** From 31 January "next month" lands on 3 March, and from 31 March
      "previous month" stays in March. */
  lemma SetMonthAsWrittenSkipsMonths()
    ensures SetMonthAsWritten(Date(2025, 1, 31), 1) == Date(2025, 3, 3)
    ensures SetMonthAsWritten(Date(2025, 3, 31), -1) == Date(2025, 3, 3)
  {
  }

  /** Month navigation as intended: the month moves by exactly one, carrying
      into the year at December and January, and the day is kept when the
      target month has it and otherwise becomes the target month's last day. */
  function ShiftMonth(d: Date, delta: int): (r: Date)
    requires IsValidDate(d) && (delta == 1 || delta == -1)
    ensures IsValidDate(r)
    ensures MonthNumber(r.year, r.month) == MonthNumber(d.year, d.month) + delta
    ensures r.day == if d.day <= DaysInMonth(r.year, r.month) then d.day else DaysInMonth(r.year, r.month)
  {
    var (ty, tm) := TargetMonth(d, delta);
    var n := DaysInMonth(ty, tm);
    Date(ty, tm, if d.day <= n then d.day else n)
  }

  /** Where the day exists in the target month the intended navigation and the
      one as written agree. */
  lemma ShiftMonthAgreesWhenDayExists(d: Date, delta: int)
    requires IsValidDate(d) && (delta == 1 || delta == -1)
    requires d.day <= DaysInMonth(TargetMonth(d, delta).0, TargetMonth(d, delta).1)
    ensures ShiftMonth(d, delta) == SetMonthAsWritten(d, delta)
  {
  }

  /** The calendar screen's state: the selected date, the reminders and the
      grid of the selected date's month. */
  class CalendarScreen {
    var selectedDate: Date
    var reminders: seq<Reminder>
    var days: seq<Date>

    ghost predicate Valid()
      reads this
    {
      && IsValidDate(selectedDate)
      && days == MonthGrid(selectedDate.year, selectedDate.month,
                           Weekday(Date(selectedDate.year, selectedDate.month, 1)))
    }

    constructor (today: Date, initial: seq<Reminder>)
      requires IsValidDate(today)
      ensures Valid() && selectedDate == today && reminders == initial
    {
      var grid := BuildMonthGrid(today.year, today.month, Weekday(Date(today.year, today.month, 1)));
      selectedDate := today;
      reminders := initial;
      days := grid;
    }

    /** The effect that rebuilds the grid whenever the selected date changes. */
    method RefreshGrid()
      requires IsValidDate(selectedDate)
      modifies this`days
      ensures Valid()
    {
      days := BuildMonthGrid(selectedDate.year, selectedDate.month,
                             Weekday(Date(selectedDate.year, selectedDate.month, 1)));
    }

    /** `handleSelectDate`. */
    method SelectDate(date: Date)
      requires Valid() && IsValidDate(date)
      modifies this
      ensures Valid() && selectedDate == date && reminders == old(reminders)
    {
      selectedDate := date;
      RefreshGrid();
    }

    /** `navigateToNextMonth`, with the day clamped to the target month. */
    method NavigateToNextMonth()
      requires Valid()
      modifies this
      ensures Valid() && selectedDate == ShiftMonth(old(selectedDate), 1)
      ensures reminders == old(reminders)
    {
      selectedDate := ShiftMonth(selectedDate, 1);
      RefreshGrid();
    }

    /** `navigateToPreviousMonth`, with the day clamped to the target month. */
    method NavigateToPreviousMonth()
      requires Valid()
      modifies this
      ensures Valid() && selectedDate == ShiftMonth(old(selectedDate), -1)
      ensures reminders == old(reminders)
    {
      selectedDate := ShiftMonth(selectedDate, -1);
      RefreshGrid();
    }

    /** `handleMarkAsTaken`. */
    method MarkReminderTaken(id: string)
      requires Valid()
      modifies this`reminders
      ensures Valid() && reminders == MarkAsTaken(old(reminders), id)
    {
      reminders := MarkAsTaken(reminders, id);
    }

    /** The reminders listed under the selected date: exactly those keyed to
        it, in list order; the list is empty exactly when the date carries no
        reminder dot. */
    function SelectedDateReminders(): (r: seq<Reminder>)
      reads this
      ensures Lists.IsSubsequence(r, reminders)
      ensures forall x :: multiset(r)[x] == if x.date == selectedDate then multiset(reminders)[x] else 0
      ensures r != [] <==> HasReminders(reminders, selectedDate)
    {
      RemindersForDate(reminders, selectedDate)
    }
  }
}
