/**
 * The home screen's year and month progress data. Calendar arithmetic on
 * `Date` is abstracted away: each grid is built from the number of days in
 * the period and the number of whole days elapsed since it began.
 */
module CalendarData {
  import opened Decimal
  import opened CalendarTypes

  /** `Math.min(elapsed + 1, total)`: today counts as begun. */
  function CompletedDays(elapsed: int, total: nat): (c: int)
    ensures c <= total
    ensures c == elapsed + 1 || c == total
    ensures c == total <==> elapsed + 1 >= total
  {
    if elapsed + 1 < total then elapsed + 1 else total
  }

  /** `Math.max(total - completed, 0)`. */
  function RemainingDays(total: nat, completed: int): (r: nat)
    ensures completed <= total ==> completed + r == total
    ensures completed > total ==> r == 0
  {
    if total - completed > 0 then total - completed else 0
  }

  /** `Array.from({length: total}, (_, index) => ({index, isCompleted: index < completed}))`. */
  function DayCells(total: nat, completed: int): (cells: seq<DayCell>)
    ensures |cells| == total
  {
    seq(total, i requires 0 <= i < total => DayCell(i, i < completed))
  }

  /** "`n` day left this `period`" for one day, "`n` days left this `period`" otherwise. */
  function DaysLeftLabel(remaining: nat, period: string): string {
    Show(remaining) + DaysLeftTail(remaining, period)
  }

  /** What follows the count: `` day${remaining === 1 ? '' : 's'} left this ${period}``. */
  function DaysLeftTail(remaining: nat, period: string): string {
    " day" + (if remaining == 1 then "" else "s") + " left this " + period
  }

  /** One grid's data: the cells, the column count and the label. */
  function GridData(total: nat, elapsed: int, columns: nat, period: string): CalendarGridData {
    var completed := CompletedDays(elapsed, total);
    CalendarGridData(DayCells(total, completed), columns, DaysLeftLabel(RemainingDays(total, completed), period))
  }

  function YearData(totalDaysInYear: nat, daysElapsedInYear: int): CalendarGridData {
    GridData(totalDaysInYear, daysElapsedInYear, GridColumnsYear, "year")
  }

  function MonthData(totalDaysInMonth: nat, daysElapsedInMonth: int): CalendarGridData {
    GridData(totalDaysInMonth, daysElapsedInMonth, GridColumnsMonth, "month")
  }

  /** The `calendarData` record, keyed by grid mode. */
  function CalendarDataFor(totalDaysInYear: nat, daysElapsedInYear: int,
                           totalDaysInMonth: nat, daysElapsedInMonth: int): (data: map<GridMode, CalendarGridData>)
    ensures data.Keys == {Year, Month}
    ensures data[Year].gridColumns == 20 && data[Month].gridColumns == 7
    ensures |data[Year].dayCells| == totalDaysInYear && |data[Month].dayCells| == totalDaysInMonth
  {
    map[Year := YearData(totalDaysInYear, daysElapsedInYear),
        Month := MonthData(totalDaysInMonth, daysElapsedInMonth)]
  }

  /** How many cells of a grid are marked completed. */
  function CountCompleted(cells: seq<DayCell>): (n: nat)
    ensures n <= |cells|
  {
    if cells == [] then 0
    else CountCompleted(cells[..|cells| - 1]) + (if cells[|cells| - 1].isCompleted then 1 else 0)
  }

  /**
   * A grid has one cell per day, cell i sits at index i, the completed cells
   * are exactly a prefix of the grid, and together with the remaining days
   * they account for every day of the period.
   */
  lemma GridShape(total: nat, elapsed: int, columns: nat, period: string)
    ensures var d := GridData(total, elapsed, columns, period);
      var completed := CompletedDays(elapsed, total);
      && |d.dayCells| == total
      && d.gridColumns == columns
      && (forall i :: 0 <= i < total ==> d.dayCells[i].index == i)
      && (forall i :: 0 <= i < total ==> (d.dayCells[i].isCompleted <==> i < completed))
      && (forall i, j :: 0 <= i <= j < total && d.dayCells[j].isCompleted ==> d.dayCells[i].isCompleted)
      && completed + RemainingDays(total, completed) == total
  {
  }

  /** The number of completed cells is the completed-day count, clamped to 0..total. */
  lemma {:induction false} CompletedCount(total: nat, completed: int)
    ensures CountCompleted(DayCells(total, completed)) ==
      if completed < 0 then 0 else if completed > total then total else completed
    decreases total
  {
    var cells := DayCells(total, completed);
    if total > 0 {
      assert cells[..total - 1] == DayCells(total - 1, completed);
      CompletedCount(total - 1, completed);
    }
  }

  /**
   * On any day inside the period (0 <= elapsed < total) the completed and
   * remaining cells partition the grid, and at least today is completed.
   */
  lemma CompletedAndRemaining(total: nat, elapsed: int, columns: nat, period: string)
    requires 0 <= elapsed < total
    ensures var d := GridData(total, elapsed, columns, period);
      && CountCompleted(d.dayCells) == elapsed + 1
      && CountCompleted(d.dayCells) + RemainingDays(total, CompletedDays(elapsed, total)) == total
  {
    CompletedCount(total, CompletedDays(elapsed, total));
  }

  /**
   * The label reads "`n` day left this `period`" when one day remains and
   * "`n` days left this `period`" otherwise.
   */
  lemma DaysLeftLabelForm(remaining: nat, period: string)
    ensures remaining == 1 ==> DaysLeftLabel(remaining, period) == Show(remaining) + " day left this " + period
    ensures remaining != 1 ==> DaysLeftLabel(remaining, period) == Show(remaining) + " days left this " + period
  {
    var tail := DaysLeftTail(remaining, period);
    if remaining == 1 {
      assert tail == " day left this " + period;
    } else {
      assert tail == " days left this " + period;
    }
  }

  /** The label starts with the count it was made from, which can be read back. */
  lemma DaysLeftCount(remaining: nat, period: string)
    ensures LeadingNumber(DaysLeftLabel(remaining, period)) == remaining
  {
    var tail := DaysLeftTail(remaining, period);
    assert tail[0] == ' ';
    LeadingNumberOfShow(remaining, tail);
  }

  /** `Math.max(1000, startOfNextDay - now)`: the midnight refresh never fires sooner than a second. */
  function RefreshTimeout(nowMs: int, startOfNextDayMs: int): (t: int)
    ensures t >= 1000 && t >= startOfNextDayMs - nowMs
    ensures t == 1000 || t == startOfNextDayMs - nowMs
  {
    if startOfNextDayMs - nowMs > 1000 then startOfNextDayMs - nowMs else 1000
  }
}
