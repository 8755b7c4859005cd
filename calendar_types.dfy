/**
 * The value types and constants the calendar components share: the two grid
 * modes, the counter label's slide direction, a day cell and the data one grid
 * is drawn from.
 */
module CalendarTypes {

  datatype GridMode = Year | Month

  datatype Direction = Up | Down

  /** One dot of a grid: its position and whether that day has begun. */
  datatype DayCell = DayCell(index: nat, isCompleted: bool)

  /** Everything one grid (year or month) is rendered from. */
  datatype CalendarGridData = CalendarGridData(
    dayCells: seq<DayCell>,
    gridColumns: nat,
    daysRemainingLabel: string)

  const GridColumnsYear: nat := 20
  const GridColumnsMonth: nat := 7
  const GridSpacing: nat := 4
  const DoubleTapDelay: int := 300

  /** The mode a double tap switches to. */
  function OtherMode(m: GridMode): (r: GridMode)
    ensures r != m
  {
    if m == Year then Month else Year
  }
}
