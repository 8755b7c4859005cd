/**
 * The double-tap calendar view: the pixel grid's row, column and margin
 * arithmetic, and the view's mode-switching state machine with its
 * double-tap detector.
 */
module OrganismsCalendar {
  import opened Wrappers
  import opened CalendarTypes
  import CalendarData

  /** `Math.ceil(cellCount / gridColumns)`. */
  function TotalRows(cellCount: nat, columns: nat): (rows: nat)
    requires columns > 0
  {
    (cellCount + columns - 1) / columns
  }

  /** TotalRows is the ceiling: the rows hold every cell and the last row is not empty. */
  lemma TotalRowsIsCeiling(cellCount: nat, columns: nat)
    requires columns > 0
    ensures var rows := TotalRows(cellCount, columns);
      && rows * columns >= cellCount
      && (cellCount > 0 ==> (rows - 1) * columns < cellCount)
      && (rows == 0 <==> cellCount == 0)
  {
    var rows := TotalRows(cellCount, columns);
    var q, r := (cellCount + columns - 1) / columns, (cellCount + columns - 1) % columns;
    assert cellCount + columns - 1 == q * columns + r;
    assert rows * columns == cellCount + columns - 1 - r;
  }

  function ColumnIndex(index: nat, columns: nat): nat
    requires columns > 0
  {
    index % columns
  }

  function RowIndex(index: nat, columns: nat): nat
    requires columns > 0
  {
    index / columns
  }

  /** Every cell of the grid lands on a column of the grid and a row of the grid. */
  lemma CellPosition(index: nat, cellCount: nat, columns: nat)
    requires columns > 0 && index < cellCount
    ensures ColumnIndex(index, columns) < columns
    ensures RowIndex(index, columns) < TotalRows(cellCount, columns)
    ensures RowIndex(index, columns) * columns + ColumnIndex(index, columns) == index
  {
    var row, rows := RowIndex(index, columns), TotalRows(cellCount, columns);
    assert row * columns + index % columns == index;
    TotalRowsIsCeiling(cellCount, columns);
    MulCancel(row, rows, columns);
  }

  lemma MulCancel(a: nat, b: nat, c: nat)
    requires a * c < b * c
    ensures a < b
  {
    if a >= b {
      MulMonotone(b, a, c);
    }
  }

  /** A cell is in the last row exactly when its index reaches the last row's first index. */
  lemma LastRowStart(index: nat, cellCount: nat, columns: nat)
    requires columns > 0 && index < cellCount
    ensures RowIndex(index, columns) == TotalRows(cellCount, columns) - 1
      <==> index >= (TotalRows(cellCount, columns) - 1) * columns
  {
    var rows := TotalRows(cellCount, columns);
    var row := RowIndex(index, columns);
    CellPosition(index, cellCount, columns);
    assert row * columns <= index < (row + 1) * columns;
    if row < rows - 1 {
      MulMonotone(row + 1, rows - 1, columns);
    }
  }

  lemma MulMonotone(a: nat, b: nat, c: nat)
    requires a <= b
    ensures a * c <= b * c
  {
  }

  datatype DotColor = Filled | Upcoming

  /** What the view draws for one cell besides its size. */
  datatype CellStyle = CellStyle(marginRight: nat, marginBottom: nat, opacity: real, color: DotColor)

  /** The style of one cell of a grid with `totalRows` rows. */
  function StyleOf(cell: DayCell, columns: nat, totalRows: nat): (s: CellStyle)
    requires columns > 0
    ensures s.marginRight == 0 <==> ColumnIndex(cell.index, columns) == columns - 1
    ensures s.marginBottom == 0 <==> RowIndex(cell.index, columns) == totalRows - 1
    ensures s.marginRight == 0 || s.marginRight == GridSpacing
    ensures s.marginBottom == 0 || s.marginBottom == GridSpacing
    ensures cell.isCompleted <==> s.opacity == 1.0 && s.color == Filled
    ensures !cell.isCompleted <==> s.opacity == 0.5 && s.color == Upcoming
  {
    CellStyle(
      if ColumnIndex(cell.index, columns) == columns - 1 then 0 else GridSpacing,
      if RowIndex(cell.index, columns) == totalRows - 1 then 0 else GridSpacing,
      if cell.isCompleted then 1.0 else 0.5,
      if cell.isCompleted then Filled else Upcoming)
  }

  /** The styles of all cells, in order (`data.dayCells.map(...)`). */
  function GridStyles(data: CalendarGridData): (styles: seq<CellStyle>)
    requires data.gridColumns > 0
    ensures |styles| == |data.dayCells|
  {
    var rows := TotalRows(|data.dayCells|, data.gridColumns);
    seq(|data.dayCells|, i requires 0 <= i < |data.dayCells| => StyleOf(data.dayCells[i], data.gridColumns, rows))
  }

  /**
   * In a grid built for the home screen the cells with no bottom margin are
   * exactly the ones of the last, possibly partial, row, and the cells with
   * no right margin are exactly those in the last column.
   */
  lemma MarginsOfGrid(total: nat, elapsed: int, columns: nat, period: string, i: nat)
    requires columns > 0 && i < total
    ensures var d := CalendarData.GridData(total, elapsed, columns, period);
      var s := GridStyles(d)[i];
      && (s.marginBottom == 0 <==> i >= (TotalRows(total, columns) - 1) * columns)
      && (s.marginRight == 0 <==> i % columns == columns - 1)
  {
    var d := CalendarData.GridData(total, elapsed, columns, period);
    CalendarData.GridShape(total, elapsed, columns, period);
    assert d.dayCells[i].index == i;
    LastRowStart(i, total, columns);
  }

  /** The view state of `CalendarView`: the React state cells and the last-tap ref. */
  class CalendarView {
    var gridMode: GridMode
    var previousMode: Option<GridMode>
    var isSwitchingModes: bool
    var labelDirection: Direction
    var lastTap: int

    /** A switch is in progress exactly while the mode being left is remembered, and it is never the current one. */
    ghost predicate Valid()
      reads this
    {
      && (isSwitchingModes <==> previousMode.Some?)
      && (previousMode.Some? ==> previousMode.value != gridMode)
    }

    constructor ()
      ensures Valid()
      ensures gridMode == Year && previousMode == None && !isSwitchingModes
      ensures labelDirection == Down && lastTap == 0
    {
      gridMode := Year;
      previousMode := None;
      isSwitchingModes := false;
      labelDirection := Down;
      lastTap := 0;
    }

    /** `handleGridModeChange`: ignored for the current mode or while a switch runs. */
    method HandleGridModeChange(mode: GridMode)
      requires Valid()
      modifies this`gridMode, this`previousMode, this`isSwitchingModes, this`labelDirection
      ensures Valid()
      ensures mode == old(gridMode) || old(isSwitchingModes) ==>
        gridMode == old(gridMode) && previousMode == old(previousMode)
        && isSwitchingModes == old(isSwitchingModes) && labelDirection == old(labelDirection)
      ensures mode != old(gridMode) && !old(isSwitchingModes) ==>
        && gridMode == mode && previousMode == Some(old(gridMode)) && isSwitchingModes
        && (labelDirection == Up <==> mode == Year)
    {
      if mode == gridMode || isSwitchingModes {
        return;
      }
      isSwitchingModes := true;
      previousMode := Some(gridMode);
      labelDirection := if mode == Year then Up else Down;
      gridMode := mode;
    }

    /** `toggleGridMode`: ask for the mode that is not shown. */
    method ToggleGridMode()
      requires Valid()
      modifies this`gridMode, this`previousMode, this`isSwitchingModes, this`labelDirection
      ensures Valid()
      ensures old(isSwitchingModes) ==>
        gridMode == old(gridMode) && previousMode == old(previousMode)
        && isSwitchingModes && labelDirection == old(labelDirection)
      ensures !old(isSwitchingModes) ==>
        gridMode == OtherMode(old(gridMode)) && previousMode == Some(old(gridMode)) && isSwitchingModes
        && (labelDirection == Up <==> gridMode == Year)
    {
      HandleGridModeChange(OtherMode(gridMode));
    }

    /** `handleGridDoubleTap`. */
    method HandleGridDoubleTap()
      requires Valid()
      modifies this`gridMode, this`previousMode, this`isSwitchingModes, this`labelDirection
      ensures Valid()
      ensures old(isSwitchingModes) ==>
        gridMode == old(gridMode) && previousMode == old(previousMode)
        && isSwitchingModes && labelDirection == old(labelDirection)
      ensures !old(isSwitchingModes) ==>
        gridMode == OtherMode(old(gridMode)) && previousMode == Some(old(gridMode)) && isSwitchingModes
        && (labelDirection == Up <==> gridMode == Year)
    {
      if isSwitchingModes {
        return;
      }
      ToggleGridMode();
    }

    /**
     * `handleGridPress` at time `now` (`Date.now()`): a press within 300 ms of
     * the recorded one is a double tap, clears the record and switches mode;
     * any other press becomes the recorded one.
     */
    method HandleGridPress(now: int)
      requires Valid()
      modifies this
      ensures Valid()
      ensures now - old(lastTap) < DoubleTapDelay ==>
        && lastTap == 0
        && (old(isSwitchingModes) ==>
              gridMode == old(gridMode) && previousMode == old(previousMode) && labelDirection == old(labelDirection))
        && (!old(isSwitchingModes) ==>
              && gridMode == OtherMode(old(gridMode)) && previousMode == Some(old(gridMode))
              && (labelDirection == Up <==> gridMode == Year))
        && isSwitchingModes
      ensures now - old(lastTap) >= DoubleTapDelay ==>
        && lastTap == now
        && gridMode == old(gridMode) && previousMode == old(previousMode)
        && isSwitchingModes == old(isSwitchingModes) && labelDirection == old(labelDirection)
    {
      if now - lastTap < DoubleTapDelay {
        lastTap := 0;
        HandleGridDoubleTap();
      } else {
        lastTap := now;
      }
    }

    /** `finishGridTransition`: the old grid has faded out. */
    method FinishGridTransition()
      requires Valid()
      modifies this`previousMode, this`isSwitchingModes
      ensures Valid()
      ensures previousMode == None && !isSwitchingModes
    {
      previousMode := None;
      isSwitchingModes := false;
    }
  }
}
