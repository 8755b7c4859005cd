/**
 * The button-driven calendar view: the same guarded mode switch as the
 * double-tap view, driven by a Year/Month segmented control whose inactive
 * button is disabled while a switch runs, over percentage-width grid cells.
 */
module UiCalendar {
  import opened Wrappers
  import opened CalendarTypes

  datatype DotColor = Filled | Upcoming

  /** A cell's opacity and dot colour. */
  datatype CellLook = CellLook(opacity: real, color: DotColor)

  function LookOf(cell: DayCell): (look: CellLook)
    ensures cell.isCompleted <==> look == CellLook(1.0, Filled)
    ensures !cell.isCompleted <==> look == CellLook(0.5, Upcoming)
  {
    if cell.isCompleted then CellLook(1.0, Filled) else CellLook(0.5, Upcoming)
  }

  /** The view state of this `CalendarView`. */
  class CalendarView {
    var gridMode: GridMode
    var previousMode: Option<GridMode>
    var isSwitchingModes: bool
    var labelDirection: Direction

    /** A switch is in progress exactly while the mode being left is remembered, and it is never the current one. */
    ghost predicate Valid()
      reads this
    {
      && (isSwitchingModes <==> previousMode.Some?)
      && (previousMode.Some? ==> previousMode.value != gridMode)
    }

    constructor ()
      ensures Valid()
      ensures gridMode == Year && previousMode == None && !isSwitchingModes && labelDirection == Down
    {
      gridMode := Year;
      previousMode := None;
      isSwitchingModes := false;
      labelDirection := Down;
    }

    /** `handleGridModeChange`, called by a mode button's press. */
    method HandleGridModeChange(mode: GridMode)
      requires Valid()
      modifies this
      ensures Valid()
      ensures mode == old(gridMode) || old(isSwitchingModes) ==>
        gridMode == old(gridMode) && previousMode == old(previousMode)
        && isSwitchingModes == old(isSwitchingModes) && labelDirection == old(labelDirection)
      ensures mode != old(gridMode) && !old(isSwitchingModes) ==>
        && gridMode == mode && previousMode == Some(old(gridMode)) && isSwitchingModes
        && (labelDirection == Up <==> mode == Year)
    {
      if mode == gridMode || isSwitchingModes {
        return;
      }
      isSwitchingModes := true;
      previousMode := Some(gridMode);
      labelDirection := if mode == Year then Up else Down;
      gridMode := mode;
    }

    /** `finishGridTransition`. */
    method FinishGridTransition()
      requires Valid()
      modifies this
      ensures Valid()
      ensures previousMode == None && !isSwitchingModes
      ensures gridMode == old(gridMode) && labelDirection == old(labelDirection)
    {
      previousMode := None;
      isSwitchingModes := false;
    }

    /**
     * `disabled={isSwitchingModes && !isActive}`. In a consistent view the
     * disabled button is exactly the one of the mode being left, so no
     * button is disabled when no switch runs.
     */
    function ModeButtonDisabled(mode: GridMode): (disabled: bool)
      reads this
      requires Valid()
      ensures disabled <==> previousMode == Some(mode)
      ensures disabled ==> mode != gridMode
    {
      isSwitchingModes && mode != gridMode
    }
  }
}
