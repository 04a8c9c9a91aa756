/**
 * GridChild: an object that lives on a grid.  It owns a GridParent while it is
 * on a grid and, when grid interest is enabled, keeps one tagged interest that
 * follows it from cell to cell.  The repository's interest calls are recorded as
 * requests; the handle a new tagged interest gets is a parameter.
 */
module GridChildModel {
  import opened Wrappers
  import opened GridParentModel

  /** An interest call made on the client repository. */
  datatype InterestRequest =
    | AddTagged(parentId: nat, zoneId: int)
    | Alter(handle: nat, parentId: nat, zoneId: int)
    | RemoveTagged(handle: nat)

  datatype ChildFault = AttributeError

  datatype ChildStatus = Finished | Failed(fault: ChildFault)

  /**
   * `if self._gridInterest:` as Python reads it: no handle and handle 0 are both
   * false, so only a nonzero handle counts as an open grid interest.
   */
  predicate IsOpen(handle: Option<nat>)
  {
    handle.Some? && handle.value != 0
  }

  class GridChild {
    /** The holder between this object and its grid, while on a grid. */
    var gridParent: GridParent?
    var gridInterestEnabled: bool
    /** The handle of the tagged grid interest, if one was recorded (see IsOpen). */
    var gridInterest: Option<nat>
    /** Interest calls made so far, in order. */
    var requests: seq<InterestRequest>
    /** The object's scene-graph parent while it has no grid parent. */
    var sceneParent: Option<NodeId>
    const doId: nat
    const origins: CellOrigins

    /** The grid parent, when there is one, holds this object and shares the class-level tables. */
    ghost predicate Linked()
      reads this, gridParent, origins
    {
      origins.Valid() &&
      (gridParent != null ==>
        gridParent.origins == origins && gridParent.Valid() && gridParent.child == Some(doId))
    }

    /** Between calls, a grid parent always has a cell. */
    ghost predicate Valid()
      reads this, gridParent, origins
    {
      Linked() && (gridParent != null ==> gridParent.grid.Some?)
    }

    constructor (doId: nat, sceneParent: Option<NodeId>, origins: CellOrigins)
      requires origins.Valid()
      ensures Valid() && this.doId == doId && this.origins == origins && this.sceneParent == sceneParent
      ensures gridParent == null && !gridInterestEnabled && gridInterest.None? && requests == []
    {
      this.doId := doId;
      this.origins := origins;
      this.sceneParent := sceneParent;
      gridParent := null;
      gridInterestEnabled := false;
      gridInterest := None;
      requests := [];
    }

    /** isOnAGrid. */
    predicate IsOnAGrid()
      reads this
    {
      gridParent != null
    }

    /** getGrid as written: GridParent has no getGrid, so any grid parent makes the call fail. */
    function GetGridAsWritten(): (r: Result<Option<Grid>, ChildFault>)
      reads this
      ensures r.Ok? <==> gridParent == null
      ensures r.Ok? ==> r.value.None?
    {
      if gridParent != null then Err(AttributeError) else Ok(None)
    }

    /** getGrid as intended: the grid parent's grid, or None off the grid. */
    function GetGrid(): (r: Option<Grid>)
      reads this, gridParent, origins
      requires Valid()
      ensures r.None? <==> !IsOnAGrid()
      ensures r.Some? ==> r == gridParent.grid
    {
      if gridParent != null then gridParent.grid else None
    }

    /** getGridZone as written fails in the same way as getGrid. */
    function GetGridZoneAsWritten(): (r: Result<Option<int>, ChildFault>)
      reads this
      ensures r.Ok? <==> gridParent == null
      ensures r.Ok? ==> r.value.None?
    {
      if gridParent != null then Err(AttributeError) else Ok(None)
    }

    /** getGridZone as intended. */
    function GetGridZone(): (r: Option<int>)
      reads this, gridParent, origins
      requires Valid()
      ensures r.None? <==> !IsOnAGrid()
      ensures r.Some? ==> r == gridParent.zoneId
    {
      if gridParent != null then gridParent.zoneId else None
    }

    /**
     * __setGridParent: the old grid parent is deleted only when it is replaced
     * by a different object.
     */
    method SetGridParent(gp: GridParent?)
      requires Linked()
      requires gp != null ==> gp.origins == origins && gp.Valid() && gp.child == Some(doId) && gp.grid.None?
      modifies this`gridParent, this`sceneParent, gridParent, origins
      ensures Linked() && gridParent == gp
      ensures old(gridParent) == gp ==> origins.State() == old(origins.State()) && sceneParent == old(sceneParent)
      ensures old(gridParent) != null && old(gridParent) != gp ==>
        old(gridParent).child.None? && old(gridParent).grid.None? && sceneParent == old(gridParent).childParent &&
        sceneParent == (if old(gridParent.childParent) == Some(old(gridParent.cellOrigin)) then None else old(gridParent.childParent)) &&
        (old(gridParent.grid).Some? ==>
          var r := Release(old(origins.State()), Cell(old(gridParent.grid).value, old(gridParent.zoneId).value));
          r.Ok? && origins.State() == r.value.0)
      ensures old(gridParent) == null ==> origins.State() == old(origins.State()) && sceneParent == old(sceneParent)
    {
      if gridParent != null && gridParent != gp {
        gridParent.Delete();
        sceneParent := gridParent.childParent;
      }
      gridParent := gp;
    }

    /**
     * __clearGridInterest as written: it reads `gridInterest` without the
     * leading underscore, an attribute that does not exist, so an open interest
     * is never removed.
     */
    method ClearGridInterestAsWritten() returns (status: ChildStatus)
      modifies this`gridInterest, this`requests
      ensures IsOpen(old(gridInterest)) ==> status == Failed(AttributeError)
      ensures !IsOpen(old(gridInterest)) ==> status.Finished?
      ensures gridInterest == old(gridInterest) && requests == old(requests)
    {
      if IsOpen(gridInterest) {
        return Failed(AttributeError);
      }
      status := Finished;
    }

    /**
     * __clearGridInterest as intended: an open interest is removed and forgotten;
     * a handle 0 is not open and stays recorded.
     */
    method ClearGridInterest()
      modifies this`gridInterest, this`requests
      ensures !IsOpen(gridInterest)
      ensures IsOpen(old(gridInterest)) ==> gridInterest.None? && requests == old(requests) + [RemoveTagged(old(gridInterest).value)]
      ensures !IsOpen(old(gridInterest)) ==> gridInterest == old(gridInterest) && requests == old(requests)
    {
      if IsOpen(gridInterest) {
        requests := requests + [RemoveTagged(gridInterest.value)];
        gridInterest := None;
      }
    }

    /**
     * __setGridInterest: during logout nothing is opened; otherwise the open
     * interest is moved to the new cell, or a tagged interest is added there and
     * its handle recorded, replacing a recorded handle 0.
     */
    method SetGridInterest(grid: Grid, zoneId: int, noNewInterests: bool, newHandle: nat)
      modifies this`gridInterest, this`requests
      ensures noNewInterests ==> gridInterest == old(gridInterest) && requests == old(requests)
      ensures !noNewInterests ==> gridInterest.Some?
      ensures !noNewInterests && IsOpen(old(gridInterest)) ==>
        gridInterest == old(gridInterest) && requests == old(requests) + [Alter(old(gridInterest).value, grid.doId, zoneId)]
      ensures !noNewInterests && !IsOpen(old(gridInterest)) ==>
        gridInterest == Some(newHandle) && requests == old(requests) + [AddTagged(grid.doId, zoneId)]
    {
      if noNewInterests {
        return;
      }
      if IsOpen(gridInterest) {
        requests := requests + [Alter(gridInterest.value, grid.doId, zoneId)];
      } else {
        requests := requests + [AddTagged(grid.doId, zoneId)];
        gridInterest := Some(newHandle);
      }
    }

    /** enableGridInterest: disabling closes the grid interest. */
    method EnableGridInterest(enabled: bool)
      modifies this`gridInterestEnabled, this`gridInterest, this`requests
      ensures gridInterestEnabled == enabled
      ensures enabled ==> gridInterest == old(gridInterest) && requests == old(requests)
      ensures !enabled ==>
        !IsOpen(gridInterest) && (!IsOpen(old(gridInterest)) ==> gridInterest == old(gridInterest)) &&
        requests == old(requests) + (if IsOpen(old(gridInterest)) then [RemoveTagged(old(gridInterest).value)] else [])
    {
      gridInterestEnabled := enabled;
      if !enabled {
        ClearGridInterest();
      }
    }

    /**
     * setGridCell: with no grid, leave the grid and close the interest; with a
     * grid, make a grid parent on first use, move it to the cell, and move the
     * interest along when grid interest is enabled.
     */
    method SetGridCell(grid: Option<Grid>, zoneId: int, noNewInterests: bool, newHandle: nat)
      requires Valid() && (grid.Some? ==> grid.value.layout.WellFormed())
      modifies this, gridParent, origins
      ensures Valid() && gridInterestEnabled == old(gridInterestEnabled)
      ensures grid.None? ==>
        !IsOnAGrid() && !IsOpen(gridInterest) && (!IsOpen(old(gridInterest)) ==> gridInterest == old(gridInterest)) &&
        requests == old(requests) + (if IsOpen(old(gridInterest)) then [RemoveTagged(old(gridInterest).value)] else [])
      ensures grid.Some? ==>
        IsOnAGrid() && GetGrid() == grid && GetGridZone() == Some(zoneId) &&
        (old(gridParent) != null ==> gridParent == old(gridParent))
      ensures grid.Some? && (!gridInterestEnabled || noNewInterests) ==>
        gridInterest == old(gridInterest) && requests == old(requests)
      ensures grid.Some? && gridInterestEnabled && !noNewInterests ==>
        gridInterest == (if IsOpen(old(gridInterest)) then old(gridInterest) else Some(newHandle)) &&
        requests == old(requests) + [if IsOpen(old(gridInterest)) then Alter(old(gridInterest).value, grid.value.doId, zoneId)
                                     else AddTagged(grid.value.doId, zoneId)]
      ensures grid.None? && old(gridParent) == null ==>
        origins.State() == old(origins.State()) && sceneParent == old(sceneParent)
      ensures grid.None? && old(gridParent) != null ==>
        (var r := Release(old(origins.State()), Cell(old(gridParent.grid).value, old(gridParent.zoneId).value));
         r.Ok? && origins.State() == r.value.0) &&
        sceneParent == (if old(gridParent.childParent) == Some(old(gridParent.cellOrigin)) then None else old(gridParent.childParent))
      ensures grid.Some? ==>
        sceneParent == old(sceneParent) &&
        gridParent.childParent == Some(gridParent.cellOrigin) && gridParent.cellOrigin == origins.origin[Cell(grid.value, zoneId)]
      ensures grid.Some? && old(gridParent) == null ==>
        origins.State() == Move(old(origins.State()).(nextNode := old(origins.nextNode) + 1), None, Cell(grid.value, zoneId)).0
      ensures grid.Some? && old(gridParent) != null ==>
        origins.State() ==
          Move(old(origins.State()), Some(Cell(old(gridParent.grid).value, old(gridParent.zoneId).value)), Cell(grid.value, zoneId)).0
    {
      if grid.None? {
        SetGridParent(null);
        ClearGridInterest();
      } else {
        MoveToCell(grid.value, zoneId);
        if gridInterestEnabled {
          SetGridInterest(grid.value, zoneId, noNewInterests, newHandle);
        }
      }
    }

    /** The grid half of setGridCell: a grid parent is made on first use and moved to the cell. */
    method MoveToCell(grid: Grid, zoneId: int)
      requires Valid() && grid.layout.WellFormed()
      modifies this`gridParent, this`sceneParent, gridParent, origins
      ensures Valid() && IsOnAGrid() && gridParent.grid == Some(grid) && gridParent.zoneId == Some(zoneId)
      ensures old(gridParent) != null ==> gridParent == old(gridParent)
      ensures sceneParent == old(sceneParent)
      ensures gridParent.childParent == Some(gridParent.cellOrigin) && gridParent.cellOrigin == origins.origin[Cell(grid, zoneId)]
      ensures old(gridParent) == null ==>
        origins.State() == Move(old(origins.State()).(nextNode := old(origins.nextNode) + 1), None, Cell(grid, zoneId)).0
      ensures old(gridParent) != null ==>
        origins.State() ==
          Move(old(origins.State()), Some(Cell(old(gridParent.grid).value, old(gridParent.zoneId).value)), Cell(grid, zoneId)).0
    {
      if gridParent == null {
        var gp := new GridParent(doId, sceneParent, origins);
        SetGridParent(gp);
      }
      var moved := gridParent.SetGridCell(grid, zoneId);
      assert moved.Done?;
      assert gridParent.Held() == Some(Cell(grid, zoneId));
    }

    /** delete: leave the grid and disable grid interest, closing it. */
    method Delete()
      requires Valid()
      modifies this, gridParent, origins
      ensures Valid() && !IsOnAGrid() && !gridInterestEnabled && !IsOpen(gridInterest)
      ensures !IsOpen(old(gridInterest)) ==> gridInterest == old(gridInterest)
      ensures requests == old(requests) + (if IsOpen(old(gridInterest)) then [RemoveTagged(old(gridInterest).value)] else [])
      ensures old(gridParent) == null ==> origins.State() == old(origins.State()) && sceneParent == old(sceneParent)
      ensures old(gridParent) != null ==>
        (var r := Release(old(origins.State()), Cell(old(gridParent.grid).value, old(gridParent.zoneId).value));
         r.Ok? && origins.State() == r.value.0) &&
        sceneParent == (if old(gridParent.childParent) == Some(old(gridParent.cellOrigin)) then None else old(gridParent.childParent))
    {
      SetGridParent(null);
      EnableGridInterest(false);
    }
  }
}
