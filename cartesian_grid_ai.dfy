/**
 * DistributedCartesianGridAI: the server side of a Cartesian grid.  It keeps
 * the objects placed on it, re-zones them from a periodic task when they leave
 * their cell, and tells arriving children which cell to join.  Scene-graph
 * positions are given: each object's position relative to its cell and
 * relative to the grid.  Calls made on children and on the task manager are
 * recorded in order.
 */
module CartesianGridAI {
  import opened Wrappers
  import opened CartesianGrid

  /** A call the grid makes on a child or on the task manager. */
  datatype AiEvent =
    | JoinCell(child: nat, zoneId: int)        // child.setGridCell(grid, zoneId)
    | LeaveGrid(child: nat)                    // child.setGridCell(None, 0)
    | ReparentToGrid(child: nat)
    | BroadcastLocation(child: nat, parentId: nat, zoneId: int)
    | TaskScheduled
    | TaskRemoved
    | DebuggerBreak                            // the set_trace() call in updateGridTask

  /** An object on the grid: whether its node is empty, and where it is. */
  datatype GridObject = GridObject(empty: bool, local: Pos, absolute: Pos)

  /** handleChildArrive and handleChildArriveZone: any zone from startingZone upwards joins that cell. */
  function ChildArrive(l: Layout, child: nat, zoneId: int): (e: AiEvent)
    ensures e.JoinCell? <==> zoneId >= l.startingZone
    ensures e.JoinCell? ==> e == JoinCell(child, zoneId)
    ensures !e.JoinCell? ==> e == LeaveGrid(child)
  {
    if zoneId >= l.startingZone then JoinCell(child, zoneId) else LeaveGrid(child)
  }

  /** The arrival test has no upper bound: a zone past the last grid zone still joins a cell. */
  lemma ArriveBeyondGrid(l: Layout, child: nat)
    requires l.gridSize >= 0
    ensures var z := l.startingZone + l.gridSize * l.gridSize;
      !IsGridZone(l, z) && ChildArrive(l, child, z) == JoinCell(child, z)
  {
  }

  /** The zone handleChildCellChange works with: the given cell, or the zone of the grid-relative position. */
  function ChangeZone(l: Layout, cellId: Option<int>, gridPos: Pos): (z: int)
    requires l.WellFormed()
    ensures cellId.Some? ==> z == cellId.value
    ensures cellId.None? ==> z == ZoneFromXYZ(l, gridPos).zoneId
  {
    if cellId.Some? then cellId.value else ZoneFromXYZ(l, gridPos).zoneId
  }

  /** handleChildCellChange: broadcast the new location, unless the zone is not valid for the grid's style. */
  function CellChange(l: Layout, gridDoId: nat, child: nat, cellId: Option<int>, gridPos: Pos): (r: seq<AiEvent>)
    requires l.WellFormed()
    ensures |r| <= 1
    ensures r != [] <==> IsValidZone(l, ChangeZone(l, cellId, gridPos))
    ensures r != [] ==> r[0] == BroadcastLocation(child, gridDoId, ChangeZone(l, cellId, gridPos))
  {
    var zoneId := ChangeZone(l, cellId, gridPos);
    if !IsValidZone(l, zoneId) then [] else [BroadcastLocation(child, gridDoId, zoneId)]
  }

  /** An explicit cell wins over the position: the broadcast zone does not depend on where the object is. */
  lemma ExplicitCellOverridesPosition(l: Layout, gridDoId: nat, child: nat, cellId: int, p: Pos, q: Pos)
    requires l.WellFormed()
    ensures CellChange(l, gridDoId, child, Some(cellId), p) == CellChange(l, gridDoId, child, Some(cellId), q)
    ensures IsValidZone(l, cellId) ==> CellChange(l, gridDoId, child, Some(cellId), p) == [BroadcastLocation(child, gridDoId, cellId)]
  {
  }

  /** What updateGridTask does for one object: nothing if its node is empty or it is inside its cell. */
  function TrackOne(l: Layout, gridDoId: nat, k: nat, o: GridObject): (r: seq<AiEvent>)
    requires l.WellFormed()
    ensures r != [] ==> !o.empty && OutOfCell(l.cellWidth, o.local)
  {
    if o.empty || !OutOfCell(l.cellWidth, o.local) then [] else CellChange(l, gridDoId, k, None, o.absolute)
  }

  /** The events for one key; a key that is not on the grid gives none. */
  function TrackKey(l: Layout, gridDoId: nat, objs: map<nat, GridObject>, k: nat): (r: seq<AiEvent>)
    requires l.WellFormed()
    ensures r != [] ==> k in objs
  {
    if k in objs then TrackOne(l, gridDoId, k, objs[k]) else []
  }

  /** The events of updateGridTask over the objects in iteration order. */
  function TrackAll(l: Layout, gridDoId: nat, objs: map<nat, GridObject>, order: seq<nat>): (r: seq<AiEvent>)
    requires l.WellFormed()
    ensures |r| <= |order|
  {
    if order == [] then []
    else TrackAll(l, gridDoId, objs, order[..|order| - 1]) + TrackKey(l, gridDoId, objs, order[|order| - 1])
  }

  /** updateGridTask broadcasts only for objects that are present, not empty, and out of their cell. */
  lemma {:induction false} TrackAllOnlyMovers(l: Layout, gridDoId: nat, objs: map<nat, GridObject>, order: seq<nat>, e: AiEvent)
    requires l.WellFormed()
    requires e in TrackAll(l, gridDoId, objs, order)
    ensures e.BroadcastLocation? && e.child in order && e.child in objs && !objs[e.child].empty && OutOfCell(l.cellWidth, objs[e.child].local)
    ensures e.parentId == gridDoId && IsValidZone(l, e.zoneId) && e.zoneId == ZoneFromXYZ(l, objs[e.child].absolute).zoneId
  {
    if order != [] {
      var last := order[|order| - 1];
      if e in TrackAll(l, gridDoId, objs, order[..|order| - 1]) {
        TrackAllOnlyMovers(l, gridDoId, objs, order[..|order| - 1], e);
      } else {
        assert e in TrackKey(l, gridDoId, objs, last);
      }
    }
  }

  /** Every present, non-empty object that has left its cell for a valid zone is broadcast. */
  lemma {:induction false} TrackAllEveryMover(l: Layout, gridDoId: nat, objs: map<nat, GridObject>, order: seq<nat>, k: nat)
    requires l.WellFormed()
    requires k in objs && k in order && !objs[k].empty && OutOfCell(l.cellWidth, objs[k].local)
    requires IsValidZone(l, ZoneFromXYZ(l, objs[k].absolute).zoneId)
    ensures BroadcastLocation(k, gridDoId, ZoneFromXYZ(l, objs[k].absolute).zoneId) in TrackAll(l, gridDoId, objs, order)
  {
    var last := order[|order| - 1];
    if k == last {
      assert TrackKey(l, gridDoId, objs, k) == [BroadcastLocation(k, gridDoId, ZoneFromXYZ(l, objs[k].absolute).zoneId)];
    } else {
      assert order == order[..|order| - 1] + [last];
      TrackAllEveryMover(l, gridDoId, objs, order[..|order| - 1], k);
    }
  }

  /** The objects left after updateGridTask has visited the keys in `done`: those found empty are dropped. */
  function Pruned(objs: map<nat, GridObject>, done: seq<nat>): (r: map<nat, GridObject>)
    ensures forall k :: k in r <==> k in objs && !(k in done && objs[k].empty)
    ensures forall k :: k in r ==> r[k] == objs[k]
  {
    map k | k in objs && !(k in done && objs[k].empty) :: objs[k]
  }

  /** Once every key has been visited, exactly the objects whose node is not empty remain. */
  lemma PrunedAll(objs: map<nat, GridObject>, order: seq<nat>)
    requires KeyOrder(objs, order)
    ensures forall k :: k in Pruned(objs, order) <==> k in objs && !objs[k].empty
  {
  }

  /**
   * How far a pass run without a task gets: the position of the first empty
   * object, where `task.setDelay` raises AttributeError on None, or the whole
   * order when no object is empty.  StopAtMeaning says so.
   */
  function StopAt(objs: map<nat, GridObject>, order: seq<nat>): (n: nat)
    requires forall k :: k in order ==> k in objs
    ensures n <= |order|
  {
    if order == [] then 0
    else if objs[order[0]].empty then 0
    else 1 + StopAt(objs, order[1..])
  }

  /** The objects before the stop are not empty, and the one at the stop, if any, is. */
  lemma {:induction false} StopAtMeaning(objs: map<nat, GridObject>, order: seq<nat>)
    requires forall k :: k in order ==> k in objs
    ensures forall j :: 0 <= j < StopAt(objs, order) ==> !objs[order[j]].empty
    ensures StopAt(objs, order) < |order| ==> objs[order[StopAt(objs, order)]].empty
  {
    if order != [] && !objs[order[0]].empty {
      StopAtMeaning(objs, order[1..]);
      forall j | 0 <= j < StopAt(objs, order)
        ensures !objs[order[j]].empty
      {
        if j > 0 {
          assert order[j] == order[1..][j - 1];
        }
      }
    }
  }

  /** None of the first i objects of the order is empty. */
  ghost predicate NoneEmptyBefore(objs: map<nat, GridObject>, order: seq<nat>, i: int)
    requires forall k :: k in order ==> k in objs
    requires 0 <= i <= |order|
  {
    forall j :: 0 <= j < i ==> !objs[order[j]].empty
  }

  /** A position with no empty object before it, and an empty one or the end at it, is where the pass stops. */
  lemma {:induction false} StopAtFirstEmpty(objs: map<nat, GridObject>, order: seq<nat>, i: int)
    requires forall k :: k in order ==> k in objs
    requires 0 <= i <= |order| && NoneEmptyBefore(objs, order, i)
    requires i < |order| ==> objs[order[i]].empty
    ensures StopAt(objs, order) == i
    decreases i
  {
    if i > 0 {
      assert !objs[order[0]].empty;
      forall j | 0 <= j < i - 1
        ensures !objs[order[1..][j]].empty
      {
        assert order[1..][j] == order[j + 1];
      }
      StopAtFirstEmpty(objs, order[1..], i - 1);
    }
  }

  /** Up to the stop, the pass without a task prunes nothing. */
  lemma PrunedBeforeStop(objs: map<nat, GridObject>, order: seq<nat>, i: int)
    requires forall k :: k in order ==> k in objs
    requires 0 <= i <= StopAt(objs, order)
    ensures Pruned(objs, order[..i]) == objs
  {
    StopAtMeaning(objs, order);
    assert forall k :: k in order[..i] ==> k in objs && !objs[k].empty;
  }

  /** Every key of `objs` exactly once: an iteration order over the dictionary. */
  ghost predicate KeyOrder(objs: map<nat, GridObject>, order: seq<nat>)
  {
    (forall k :: k in order <==> k in objs) && NoRepeats(order)
  }

  /** No element occurs twice: each one is absent from the part before it. */
  ghost predicate NoRepeats(s: seq<nat>)
  {
    s == [] || (s[|s| - 1] !in s[..|s| - 1] && NoRepeats(s[..|s| - 1]))
  }

  /** In a sequence without repeats, no element occurs before its own position. */
  lemma {:induction false} NoRepeatsAt(s: seq<nat>, i: int)
    requires NoRepeats(s) && 0 <= i < |s|
    ensures s[i] !in s[..i]
  {
    if i < |s| - 1 {
      var t := s[..|s| - 1];
      NoRepeatsAt(t, i);
      assert t[..i] == s[..i] && t[i] == s[i];
    }
  }

  /** One step of updateGridTask's loop, on the specification side. */
  lemma VisitStep(l: Layout, gridDoId: nat, objs: map<nat, GridObject>, order: seq<nat>, i: int)
    requires l.WellFormed() && KeyOrder(objs, order) && 0 <= i < |order|
    ensures order[i] in Pruned(objs, order[..i]) && Pruned(objs, order[..i])[order[i]] == objs[order[i]]
    ensures Pruned(objs, order[..i + 1]) ==
      if objs[order[i]].empty then Pruned(objs, order[..i]) - {order[i]} else Pruned(objs, order[..i])
    ensures TrackAll(l, gridDoId, objs, order[..i + 1]) ==
      TrackAll(l, gridDoId, objs, order[..i]) + TrackOne(l, gridDoId, order[i], objs[order[i]])
  {
    NoRepeatsAt(order, i);
    assert order[..i + 1][..i] == order[..i];
    assert order[..i + 1] == order[..i] + [order[i]];
  }

  class GridAI {
    const doId: nat
    const layout: Layout
    /** The objects added to the grid, by doId. */
    var gridObjects: map<nat, GridObject>
    var updateTaskStarted: bool
    /** Calls made so far, in order. */
    var events: seq<AiEvent>

    constructor (doId: nat, layout: Layout)
      requires layout.WellFormed()
      ensures this.doId == doId && this.layout == layout
      ensures gridObjects == map[] && !updateTaskStarted && events == []
    {
      this.doId := doId;
      this.layout := layout;
      gridObjects := map[];
      updateTaskStarted := false;
      events := [];
    }

    /** handleChildArrive / handleChildArriveZone. */
    method HandleChildArrive(child: nat, zoneId: int)
      modifies this`events
      ensures events == old(events) + [ChildArrive(layout, child, zoneId)]
    {
      if zoneId >= layout.startingZone {
        events := events + [JoinCell(child, zoneId)];
      } else {
        events := events + [LeaveGrid(child)];
      }
    }

    /** handleChildLeave: the child leaves the grid. */
    method HandleChildLeave(child: nat)
      modifies this`events
      ensures events == old(events) + [LeaveGrid(child)]
    {
      events := events + [LeaveGrid(child)];
    }

    /**
     * parentObjectToArea: reparent the child to the grid and join the cell of its
     * position, whatever that zone is; the zone is returned.
     */
    method ParentObjectToArea(child: nat, gridPos: Pos) returns (zoneId: int)
      requires layout.WellFormed()
      modifies this`events
      ensures zoneId == ZoneFromXYZ(layout, gridPos).zoneId
      ensures events == old(events) + [ReparentToGrid(child), JoinCell(child, zoneId)]
    {
      events := events + [ReparentToGrid(child)];
      zoneId := ZoneFromXYZ(layout, gridPos).zoneId;
      events := events + [JoinCell(child, zoneId)];
    }

    /** handleChildCellChange. */
    method HandleChildCellChange(child: nat, cellId: Option<int>, gridPos: Pos) returns (broadcast: bool)
      requires layout.WellFormed()
      modifies this`events
      ensures broadcast <==> IsValidZone(layout, ChangeZone(layout, cellId, gridPos))
      ensures events == old(events) + CellChange(layout, doId, child, cellId, gridPos)
    {
      var zoneId := if cellId.None? then ZoneFromXYZ(layout, gridPos).zoneId else cellId.value;
      if !IsValidZone(layout, zoneId) {
        return false;
      }
      events := events + [BroadcastLocation(child, doId, zoneId)];
      broadcast := true;
    }

    /** stopUpdateGridTask. */
    method StopUpdateGridTask()
      modifies this`updateTaskStarted, this`events
      ensures !updateTaskStarted && events == old(events) + [TaskRemoved]
    {
      events := events + [TaskRemoved];
      updateTaskStarted := false;
    }

    /** startUpdateGridTask: any running task is removed first, so at most one runs. */
    method StartUpdateGridTask()
      modifies this`updateTaskStarted, this`events
      ensures updateTaskStarted && events == old(events) + [TaskRemoved, TaskScheduled]
    {
      StopUpdateGridTask();
      updateTaskStarted := true;
      events := events + [TaskScheduled];
    }

    /**
     * addObjectToGrid: track the object, place it, and start the update task if
     * it is not running and auto-update is asked for.
     */
    method AddObjectToGrid(av: nat, obj: GridObject, useZoneId: Option<int>, startAutoUpdate: bool)
      requires layout.WellFormed()
      modifies this
      ensures gridObjects == old(gridObjects)[av := obj]
      ensures updateTaskStarted == (old(updateTaskStarted) || startAutoUpdate)
      ensures events == old(events) + CellChange(layout, doId, av, useZoneId, obj.absolute) +
        (if !old(updateTaskStarted) && startAutoUpdate then [TaskRemoved, TaskScheduled] else [])
    {
      gridObjects := gridObjects[av := obj];
      var _ := HandleChildCellChange(av, useZoneId, obj.absolute);
      if !updateTaskStarted && startAutoUpdate {
        StartUpdateGridTask();
      }
    }

    /** removeObjectFromGrid: forget the object; the grid task stops once none remain. */
    method RemoveObjectFromGrid(av: nat)
      modifies this
      ensures gridObjects == old(gridObjects) - {av}
      ensures gridObjects == map[] ==> !updateTaskStarted && events == old(events) + [TaskRemoved]
      ensures gridObjects != map[] ==> updateTaskStarted == old(updateTaskStarted) && events == old(events)
    {
      gridObjects := gridObjects - {av};
      if gridObjects == map[] {
        StopUpdateGridTask();
      }
    }

    /** delete: the update task is stopped. */
    method Delete()
      modifies this
      ensures !updateTaskStarted && gridObjects == old(gridObjects) && events == old(events) + [TaskRemoved]
    {
      StopUpdateGridTask();
    }

    /** The body of updateGridTask's loop for one object. */
    method VisitObject(avId: nat)
      requires layout.WellFormed() && avId in gridObjects
      modifies this`gridObjects, this`events
      ensures gridObjects == if old(gridObjects)[avId].empty then old(gridObjects) - {avId} else old(gridObjects)
      ensures events == old(events) + TrackOne(layout, doId, avId, old(gridObjects)[avId])
    {
      var av := gridObjects[avId];
      if av.empty {
        gridObjects := gridObjects - {avId};
      } else if OutOfCell(layout.cellWidth, av.local) {
        var _ := HandleChildCellChange(avId, None, av.absolute);
      }
    }

    /** One step of updateGridTask's loop, stated over the whole pass: visiting the i-th key extends the pruned table and the events. */
    method VisitNext(ghost objs: map<nat, GridObject>, ghost events0: seq<AiEvent>, order: seq<nat>, i: nat)
      requires layout.WellFormed() && KeyOrder(objs, order) && i < |order|
      requires gridObjects == Pruned(objs, order[..i])
      requires events == events0 + TrackAll(layout, doId, objs, order[..i])
      modifies this`gridObjects, this`events
      ensures gridObjects == Pruned(objs, order[..i + 1])
      ensures events == events0 + TrackAll(layout, doId, objs, order[..i + 1])
    {
      VisitStep(layout, doId, objs, order, i);
      VisitObject(order[i]);
    }

    /**
     * updateGridTask: visit every object once; drop those whose node is empty,
     * re-zone those that have left their cell.  Run from the task manager it then
     * reaches the stray set_trace() call.  Run without a task, the first empty
     * object raises AttributeError at `task.setDelay`, before it is deleted, and
     * the pass ends there.
     */
    method UpdateGridTask(order: seq<nat>, fromTask: bool) returns (raised: bool)
      requires layout.WellFormed() && KeyOrder(gridObjects, order)
      modifies this`gridObjects, this`events
      ensures fromTask ==>
        !raised && gridObjects == Pruned(old(gridObjects), order) &&
        events == old(events) + TrackAll(layout, doId, old(gridObjects), order) + [DebuggerBreak]
      ensures !fromTask ==>
        raised == (StopAt(old(gridObjects), order) < |order|) && gridObjects == old(gridObjects) &&
        events == old(events) + TrackAll(layout, doId, old(gridObjects), order[..StopAt(old(gridObjects), order)])
    {
      ghost var objs, events0 := gridObjects, events;
      var i := 0;
      while i < |order|
        invariant 0 <= i <= |order|
        invariant !fromTask ==> NoneEmptyBefore(objs, order, i)
        invariant gridObjects == Pruned(objs, order[..i])
        invariant events == events0 + TrackAll(layout, doId, objs, order[..i])
      {
        if !fromTask {
          VisitStep(layout, doId, objs, order, i);
          if gridObjects[order[i]].empty {
            break;
          }
        }
        VisitNext(objs, events0, order, i);
        i := i + 1;
      }
      raised := i < |order|;
      if !fromTask {
        StopAtFirstEmpty(objs, order, i);
      }
      if fromTask {
        assert order[..i] == order;
        events := events + [DebuggerBreak];
      } else {
        PrunedBeforeStop(objs, order, i);
      }
    }
  }
}
