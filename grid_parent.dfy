/**
 * GridParent: the cell-origin nodes shared by all objects on a grid, one per
 * (grid, zone), reference-counted, and the per-object holder that moves its
 * child from cell origin to cell origin.  Scene-graph nodes are ids; the
 * scene-graph calls made are recorded in order.
 */
module GridParentModel {
  import opened Wrappers
  import CartesianGrid

  type NodeId = nat

  /** A grid object: its distributed id and its layout. */
  datatype Grid = Grid(doId: nat, layout: CartesianGrid.Layout)

  /** The key of the shared tables: one cell of one grid. */
  datatype Cell = Cell(grid: Grid, zoneId: int)

  /** A scene-graph call. */
  datatype SceneOp =
    | AttachAt(node: NodeId, grid: Grid, pos: CartesianGrid.Pos) // grid.attachNewNode, then setPos
    | RemoveNode(node: NodeId)
    | WrtReparent(node: NodeId)                                  // the child keeps its world transform
    | Reparent(node: NodeId)
    | DetachChild

  datatype Fault = KeyError | NoChild

  datatype Status = Done | Raised(fault: Fault)

  /** The two shared dictionaries and the next free node id, as one value. */
  datatype Tables = Tables(origin: map<Cell, NodeId>, count: map<Cell, int>, nextNode: NodeId)

  /** The dictionaries agree on their keys, every count is positive and every node id is allocated. */
  predicate Consistent(t: Tables)
  {
    t.origin.Keys == t.count.Keys &&
    (forall c :: c in t.count ==> t.count[c] > 0) &&
    (forall c :: c in t.origin ==> t.origin[c] < t.nextNode)
  }

  /** getCellOrigin on the tables: the cell's node, created on first use, with one more reference. */
  function Acquire(t: Tables, c: Cell): (r: (Tables, NodeId))
    requires t.origin.Keys == t.count.Keys
    ensures c in r.0.origin && r.0.origin[c] == r.1 && c in r.0.count
    ensures c in t.count ==> r.0.count[c] == t.count[c] + 1
    ensures c !in t.count ==> r.0.count[c] == 1
    ensures c in t.origin ==> r.1 == t.origin[c] && r.0.nextNode == t.nextNode
    ensures c !in t.origin ==> r.1 == t.nextNode && r.0.nextNode == t.nextNode + 1
    ensures forall d :: d != c ==>
      (d in r.0.origin <==> d in t.origin) && (d in r.0.count <==> d in t.count) &&
      (d in t.origin ==> r.0.origin[d] == t.origin[d]) && (d in t.count ==> r.0.count[d] == t.count[d])
  {
    var (origin, nextNode, count) :=
      if c in t.count then (t.origin, t.nextNode, t.count)
      else (t.origin[c := t.nextNode], t.nextNode + 1, t.count[c := 0]);
    (Tables(origin, count[c := count[c] + 1], nextNode), origin[c])
  }

  /**
   * releaseCellOrigin on the tables: one reference fewer; the last one removes
   * the cell from both dictionaries and gives back its node for removal.
   * Releasing a cell that is not counted is a KeyError.
   */
  function Release(t: Tables, c: Cell): (r: Result<(Tables, Option<NodeId>), Fault>)
    requires t.origin.Keys == t.count.Keys
    ensures r.Err? <==> c !in t.count
    ensures r.Ok? && t.count[c] == 1 ==>
      r.value.0 == Tables(t.origin - {c}, t.count - {c}, t.nextNode) && r.value.1 == Some(t.origin[c])
    ensures r.Ok? && t.count[c] != 1 ==>
      r.value.0 == t.(count := t.count[c := t.count[c] - 1]) && r.value.1.None?
  {
    if c !in t.count then Err(KeyError)
    else if t.count[c] - 1 == 0 then Ok((Tables(t.origin - {c}, t.count - {c}, t.nextNode), Some(t.origin[c])))
    else Ok((t.(count := t.count[c := t.count[c] - 1]), None))
  }

  /** Both operations keep the tables consistent. */
  lemma AcquireReleaseConsistent(t: Tables, c: Cell)
    requires Consistent(t)
    ensures Consistent(Acquire(t, c).0)
    ensures Release(t, c).Ok? ==> Consistent(Release(t, c).value.0)
  {
  }

  /** A first reference released again leaves the dictionaries as they were and gives the new node back. */
  lemma AcquireReleaseFresh(t: Tables, c: Cell)
    requires Consistent(t) && c !in t.count
    ensures var (t1, node) := Acquire(t, c);
      Release(t1, c) == Ok((t.(nextNode := t.nextNode + 1), Some(node)))
  {
    var (t1, node) := Acquire(t, c);
    assert t1.origin - {c} == t.origin;
    assert t1.count - {c} == t.count;
  }

  /**
   * A cell that is already referenced, acquired and released again, comes back
   * unchanged: its node is never removed while a reference remains.
   */
  lemma AcquireReleaseShared(t: Tables, c: Cell)
    requires Consistent(t) && c in t.count
    ensures var (t1, node) := Acquire(t, c);
      node == t.origin[c] && Release(t1, c) == Ok((t, None))
  {
    var (t1, node) := Acquire(t, c);
    assert t1.count[c := t1.count[c] - 1] == t.count;
  }

  /**
   * setGridCell on the tables: a reference on the new cell, then the old cell's
   * reference given back.  The result is the new tables and the new cell's node.
   */
  function Move(t: Tables, from: Option<Cell>, to: Cell): (r: (Tables, NodeId))
    requires Consistent(t) && (from.Some? ==> from.value in t.count)
    ensures Consistent(r.0) && to in r.0.origin && r.0.origin[to] == r.1
    ensures from == Some(to) ==> r == (t, t.origin[to])
  {
    AcquireReleaseConsistent(t, to);
    var (t1, node) := Acquire(t, to);
    if from.None? then (t1, node)
    else
      AcquireReleaseConsistent(t1, from.value);
      if from == Some(to) then AcquireReleaseShared(t, to); (Release(t1, to).value.0, node)
      else (Release(t1, from.value).value.0, node)
  }

  /** Moving between two different cells: the new cell gains a reference and the old one loses one. */
  lemma MoveBetweenCells(t: Tables, from: Cell, to: Cell)
    requires Consistent(t) && from in t.count && from != to
    ensures var t2 := Move(t, Some(from), to).0;
      t2.count[to] == (if to in t.count then t.count[to] + 1 else 1) &&
      (t.count[from] == 1 <==> from !in t2.count) &&
      (t.count[from] > 1 ==> t2.count[from] == t.count[from] - 1)
  {
  }

  /** The scene call getCellOrigin makes: a new cell's node attached under the grid at the cell's origin. */
  function AcquireOps(t: Tables, c: Cell): seq<SceneOp>
    requires c.grid.layout.WellFormed()
  {
    if c in t.origin then [] else [AttachAt(t.nextNode, c.grid, CartesianGrid.ZoneCellOrigin(c.grid.layout, c.zoneId))]
  }

  /** The scene call releaseCellOrigin makes: the cell's node removed with its last reference. */
  function ReleaseOps(t: Tables, c: Cell): seq<SceneOp>
    requires t.origin.Keys == t.count.Keys
  {
    var r := Release(t, c);
    if r.Ok? && r.value.1.Some? then [RemoveNode(r.value.1.value)] else []
  }

  /** Re-entering the held cell touches no cell node: nothing is attached and nothing removed. */
  lemma SameCellNoNodeOps(t: Tables, c: Cell)
    requires Consistent(t) && c in t.count && c.grid.layout.WellFormed()
    ensures AcquireOps(t, c) == [] && ReleaseOps(Acquire(t, c).0, c) == []
  {
  }

  /** The node attached for a fresh cell is the node its only reference removes. */
  lemma FreshCellNodeOps(t: Tables, c: Cell)
    requires Consistent(t) && c !in t.count && c.grid.layout.WellFormed()
    ensures var (t1, node) := Acquire(t, c);
      AcquireOps(t, c) == [AttachAt(node, c.grid, CartesianGrid.ZoneCellOrigin(c.grid.layout, c.zoneId))] &&
      ReleaseOps(t1, c) == [RemoveNode(node)]
  {
  }

  /** The class-level dictionaries shared by every GridParent, with the node allocator and the scene-graph log. */
  class CellOrigins {
    var origin: map<Cell, NodeId>
    var count: map<Cell, int>
    var nextNode: NodeId
    var scene: seq<SceneOp>

    function State(): Tables
      reads this
    {
      Tables(origin, count, nextNode)
    }

    ghost predicate Valid()
      reads this
    {
      Consistent(State())
    }

    constructor ()
      ensures Valid() && origin == map[] && count == map[] && scene == []
    {
      origin := map[];
      count := map[];
      nextNode := 0;
      scene := [];
    }

    /** A node that is not a cell origin (NodePath("cellOrigin")). */
    method NewNode() returns (node: NodeId)
      modifies this
      ensures node == old(nextNode) && nextNode == node + 1
      ensures origin == old(origin) && count == old(count) && scene == old(scene)
    {
      node := nextNode;
      nextNode := nextNode + 1;
    }

    /** getCellOrigin: a new node is attached under the grid at the cell's origin. */
    method GetCellOrigin(grid: Grid, zoneId: int) returns (node: NodeId)
      requires Valid() && grid.layout.WellFormed()
      modifies this
      ensures Valid()
      ensures (State(), node) == Acquire(old(State()), Cell(grid, zoneId))
      ensures Cell(grid, zoneId) in old(origin) ==> scene == old(scene)
      ensures Cell(grid, zoneId) !in old(origin) ==>
        scene == old(scene) + [AttachAt(node, grid, CartesianGrid.ZoneCellOrigin(grid.layout, zoneId))]
    {
      var tup := Cell(grid, zoneId);
      AcquireReleaseConsistent(State(), tup);
      if tup !in count {
        count := count[tup := 0];
        origin := origin[tup := nextNode];
        scene := scene + [AttachAt(nextNode, grid, CartesianGrid.ZoneCellOrigin(grid.layout, zoneId))];
        nextNode := nextNode + 1;
      }
      count := count[tup := count[tup] + 1];
      node := origin[tup];
    }

    /** releaseCellOrigin: the last reference removes the node. */
    method ReleaseCellOrigin(grid: Grid, zoneId: int) returns (status: Status)
      requires Valid()
      modifies this
      ensures Valid()
      ensures var r := Release(old(State()), Cell(grid, zoneId));
        (r.Err? ==> status == Raised(KeyError) && State() == old(State()) && scene == old(scene)) &&
        (r.Ok? ==>
          status == Done && State() == r.value.0 &&
          scene == old(scene) + (if r.value.1.Some? then [RemoveNode(r.value.1.value)] else []))
    {
      var tup := Cell(grid, zoneId);
      AcquireReleaseConsistent(State(), tup);
      if tup !in count {
        return Raised(KeyError);
      }
      count := count[tup := count[tup] - 1];
      if count[tup] == 0 {
        count := count - {tup};
        var node := origin[tup];
        origin := origin - {tup};
        scene := scene + [RemoveNode(node)];
      }
      status := Done;
    }
  }

  /**
   * The holder between a grid child and its grid: the child is parented to the
   * origin node of its current cell.
   */
  class GridParent {
    /** The child, until delete. */
    var child: Option<nat>
    /** The child's current scene-graph parent. */
    var childParent: Option<NodeId>
    var grid: Option<Grid>
    var zoneId: Option<int>
    /** The node made for this holder; removed on delete. */
    var ownCellOrigin: Option<NodeId>
    var cellOrigin: NodeId
    /** The shared class-level tables. */
    const origins: CellOrigins

    /** The held cell is counted in the shared tables and its node is the current cell origin. */
    ghost predicate Valid()
      reads this, origins
    {
      origins.Valid() && (grid.Some? <==> zoneId.Some?) &&
      (grid.Some? ==> Cell(grid.value, zoneId.value) in origins.origin &&
                      origins.origin[Cell(grid.value, zoneId.value)] == cellOrigin)
    }

    constructor (child: nat, childParent: Option<NodeId>, origins: CellOrigins)
      requires origins.Valid()
      modifies origins
      ensures Valid() && this.origins == origins
      ensures this.child == Some(child) && this.childParent == childParent
      ensures grid.None? && zoneId.None? && ownCellOrigin == Some(cellOrigin) && cellOrigin == old(origins.nextNode)
      ensures origins.State() == old(origins.State()).(nextNode := cellOrigin + 1) && origins.scene == old(origins.scene)
    {
      var node := origins.NewNode();
      this.child := Some(child);
      this.childParent := childParent;
      grid := None;
      zoneId := None;
      ownCellOrigin := Some(node);
      cellOrigin := node;
      this.origins := origins;
    }

    /** The cell this holder references in the shared tables, if any. */
    function Held(): Option<Cell>
      reads this
      requires grid.Some? <==> zoneId.Some?
    {
      if grid.Some? then Some(Cell(grid.value, zoneId.value)) else None
    }

    /**
     * setGridCell: take a reference on the new cell before giving up the old
     * one, move the child under the new cell origin (keeping its world transform
     * when it has a parent) and record the new cell.  Without a child the call
     * fails after the new reference is taken.
     */
    method SetGridCell(newGrid: Grid, newZone: int) returns (status: Status)
      requires Valid() && newGrid.layout.WellFormed()
      modifies this, origins
      ensures Valid() && child == old(child) && ownCellOrigin == old(ownCellOrigin)
      ensures status.Done? <==> old(child).Some?
      ensures status.Raised? ==> status.fault == NoChild
      ensures status.Raised? ==> Held() == old(Held()) && origins.State() == Acquire(old(origins.State()), Cell(newGrid, newZone)).0
      ensures status.Raised? ==>
        childParent == old(childParent) && cellOrigin == old(cellOrigin) &&
        origins.scene == old(origins.scene) + AcquireOps(old(origins.State()), Cell(newGrid, newZone))
      ensures status.Done? ==>
        var (t, node) := Move(old(origins.State()), old(Held()), Cell(newGrid, newZone));
        Held() == Some(Cell(newGrid, newZone)) && origins.State() == t &&
        cellOrigin == node && childParent == Some(node)
      ensures status.Done? ==>
        var (t1, node) := Acquire(old(origins.State()), Cell(newGrid, newZone));
        origins.scene == old(origins.scene) + AcquireOps(old(origins.State()), Cell(newGrid, newZone)) +
          [if old(childParent).Some? then WrtReparent(node) else Reparent(node)] +
          (if old(Held()).Some? then ReleaseOps(t1, old(Held()).value) else [])
    {
      ghost var held := Held();
      ghost var attached := AcquireOps(origins.State(), Cell(newGrid, newZone));
      var newCellOrigin := origins.GetCellOrigin(newGrid, newZone);
      assert origins.scene == old(origins.scene) + attached;
      if child.None? {
        return Raised(NoChild);
      }
      ghost var acquired := origins.State();
      MoveChild(newCellOrigin);
      ghost var moved := origins.scene;
      ReleaseAndRecord(Cell(newGrid, newZone), newCellOrigin);
      assert origins.scene == moved + (if held.Some? then ReleaseOps(acquired, held.value) else []);
      status := Done;
    }

    /** The second half of setGridCell: give back the old cell and record the new one, whose reference is already taken. */
    method ReleaseAndRecord(to: Cell, node: NodeId)
      requires Valid() && to in origins.origin && origins.origin[to] == node
      requires grid.Some? ==> Held().value in origins.count && (Held() == Some(to) ==> origins.count[to] > 1)
      modifies this`grid, this`zoneId, this`cellOrigin, origins
      ensures Valid() && Held() == Some(to) && cellOrigin == node
      ensures old(grid).None? ==> origins.State() == old(origins.State())
      ensures old(grid).Some? ==> origins.State() == Release(old(origins.State()), old(Held()).value).value.0
      ensures origins.scene == old(origins.scene) + (if old(grid).Some? then ReleaseOps(old(origins.State()), old(Held()).value) else [])
    {
      ReleaseHeld();
      cellOrigin := node;
      grid := Some(to.grid);
      zoneId := Some(to.zoneId);
    }

    /** wrtReparentTo when the child has a parent, reparentTo otherwise. */
    method MoveChild(node: NodeId)
      modifies this`childParent, origins`scene
      ensures childParent == Some(node)
      ensures origins.scene == old(origins.scene) + [if old(childParent).Some? then WrtReparent(node) else Reparent(node)]
    {
      if childParent.Some? {
        origins.scene := origins.scene + [WrtReparent(node)];
      } else {
        origins.scene := origins.scene + [Reparent(node)];
      }
      childParent := Some(node);
    }

    /**
     * delete: detach the child if it hangs under the current cell origin, remove
     * the holder's own node, and give up the held cell exactly once.
     */
    method Delete()
      requires Valid()
      modifies this, origins
      ensures Valid()
      ensures child.None? && ownCellOrigin.None? && grid.None? && zoneId.None?
      ensures old(child).Some? && old(childParent) == Some(old(cellOrigin)) ==> childParent.None?
      ensures !(old(child).Some? && old(childParent) == Some(old(cellOrigin))) ==> childParent == old(childParent)
      ensures old(grid).None? ==> origins.State() == old(origins.State())
      ensures old(grid).Some? ==>
        var r := Release(old(origins.State()), Cell(old(grid).value, old(zoneId).value));
        r.Ok? && origins.State() == r.value.0
      ensures origins.scene == old(origins.scene) +
        (if old(child).Some? && old(childParent) == Some(old(cellOrigin)) then [DetachChild] else []) +
        (if old(ownCellOrigin).Some? then [RemoveNode(old(ownCellOrigin).value)] else []) +
        (if old(Held()).Some? then ReleaseOps(old(origins.State()), old(Held()).value) else [])
    {
      DropChild();
      ReleaseHeld();
    }

    /** The first two steps of delete: the child is let go, detached if it hangs under the cell origin, and the holder's own node removed. */
    method DropChild()
      modifies this`child, this`childParent, this`ownCellOrigin, origins`scene
      ensures child.None? && ownCellOrigin.None?
      ensures old(child).Some? && old(childParent) == Some(cellOrigin) ==> childParent.None?
      ensures !(old(child).Some? && old(childParent) == Some(cellOrigin)) ==> childParent == old(childParent)
      ensures origins.scene == old(origins.scene) +
        (if old(child).Some? && old(childParent) == Some(cellOrigin) then [DetachChild] else []) +
        (if old(ownCellOrigin).Some? then [RemoveNode(old(ownCellOrigin).value)] else [])
    {
      if child.Some? && childParent == Some(cellOrigin) {
        origins.scene := origins.scene + [DetachChild];
        childParent := None;
      }
      child := None;
      if ownCellOrigin.Some? {
        origins.scene := origins.scene + [RemoveNode(ownCellOrigin.value)];
        ownCellOrigin := None;
      }
    }

    /** The last step of delete: the held cell, if any, is released once and forgotten. */
    method ReleaseHeld()
      requires Valid()
      modifies this`grid, this`zoneId, origins
      ensures Valid() && grid.None? && zoneId.None?
      ensures old(grid).None? ==> origins.State() == old(origins.State()) && origins.scene == old(origins.scene)
      ensures old(grid).Some? ==>
        var r := Release(old(origins.State()), old(Held()).value);
        r.Ok? && origins.State() == r.value.0 && origins.scene == old(origins.scene) + ReleaseOps(old(origins.State()), old(Held()).value)
    {
      if grid.Some? {
        var released := origins.ReleaseCellOrigin(grid.value, zoneId.value);
        grid := None;
        zoneId := None;
      }
    }
  }
}
