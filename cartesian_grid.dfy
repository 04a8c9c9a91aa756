/**
 * The zone arithmetic and child tracking shared by the client and server Cartesian
 * grids (CartesianGridBase).
 *
 * A grid is gridSize x gridSize square cells of side cellWidth.  Zone ids are
 * handed out row by row starting at startingZone; the grid's origin sits at its
 * middle, so a position is shifted by `center` before it is divided into cells.
 * Positions are real numbers; Python's `//` on a positive divisor is the floor of
 * the quotient, which is Dafny's `.Floor` on reals and `/` on integers.
 */
module CartesianGrid {
  import opened Wrappers
  import opened SeqProps
  import opened Arith

  // ---------------------------------------------------------------------------
  // Layout and zone arithmetic
  // ---------------------------------------------------------------------------

  /** The parenting style: "Cartesian", "CartesianStated", or something unrecognised. */
  datatype Style = Cartesian | CartesianStated | OtherStyle(name: string)

  function StyleOf(name: string): (s: Style)
    ensures s.OtherStyle? <==> name != "Cartesian" && name != "CartesianStated"
    ensures s.OtherStyle? ==> s.name == name
  {
    if name == "Cartesian" then Cartesian
    else if name == "CartesianStated" then CartesianStated
    else OtherStyle(name)
  }

  /** The fields of a grid that its zone arithmetic reads. */
  datatype Layout = Layout(startingZone: int, gridSize: int, cellWidth: int, center: real, style: Style)
  {
    /** Python would raise ZeroDivisionError for a zero divisor; negative sizes are meaningless. */
    predicate WellFormed() { gridSize > 0 && cellWidth > 0 }
  }

  datatype Pos = Pos(x: real, y: real, z: real)

  predicate IsGridZone(l: Layout, zoneId: int)
  {
    l.startingZone <= zoneId < l.startingZone + l.gridSize * l.gridSize
  }

  /** An unrecognised style is an assertion failure in debug builds and `False` otherwise; the model returns false. */
  function IsValidZone(l: Layout, zoneId: int): (valid: bool)
    ensures l.style.Cartesian? ==> (valid <==> IsGridZone(l, zoneId))
    ensures l.style.OtherStyle? ==> !valid
  {
    match l.style
    case Cartesian => IsGridZone(l, zoneId)
    case CartesianStated => (0 <= zoneId < l.startingZone) || IsGridZone(l, zoneId)
    case OtherStyle(_) => false
  }

  /** The row of a zone: floor division of its offset from startingZone by gridSize. */
  function RowOf(l: Layout, zoneId: int): int
    requires l.WellFormed()
  {
    (zoneId - l.startingZone) / l.gridSize
  }

  /** The column of a zone: the (never negative) remainder of that division. */
  function ColOf(l: Layout, zoneId: int): (c: int)
    requires l.WellFormed()
    ensures 0 <= c < l.gridSize
  {
    (zoneId - l.startingZone) % l.gridSize
  }

  /** The zone id of a row and column. */
  function ZoneAt(l: Layout, row: int, col: int): int
  {
    l.startingZone + row * l.gridSize + col
  }

  /** A row and column inside the grid name a zone whose row and column they are. */
  lemma CoordinatesOfZoneAt(l: Layout, row: int, col: int)
    requires l.WellFormed() && 0 <= col < l.gridSize
    ensures RowOf(l, ZoneAt(l, row, col)) == row && ColOf(l, ZoneAt(l, row, col)) == col
  {
    DivModUnique(row, col, l.gridSize);
  }

  /** Every zone is the zone of its own row and column. */
  lemma ZoneAtOfCoordinates(l: Layout, zoneId: int)
    requires l.WellFormed()
    ensures ZoneAt(l, RowOf(l, zoneId), ColOf(l, zoneId)) == zoneId
  {
  }

  /** The grid zones are exactly the zones whose row lies in [0, gridSize); columns always do. */
  lemma GridZoneCoordinates(l: Layout, zoneId: int)
    requires l.WellFormed()
    ensures IsGridZone(l, zoneId) <==> 0 <= RowOf(l, zoneId) < l.gridSize
  {
    var gs, off := l.gridSize, zoneId - l.startingZone;
    var row, col := RowOf(l, zoneId), ColOf(l, zoneId);
    assert off == row * gs + col;
    if 0 <= row < gs {
      MulMonotone(row, gs - 1, gs);
      assert (gs - 1) * gs + gs == gs * gs;
    }
    if row < 0 {
      MulMonotone(row, -1, gs);
    }
    if row >= gs {
      MulMonotone(gs, row, gs);
    }
  }

  /**
   * Under "CartesianStated" the valid zones are the ones below the grid as well as
   * the grid zones: one contiguous range [0, startingZone + gridSize^2).
   */
  lemma StatedZonesAreOneRange(l: Layout, zoneId: int)
    requires l.style.CartesianStated? && l.startingZone >= 0
    ensures IsValidZone(l, zoneId) <==> 0 <= zoneId < l.startingZone + l.gridSize * l.gridSize
  {
  }

  /** The result of getZoneFromXYZ with wantRowAndCol. */
  datatype ZoneCell = ZoneCell(zoneId: int, col: int, row: int)

  /** getZoneFromXYZ: the cell of a position relative to the grid origin; no bounds check is made. */
  function ZoneFromXYZ(l: Layout, p: Pos): (r: ZoneCell)
    requires l.WellFormed()
    ensures r.col as real * l.cellWidth as real <= p.x + l.center < (r.col + 1) as real * l.cellWidth as real
    ensures r.row as real * l.cellWidth as real <= p.y + l.center < (r.row + 1) as real * l.cellWidth as real
    ensures r.zoneId == ZoneAt(l, r.row, r.col)
  {
    var w := l.cellWidth as real;
    var col := ((p.x + l.center) / w).Floor;
    var row := ((p.y + l.center) / w).Floor;
    FloorDivBounds(p.x + l.center, w);
    FloorDivBounds(p.y + l.center, w);
    ZoneCell(l.startingZone + row * l.gridSize + col, col, row)
  }

  /** getZoneCellOrigin: the lower-left corner of a zone's cell. */
  function ZoneCellOrigin(l: Layout, zoneId: int): (p: Pos)
    requires l.WellFormed()
    ensures p.x + l.center == ColOf(l, zoneId) as real * l.cellWidth as real
    ensures p.y + l.center == RowOf(l, zoneId) as real * l.cellWidth as real
    ensures p.z == 0.0
  {
    var zone := zoneId - l.startingZone;
    var row := zone / l.gridSize;
    var col := zone % l.gridSize;
    Pos(col as real * l.cellWidth as real - l.center, row as real * l.cellWidth as real - l.center, 0.0)
  }

  /** getZoneCellOriginCenter: the middle of a zone's cell. */
  function ZoneCellOriginCenter(l: Layout, zoneId: int): (p: Pos)
    requires l.WellFormed()
    ensures p.x == ZoneCellOrigin(l, zoneId).x + l.cellWidth as real * 0.5
    ensures p.y == ZoneCellOrigin(l, zoneId).y + l.cellWidth as real * 0.5
    ensures p.z == 0.0
  {
    var o := ZoneCellOrigin(l, zoneId);
    var half := l.cellWidth as real * 0.5;
    Pos(o.x + half, o.y + half, o.z)
  }

  /** A cell index whose cell holds a point of [0, gs * w) lies in [0, gs). */
  lemma CellIndexInRange(x: real, w: real, gs: int, k: int)
    requires w > 0.0 && k as real * w <= x < (k + 1) as real * w
    requires 0.0 <= x < gs as real * w
    ensures 0 <= k < gs
  {
    if k < 0 { RealMulMonotone((k + 1) as real, 0.0, w); }
    if k >= gs { RealMulMonotone(gs as real, k as real, w); }
  }

  /** The origin of the cell at (row, col) brackets any point whose shifted coordinates fall in that cell. */
  lemma CellBracketsPoint(l: Layout, p: Pos, row: int, col: int)
    requires l.WellFormed() && 0 <= col < l.gridSize
    requires col as real * l.cellWidth as real <= p.x + l.center < col as real * l.cellWidth as real + l.cellWidth as real
    requires row as real * l.cellWidth as real <= p.y + l.center < row as real * l.cellWidth as real + l.cellWidth as real
    ensures var o := ZoneCellOrigin(l, ZoneAt(l, row, col));
      o.x <= p.x < o.x + l.cellWidth as real && o.y <= p.y < o.y + l.cellWidth as real
  {
    CoordinatesOfZoneAt(l, row, col);
  }

  lemma CellOfInnerPoint(l: Layout, p: Pos)
    requires l.WellFormed()
    requires 0.0 <= p.x + l.center < l.gridSize as real * l.cellWidth as real
    requires 0.0 <= p.y + l.center < l.gridSize as real * l.cellWidth as real
    ensures 0 <= ZoneFromXYZ(l, p).col < l.gridSize && 0 <= ZoneFromXYZ(l, p).row < l.gridSize
  {
    var c := ZoneFromXYZ(l, p);
    CellIndicesInRange(p.x + l.center, p.y + l.center, l.cellWidth as real, l.gridSize, c.col, c.row);
  }

  /** Both cell indices of a point of the grid's square lie in [0, gs). */
  lemma CellIndicesInRange(x: real, y: real, w: real, gs: int, col: int, row: int)
    requires w > 0.0
    requires col as real * w <= x < (col + 1) as real * w && 0.0 <= x < gs as real * w
    requires row as real * w <= y < (row + 1) as real * w && 0.0 <= y < gs as real * w
    ensures 0 <= col < gs && 0 <= row < gs
  {
    CellIndexInRange(x, w, gs, col);
    CellIndexInRange(y, w, gs, row);
  }

  lemma ZoneFromXYZBrackets(l: Layout, p: Pos)
    requires l.WellFormed() && 0 <= ZoneFromXYZ(l, p).col < l.gridSize
    ensures var o := ZoneCellOrigin(l, ZoneFromXYZ(l, p).zoneId);
      o.x <= p.x < o.x + l.cellWidth as real && o.y <= p.y < o.y + l.cellWidth as real
  {
    var c := ZoneFromXYZ(l, p);
    var w := l.cellWidth as real;
    assert c.col as real * w <= p.x + l.center < (c.col + 1) as real * w;
    assert (c.col + 1) as real * w == c.col as real * w + w;
    assert c.row as real * w <= p.y + l.center < (c.row + 1) as real * w;
    assert (c.row + 1) as real * w == c.row as real * w + w;
    CellBracketsPoint(l, p, c.row, c.col);
  }

  /** A position inside the grid lies in the cell of the zone computed for it. */
  lemma CellContainsPosition(l: Layout, p: Pos)
    requires l.WellFormed()
    requires 0.0 <= p.x + l.center < l.gridSize as real * l.cellWidth as real
    requires 0.0 <= p.y + l.center < l.gridSize as real * l.cellWidth as real
    ensures var z := ZoneFromXYZ(l, p).zoneId;
      IsGridZone(l, z) &&
      ZoneCellOrigin(l, z).x <= p.x < ZoneCellOrigin(l, z).x + l.cellWidth as real &&
      ZoneCellOrigin(l, z).y <= p.y < ZoneCellOrigin(l, z).y + l.cellWidth as real
  {
    var c := ZoneFromXYZ(l, p);
    CellOfInnerPoint(l, p);
    CoordinatesOfZoneAt(l, c.row, c.col);
    GridZoneCoordinates(l, c.zoneId);
    ZoneFromXYZBrackets(l, p);
  }

  /** For every grid zone, the zone of its cell's centre is that zone again. */
  lemma CenterRoundTrip(l: Layout, zoneId: int)
    requires l.WellFormed() && IsGridZone(l, zoneId)
    ensures ZoneFromXYZ(l, ZoneCellOriginCenter(l, zoneId)).zoneId == zoneId
  {
    var p := ZoneCellOriginCenter(l, zoneId);
    var w := l.cellWidth as real;
    var row, col := RowOf(l, zoneId), ColOf(l, zoneId);
    var ax, ay := col as real + 0.5, row as real + 0.5;
    assert p.x + l.center == ax * w;
    assert p.y + l.center == ay * w;
    RealMulDiv(ax, w);
    RealMulDiv(ay, w);
    assert (p.x + l.center) / w == ax;
    assert (p.y + l.center) / w == ay;
    FloorBetween(ax, col);
    FloorBetween(ay, row);
    ZoneAtOfCoordinates(l, zoneId);
  }

  /**
   * No bounds check: on the default grid (startingZone 500, 100 x 100 cells of 50,
   * center 2500) a point just past the right edge of row 0 gets the zone of the
   * first cell of row 1, a valid-looking grid zone.
   */
  lemma ZoneWrapsIntoNextRow()
    ensures var l := Layout(500, 100, 50, 2500.0, Cartesian);
      ZoneFromXYZ(l, Pos(2500.0, -2500.0, 0.0)).zoneId == 600 &&
      ZoneFromXYZ(l, Pos(-2500.0, -2450.0, 0.0)).zoneId == 600 &&
      IsGridZone(l, 600)
  {
    var l := Layout(500, 100, 50, 2500.0, Cartesian);
    FloorBetween(5000.0 / 50.0, 100);
    FloorBetween(0.0 / 50.0, 0);
    FloorBetween(50.0 / 50.0, 1);
  }

  function Max(a: real, b: real): real { if a >= b then a else b }

  /** getGridSizeFromSphereRadius: twice the number of whole cells in the (enlarged) radius. */
  function GridSizeFromSphereRadius(sphereRadius: real, cellWidth: int, gridRadius: int): (size: int)
    requires cellWidth > 0
    ensures size % 2 == 0
    ensures (size / 2) as real * cellWidth as real <= Max(sphereRadius, (gridRadius * cellWidth) as real)
    ensures Max(sphereRadius, (gridRadius * cellWidth) as real) < (size / 2 + 1) as real * cellWidth as real
  {
    var r := Max(sphereRadius, (gridRadius * cellWidth) as real);
    var cells := (r / cellWidth as real).Floor;
    FloorDivBounds(r, cellWidth as real);
    assert (2 * cells) / 2 == cells;
    2 * cells
  }

  /** The grid is always at least gridRadius cells bigger on each side than nothing. */
  lemma GridSizeCoversGridRadius(sphereRadius: real, cellWidth: int, gridRadius: int)
    requires cellWidth > 0
    ensures GridSizeFromSphereRadius(sphereRadius, cellWidth, gridRadius) >= 2 * gridRadius
  {
    var size := GridSizeFromSphereRadius(sphereRadius, cellWidth, gridRadius);
    var w := cellWidth as real;
    assert (gridRadius * cellWidth) as real < (size / 2 + 1) as real * w;
    assert gridRadius as real * w < (size / 2 + 1) as real * w;
    assert gridRadius < size / 2 + 1;
  }

  /**
   * getGridSizeFromSphere: `length` is the length of the vector (|x| + r, |y| + r, 0),
   * which the engine's vector class computes; the result is never below 1.
   */
  function GridSizeFromSphere(length: real, cellWidth: int): (size: int)
    requires cellWidth > 0
    ensures size >= 1
    ensures size == 1 || size % 2 == 0
    ensures size > 1 ==> (size / 2) as real * cellWidth as real <= length < (size / 2 + 1) as real * cellWidth as real
  {
    var cells := (length / cellWidth as real).Floor;
    FloorDivBounds(length, cellWidth as real);
    assert (2 * cells) / 2 == cells;
    if 2 * cells >= 1 then 2 * cells else 1
  }

  // ---------------------------------------------------------------------------
  // Concentric rings of zones
  // ---------------------------------------------------------------------------

  function Abs(x: int): nat { if x < 0 then -x else x }

  function Chebyshev(row1: int, col1: int, row2: int, col2: int): nat
  {
    var dr, dc := Abs(row1 - row2), Abs(col1 - col2);
    if dr >= dc then dr else dc
  }

  /** `z` is a grid zone exactly `radius` cells away (in the max norm) from `zoneId`. */
  predicate InRing(l: Layout, zoneId: int, radius: int, z: int)
    requires l.WellFormed()
  {
    IsGridZone(l, z) &&
    Chebyshev(RowOf(l, z), ColOf(l, z), RowOf(l, zoneId), ColOf(l, zoneId)) == radius
  }

  /** How far the ring may reach on each side before the grid edge cuts it. */
  datatype Offsets = Offsets(left: int, right: int, top: int, bottom: int)

  function MinInt(a: int, b: int): int { if a <= b then a else b }

  function OffsetsOf(l: Layout, zoneId: int, radius: int): Offsets
    requires l.WellFormed()
  {
    var row, col := RowOf(l, zoneId), ColOf(l, zoneId);
    Offsets(MinInt(col, radius), MinInt(l.gridSize - (col + 1), radius),
            MinInt(row, radius), MinInt(l.gridSize - (row + 1), radius))
  }

  /** The row offsets visited in column `c` of the clipped square: all rows at an edge column, else the top and bottom rows that the clip did not cut. */
  function PossibleRows(o: Offsets, radius: int, c: int): seq<int>
  {
    if (c == 0 && o.left == radius) || (c == o.right + o.left && o.right == radius) then
      Range(0, o.bottom + o.top + 1)
    else
      (if o.top == radius then [0] else []) + (if o.bottom == radius then [o.bottom + o.top] else [])
  }

  /** The zones of column `c`, counted from the upper-left zone `ul`. */
  function ColumnZones(ul: int, gridSize: int, c: int, rows: seq<int>): (zs: seq<int>)
    ensures |zs| == |rows|
  {
    if rows == [] then [] else [ul + rows[0] * gridSize + c] + ColumnZones(ul, gridSize, c, rows[1..])
  }

  /** The i-th listed zone of a column is the zone of its i-th listed row. */
  lemma {:induction false} ColumnZonesAt(ul: int, gs: int, c: int, rows: seq<int>, i: int)
    requires 0 <= i < |rows|
    ensures ColumnZones(ul, gs, c, rows)[i] == ul + rows[i] * gs + c
    decreases i
  {
    if i > 0 {
      ColumnZonesAt(ul, gs, c, rows[1..], i - 1);
    }
  }

  /** The zones listed for columns 0 .. n-1, in the order getConcentricZones appends them. */
  function RingPrefix(ul: int, gridSize: int, o: Offsets, radius: int, n: int): seq<int>
    decreases n
  {
    if n <= 0 then [] else
      RingPrefix(ul, gridSize, o, radius, n - 1) + ColumnZones(ul, gridSize, n - 1, PossibleRows(o, radius, n - 1))
  }

  /** The rows listed in a column are exactly the row offsets at max-norm distance `radius`. */
  lemma PossibleRowsMeaning(o: Offsets, radius: int, c: int, rr: int)
    requires radius >= 0
    requires 0 <= o.left <= radius && 0 <= o.right <= radius && 0 <= o.top <= radius && 0 <= o.bottom <= radius
    requires 0 <= c <= o.left + o.right
    ensures rr in PossibleRows(o, radius, c) <==>
      0 <= rr <= o.top + o.bottom && Chebyshev(rr, c, o.top, o.left) == radius
  {
    var edge := (c == 0 && o.left == radius) || (c == o.right + o.left && o.right == radius);
    if edge {
      RangeMembership(0, o.bottom + o.top + 1, rr);
      assert Abs(c - o.left) == radius;
    } else {
      assert Abs(c - o.left) < radius;
    }
  }

  lemma PossibleRowsIncreasing(o: Offsets, radius: int, c: int)
    requires radius >= 0
    requires 0 <= o.left <= radius && 0 <= o.right <= radius && 0 <= o.top <= radius && 0 <= o.bottom <= radius
    requires 0 <= c <= o.left + o.right
    ensures StrictlyIncreasing(PossibleRows(o, radius, c))
  {
    var edge := (c == 0 && o.left == radius) || (c == o.right + o.left && o.right == radius);
    if !edge {
      assert Abs(c - o.left) < radius;
    }
  }

  /** Facts about the clip offsets of a grid zone. */
  lemma OffsetsBounds(l: Layout, zoneId: int, radius: int)
    requires l.WellFormed() && IsGridZone(l, zoneId) && radius >= 0
    ensures var o := OffsetsOf(l, zoneId, radius);
      0 <= o.left <= radius && 0 <= o.right <= radius && 0 <= o.top <= radius && 0 <= o.bottom <= radius &&
      o.left <= ColOf(l, zoneId) && ColOf(l, zoneId) + o.right < l.gridSize &&
      o.top <= RowOf(l, zoneId) && RowOf(l, zoneId) + o.bottom < l.gridSize
  {
    GridZoneCoordinates(l, zoneId);
  }

  /** The zone listed at row offset rr of column c lies in grid row row - top + rr and grid column col - left + c. */
  lemma ColumnZoneCoordinates(l: Layout, zoneId: int, radius: int, c: int, rr: int)
    requires l.WellFormed() && IsGridZone(l, zoneId) && radius >= 0
    requires var o := OffsetsOf(l, zoneId, radius); 0 <= c <= o.left + o.right && 0 <= rr <= o.top + o.bottom
    ensures var o := OffsetsOf(l, zoneId, radius);
      var z := zoneId - o.left - o.top * l.gridSize + rr * l.gridSize + c;
      IsGridZone(l, z) &&
      RowOf(l, z) == RowOf(l, zoneId) - o.top + rr && ColOf(l, z) == ColOf(l, zoneId) - o.left + c &&
      Chebyshev(rr, c, o.top, o.left) == Chebyshev(RowOf(l, z), ColOf(l, z), RowOf(l, zoneId), ColOf(l, zoneId))
  {
    var o := OffsetsOf(l, zoneId, radius);
    var gs := l.gridSize;
    var row, col := RowOf(l, zoneId), ColOf(l, zoneId);
    OffsetsBounds(l, zoneId, radius);
    ZoneAtOfCoordinates(l, zoneId);
    var z := zoneId - o.left - o.top * gs + rr * gs + c;
    ShiftRowsCols(l.startingZone, row, col, o.top, rr, c - o.left, gs);
    assert z == ZoneAt(l, row - o.top + rr, col - o.left + c);
    CoordinatesOfZoneAt(l, row - o.top + rr, col - o.left + c);
    GridZoneCoordinates(l, z);
  }

  /** A ring zone in grid column col - left + c sits at a row offset between 0 and top + bottom. */
  lemma RingZoneRowOffset(l: Layout, zoneId: int, radius: int, c: int, z: int)
    requires l.WellFormed() && IsGridZone(l, zoneId) && radius >= 0
    requires InRing(l, zoneId, radius, z)
    requires var o := OffsetsOf(l, zoneId, radius); ColOf(l, z) == ColOf(l, zoneId) - o.left + c
    ensures var o := OffsetsOf(l, zoneId, radius);
      var rr := RowOf(l, z) - RowOf(l, zoneId) + o.top;
      0 <= rr <= o.top + o.bottom && z == zoneId - o.left - o.top * l.gridSize + rr * l.gridSize + c
  {
    var o := OffsetsOf(l, zoneId, radius);
    var gs := l.gridSize;
    var row, col := RowOf(l, zoneId), ColOf(l, zoneId);
    OffsetsBounds(l, zoneId, radius);
    GridZoneCoordinates(l, z);
    ZoneAtOfCoordinates(l, z);
    ZoneAtOfCoordinates(l, zoneId);
    assert Abs(RowOf(l, z) - row) <= radius;
    var rr := RowOf(l, z) - row + o.top;
    ShiftRowsCols(l.startingZone, row, col, o.top, rr, c - o.left, gs);
  }

  /** Listing rows in increasing order lists their zones in increasing order. */
  lemma ColumnZonesIncreasing(ul: int, gs: int, c: int, rows: seq<int>)
    requires gs > 0 && StrictlyIncreasing(rows)
    ensures StrictlyIncreasing(ColumnZones(ul, gs, c, rows))
  {
    var zs := ColumnZones(ul, gs, c, rows);
    forall i, j | 0 <= i < j < |zs| ensures zs[i] < zs[j] {
      ColumnZonesAt(ul, gs, c, rows, i);
      ColumnZonesAt(ul, gs, c, rows, j);
      MulPositive(rows[j] - rows[i], gs);
      assert zs[j] - zs[i] == (rows[j] - rows[i]) * gs;
    }
  }

  /** The zones of a column are the zones of its listed rows. */
  lemma ColumnZonesMembership(ul: int, gs: int, c: int, rows: seq<int>, z: int)
    ensures z in ColumnZones(ul, gs, c, rows) <==> exists rr :: rr in rows && z == ul + rr * gs + c
  {
    var zs := ColumnZones(ul, gs, c, rows);
    if z in zs {
      var i :| 0 <= i < |zs| && zs[i] == z;
      ColumnZonesAt(ul, gs, c, rows, i);
      assert rows[i] in rows;
    }
    if exists rr :: rr in rows && z == ul + rr * gs + c {
      var rr :| rr in rows && z == ul + rr * gs + c;
      var i :| 0 <= i < |rows| && rows[i] == rr;
      ColumnZonesAt(ul, gs, c, rows, i);
      assert zs[i] == z;
    }
  }

  /** Every zone listed for column c is a ring zone of grid column col - left + c. */
  lemma ColumnZoneInRing(l: Layout, zoneId: int, radius: int, c: int, rr: int)
    requires l.WellFormed() && IsGridZone(l, zoneId) && radius >= 0
    requires var o := OffsetsOf(l, zoneId, radius); 0 <= c <= o.left + o.right && rr in PossibleRows(o, radius, c)
    ensures var o := OffsetsOf(l, zoneId, radius);
      var z := zoneId - o.left - o.top * l.gridSize + rr * l.gridSize + c;
      InRing(l, zoneId, radius, z) && ColOf(l, z) == ColOf(l, zoneId) - o.left + c
  {
    var o := OffsetsOf(l, zoneId, radius);
    OffsetsBounds(l, zoneId, radius);
    PossibleRowsMeaning(o, radius, c, rr);
    ColumnZoneCoordinates(l, zoneId, radius, c, rr);
  }

  /** Every ring zone of grid column col - left + c is listed for column c. */
  lemma RingZoneInColumn(l: Layout, zoneId: int, radius: int, c: int, z: int)
    requires l.WellFormed() && IsGridZone(l, zoneId) && radius >= 0
    requires InRing(l, zoneId, radius, z)
    requires var o := OffsetsOf(l, zoneId, radius); 0 <= c <= o.left + o.right && ColOf(l, z) == ColOf(l, zoneId) - o.left + c
    ensures var o := OffsetsOf(l, zoneId, radius);
      var rr := RowOf(l, z) - RowOf(l, zoneId) + o.top;
      rr in PossibleRows(o, radius, c) && z == zoneId - o.left - o.top * l.gridSize + rr * l.gridSize + c
  {
    var o := OffsetsOf(l, zoneId, radius);
    OffsetsBounds(l, zoneId, radius);
    RingZoneRowOffset(l, zoneId, radius, c, z);
    var rr := RowOf(l, z) - RowOf(l, zoneId) + o.top;
    ColumnZoneCoordinates(l, zoneId, radius, c, rr);
    PossibleRowsMeaning(o, radius, c, rr);
  }

  /** The clip offsets, upper-left zone and leftmost grid column of the ring around `zoneId`. */
  ghost predicate RingFrame(l: Layout, zoneId: int, radius: int, o: Offsets, ul: int, lo: int)
    requires l.WellFormed()
  {
    o == OffsetsOf(l, zoneId, radius) && ul == zoneId - o.left - o.top * l.gridSize && lo == ColOf(l, zoneId) - o.left
  }

  /** Column `c` of the ring lists exactly the ring zones in grid column lo + c, each once. */
  lemma ColumnZonesMeaning(l: Layout, zoneId: int, radius: int, o: Offsets, ul: int, lo: int, c: int, c1: int)
    requires l.WellFormed() && IsGridZone(l, zoneId) && radius >= 0
    requires RingFrame(l, zoneId, radius, o, ul, lo) && 0 <= c <= o.left + o.right && c1 == c + 1
    ensures ListsRingZones(l, zoneId, radius, ColumnZones(ul, l.gridSize, c, PossibleRows(o, radius, c)), lo + c, lo + c1)
  {
    var rows := PossibleRows(o, radius, c);
    var zs := ColumnZones(ul, l.gridSize, c, rows);
    OffsetsBounds(l, zoneId, radius);
    PossibleRowsIncreasing(o, radius, c);
    ColumnZonesIncreasing(ul, l.gridSize, c, rows);
    StrictlyIncreasingHasNoDuplicates(zs);
    forall z ensures z in zs <==> InRing(l, zoneId, radius, z) && lo + c <= ColOf(l, z) < lo + c1 {
      ColumnZonesMembership(ul, l.gridSize, c, rows, z);
      if z in zs {
        var rr :| rr in rows && z == ul + rr * l.gridSize + c;
        ColumnZoneInRing(l, zoneId, radius, c, rr);
      }
      if InRing(l, zoneId, radius, z) && ColOf(l, z) == lo + c {
        RingZoneInColumn(l, zoneId, radius, c, z);
      }
    }
  }

  /** `zs` lists, each once, exactly the ring zones whose grid column lies in [lo, hi). */
  ghost predicate ListsRingZones(l: Layout, zoneId: int, radius: int, zs: seq<int>, lo: int, hi: int)
    requires l.WellFormed()
  {
    NoDuplicates(zs) && forall z :: z in zs <==> InRing(l, zoneId, radius, z) && lo <= ColOf(l, z) < hi
  }

  /** Adding the ring zones of column k to those of the columns [lo, k). */
  lemma RingPrefixStep(l: Layout, zoneId: int, radius: int, lo: int, k: int, hi: int, before: seq<int>, column: seq<int>)
    requires l.WellFormed() && lo <= k && hi == k + 1
    requires ListsRingZones(l, zoneId, radius, before, lo, k)
    requires ListsRingZones(l, zoneId, radius, column, k, hi)
    ensures ListsRingZones(l, zoneId, radius, before + column, lo, hi)
  {
    forall x | x in before ensures x !in column {
      assert ColOf(l, x) < k;
    }
    NoDuplicatesAppend(before, column);
  }

  /** The first n columns list, each once, exactly the ring zones lying in those columns. */
  lemma {:induction false} RingPrefixMeaning(l: Layout, zoneId: int, radius: int, o: Offsets, ul: int, lo: int, n: int)
    requires l.WellFormed() && IsGridZone(l, zoneId) && radius >= 0
    requires RingFrame(l, zoneId, radius, o, ul, lo) && 0 <= n <= o.left + o.right + 1
    ensures ListsRingZones(l, zoneId, radius, RingPrefix(ul, l.gridSize, o, radius, n), lo, lo + n)
  {
    if n > 0 {
      var before := RingPrefix(ul, l.gridSize, o, radius, n - 1);
      var column := ColumnZones(ul, l.gridSize, n - 1, PossibleRows(o, radius, n - 1));
      RingPrefixMeaning(l, zoneId, radius, o, ul, lo, n - 1);
      ColumnZonesMeaning(l, zoneId, radius, o, ul, lo, n - 1, n);
      RingPrefixSnoc(ul, l.gridSize, o, radius, n - 1);
      RingPrefixStep(l, zoneId, radius, lo, lo + (n - 1), lo + n, before, column);
    } else {
      assert RingPrefix(ul, l.gridSize, o, radius, n) == [];
    }
  }

  /** A ring zone lies between the clipped left and right columns. */
  lemma RingZoneColumns(l: Layout, zoneId: int, radius: int, o: Offsets, ul: int, lo: int, n: int, z: int)
    requires l.WellFormed() && IsGridZone(l, zoneId) && radius >= 0 && InRing(l, zoneId, radius, z)
    requires RingFrame(l, zoneId, radius, o, ul, lo) && n == o.left + o.right + 1
    ensures lo <= ColOf(l, z) < lo + n
  {
    assert Abs(ColOf(l, z) - ColOf(l, zoneId)) <= radius;
  }

  /** A list of the ring zones in columns [lo, hi) lists the whole ring when every ring zone lies in those columns. */
  lemma ListsWholeRing(l: Layout, zoneId: int, radius: int, zs: seq<int>, lo: int, hi: int)
    requires l.WellFormed() && ListsRingZones(l, zoneId, radius, zs, lo, hi)
    requires forall z :: InRing(l, zoneId, radius, z) ==> lo <= ColOf(l, z) < hi
    ensures NoDuplicates(zs) && forall z :: z in zs <==> InRing(l, zoneId, radius, z)
  {
  }

  /** The zones getConcentricZones lists, column by column from the clipped left edge. */
  function RingZones(l: Layout, zoneId: int, radius: int): seq<int>
    requires l.WellFormed()
  {
    var o := OffsetsOf(l, zoneId, radius);
    RingPrefix(zoneId - o.left - o.top * l.gridSize, l.gridSize, o, radius, o.left + o.right + 1)
  }

  /** The listed ring holds every grid zone at max-norm distance `radius` from `zoneId`, and no other, each once. */
  lemma RingMeaning(l: Layout, zoneId: int, radius: int)
    requires l.WellFormed() && IsGridZone(l, zoneId) && radius >= 0
    ensures NoDuplicates(RingZones(l, zoneId, radius))
    ensures forall z :: z in RingZones(l, zoneId, radius) <==> InRing(l, zoneId, radius, z)
  {
    var o := OffsetsOf(l, zoneId, radius);
    var ul, lo, n := zoneId - o.left - o.top * l.gridSize, ColOf(l, zoneId) - o.left, o.left + o.right + 1;
    assert RingFrame(l, zoneId, radius, o, ul, lo);
    OffsetsBounds(l, zoneId, radius);
    RingPrefixMeaning(l, zoneId, radius, o, ul, lo, n);
    forall z | InRing(l, zoneId, radius, z) ensures lo <= ColOf(l, z) < lo + n {
      RingZoneColumns(l, zoneId, radius, o, ul, lo, n, z);
    }
    assert RingZones(l, zoneId, radius) == RingPrefix(ul, l.gridSize, o, radius, n);
    ListsWholeRing(l, zoneId, radius, RingPrefix(ul, l.gridSize, o, radius, n), lo, lo + n);
  }

  /** Appending one more listed row to a column. */
  lemma ColumnZonesSnoc(ul: int, gs: int, c: int, rows: seq<int>, i: int)
    requires 0 <= i < |rows|
    ensures ColumnZones(ul, gs, c, rows[..i + 1]) == ColumnZones(ul, gs, c, rows[..i]) + [ul + rows[i] * gs + c]
  {
    var longer, shorter := ColumnZones(ul, gs, c, rows[..i + 1]), ColumnZones(ul, gs, c, rows[..i]);
    forall j | 0 <= j <= i ensures longer[j] == (shorter + [ul + rows[i] * gs + c])[j] {
      ColumnZonesAt(ul, gs, c, rows[..i + 1], j);
      if j < i {
        ColumnZonesAt(ul, gs, c, rows[..i], j);
      }
    }
  }

  /** One more column of the ring. */
  lemma RingPrefixSnoc(ul: int, gs: int, o: Offsets, radius: int, n: int)
    requires n >= 0
    ensures RingPrefix(ul, gs, o, radius, n + 1) == RingPrefix(ul, gs, o, radius, n) + ColumnZones(ul, gs, n, PossibleRows(o, radius, n))
  {
  }

  /** The ring of radius 0 is the zone itself. */
  lemma RingOfRadiusZero(l: Layout, zoneId: int)
    requires l.WellFormed() && IsGridZone(l, zoneId)
    ensures RingZones(l, zoneId, 0) == [zoneId]
  {
    var o := OffsetsOf(l, zoneId, 0);
    GridZoneCoordinates(l, zoneId);
    assert o == Offsets(0, 0, 0, 0);
    RingPrefixSnoc(zoneId, l.gridSize, o, 0, 0);
    ColumnZonesAt(zoneId, l.gridSize, 0, [0], 0);
  }

  /** The inner loop of getConcentricZones: appends the zones of the listed rows of column c. */
  method AppendColumn(zones: seq<int>, ul: int, gs: int, c: int, rows: seq<int>) returns (zones': seq<int>)
    ensures zones' == zones + ColumnZones(ul, gs, c, rows)
  {
    zones' := zones;
    var i := 0;
    while i < |rows|
      invariant 0 <= i <= |rows|
      invariant zones' == zones + ColumnZones(ul, gs, c, rows[..i])
    {
      var newZone := ul + rows[i] * gs + c;
      ColumnZonesSnoc(ul, gs, c, rows, i);
      zones' := zones' + [newZone];
      i := i + 1;
    }
    assert rows[..i] == rows;
  }

  /**
   * getConcentricZones: the grid zones exactly `radius` cells from `zoneId` in the max
   * norm, each listed once, clipped (not wrapped) at the grid edges.
   */
  method ConcentricZones(l: Layout, zoneId: int, radius: int) returns (zones: seq<int>)
    requires l.WellFormed()
    ensures zones == RingZones(l, zoneId, radius)
  {
    var zone := zoneId - l.startingZone;
    var row := zone / l.gridSize;
    var col := zone % l.gridSize;
    var leftOffset := MinInt(col, radius);
    var rightOffset := MinInt(l.gridSize - (col + 1), radius);
    var topOffset := MinInt(row, radius);
    var bottomOffset := MinInt(l.gridSize - (row + 1), radius);
    var o := Offsets(leftOffset, rightOffset, topOffset, bottomOffset);
    assert o == OffsetsOf(l, zoneId, radius);
    var ulZone := zoneId - leftOffset - topOffset * l.gridSize;
    zones := AppendColumns(ulZone, l.gridSize, o, radius);
  }

  /** The outer loop of getConcentricZones: the columns from the clipped left edge to the clipped right edge. */
  method AppendColumns(ul: int, gs: int, o: Offsets, radius: int) returns (zones: seq<int>)
    ensures zones == RingPrefix(ul, gs, o, radius, o.left + o.right + 1)
  {
    zones := [];
    var currCol := 0;
    while currCol < o.right + o.left + 1
      invariant 0 <= currCol && (currCol <= o.right + o.left + 1 || currCol == 0)
      invariant zones == RingPrefix(ul, gs, o, radius, currCol)
    {
      var possibleRows: seq<int>;
      if (currCol == 0 && o.left == radius) || (currCol == o.right + o.left && o.right == radius) {
        possibleRows := Range(0, o.bottom + o.top + 1);
      } else {
        possibleRows := [];
        if o.top == radius {
          possibleRows := possibleRows + [0];
        }
        if o.bottom == radius {
          possibleRows := possibleRows + [o.bottom + o.top];
        }
      }
      assert possibleRows == PossibleRows(o, radius, currCol);
      zones := AppendColumn(zones, ul, gs, currCol, possibleRows);
      RingPrefixSnoc(ul, gs, o, radius, currCol);
      currCol := currCol + 1;
    }
    if o.right + o.left + 1 <= 0 {
      assert RingPrefix(ul, gs, o, radius, o.left + o.right + 1) == [];
    }
  }

  // ---------------------------------------------------------------------------
  // Parenting rules
  // ---------------------------------------------------------------------------

  function DigitChar(d: int): char
    requires 0 <= d < 10
  {
    "0123456789"[d]
  }

  predicate IsDigit(ch: char) { '0' <= ch <= '9' }

  /** Decimal digits of a natural number, most significant first. */
  function NatToString(n: nat): (s: string)
    ensures |s| >= 1 && forall i :: 0 <= i < |s| ==> IsDigit(s[i])
  {
    if n < 10 then [DigitChar(n)] else NatToString(n / 10) + [DigitChar(n % 10)]
  }

  /** Python's "%i" formatting of an integer. */
  function IntToString(n: int): (s: string)
    ensures ':' !in s
  {
    if n < 0 then "-" + NatToString(-n) else NatToString(n)
  }

  /** The value of a string of decimal digits. */
  function DigitsValue(s: string): nat
    requires forall i :: 0 <= i < |s| ==> IsDigit(s[i])
  {
    if s == [] then 0
    else
      assert IsDigit(s[|s| - 1]);
      DigitsValue(s[..|s| - 1]) * 10 + (s[|s| - 1] as int - '0' as int)
  }

  /** White space as int() skips it: space, tab, newline, vertical tab, form feed, return. */
  predicate IsSpace(ch: char) { ch == ' ' || 9 <= ch as int <= 13 }

  /** The string without its leading white space. */
  function TrimStart(s: string): (t: string)
    ensures |t| <= |s| && (t != [] ==> !IsSpace(t[0]))
  {
    if s != [] && IsSpace(s[0]) then TrimStart(s[1..]) else s
  }

  /** The string without its trailing white space. */
  function TrimEnd(s: string): (t: string)
    ensures |t| <= |s| && (t != [] ==> !IsSpace(t[|t| - 1]))
  {
    if s != [] && IsSpace(s[|s| - 1]) then TrimEnd(s[..|s| - 1]) else s
  }

  /** An optional sign followed by at least one digit, and its value. */
  function ParseSigned(s: string): Option<int>
  {
    if |s| > 0 && (s[0] == '-' || s[0] == '+') then
      var digits := s[1..];
      if |digits| > 0 && forall i :: 0 <= i < |digits| ==> IsDigit(digits[i]) then
        Some(if s[0] == '-' then -(DigitsValue(digits) as int) else DigitsValue(digits) as int)
      else None
    else if |s| > 0 && forall i :: 0 <= i < |s| ==> IsDigit(s[i]) then Some(DigitsValue(s))
    else None
  }

  /**
   * Python's int() on a string: white space around the number is skipped, then
   * an optional sign and at least one digit; anything else is a ValueError.
   */
  function ParseInt(s: string): Option<int>
  {
    ParseSigned(TrimEnd(TrimStart(s)))
  }

  /** int() skips the white space around a signed number. */
  lemma ParseIntSkipsSpace()
    ensures ParseInt(" +7\n") == Some(7)
  {
    assert TrimStart(" +7\n") == "+7\n";
    assert TrimEnd("+7\n") == "+7";
    assert "+7"[1..] == "7";
  }

  lemma {:induction false} NatToStringValue(n: nat)
    ensures DigitsValue(NatToString(n)) == n
  {
    if n >= 10 {
      NatToStringValue(n / 10);
      var s := NatToString(n);
      assert s[..|s| - 1] == NatToString(n / 10);
    }
  }

  /** A formatted integer neither starts nor ends with white space, so int() reads it whole. */
  lemma IntToStringTrimmed(n: int)
    ensures TrimEnd(TrimStart(IntToString(n))) == IntToString(n)
  {
    var s := IntToString(n);
    var digits := NatToString(if n < 0 then -n else n);
    assert IsDigit(digits[0]) && IsDigit(digits[|digits| - 1]);
    assert s[0] == '-' || s[0] == digits[0];
    assert s[|s| - 1] == digits[|digits| - 1];
    assert TrimStart(s) == s;
  }

  /** The digits of a natural number, with or without a minus sign, read back as it and as its negation. */
  lemma ParseSignedDigits(n: nat)
    ensures ParseSigned(NatToString(n)) == Some(n)
    ensures ParseSigned("-" + NatToString(n)) == Some(-(n as int))
  {
    var digits := NatToString(n);
    NatToStringValue(n);
    assert IsDigit(digits[0]);
    assert ("-" + digits)[1..] == digits;
  }

  /** Formatting an integer with "%i" and reading it back with int() gives the integer. */
  lemma IntStringRoundTrip(n: int)
    ensures ParseInt(IntToString(n)) == Some(n)
  {
    IntToStringTrimmed(n);
    ParseSignedDigits(if n < 0 then -n else n);
  }

  /** Python's str.split(':'). */
  function Split(s: string): (parts: seq<string>)
    ensures |parts| >= 1
  {
    if s == [] then [""]
    else
      var rest := Split(s[1..]);
      if s[0] == ':' then [""] + rest else [[s[0]] + rest[0]] + rest[1..]
  }

  lemma {:induction false} SplitAppend(a: string, b: string)
    requires ':' !in a
    ensures Split(a + ":" + b) == [a] + Split(b)
  {
    if a == [] {
      assert a + ":" + b == [':'] + b;
    } else {
      SplitAppend(a[1..], b);
      assert (a + ":" + b)[1..] == a[1..] + ":" + b;
      assert (a + ":" + b)[0] == a[0] != ':';
      assert [a[0]] + a[1..] == a;
    }
  }

  lemma {:induction false} SplitNoSeparator(a: string)
    requires ':' !in a
    ensures Split(a) == [a]
  {
    if a != [] {
      SplitNoSeparator(a[1..]);
      assert [a[0]] + a[1..] == a;
    }
  }

  /** getParentingRules' rule string: "%i:%i:%i" of startingZone, gridSize and gridRadius. */
  function FormatRules(startingZone: int, gridSize: int, gridRadius: int): string
  {
    IntToString(startingZone) + ":" + IntToString(gridSize) + ":" + IntToString(gridRadius)
  }

  lemma SplitFormatRules(a: int, b: int, c: int)
    ensures Split(FormatRules(a, b, c)) == [IntToString(a), IntToString(b), IntToString(c)]
  {
    var sa, sb, sc := IntToString(a), IntToString(b), IntToString(c);
    assert FormatRules(a, b, c) == sa + ":" + (sb + ":" + sc);
    SplitAppend(sa, sb + ":" + sc);
    SplitAppend(sb, sc);
    SplitNoSeparator(sc);
  }

  /** The grid settings that setParentingRules and getParentingRules touch. */
  datatype Rules = Rules(style: Style, startingZone: int, gridSize: int, gridRadius: int,
                         viewingRadius: Option<int>, cellWidth: int, center: real)

  /** How setParentingRules can stop: IndexError on a missing field, or ValueError from int(). */
  datatype RulesError = MissingField | NotAnInteger

  /** The settings setParentingRules leaves, and the exception it raised, if any. */
  datatype RulesOutcome = RulesOutcome(rules: Rules, error: Option<RulesError>)

  /** Field k of the split rule read with int(): missing, refused, or its value. */
  function FieldAt(fields: seq<string>, k: nat): (r: Result<int, RulesError>)
    ensures r == Err(MissingField) <==> k >= |fields|
    ensures r == Err(NotAnInteger) <==> k < |fields| && ParseInt(fields[k]).None?
    ensures r.Ok? ==> k < |fields| && ParseInt(fields[k]) == Some(r.value)
  {
    if k >= |fields| then Err(MissingField)
    else match ParseInt(fields[k]) case Some(v) => Ok(v) case None => Err(NotAnInteger)
  }

  /** The first three fields of the split rule all read as integers. */
  predicate RuleReads(rule: string)
  {
    FieldAt(Split(rule), 0).Ok? && FieldAt(Split(rule), 1).Ok? && FieldAt(Split(rule), 2).Ok?
  }

  /**
   * setParentingRules as written, its field-count assertion stripped: the
   * style is stored, then startingZone, gridSize and viewingRadius are read
   * in turn from the first three fields, and center is recomputed from the
   * new gridSize.  A missing field or one int() refuses stops it, keeping
   * what it had stored; fields past the third are ignored and gridRadius is
   * never written.
   */
  function ApplyParentingRules(r: Rules, style: string, rule: string): (res: RulesOutcome)
    ensures res.rules.style == StyleOf(style) && res.rules.gridRadius == r.gridRadius && res.rules.cellWidth == r.cellWidth
    ensures res.error.None? <==> RuleReads(rule)
    ensures res.error.None? ==>
      res.rules.viewingRadius == Some(FieldAt(Split(rule), 2).value) &&
      res.rules.center == (res.rules.gridSize * r.cellWidth) as real / 2.0
    ensures res.error.Some? ==> res.rules.viewingRadius == r.viewingRadius && res.rules.center == r.center
    ensures res.rules.startingZone == (if FieldAt(Split(rule), 0).Ok? then FieldAt(Split(rule), 0).value else r.startingZone)
    ensures res.rules.gridSize ==
      (if FieldAt(Split(rule), 0).Ok? && FieldAt(Split(rule), 1).Ok? then FieldAt(Split(rule), 1).value else r.gridSize)
    ensures res.error == Some(MissingField) ==> |Split(rule)| < 3
  {
    var fields := Split(rule);
    var r1 := r.(style := StyleOf(style));
    match FieldAt(fields, 0)
    case Err(e) => RulesOutcome(r1, Some(e))
    case Ok(z) =>
      var r2 := r1.(startingZone := z);
      match FieldAt(fields, 1)
      case Err(e) => RulesOutcome(r2, Some(e))
      case Ok(g) =>
        var r3 := r2.(gridSize := g);
        match FieldAt(fields, 2)
        case Err(e) => RulesOutcome(r3, Some(e))
        case Ok(v) => RulesOutcome(r3.(viewingRadius := Some(v), center := (g * r.cellWidth) as real / 2.0), None)
  }

  /** getParentingRules: the style and the rule string. */
  function GetParentingRules(r: Rules): (string, string)
  {
    (match r.style case Cartesian => "Cartesian" case CartesianStated => "CartesianStated" case OtherStyle(n) => n,
     FormatRules(r.startingZone, r.gridSize, r.gridRadius))
  }

  /** Applying a rule string that getParentingRules produced succeeds and reads back its three numbers. */
  lemma ApplyFormattedRules(r: Rules, style: string, a: int, b: int, c: int)
    ensures ApplyParentingRules(r, style, FormatRules(a, b, c)) ==
      RulesOutcome(r.(style := StyleOf(style), startingZone := a, gridSize := b, viewingRadius := Some(c),
                      center := (b * r.cellWidth) as real / 2.0), None)
  {
    SplitFormatRules(a, b, c);
    IntStringRoundTrip(a);
    IntStringRoundTrip(b);
    IntStringRoundTrip(c);
  }

  /** Three fields without a separator, then more fields, split into those three and the rest. */
  lemma SplitThreeAndRest(sa: string, sb: string, sc: string, rest: string)
    requires ':' !in sa && ':' !in sb && ':' !in sc
    ensures Split(sa + ":" + sb + ":" + sc + ":" + rest) == [sa, sb, sc] + Split(rest)
  {
    var t3 := sc + ":" + rest;
    var t2 := sb + ":" + t3;
    assert sa + ":" + sb + ":" + sc + ":" + rest == sa + ":" + t2;
    SplitAppend(sa, t2);
    SplitAppend(sb, t3);
    SplitAppend(sc, rest);
  }

  /** A rule string from getParentingRules followed by more fields splits into its three numbers and the rest. */
  lemma SplitFormatRulesRest(a: int, b: int, c: int, rest: string)
    ensures Split(FormatRules(a, b, c) + ":" + rest) == [IntToString(a), IntToString(b), IntToString(c)] + Split(rest)
  {
    SplitThreeAndRest(IntToString(a), IntToString(b), IntToString(c), rest);
  }

  /** Two rules whose first three fields agree are applied alike. */
  lemma SameFirstFields(r: Rules, style: string, rule: string, rule': string)
    requires |Split(rule)| >= 3 && |Split(rule')| >= 3 && Split(rule)[..3] == Split(rule')[..3]
    ensures ApplyParentingRules(r, style, rule) == ApplyParentingRules(r, style, rule')
  {
    var f, f' := Split(rule), Split(rule');
    assert f[0] == f'[0] && f[1] == f'[1] && f[2] == f'[2] by {
      assert f[0] == f[..3][0] && f[1] == f[..3][1] && f[2] == f[..3][2];
      assert f'[0] == f'[..3][0] && f'[1] == f'[..3][1] && f'[2] == f'[..3][2];
    }
    assert FieldAt(f, 0) == FieldAt(f', 0) && FieldAt(f, 1) == FieldAt(f', 1) && FieldAt(f, 2) == FieldAt(f', 2);
  }

  /** Fields after the third play no part: "a:b:c:rest" sets what "a:b:c" sets. */
  lemma ExtraFieldsIgnored(r: Rules, style: string, a: int, b: int, c: int, rest: string)
    ensures ApplyParentingRules(r, style, FormatRules(a, b, c) + ":" + rest) ==
            ApplyParentingRules(r, style, FormatRules(a, b, c))
  {
    SplitFormatRulesRest(a, b, c, rest);
    SplitFormatRules(a, b, c);
    SameFirstFields(r, style, FormatRules(a, b, c) + ":" + rest, FormatRules(a, b, c));
  }

  /** A rule of two fields sets the style, startingZone and gridSize, then raises IndexError. */
  lemma ShortRuleStopsAtMissingField(r: Rules, style: string, a: int, b: int)
    ensures ApplyParentingRules(r, style, IntToString(a) + ":" + IntToString(b)) ==
      RulesOutcome(r.(style := StyleOf(style), startingZone := a, gridSize := b), Some(MissingField))
  {
    SplitAppend(IntToString(a), IntToString(b));
    SplitNoSeparator(IntToString(b));
    IntStringRoundTrip(a);
    IntStringRoundTrip(b);
  }

  /**
   * A second field int() refuses raises ValueError after the style and
   * startingZone are stored: "100:abc:3" leaves startingZone 100.
   */
  lemma BadFieldKeepsEarlier(r: Rules, style: string, a: int, x: string, rest: string)
    requires ':' !in x && ParseInt(x).None?
    ensures ApplyParentingRules(r, style, IntToString(a) + ":" + x + ":" + rest) ==
      RulesOutcome(r.(style := StyleOf(style), startingZone := a), Some(NotAnInteger))
  {
    assert IntToString(a) + ":" + x + ":" + rest == IntToString(a) + ":" + (x + ":" + rest);
    SplitAppend(IntToString(a), x + ":" + rest);
    SplitAppend(x, rest);
    IntStringRoundTrip(a);
  }

  /** "%i" formatting tells different integers apart. */
  lemma FormatRulesInjective(a: int, b: int, c: int, c': int)
    requires FormatRules(a, b, c) == FormatRules(a, b, c')
    ensures c == c'
  {
    SplitFormatRules(a, b, c);
    SplitFormatRules(a, b, c');
    IntStringRoundTrip(c);
    IntStringRoundTrip(c');
  }

  /**
   * Finding: setting a rule string whose radius differs from gridRadius does not read
   * back, because the radius is stored in viewingRadius while getParentingRules reports
   * gridRadius.
   */
  lemma ParentingRulesLoseRadius(r: Rules, style: string, a: int, b: int, c: int)
    requires c != r.gridRadius
    ensures var res := ApplyParentingRules(r, style, FormatRules(a, b, c));
      res.error.None? && GetParentingRules(res.rules).1 != FormatRules(a, b, c)
  {
    ApplyFormattedRules(r, style, a, b, c);
    var res := ApplyParentingRules(r, style, FormatRules(a, b, c));
    assert GetParentingRules(res.rules).1 == FormatRules(a, b, r.gridRadius);
    if FormatRules(a, b, r.gridRadius) == FormatRules(a, b, c) {
      FormatRulesInjective(a, b, r.gridRadius, c);
    }
  }

  /** setParentingRules as evidently intended: the third field is the grid radius. */
  function ApplyParentingRulesFixed(r: Rules, style: string, rule: string): (res: RulesOutcome)
    ensures res.rules.style == StyleOf(style) && res.rules.viewingRadius == r.viewingRadius
    ensures res.error.None? <==> RuleReads(rule)
    ensures res.error.None? ==> res.rules.gridRadius == FieldAt(Split(rule), 2).value
    ensures res.error.Some? ==> res.rules.gridRadius == r.gridRadius
    ensures ApplyParentingRules(r, style, rule).error == res.error
  {
    var res := ApplyParentingRules(r, style, rule);
    if res.error.None? then
      RulesOutcome(res.rules.(gridRadius := res.rules.viewingRadius.value, viewingRadius := r.viewingRadius), None)
    else res
  }

  /** With the fix, setting any rule string that getParentingRules produced reports it back unchanged. */
  lemma ParentingRulesRoundTripFixed(r: Rules, style: string, a: int, b: int, c: int)
    ensures var res := ApplyParentingRulesFixed(r, style, FormatRules(a, b, c));
      res.error.None? && GetParentingRules(res.rules).1 == FormatRules(a, b, c)
  {
    SplitFormatRules(a, b, c);
    IntStringRoundTrip(a);
    IntStringRoundTrip(b);
    IntStringRoundTrip(c);
  }

  // ---------------------------------------------------------------------------
  // Children arriving, leaving and being tracked
  // ---------------------------------------------------------------------------

  /** Calls the grid makes on its GridChild objects, and on the task manager, recorded in order. */
  datatype GridEvent =
    | Reparent(child: nat)
    | SetGridCell(child: nat, zoneId: int)
    | ClearGridCell(child: nat)
    | SetLocation(child: nat, parentId: int, zoneId: int)

  /** handleChildArrive and handleChildArriveZone: a grid zone sets the cell, anything else clears it. */
  function HandleChildArrive(l: Layout, child: nat, zoneId: int): (e: GridEvent)
    ensures e.SetGridCell? <==> IsGridZone(l, zoneId)
    ensures e.SetGridCell? ==> e == SetGridCell(child, zoneId)
    ensures !e.SetGridCell? ==> e == ClearGridCell(child)
  {
    if IsGridZone(l, zoneId) then SetGridCell(child, zoneId) else ClearGridCell(child)
  }

  /**
   * parentObjectToArea: reparent to the grid, then set the cell of the child's position
   * and return its zone if that is a grid zone, else return 0.
   */
  function ParentObjectToArea(l: Layout, child: nat, pos: Pos): (r: (int, seq<GridEvent>))
    requires l.WellFormed()
    ensures IsGridZone(l, ZoneFromXYZ(l, pos).zoneId) ==>
      r.0 == ZoneFromXYZ(l, pos).zoneId && r.1 == [Reparent(child), SetGridCell(child, r.0)]
    ensures !IsGridZone(l, ZoneFromXYZ(l, pos).zoneId) ==> r.0 == 0 && r.1 == [Reparent(child)]
  {
    var zoneId := ZoneFromXYZ(l, pos).zoneId;
    if IsGridZone(l, zoneId) then (zoneId, [Reparent(child), SetGridCell(child, zoneId)])
    else (0, [Reparent(child)])
  }

  /** A child's local position (relative to its cell) has left the cell [0, cellWidth]. */
  predicate OutOfCell(cellWidth: int, local: Pos)
  {
    local.x < 0.0 || local.y < 0.0 || local.x > cellWidth as real || local.y > cellWidth as real
  }

  /** __manageChild can end in a NameError: its warning names variables that do not exist. */
  datatype ManageOutcome = Managed(events: seq<GridEvent>) | NameError

  /**
   * __manageChild: when the child has left its cell (or on setup), compute the zone
   * of its grid-relative position; a grid zone sets the cell and broadcasts the
   * location; any other zone reaches the warning, which raises NameError.
   */
  function ManageChildStep(l: Layout, gridDoId: int, child: nat, local: Pos, absolute: Pos, setup: bool): (o: ManageOutcome)
    requires l.WellFormed()
    ensures !(OutOfCell(l.cellWidth, local) || setup) ==> o == Managed([])
    ensures (OutOfCell(l.cellWidth, local) || setup) ==>
      var z := ZoneFromXYZ(l, absolute).zoneId;
      (o.NameError? <==> !IsGridZone(l, z)) &&
      (o.Managed? ==> o.events == [SetGridCell(child, z), SetLocation(child, gridDoId, z)])
  {
    if OutOfCell(l.cellWidth, local) || setup then
      var newZoneId := ZoneFromXYZ(l, absolute).zoneId;
      if IsGridZone(l, newZoneId) then
        Managed([SetGridCell(child, newZoneId), SetLocation(child, gridDoId, newZoneId)])
      else NameError
    else Managed([])
  }

  /** The management task: run every frame, or every `period` seconds. */
  datatype Task = EveryFrame | Periodic(period: real)

  /** Where a managed child is: relative to its cell, and relative to the grid. */
  datatype ChildPlace = ChildPlace(local: Pos, absolute: Pos)

  /** A CartesianGridBase: its settings plus the set of children it tracks and its task. */
  class GridBase {
    var doId: int
    var startingZone: int
    var gridSize: int
    var gridRadius: int
    var cellWidth: int
    var style: Style
    var center: real
    var viewingRadius: Option<int>
    var managedChildren: set<nat>
    var managementTask: Option<Task>
    var period: real
    /** Calls made on children, in order. */
    var events: seq<GridEvent>

    function CurrentLayout(): Layout
      reads this
    {
      Layout(startingZone, gridSize, cellWidth, center, style)
    }

    ghost predicate Valid()
      reads this
    {
      gridSize > 0 && cellWidth > 0
    }

    /** The defaults are 500, 100, 3, 50, "Cartesian" and period 0; center is gridSize*cellWidth/2. */
    constructor (doId: int, startingZone: int, gridSize: int, gridRadius: int, cellWidth: int, style: string, period: real)
      requires gridSize > 0 && cellWidth > 0
      ensures Valid()
      ensures this.doId == doId && this.startingZone == startingZone && this.gridSize == gridSize
      ensures this.gridRadius == gridRadius && this.cellWidth == cellWidth && this.style == StyleOf(style)
      ensures center == (gridSize * cellWidth) as real / 2.0 && viewingRadius == None
      ensures managedChildren == {} && managementTask == None && this.period == period && events == []
    {
      this.doId := doId;
      this.startingZone := startingZone;
      this.gridSize := gridSize;
      this.gridRadius := gridRadius;
      this.cellWidth := cellWidth;
      this.style := StyleOf(style);
      this.center := (gridSize * cellWidth) as real / 2.0;
      this.viewingRadius := None;
      this.managedChildren := {};
      this.managementTask := None;
      this.period := period;
      this.events := [];
    }

    function CurrentRules(): Rules
      reads this
    {
      Rules(style, startingZone, gridSize, gridRadius, viewingRadius, cellWidth, center)
    }

    /**
     * setParentingRules, as written (see ApplyParentingRules): the settings
     * become those it gives, including what was stored before an exception,
     * and the exception raised, if any, is returned.
     */
    method SetParentingRules(style: string, rule: string) returns (raised: Option<RulesError>)
      modifies this
      ensures var res := ApplyParentingRules(old(CurrentRules()), style, rule);
        CurrentRules() == res.rules && raised == res.error
      ensures gridRadius == old(gridRadius) && managedChildren == old(managedChildren)
      ensures managementTask == old(managementTask) && events == old(events) && doId == old(doId)
    {
      var res := ApplyParentingRules(CurrentRules(), style, rule);
      var r := res.rules;
      this.style := r.style;
      startingZone := r.startingZone;
      gridSize := r.gridSize;
      viewingRadius := r.viewingRadius;
      center := r.center;
      raised := res.error;
    }

    /** setCellWidth changes the width without recomputing center. */
    method SetCellWidth(width: int)
      requires width > 0
      modifies this`cellWidth
      ensures cellWidth == width
    {
      cellWidth := width;
    }

    /** stopManagementTask. */
    method StopManagementTask()
      modifies this`managementTask
      ensures managementTask == None
    {
      managementTask := None;
    }

    /** startManagementTask: replace any running task by a new one, periodic iff period is non-zero. */
    method StartManagementTask()
      modifies this`managementTask
      ensures managementTask == Some(if period != 0.0 then Periodic(period) else EveryFrame)
    {
      StopManagementTask();
      if period != 0.0 {
        managementTask := Some(Periodic(period));
      } else {
        managementTask := Some(EveryFrame);
      }
    }

    /**
     * manageChild: track the child, place it at once (setup), and start the grid task if none
     * runs.  If placing raises NameError the grid task is not started.
     */
    method ManageChild(child: nat, place: ChildPlace) returns (ok: bool)
      requires Valid()
      modifies this`managedChildren, this`events, this`managementTask
      ensures Valid()
      ensures managedChildren == old(managedChildren) + {child}
      ensures var o := ManageChildStep(CurrentLayout(), doId, child, place.local, place.absolute, true);
        ok == o.Managed? && (ok ==> events == old(events) + o.events) && (!ok ==> events == old(events))
      ensures ok && old(managementTask).None? ==> managementTask == Some(if period != 0.0 then Periodic(period) else EveryFrame)
      ensures !ok || old(managementTask).Some? ==> managementTask == old(managementTask)
    {
      managedChildren := managedChildren + {child};
      var o := ManageChildStep(CurrentLayout(), doId, child, place.local, place.absolute, true);
      if o.NameError? {
        return false;
      }
      events := events + o.events;
      ok := true;
      if managementTask.None? {
        StartManagementTask();
      }
    }

    /** ignoreChild: stop tracking the child, and stop the grid task once nothing is tracked. */
    method IgnoreChild(child: nat)
      modifies this`managedChildren, this`managementTask
      ensures managedChildren == old(managedChildren) - {child}
      ensures managedChildren == {} ==> managementTask == None
      ensures managedChildren != {} ==> managementTask == old(managementTask)
    {
      managedChildren := managedChildren - {child};
      if managedChildren == {} {
        StopManagementTask();
      }
    }

    /**
     * __manage: run __manageChild over every tracked child, in the set's iteration order
     * (not modelled: any order may be chosen).  A NameError ends the pass.  On a complete
     * pass, every recorded call belongs to one tracked child, and every tracked child that
     * left its cell has been re-celled and re-located.
     */
    method Manage(places: map<nat, ChildPlace>) returns (ok: bool)
      requires Valid() && managedChildren <= places.Keys
      modifies this`events
      ensures Valid()
      ensures |events| >= |old(events)| && events[..|old(events)|] == old(events)
      ensures ok ==> forall c :: c in managedChildren ==>
        var o := ManageChildStep(CurrentLayout(), doId, c, places[c].local, places[c].absolute, false);
        o.Managed? && forall e :: e in o.events ==> e in events[|old(events)|..]
      ensures ok ==> forall e :: e in events[|old(events)|..] ==> exists c :: (c in managedChildren &&
        var o := ManageChildStep(CurrentLayout(), doId, c, places[c].local, places[c].absolute, false);
        o.Managed? && e in o.events)
    {
      var remaining := managedChildren;
      ghost var start := |events|;
      while remaining != {}
        invariant remaining <= managedChildren
        invariant |events| >= start && events[..start] == old(events)
        invariant forall c :: c in managedChildren - remaining ==>
          var o := ManageChildStep(CurrentLayout(), doId, c, places[c].local, places[c].absolute, false);
          o.Managed? && forall e :: e in o.events ==> e in events[start..]
        invariant forall e :: e in events[start..] ==> exists c :: (c in managedChildren - remaining &&
          var o := ManageChildStep(CurrentLayout(), doId, c, places[c].local, places[c].absolute, false);
          o.Managed? && e in o.events)
        decreases remaining
      {
        var child :| child in remaining;
        var o := ManageChildStep(CurrentLayout(), doId, child, places[child].local, places[child].absolute, false);
        if o.NameError? {
          return false;
        }
        ghost var before := events;
        events := events + o.events;
        assert events[start..] == before[start..] + o.events;
        remaining := remaining - {child};
      }
      ok := true;
    }
  }
}
