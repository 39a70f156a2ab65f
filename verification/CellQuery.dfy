/** The grid cells and airway legs a map viewport asks for, boxes across the antimeridian included. */
module CellQuery {
  const CELL_COLS := 720
  const CELL_ROWS := 360
  const COVERAGE_MAX_CELLS := 259200

  /** West, south, east, north; west of east unless the box crosses the antimeridian. */
  datatype Bbox = Bbox(w: real, s: real, e: real, n: real)

  predicate IsBox(b: Bbox) {
    && -90.0 <= b.s <= b.n <= 90.0
    && -180.0 <= b.w <= 180.0 && -180.0 <= b.e <= 180.0
  }

  /** Equal sides make a box of no width, not the world. */
  predicate LonInBox(b: Bbox, lon: real) {
    && -180.0 <= lon <= 180.0
    && if b.w < b.e then b.w <= lon <= b.e else b.w > b.e && (lon >= b.w || lon <= b.e)
  }

  predicate LatInBox(b: Bbox, lat: real) {
    b.s <= lat <= b.n
  }

  datatype LonRange = LonRange(lo: real, hi: real)

  function LonRanges(w: real, e: real): seq<LonRange> {
    if w == e then []
    else if w > e then [LonRange(w, 180.0), LonRange(-180.0, e)]
    else [LonRange(w, e)]
  }

  function Clamp(k: int, top: int): int {
    if k < 0 then 0 else if k > top then top else k
  }

  function CellRow(lat: real): int {
    Clamp(((lat + 90.0) * 2.0).Floor, CELL_ROWS - 1)
  }

  function CellCol(lon: real): int {
    Clamp(((lon + 180.0) * 2.0).Floor, CELL_COLS - 1)
  }

  /** Cells are half a degree on a side, from the south-west corner; the far edges belong to the last row and column. */
  lemma CellsAreHalfDegrees(lat: real, lon: real)
    requires -90.0 <= lat <= 90.0 && -180.0 <= lon <= 180.0
    ensures
      var row, col := CellRow(lat), CellCol(lon);
      && 0 <= row <= 359 && 0 <= col <= 719
      && -90.0 + row as real / 2.0 <= lat && (lat < -90.0 + (row + 1) as real / 2.0 || (lat == 90.0 && row == 359))
      && -180.0 + col as real / 2.0 <= lon && (lon < -180.0 + (col + 1) as real / 2.0 || (lon == 180.0 && col == 719))
  {
    var y, x := (lat + 90.0) * 2.0, (lon + 180.0) * 2.0;
    assert y.Floor as real <= y < (y.Floor + 1) as real;
    assert x.Floor as real <= x < (x.Floor + 1) as real;
  }

  predicate InRange(r: LonRange, lon: real) {
    r.lo <= lon <= r.hi
  }

  lemma RangesAreTheBox(b: Bbox, lon: real)
    requires IsBox(b) && -180.0 <= lon <= 180.0
    ensures LonInBox(b, lon) <==> exists r :: r in LonRanges(b.w, b.e) && InRange(r, lon)
  {
    var ranges := LonRanges(b.w, b.e);
    if b.w > b.e {
      assert ranges[0] in ranges && ranges[1] in ranges;
      assert InRange(ranges[0], lon) <==> lon >= b.w;
      assert InRange(ranges[1], lon) <==> lon <= b.e;
    } else if b.w < b.e {
      assert ranges[0] in ranges;
      assert InRange(ranges[0], lon) <==> b.w <= lon <= b.e;
    }
  }

  // ---------------------------------------------------------------- which cells the query selects

  predicate ColInRange(r: LonRange, col: int) {
    CellCol(r.lo) <= col <= CellCol(r.hi)
  }

  predicate ColSelected(ranges: seq<LonRange>, col: int) {
    exists r :: r in ranges && ColInRange(r, col)
  }

  function MinCol(ranges: seq<LonRange>): int
    requires ranges != []
  {
    if |ranges| == 1 then CellCol(ranges[0].lo)
    else var rest := MinCol(ranges[1..]); if CellCol(ranges[0].lo) < rest then CellCol(ranges[0].lo) else rest
  }

  function MaxCol(ranges: seq<LonRange>): int
    requires ranges != []
  {
    if |ranges| == 1 then CellCol(ranges[0].hi)
    else var rest := MaxCol(ranges[1..]); if CellCol(ranges[0].hi) > rest then CellCol(ranges[0].hi) else rest
  }

  /** cell_id BETWEEN ? AND ?, and its remainder by 720 between the columns of a range. */
  predicate Selected(b: Bbox, id: int) {
    var ranges := LonRanges(b.w, b.e);
    && ranges != []
    && CellRow(b.s) * CELL_COLS + MinCol(ranges) <= id <= CellRow(b.n) * CELL_COLS + MaxCol(ranges)
    && ColSelected(ranges, id % CELL_COLS)
  }

  predicate IsCell(id: int) {
    0 <= id < CELL_ROWS * CELL_COLS
  }

  /** The one-dimensional query selects the rows and columns of the box. */
  lemma SelectedIsRectangle(b: Bbox, id: int)
    requires IsBox(b) && IsCell(id)
    ensures Selected(b, id) <==>
      (CellRow(b.s) <= id / CELL_COLS <= CellRow(b.n) && ColSelected(LonRanges(b.w, b.e), id % CELL_COLS))
  {
    var ranges, row, col := LonRanges(b.w, b.e), id / CELL_COLS, id % CELL_COLS;
    assert id == row * CELL_COLS + col;
    if b.w > b.e {
      assert MinCol(ranges) == 0 && MaxCol(ranges) == CELL_COLS - 1;
    } else if b.w < b.e {
      assert ColSelected(ranges, col) ==> MinCol(ranges) <= col <= MaxCol(ranges);
    }
  }

  /** Some latitude of an interval lies in every row between the rows of its ends. */
  lemma RowIsReached(lo: real, hi: real, row: int) returns (lat: real)
    requires -90.0 <= lo <= hi <= 90.0 && CellRow(lo) <= row <= CellRow(hi)
    ensures lo <= lat <= hi && CellRow(lat) == row
  {
    lat := if row == CellRow(lo) then lo else if row == CellRow(hi) then hi else row as real / 2.0 - 90.0;
    assert CellRow(lo) < row < CellRow(hi) ==> ((lat + 90.0) * 2.0) == row as real;
  }

  lemma ColIsReached(lo: real, hi: real, col: int) returns (lon: real)
    requires -180.0 <= lo <= hi <= 180.0 && CellCol(lo) <= col <= CellCol(hi)
    ensures lo <= lon <= hi && CellCol(lon) == col
  {
    lon := if col == CellCol(lo) then lo else if col == CellCol(hi) then hi else col as real / 2.0 - 180.0;
    assert CellCol(lo) < col < CellCol(hi) ==> ((lon + 180.0) * 2.0) == col as real;
  }

  ghost predicate Touches(b: Bbox, id: int) {
    exists lat, lon :: LatInBox(b, lat) && LonInBox(b, lon) && CellRow(lat) == id / CELL_COLS
      && CellCol(lon) == id % CELL_COLS
  }

  /** And those are exactly the cells in which the box has a point. */
  lemma SelectedIsTouched(b: Bbox, id: int)
    requires IsBox(b) && IsCell(id)
    ensures Selected(b, id) <==> Touches(b, id)
  {
    var ranges, row, col := LonRanges(b.w, b.e), id / CELL_COLS, id % CELL_COLS;
    SelectedIsRectangle(b, id);
    if Selected(b, id) {
      var r :| r in ranges && ColInRange(r, col);
      var lat := RowIsReached(b.s, b.n, row);
      var lon := ColIsReached(r.lo, r.hi, col);
      assert InRange(r, lon);
      RangesAreTheBox(b, lon);
      assert LatInBox(b, lat);
    }
    if lat, lon :| LatInBox(b, lat) && LonInBox(b, lon) && CellRow(lat) == row && CellCol(lon) == col {
      RangesAreTheBox(b, lon);
      var r :| r in ranges && InRange(r, lon);
      assert ColInRange(r, col);
    }
  }

  // ---------------------------------------------------------------- how many there are

  function LatCells(b: Bbox): int {
    CellRow(b.n) - CellRow(b.s) + 1
  }

  function LonCells(ranges: seq<LonRange>): int {
    if ranges == [] then 0
    else
      var last := ranges[|ranges| - 1];
      LonCells(ranges[..|ranges| - 1]) + CellCol(last.hi) - CellCol(last.lo) + 1
  }

  function Capped(cells: int): int {
    if cells > COVERAGE_MAX_CELLS then COVERAGE_MAX_CELLS else cells
  }

  /** Rows times columns, the columns of both parts counted when the box crosses the antimeridian. */
  function Total(b: Bbox): int {
    Capped(LatCells(b) * LonCells(LonRanges(b.w, b.e)))
  }

  method TotalCells(b: Bbox) returns (total: int)
    requires IsBox(b)
    ensures total == Total(b)
  {
    var ranges := LonRanges(b.w, b.e);
    var lonCells := 0;
    for i := 0 to |ranges|
      invariant lonCells == LonCells(ranges[..i])
    {
      assert ranges[..i + 1][..i] == ranges[..i];
      lonCells := lonCells + CellCol(ranges[i].hi) - CellCol(ranges[i].lo) + 1;
    }
    assert ranges[..|ranges|] == ranges;
    total := Capped((CellRow(b.n) - CellRow(b.s) + 1) * lonCells);
  }

  function Columns(lo: int, hi: int): (cols: set<int>)
    ensures forall col :: col in cols <==> lo <= col <= hi
    decreases hi - lo
  {
    if hi < lo then {} else Columns(lo, hi - 1) + {hi}
  }

  lemma {:induction false} ColumnCount(lo: int, hi: int)
    requires lo <= hi + 1
    ensures |Columns(lo, hi)| == hi - lo + 1
    decreases hi - lo
  {
    if hi < lo {
    } else {
      ColumnCount(lo, hi - 1);
    }
  }

  function Id(row: int, col: int): int {
    row * CELL_COLS + col
  }

  /** The cells of one row. */
  function Row(row: int, cols: set<int>): set<int> {
    set col | col in cols :: Id(row, col)
  }

  lemma {:induction false} RowCount(row: int, cols: set<int>)
    ensures |Row(row, cols)| == |cols|
    decreases |cols|
  {
    if exists c :: c in cols {
      var c :| c in cols;
      RowCount(row, cols - {c});
      assert Row(row, cols) == Row(row, cols - {c}) + {Id(row, c)};
    } else {
      assert cols == {};
      assert Row(row, cols) == {};
    }
  }

  function Rectangle(low: int, high: int, cols: set<int>): set<int>
    decreases high - low + 1
  {
    if high < low then {} else Rectangle(low, high - 1, cols) + Row(high, cols)
  }

  lemma RowHas(row: int, cols: set<int>, id: int)
    requires cols <= Columns(0, CELL_COLS - 1)
    ensures id in Row(row, cols) <==> id / CELL_COLS == row && id % CELL_COLS in cols
  {
    assert id == Id(id / CELL_COLS, id % CELL_COLS);
  }

  lemma {:induction false} RectangleHas(low: int, high: int, cols: set<int>, id: int)
    requires cols <= Columns(0, CELL_COLS - 1)
    ensures id in Rectangle(low, high, cols) <==> low <= id / CELL_COLS <= high && id % CELL_COLS in cols
    decreases high - low + 1
  {
    if high < low {
    } else {
      RectangleHas(low, high - 1, cols, id);
      RowHas(high, cols, id);
    }
  }

  lemma RowIsNew(low: int, high: int, cols: set<int>)
    requires cols <= Columns(0, CELL_COLS - 1)
    ensures Rectangle(low, high - 1, cols) !! Row(high, cols)
  {
    forall id | id in Row(high, cols)
      ensures id !in Rectangle(low, high - 1, cols)
    {
      RowHas(high, cols, id);
      RectangleHas(low, high - 1, cols, id);
    }
  }

  /** `rows` times `cols`, one row at a time. */
  function Area(rows: nat, cols: nat): nat {
    if rows == 0 then 0 else Area(rows - 1, cols) + cols
  }

  lemma {:induction false} AreaIsProduct(rows: nat, cols: nat)
    ensures Area(rows, cols) == rows * cols
  {
    if rows == 0 {
    } else {
      AreaIsProduct(rows - 1, cols);
      assert rows * cols == (rows - 1) * cols + cols;
    }
  }

  lemma {:induction false} RectangleCount(low: int, high: int, cols: set<int>)
    requires low <= high + 1 && cols <= Columns(0, CELL_COLS - 1)
    ensures |Rectangle(low, high, cols)| == Area(high - low + 1, |cols|)
    decreases high - low + 1
  {
    if low == high + 1 {
    } else {
      RectangleCount(low, high - 1, cols);
      RowCount(high, cols);
      RowIsNew(low, high, cols);
    }
  }

  /** All the columns a box selects. */
  function BoxColumns(b: Bbox): set<int> {
    set col | 0 <= col < CELL_COLS && ColSelected(LonRanges(b.w, b.e), col)
  }

  /** Two parts of a box across the antimeridian meet in one column when its sides share it. */
  predicate SidesShareColumn(b: Bbox) {
    b.w > b.e && CellCol(b.w) == CellCol(b.e)
  }

  lemma ColumnsOfRanges(b: Bbox, col: int)
    requires IsBox(b) && 0 <= col < CELL_COLS
    ensures ColSelected(LonRanges(b.w, b.e), col) <==>
      if b.w > b.e then CellCol(b.w) <= col || col <= CellCol(b.e)
      else b.w < b.e && CellCol(b.w) <= col <= CellCol(b.e)
  {
    var ranges := LonRanges(b.w, b.e);
    if b.w > b.e {
      assert ranges[0] in ranges && ranges[1] in ranges;
      assert ColInRange(ranges[0], col) <==> CellCol(b.w) <= col;
      assert ColInRange(ranges[1], col) <==> col <= CellCol(b.e);
    } else if b.w < b.e {
      assert ranges[0] in ranges;
      assert ColInRange(ranges[0], col) <==> CellCol(b.w) <= col <= CellCol(b.e);
    }
  }

  lemma TwoParts(lo: int, hi: int)
    requires 0 <= hi <= lo < CELL_COLS
    ensures |Columns(lo, CELL_COLS - 1) + Columns(0, hi)| == CELL_COLS - lo + hi + 1 - if lo == hi then 1 else 0
  {
    var east, west := Columns(lo, CELL_COLS - 1), Columns(0, hi);
    ColumnCount(lo, CELL_COLS - 1);
    ColumnCount(0, hi);
    assert east * west == if lo == hi then {lo} else {};
  }

  lemma RangeCells(b: Bbox)
    requires IsBox(b)
    ensures LonCells(LonRanges(b.w, b.e)) ==
      if b.w > b.e then CELL_COLS - CellCol(b.w) + CellCol(b.e) + 1
      else if b.w < b.e then CellCol(b.e) - CellCol(b.w) + 1
      else 0
  {
    var ranges := LonRanges(b.w, b.e);
    if b.w > b.e {
      assert ranges[..1] == [LonRange(b.w, 180.0)];
      assert LonCells(ranges[..1]) == CELL_COLS - CellCol(b.w);
    }
  }

  /** One column fewer than counted when the sides share one. */
  lemma ColumnsOfBox(b: Bbox)
    requires IsBox(b)
    ensures |BoxColumns(b)| == LonCells(LonRanges(b.w, b.e)) - if SidesShareColumn(b) then 1 else 0
  {
    var lo, hi := CellCol(b.w), CellCol(b.e);
    RangeCells(b);
    forall col | 0 <= col < CELL_COLS
      ensures col in BoxColumns(b) <==> if b.w > b.e then lo <= col || col <= hi else b.w < b.e && lo <= col <= hi
    {
      ColumnsOfRanges(b, col);
    }
    if b.w > b.e {
      assert BoxColumns(b) == Columns(lo, CELL_COLS - 1) + Columns(0, hi);
      TwoParts(lo, hi);
    } else if b.w < b.e {
      assert BoxColumns(b) == Columns(lo, hi);
      ColumnCount(lo, hi);
    } else {
      assert BoxColumns(b) == {};
    }
  }

  /** Every cell the box can select. */
  function BoxCells(b: Bbox): set<int> {
    set id | 0 <= id < CELL_ROWS * CELL_COLS && Selected(b, id)
  }

  lemma BoxCellIsInRectangle(b: Bbox, id: int)
    requires IsBox(b)
    ensures id in BoxCells(b) <==> id in Rectangle(CellRow(b.s), CellRow(b.n), BoxColumns(b))
  {
    RectangleHas(CellRow(b.s), CellRow(b.n), BoxColumns(b), id);
    if IsCell(id) {
      SelectedIsRectangle(b, id);
    }
  }

  lemma BoxIsRectangle(b: Bbox)
    requires IsBox(b)
    ensures BoxCells(b) == Rectangle(CellRow(b.s), CellRow(b.n), BoxColumns(b))
  {
    forall id
      ensures id in BoxCells(b) <==> id in Rectangle(CellRow(b.s), CellRow(b.n), BoxColumns(b))
    {
      BoxCellIsInRectangle(b, id);
    }
  }

  lemma BoxRows(b: Bbox)
    requires IsBox(b)
    ensures 0 <= CellRow(b.s) <= CellRow(b.n) < CELL_ROWS
  {}

  lemma BoxColumnsFit(b: Bbox)
    ensures BoxColumns(b) <= Columns(0, CELL_COLS - 1)
  {}

  lemma AsManyAsTheRectangle(b: Bbox)
    requires IsBox(b)
    ensures |BoxCells(b)| == |Rectangle(CellRow(b.s), CellRow(b.n), BoxColumns(b))|
  {
    BoxIsRectangle(b);
  }

  lemma RectangleOfBox(b: Bbox)
    requires IsBox(b)
    ensures |Rectangle(CellRow(b.s), CellRow(b.n), BoxColumns(b))| == Area(LatCells(b), |BoxColumns(b)|)
  {
    BoxRows(b);
    BoxColumnsFit(b);
    RectangleCount(CellRow(b.s), CellRow(b.n), BoxColumns(b));
  }

  lemma BoxCellCount(b: Bbox)
    requires IsBox(b)
    ensures |BoxCells(b)| == Area(LatCells(b), |BoxColumns(b)|)
  {
    AsManyAsTheRectangle(b);
    RectangleOfBox(b);
  }

  lemma CapIsEnough(rows: int, cols: int, shared: int)
    requires 1 <= rows <= CELL_ROWS && 0 <= cols <= CELL_COLS && 0 <= shared <= 1 && (shared == 1 ==> cols == CELL_COLS)
    ensures rows * cols <= Capped(rows * (cols + shared))
    ensures rows * cols == Capped(rows * (cols + shared)) <==> shared == 0 || rows == CELL_ROWS
  {
    if shared == 0 {
      assert rows * cols <= CELL_ROWS * cols <= CELL_ROWS * CELL_COLS;
    } else {
      assert rows * (cols + shared) == rows * 721;
    }
  }

  /** The total is never short, and is exact unless the box's sides share a column and it misses a row. */
  lemma TotalIsAnUpperBound(b: Bbox)
    requires IsBox(b)
    ensures |BoxCells(b)| <= Total(b)
    ensures |BoxCells(b)| == Total(b) <==> !SidesShareColumn(b) || LatCells(b) == CELL_ROWS
  {
    BoxCellCount(b);
    AreaIsProduct(LatCells(b), |BoxColumns(b)|);
    ColumnsOfBox(b);
    RangeCells(b);
    CapIsEnough(LatCells(b), |BoxColumns(b)|, if SidesShareColumn(b) then 1 else 0);
  }

  /** A box once round the world from 10.4 to 10.1 degrees east: 720 columns, 721 counted. */
  lemma SharedColumnCountsTwice()
    ensures
      var b := Bbox(10.4, 0.0, 10.1, 0.0);
      IsBox(b) && SidesShareColumn(b) && |BoxCells(b)| < Total(b)
  {
    TotalIsAnUpperBound(Bbox(10.4, 0.0, 10.1, 0.0));
  }

  lemma {:induction false} SubsetCount(part: set<int>, whole: set<int>)
    requires part <= whole
    ensures |part| <= |whole|
    decreases |part|
  {
    if exists id :: id in part {
      var id :| id in part;
      SubsetCount(part - {id}, whole - {id});
    } else {
      assert part == {};
    }
  }

  function SelectedOf(b: Bbox, ids: set<int>): set<int> {
    set id | id in ids && Selected(b, id)
  }

  ghost function TouchedOf(b: Bbox, ids: set<int>): set<int> {
    set id | id in ids && Touches(b, id)
  }

  lemma SelectedAreTouched(b: Bbox, ids: set<int>)
    requires IsBox(b) && forall id :: id in ids ==> IsCell(id)
    ensures SelectedOf(b, ids) == TouchedOf(b, ids)
  {
    forall id | id in ids
      ensures Selected(b, id) <==> Touches(b, id)
    {
      SelectedIsTouched(b, id);
    }
  }

  lemma SelectedFit(b: Bbox, ids: set<int>)
    requires IsBox(b) && forall id :: id in ids ==> IsCell(id)
    ensures |SelectedOf(b, ids)| <= Total(b)
  {
    SubsetCount(SelectedOf(b, ids), BoxCells(b));
    TotalIsAnUpperBound(b);
  }

  /** The share of the whole that the part is, nothing of nothing being none. */
  predicate IsShare(part: int, whole: int, share: real) {
    0.0 <= share <= 1.0 && share * whole as real == part as real && (whole == 0 ==> share == 0.0)
  }

  method Share(part: int, whole: int) returns (share: real)
    requires 0 <= part <= whole
    ensures IsShare(part, whole, share)
  {
    share := if whole == 0 then 0.0 else part as real / whole as real;
  }

  /** The stored cells of one kind that the query counts; cell ids are unique per kind. */
  method CountHarvested(b: Bbox, harvestedIds: set<int>) returns (harvested: nat)
    requires IsBox(b) && forall id :: id in harvestedIds ==> IsCell(id)
    ensures harvested == |TouchedOf(b, harvestedIds)|
    ensures harvested <= Total(b)
  {
    SelectedFit(b, harvestedIds);
    SelectedAreTouched(b, harvestedIds);
    harvested := |SelectedOf(b, harvestedIds)|;
  }

  /** The harvested cells that the box touches, and their share of the total. */
  method CoverageFor(b: Bbox, harvestedIds: set<int>) returns (total: int, harvested: int, fraction: real)
    requires IsBox(b) && forall id :: id in harvestedIds ==> IsCell(id)
    ensures total == Total(b) && total >= harvested
    ensures harvested == |TouchedOf(b, harvestedIds)|
    ensures IsShare(harvested, total, fraction)
  {
    total := TotalCells(b);
    harvested := CountHarvested(b, harvestedIds);
    fraction := Share(harvested, total);
  }

  // ---------------------------------------------------------------- airway legs

  /**
   * A leg more than half the world long goes the short way, across the
   * antimeridian; its stored extent in longitude then means nothing.
   */
  datatype AirwayLeg = AirwayLeg(
    fromLat: real, fromLon: real, toLat: real, toLon: real,
    minLat: real, maxLat: real, minLon: real, maxLon: real, dateline: bool)

  function Lower(a: real, b: real): real {
    if a < b then a else b
  }

  function Higher(a: real, b: real): real {
    if a > b then a else b
  }

  predicate IsLeg(leg: AirwayLeg) {
    && -180.0 <= leg.fromLon <= 180.0 && -180.0 <= leg.toLon <= 180.0
    && leg.minLat == Lower(leg.fromLat, leg.toLat) && leg.maxLat == Higher(leg.fromLat, leg.toLat)
    && (!leg.dateline ==> leg.minLon == Lower(leg.fromLon, leg.toLon) && leg.maxLon == Higher(leg.fromLon, leg.toLon))
  }

  /** The longitudes the leg passes over. */
  predicate LonOnLeg(leg: AirwayLeg, lon: real) {
    && -180.0 <= lon <= 180.0
    && if leg.dateline then lon >= Higher(leg.fromLon, leg.toLon) || lon <= Lower(leg.fromLon, leg.toLon)
       else Lower(leg.fromLon, leg.toLon) <= lon <= Higher(leg.fromLon, leg.toLon)
  }

  predicate LatOnLeg(leg: AirwayLeg, lat: real) {
    Lower(leg.fromLat, leg.toLat) <= lat <= Higher(leg.fromLat, leg.toLat)
  }

  predicate Overlaps(leg: AirwayLeg, r: LonRange) {
    leg.maxLon >= r.lo && leg.minLon <= r.hi
  }

  predicate OverlapsWrapped(leg: AirwayLeg, r: LonRange) {
    r.hi >= Higher(leg.fromLon, leg.toLon) || r.lo <= Lower(leg.fromLon, leg.toLon)
  }

  /** The airway query's WHERE clause. */
  predicate LegSelected(b: Bbox, leg: AirwayLeg) {
    && leg.maxLat >= b.s && leg.minLat <= b.n
    && exists r :: r in LonRanges(b.w, b.e) && if leg.dateline then OverlapsWrapped(leg, r) else Overlaps(leg, r)
  }

  /** A longitude of the leg inside the range, when there is one. */
  lemma RangeMeetsLeg(leg: AirwayLeg, r: LonRange) returns (lon: real)
    requires IsLeg(leg) && -180.0 <= r.lo <= r.hi <= 180.0
    ensures (if leg.dateline then OverlapsWrapped(leg, r) else Overlaps(leg, r)) <==>
        InRange(r, lon) && LonOnLeg(leg, lon)
    ensures forall x :: InRange(r, x) && LonOnLeg(leg, x) ==> InRange(r, lon) && LonOnLeg(leg, lon)
  {
    lon :=
      if leg.dateline then (if r.hi >= Higher(leg.fromLon, leg.toLon) then r.hi else r.lo)
      else Higher(r.lo, leg.minLon);
  }

  /** A leg is drawn exactly when both of its extents, the wrapped one included, meet the box. */
  lemma LegSelectedIffItMeetsTheBox(b: Bbox, leg: AirwayLeg)
    requires IsBox(b) && IsLeg(leg)
    ensures LegSelected(b, leg) <==>
      ((exists lat :: LatInBox(b, lat) && LatOnLeg(leg, lat)) && (exists lon :: LonInBox(b, lon) && LonOnLeg(leg, lon)))
  {
    var ranges := LonRanges(b.w, b.e);
    if LegSelected(b, leg) {
      var r :| r in ranges && if leg.dateline then OverlapsWrapped(leg, r) else Overlaps(leg, r);
      var lon := RangeMeetsLeg(leg, r);
      RangesAreTheBox(b, lon);
      assert LonInBox(b, lon) && LonOnLeg(leg, lon);
      var lat := Higher(b.s, leg.minLat);
      assert LatInBox(b, lat) && LatOnLeg(leg, lat);
    }
    if lat, lon :| LatInBox(b, lat) && LatOnLeg(leg, lat) && LonInBox(b, lon) && LonOnLeg(leg, lon) {
      RangesAreTheBox(b, lon);
      var r :| r in ranges && InRange(r, lon);
      var _ := RangeMeetsLeg(leg, r);
    }
  }
}
