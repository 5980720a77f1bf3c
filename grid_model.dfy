/**
 * Values of saiga_backend's grid: dimensions, positions, the cursor, rows
 * of cells, the shape a grid keeps, the grid a resize produces, the
 * saturating cursor motion of the handlers, and the row-major walk of
 * the grid iterator.
 */
module GridModel {
  import opened Common
  import opened GridCell

  /** `Dimensions`: the number of rows and of columns. */
  datatype Dimensions = Dimensions(rows: usize, columns: usize)

  /** `Dimensions::default`: 80 rows of 40 columns. */
  const DEFAULT_DIMENSIONS: Dimensions := Dimensions(80, 40)

  datatype Position = Position(line: usize, column: usize)

  /** `Position::default`, where the iterator starts. */
  const ORIGIN: Position := Position(0, 0)

  /** `Cursor`: a position and the template new characters are written with. */
  datatype Cursor = Cursor(position: Position, template: Cell)

  /** `Cursor::default`. */
  const DEFAULT_CURSOR: Cursor := Cursor(ORIGIN, DEFAULT)

  datatype PositionedCell = PositionedCell(position: Position, cell: Cell)

  type Rows = seq<seq<Cell>>

  /** `Row::new`: `columns` default cells. */
  function NewRow(columns: nat): (r: seq<Cell>)
    ensures |r| == columns && forall j :: 0 <= j < columns ==> r[j] == DEFAULT
  {
    seq(columns, _ => DEFAULT)
  }

  /** The shape a grid keeps: one row per line, each as wide as the grid. */
  predicate Shaped(rows: Rows, d: Dimensions)
  {
    |rows| == d.rows && forall i :: 0 <= i < |rows| ==> |rows[i]| == d.columns
  }

  /** `p` addresses a cell: the `Index<Position>` bounds. */
  predicate InBounds(rows: Rows, p: Position)
  {
    p.line < |rows| && p.column < |rows[p.line]|
  }

  /** The rows of `Grid::with_dimensions`: `d.rows` rows of `d.columns` default cells. */
  function Blank(d: Dimensions): (rows: Rows)
    ensures Shaped(rows, d)
    ensures forall i, j :: 0 <= i < d.rows && 0 <= j < d.columns ==> rows[i][j] == DEFAULT
  {
    seq(d.rows, _ => NewRow(d.columns))
  }

  // ---------------------------------------------------------------------
  // Resizing
  // ---------------------------------------------------------------------

  /** `grow_lines_to`: new rows at the bottom, as wide as the grid still is. */
  function GrowLines(rows: Rows, target: nat, columns: nat): (r: Rows)
    requires |rows| <= target
    ensures |r| == target && r[..|rows|] == rows
    ensures forall i :: |rows| <= i < target ==> r[i] == NewRow(columns)
  {
    rows + seq(target - |rows|, _ => NewRow(columns))
  }

  /** `grow_columns_to`: every row padded with copies of `fill` on the right. */
  function GrowColumns(rows: Rows, target: nat, fill: Cell): (r: Rows)
    requires forall i :: 0 <= i < |rows| ==> |rows[i]| <= target
    ensures |r| == |rows|
    ensures forall i :: 0 <= i < |rows| ==> |r[i]| == target && r[i][..|rows[i]|] == rows[i]
    ensures forall i, j :: 0 <= i < |rows| && |rows[i]| <= j < target ==> r[i][j] == fill
  {
    seq(|rows|, i requires 0 <= i < |rows| => rows[i] + seq(target - |rows[i]|, _ => fill))
  }

  /** `shrink_columns_to`: every row truncated to its first `target` cells. */
  function ShrinkColumns(rows: Rows, target: nat): (r: Rows)
    requires forall i :: 0 <= i < |rows| ==> target <= |rows[i]|
    ensures |r| == |rows| && forall i :: 0 <= i < |rows| ==> r[i] == rows[i][..target]
  {
    seq(|rows|, i requires 0 <= i < |rows| => rows[i][..target])
  }

  /** The rows after the line step of `resize`. */
  function ResizedLines(rows: Rows, from: Dimensions, to: Dimensions): (r: Rows)
    requires Shaped(rows, from)
    ensures Shaped(r, Dimensions(to.rows, from.columns))
  {
    if from.rows < to.rows then GrowLines(rows, to.rows, from.columns)
    else if from.rows > to.rows then rows[..to.rows]
    else rows
  }

  /**
   * The rows after `Grid::resize`: the line step, then the column step.
   * New cells are the default template applied to a default cell, since
   * the cursor's template is set aside for the duration of the resize.
   */
  function Resized(rows: Rows, from: Dimensions, to: Dimensions): (r: Rows)
    requires Shaped(rows, from)
  {
    var lines := ResizedLines(rows, from, to);
    if from.columns < to.columns then GrowColumns(lines, to.columns, ApplyTemplate(DEFAULT, DEFAULT))
    else if from.columns > to.columns then ShrinkColumns(lines, to.columns)
    else lines
  }

  /**
   * A resized grid has the new shape, keeps every cell that lies inside
   * both shapes where it was, and holds default cells everywhere else.
   */
  lemma ResizedCells(rows: Rows, from: Dimensions, to: Dimensions)
    requires Shaped(rows, from)
    ensures Shaped(Resized(rows, from, to), to)
    ensures forall i, j :: 0 <= i < to.rows && 0 <= j < to.columns ==>
      Resized(rows, from, to)[i][j] == if i < from.rows && j < from.columns then rows[i][j] else DEFAULT
  {
    ApplyTemplateIdempotent(DEFAULT, DEFAULT);
    var lines := ResizedLines(rows, from, to);
    var r := Resized(rows, from, to);
    forall i, j | 0 <= i < to.rows && 0 <= j < to.columns
      ensures r[i][j] == if i < from.rows && j < from.columns then rows[i][j] else DEFAULT
    {
      assert lines[i] == if i < from.rows then rows[i] else NewRow(from.columns);
      if j < from.columns {
        assert r[i][j] == lines[i][j];
      }
    }
  }

  /** Resizing to the same dimensions changes nothing. */
  lemma ResizedSame(rows: Rows, d: Dimensions)
    requires Shaped(rows, d)
    ensures Resized(rows, d, d) == rows
  {
  }

  /** Fewer lines at the same width drops rows from the bottom and keeps the rest. */
  lemma ShrinkLinesKeepsTop(rows: Rows, from: Dimensions, to: Dimensions)
    requires Shaped(rows, from) && to.rows <= from.rows && to.columns == from.columns
    ensures Resized(rows, from, to) == rows[..to.rows]
  {
  }

  /** Fewer columns truncates every row to its prefix. */
  lemma ShrinkColumnsKeepsPrefix(rows: Rows, from: Dimensions, to: Dimensions)
    requires Shaped(rows, from) && to.rows <= from.rows && to.columns <= from.columns
    ensures |Resized(rows, from, to)| == to.rows
    ensures forall i :: 0 <= i < to.rows ==> Resized(rows, from, to)[i] == rows[i][..to.columns]
  {
    var lines := ResizedLines(rows, from, to);
    forall i | 0 <= i < to.rows
      ensures Resized(rows, from, to)[i] == rows[i][..to.columns]
    {
      assert lines[i] == rows[i];
      assert rows[i][..from.columns] == rows[i];
    }
  }

  // ---------------------------------------------------------------------
  // Cursor motion
  // ---------------------------------------------------------------------

  /** `Direction`. */
  datatype Direction = Up | Right | Down | Left

  /**
   * `move_cursor`: Up adds to the line and Down subtracts from it, Right
   * adds to the column and Left subtracts from it, all saturating at the
   * bounds of `usize`; nothing is clamped to the grid; `reset_column`
   * then puts the column at 0.
   */
  function Moved(p: Position, direction: Direction, count: usize, resetColumn: bool): (r: Position)
    ensures direction == Up ==> r.line == (if p.line + count <= USIZE_MAX then p.line + count else USIZE_MAX)
    ensures direction == Down ==> r.line == (if count <= p.line then p.line - count else 0)
    ensures direction == Right && !resetColumn ==>
      r.column == (if p.column + count <= USIZE_MAX then p.column + count else USIZE_MAX)
    ensures direction == Left && !resetColumn ==> r.column == (if count <= p.column then p.column - count else 0)
    ensures (direction == Up || direction == Down) && !resetColumn ==> r.column == p.column
    ensures direction == Right || direction == Left ==> r.line == p.line
    ensures resetColumn ==> r.column == 0
  {
    var moved := match direction
      case Up => p.(line := SaturatingAddUsize(p.line, count))
      case Right => p.(column := SaturatingAddUsize(p.column, count))
      case Down => p.(line := SaturatingSubUsize(p.line, count))
      case Left => p.(column := SaturatingSubUsize(p.column, count));
    if resetColumn then moved.(column := 0) else moved
  }

  /** Moving by zero without a column reset stays put; moving back by what was just added undoes it. */
  lemma MovedBack(p: Position, count: usize)
    requires p.line + count <= USIZE_MAX && p.column + count <= USIZE_MAX
    ensures Moved(p, Up, 0, false) == p && Moved(p, Right, 0, false) == p
    ensures Moved(Moved(p, Up, count, false), Down, count, false) == p
    ensures Moved(Moved(p, Right, count, false), Left, count, false) == p
  {
  }

  // ---------------------------------------------------------------------
  // The grid iterator
  // ---------------------------------------------------------------------

  /** What one `next` of the iterator does: nothing more, one cell, or a panic. */
  datatype Outcome = Finished | Yielded(item: PositionedCell, current: Position) | Panicked

  /** The position after `p` in `next`: one column on, or the start of the next line after the last column. */
  function Successor(p: Position, width: usize): (r: Position)
    requires 0 < width && p.line < USIZE_MAX && p.column < width
    ensures r.column < width
  {
    if p.column == width - 1 then Position(p.line + 1, 0) else Position(p.line, p.column + 1)
  }

  /** The place of a position in row-major order. */
  function Index(p: Position, width: nat): nat
  {
    p.line * width + p.column
  }

  /** Successive positions are successive places in row-major order. */
  lemma SuccessorIsRowMajor(p: Position, width: usize)
    requires 0 < width && p.line < USIZE_MAX && p.column < width
    ensures Index(Successor(p, width), width) == Index(p, width) + 1
  {
    if p.column == width - 1 {
      assert (p.line + 1) * width == p.line * width + width;
    }
  }

  /** The cell `grid[p]` with its position, or a panic where `p` is out of bounds. */
  function CellAt(rows: Rows, p: Position): (o: Outcome)
    ensures o.Yielded? <==> InBounds(rows, p)
    ensures o.Yielded? ==> o.current == p && o.item == PositionedCell(p, rows[p.line][p.column])
  {
    if InBounds(rows, p) then Yielded(PositionedCell(p, rows[p.line][p.column]), p) else Panicked
  }

  /**
   * `GridIterator::next` as written: nothing more once `current` equals
   * `end`; otherwise the origin first and then the successor (where
   * `width - 1` panics on a grid without columns), indexed into the grid.
   */
  function NextAsWritten(rows: Rows, width: usize, current: Option<Position>, end: Position): Outcome
  {
    if current == Some(end) then Finished
    else if current.None? then CellAt(rows, ORIGIN)
    else if width == 0 then Panicked
    else if current.value.line == USIZE_MAX || current.value.column >= width then Panicked
    else CellAt(rows, Successor(current.value, width))
  }

  /**
   * The iterator's stop position `(height, width)` is never reached: every
   * successor lies in a column before `width`. So on a grid with cells the
   * call after the last cell indexes the line below the grid and panics
   * instead of ending the iteration.
   */
  lemma AsWrittenPanicsAfterLast(rows: Rows, d: Dimensions, p: Position)
    requires Shaped(rows, d) && 0 < d.columns && p.line < USIZE_MAX && p.column < d.columns
    ensures Successor(p, d.columns) != Position(d.rows, d.columns)
    ensures d.rows > 0 && p == Position(d.rows - 1, d.columns - 1) ==>
      NextAsWritten(rows, d.columns, Some(p), Position(d.rows, d.columns)) == Panicked
  {
  }

  /** A one-cell grid: the first call yields the cell and the second panics. */
  lemma AsWrittenOneCell(cell: Cell)
    ensures NextAsWritten([[cell]], 1, None, Position(1, 1)) == Yielded(PositionedCell(ORIGIN, cell), ORIGIN)
    ensures NextAsWritten([[cell]], 1, Some(ORIGIN), Position(1, 1)) == Panicked
  {
    AsWrittenPanicsAfterLast([[cell]], Dimensions(1, 1), ORIGIN);
  }

  /**
   * `next` with the stop test the iterator evidently intends: nothing on a
   * grid without cells, nothing more after the last cell `(height - 1,
   * width - 1)`, and otherwise as written.
   */
  function NextCorrected(rows: Rows, d: Dimensions, current: Option<Position>): Outcome
  {
    if d.rows == 0 || d.columns == 0 then Finished
    else if current == Some(Position(d.rows - 1, d.columns - 1)) then Finished
    else NextAsWritten(rows, d.columns, current, Position(d.rows, d.columns))
  }

  /**
   * With the corrected stop test the iterator visits every cell once, in
   * row-major order: the first call yields the origin (place 0), each call
   * from a cell before the last yields the cell at the next place, and the
   * call from the last cell (place `height * width - 1`) ends the walk.
   */
  lemma CorrectedVisitsAll(rows: Rows, d: Dimensions, p: Position)
    requires Shaped(rows, d) && 0 < d.rows && 0 < d.columns
    requires InBounds(rows, p)
    ensures NextCorrected(rows, d, None) == CellAt(rows, ORIGIN) && CellAt(rows, ORIGIN).Yielded?
    ensures p != Position(d.rows - 1, d.columns - 1) ==>
      var o := NextCorrected(rows, d, Some(p));
      o.Yielded? && Index(o.current, d.columns) == Index(p, d.columns) + 1
    ensures NextCorrected(rows, d, Some(Position(d.rows - 1, d.columns - 1))) == Finished
    ensures Index(Position(d.rows - 1, d.columns - 1), d.columns) == d.rows * d.columns - 1
  {
    assert (d.rows - 1) * d.columns == d.rows * d.columns - d.columns;
    if p != Position(d.rows - 1, d.columns - 1) {
      assert |rows[p.line]| == d.columns;
      SuccessorIsRowMajor(p, d.columns);
      var s := Successor(p, d.columns);
      if s.line == p.line + 1 {
        assert p.line < d.rows - 1;
      }
      assert InBounds(rows, s);
    }
  }

  /** Before the last cell the corrected iterator does what the one as written does. */
  lemma CorrectedAgreesBeforeLast(rows: Rows, d: Dimensions, current: Option<Position>)
    requires Shaped(rows, d) && 0 < d.rows && 0 < d.columns
    requires current != Some(Position(d.rows - 1, d.columns - 1))
    ensures NextCorrected(rows, d, current) == NextAsWritten(rows, d.columns, current, Position(d.rows, d.columns))
  {
  }
}
