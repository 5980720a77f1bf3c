/**
 * saiga_backend's `Grid` object: the rows of cells, the cursor, the saved
 * cursor and the dimensions, updated in place by indexing and by
 * `resize`; and the `GridIterator` that walks it. The methods are proved
 * against the values of `GridModel`.
 */
module Grid {
  import opened Common
  import opened GridCell
  import opened GridModel

  class Grid {
    var rows: Rows
    var cursor: Cursor
    var savedCursor: Option<Cursor>
    var dimensions: Dimensions

    /** The rows have the grid's dimensions. */
    ghost predicate Valid()
      reads this
    {
      Shaped(rows, dimensions)
    }

    /** `Grid::with_dimensions`: blank rows, the cursor at the origin, nothing saved. */
    constructor WithDimensions(d: Dimensions)
      ensures Valid() && rows == Blank(d) && dimensions == d
      ensures cursor == DEFAULT_CURSOR && savedCursor.None?
    {
      rows := Blank(d);
      cursor := DEFAULT_CURSOR;
      savedCursor := None;
      dimensions := d;
    }

    /** `width`: the number of columns, the length of every row. */
    function Width(): (w: usize)
      reads this
      ensures w == dimensions.columns
      ensures Valid() ==> forall i :: 0 <= i < |rows| ==> |rows[i]| == w
    {
      dimensions.columns
    }

    /** `height`: the number of rows. */
    function Height(): (h: usize)
      reads this
      ensures h == dimensions.rows
      ensures Valid() ==> |rows| == h
    {
      dimensions.rows
    }

    /** `grid[p]`: the cell at column `p.column` of row `p.line`. */
    function At(p: Position): (c: Cell)
      requires InBounds(rows, p)
      reads this
    {
      rows[p.line][p.column]
    }

    /** `cell_at_cursor`: the cell at the cursor's position. */
    function CellAtCursor(): (c: Cell)
      requires InBounds(rows, cursor.position)
      reads this
      ensures c == At(cursor.position)
    {
      rows[cursor.position.line][cursor.position.column]
    }

    /** A write through `IndexMut<Position>`: that one cell changes and nothing else. */
    method SetAt(p: Position, cell: Cell)
      requires Valid() && InBounds(rows, p)
      modifies this
      ensures Valid() && rows == old(rows)[p.line := old(rows)[p.line][p.column := cell]]
      ensures At(p) == cell
      ensures forall q :: InBounds(rows, q) && q != p ==> At(q) == old(At(q))
      ensures cursor == old(cursor) && savedCursor == old(savedCursor) && dimensions == old(dimensions)
    {
      rows := rows[p.line := rows[p.line][p.column := cell]];
    }

    /** `grid[line].swap(a, b)` through `IndexMut<Line>`: two cells of one row change places. */
    method SwapInRow(line: nat, a: nat, b: nat)
      requires Valid() && line < |rows| && a < |rows[line]| && b < |rows[line]|
      modifies this
      ensures Valid()
      ensures rows == old(rows)[line := old(rows)[line][a := old(rows)[line][b]][b := old(rows)[line][a]]]
      ensures cursor == old(cursor) && savedCursor == old(savedCursor) && dimensions == old(dimensions)
    {
      var row := rows[line];
      rows := rows[line := row[a := row[b]][b := row[a]]];
    }

    /**
     * `resize`: the template is set aside, lines are grown or shrunk, then
     * columns, and the template is put back; the cursor's position is
     * neither moved nor clamped.
     */
    method Resize(d: Dimensions)
      requires Valid()
      modifies this
      ensures Valid() && dimensions == d
      ensures rows == Resized(old(rows), old(dimensions), d)
      ensures cursor == old(cursor) && savedCursor == old(savedCursor)
    {
      ghost var before := rows;
      ghost var from := dimensions;
      var template := cursor.template;
      cursor := cursor.(template := DEFAULT);
      if dimensions.rows < d.rows {
        GrowLinesTo(d.rows);
      } else if dimensions.rows > d.rows {
        ShrinkLinesTo(d.rows);
      }
      assert rows == ResizedLines(before, from, d);
      if dimensions.columns < d.columns {
        GrowColumnsTo(d.columns);
      } else if dimensions.columns > d.columns {
        ShrinkColumnsTo(d.columns);
      }
      cursor := cursor.(template := template);
      ResizedCells(before, from, d);
    }

    /** `grow_lines_to`: new rows as wide as the grid at the bottom. */
    method GrowLinesTo(target: usize)
      requires Valid() && dimensions.rows <= target
      modifies this
      ensures Valid() && dimensions == old(dimensions).(rows := target)
      ensures rows == GrowLines(old(rows), target, dimensions.columns)
      ensures cursor == old(cursor) && savedCursor == old(savedCursor)
    {
      var linesAdded := target - dimensions.rows;
      var size := dimensions.rows + linesAdded;
      var columns := dimensions.columns;
      rows := rows + seq(size - |rows|, _ => NewRow(columns));
      dimensions := dimensions.(rows := target);
    }

    /** `shrink_lines_to`: the rows past `target` are dropped. */
    method ShrinkLinesTo(target: usize)
      requires Valid() && target <= dimensions.rows
      modifies this
      ensures Valid() && dimensions == old(dimensions).(rows := target)
      ensures rows == old(rows)[..target]
      ensures cursor == old(cursor) && savedCursor == old(savedCursor)
    {
      var linesRemoved := dimensions.rows - target;
      var size := dimensions.rows - linesRemoved;
      rows := rows[..size];
      dimensions := dimensions.(rows := target);
    }

    /**
     * `grow_columns_to`: each row, one after the other, padded to `target`
     * cells with the default cell under the cursor's template.
     */
    method GrowColumnsTo(target: usize)
      requires Valid() && dimensions.columns <= target
      modifies this
      ensures Valid() && dimensions == old(dimensions).(columns := target)
      ensures rows == GrowColumns(old(rows), target, ApplyTemplate(DEFAULT, cursor.template))
      ensures cursor == old(cursor) && savedCursor == old(savedCursor)
    {
      var columnsAdded := target - dimensions.columns;
      var size := dimensions.columns + columnsAdded;
      var cell := ApplyTemplate(DEFAULT, cursor.template);
      ghost var goal := GrowColumns(rows, target, cell);
      for i := 0 to |rows|
        invariant |rows| == |goal| && dimensions == old(dimensions)
        invariant cursor == old(cursor) && savedCursor == old(savedCursor)
        invariant forall k :: 0 <= k < i ==> rows[k] == goal[k]
        invariant forall k :: i <= k < |rows| ==> rows[k] == old(rows)[k]
      {
        rows := rows[i := rows[i] + seq(size - |rows[i]|, _ => cell)];
      }
      assert rows == goal;
      dimensions := dimensions.(columns := target);
    }

    /** `shrink_columns_to`: each row, one after the other, truncated to `target` cells. */
    method ShrinkColumnsTo(target: usize)
      requires Valid() && target <= dimensions.columns
      modifies this
      ensures Valid() && dimensions == old(dimensions).(columns := target)
      ensures rows == ShrinkColumns(old(rows), target)
      ensures cursor == old(cursor) && savedCursor == old(savedCursor)
    {
      var columnsRemoved := dimensions.columns - target;
      var size := dimensions.columns - columnsRemoved;
      ghost var goal := ShrinkColumns(rows, target);
      for i := 0 to |rows|
        invariant |rows| == |goal| && dimensions == old(dimensions)
        invariant cursor == old(cursor) && savedCursor == old(savedCursor)
        invariant forall k :: 0 <= k < i ==> rows[k] == goal[k]
        invariant forall k :: i <= k < |rows| ==> rows[k] == old(rows)[k]
      {
        rows := rows[i := rows[i][..size]];
      }
      assert rows == goal;
      dimensions := dimensions.(columns := target);
    }
  }

  /** `GridIterator`: a borrowed grid, the position last yielded and the stop position. */
  class GridIterator {
    const grid: Grid
    var current: Option<Position>
    const end: Position

    /** `Grid::iter`: nothing yielded yet; the stop position is `(height, width)`. */
    constructor(g: Grid)
      ensures grid == g && current.None? && end == Position(g.Height(), g.Width())
    {
      grid := g;
      current := None;
      end := Position(g.Height(), g.Width());
    }

    /**
     * `next`, as written: the outcome of `NextAsWritten`, after which
     * `current` is the position yielded. A panic leaves nothing defined.
     */
    method Next() returns (item: Option<PositionedCell>, panicked: bool)
      modifies this
      ensures var o := NextAsWritten(grid.rows, grid.Width(), old(current), end);
        && (panicked <==> o.Panicked?)
        && (o.Finished? ==> item.None? && current == old(current))
        && (o.Yielded? ==> item == Some(o.item) && current == Some(o.current))
    {
      if current == Some(end) {
        return None, false;
      }
      var position := ORIGIN;
      if current.Some? {
        var p := current.value;
        if grid.Width() == 0 || p.line == USIZE_MAX || p.column >= grid.Width() {
          return None, true;
        }
        position := Successor(p, grid.Width());
      }
      if !InBounds(grid.rows, position) {
        return None, true;
      }
      current := Some(position);
      return Some(PositionedCell(position, grid.At(position))), false;
    }
  }
}
