/**
 * saiga_backend's `Terminal` of `lib.rs`: a primary and a secondary grid
 * and the mode flags, with the handler methods that move the cursor, put
 * a character (shifting the rest of the row right), and feed lines. The
 * grids are `Grid.Grid` objects changed in place.
 */
module Terminal {
  import opened Common
  import opened GridCell
  import opened GridModel
  import G = Grid

  /** `TerminalMode`. */
  datatype TerminalMode = TerminalMode(alternativeScreen: bool, lineFeedNewLine: bool, insert: bool)

  /** `TerminalMode::default`: every flag off. */
  const DEFAULT_MODE: TerminalMode := TerminalMode(false, false, false)

  /**
   * A row shifted right by one from `from`: the cells before `from` stay,
   * the last cell comes to `from`, and the cells from `from` on move one
   * place right, the last one falling off.
   */
  function RotatedRight(row: seq<Cell>, from: nat): (r: seq<Cell>)
    requires from < |row|
    ensures |r| == |row| && r[..from] == row[..from] && r[from] == row[|row| - 1]
    ensures forall j :: from < j < |row| ==> r[j] == row[j - 1]
  {
    row[..from] + [row[|row| - 1]] + row[from..|row| - 1]
  }

  /** Rotating from the last cell changes nothing. */
  lemma RotatedRightAtEnd(row: seq<Cell>)
    requires 0 < |row|
    ensures RotatedRight(row, |row| - 1) == row
  {
  }

  /** One swap of the reverse loop of `put_char` moves the rotation one place left. */
  lemma RotatedRightStep(row: seq<Cell>, c: nat)
    requires c + 1 < |row|
    ensures var s := RotatedRight(row, c + 1);
      s[c + 1 := s[c]][c := s[c + 1]] == RotatedRight(row, c)
  {
    var s := RotatedRight(row, c + 1);
    var t := s[c + 1 := s[c]][c := s[c + 1]];
    var u := RotatedRight(row, c);
    forall j | 0 <= j < |row|
      ensures t[j] == u[j]
    {
      if j < c {
        assert t[j] == s[j] == s[..c + 1][j] == row[j];
        assert u[j] == u[..c][j] == row[j];
      }
    }
  }

  /** The cell `write_at_cursor` leaves: the template's style and the character. */
  function Written(cell: Cell, template: Cell, c: char): (r: Cell)
    ensures SameStyle(r, template) && r.character == Some(c)
  {
    ApplyTemplate(cell, template).(character := Some(c))
  }

  /** What is written does not depend on the cell written over. */
  lemma WrittenForgetsCell(a: Cell, b: Cell, template: Cell, c: char)
    ensures Written(a, template, c) == Written(b, template, c)
  {
    CellExtensionality(Written(a, template, c), Written(b, template, c));
  }

  class Terminal {
    var grid: G.Grid
    var secondaryGrid: G.Grid
    var mode: TerminalMode

    /** Two distinct grids, each of its own dimensions. */
    ghost predicate Valid()
      reads this, grid, secondaryGrid
    {
      grid != secondaryGrid && grid.Valid() && secondaryGrid.Valid()
    }

    /** `Terminal::new`: two blank grids of the same dimensions, every mode flag off. */
    constructor(d: Dimensions)
      ensures Valid() && fresh(grid) && fresh(secondaryGrid) && mode == DEFAULT_MODE
      ensures grid.rows == Blank(d) && grid.dimensions == d && grid.cursor == DEFAULT_CURSOR && grid.savedCursor.None?
      ensures secondaryGrid.rows == Blank(d) && secondaryGrid.dimensions == d
      ensures secondaryGrid.cursor == DEFAULT_CURSOR && secondaryGrid.savedCursor.None?
    {
      grid := new G.Grid.WithDimensions(d);
      secondaryGrid := new G.Grid.WithDimensions(d);
      mode := DEFAULT_MODE;
    }

    /** `resize`: both grids to the same dimensions. */
    method Resize(d: Dimensions)
      requires Valid()
      modifies grid, secondaryGrid
      ensures Valid() && grid.dimensions == d && secondaryGrid.dimensions == d
      ensures grid.rows == Resized(old(grid.rows), old(grid.dimensions), d)
      ensures secondaryGrid.rows == Resized(old(secondaryGrid.rows), old(secondaryGrid.dimensions), d)
      ensures grid.cursor == old(grid.cursor) && secondaryGrid.cursor == old(secondaryGrid.cursor)
    {
      grid.Resize(d);
      secondaryGrid.Resize(d);
    }

    /** `swap_grids`: the two grids change places, so a second swap restores the first. */
    method SwapGrids()
      modifies this
      ensures grid == old(secondaryGrid) && secondaryGrid == old(grid) && mode == old(mode)
    {
      grid, secondaryGrid := secondaryGrid, grid;
    }

    /** `write_at_cursor`: the cursor's cell takes the template's style and the character. */
    method WriteAtCursor(c: char)
      requires Valid() && InBounds(grid.rows, grid.cursor.position)
      modifies grid
      ensures Valid() && grid.cursor == old(grid.cursor) && grid.dimensions == old(grid.dimensions)
      ensures grid.savedCursor == old(grid.savedCursor)
      ensures var p := grid.cursor.position;
        grid.rows == old(grid.rows)[p.line := old(grid.rows)[p.line][p.column := Written(old(grid.CellAtCursor()), grid.cursor.template, c)]]
    {
      var template := grid.cursor.template;
      var cell := grid.CellAtCursor();
      grid.SetAt(grid.cursor.position, Written(cell, template, c));
    }

    /** `move_cursor`: the rules of `GridModel.Moved`; the cells do not change. */
    method MoveCursor(direction: Direction, count: usize, resetColumn: bool)
      requires Valid()
      modifies grid
      ensures Valid() && grid.rows == old(grid.rows) && grid.dimensions == old(grid.dimensions)
      ensures grid.cursor == old(grid.cursor).(position := Moved(old(grid.cursor.position), direction, count, resetColumn))
    {
      var p := grid.cursor.position;
      match direction {
        case Up => p := p.(line := SaturatingAddUsize(p.line, count));
        case Right => p := p.(column := SaturatingAddUsize(p.column, count));
        case Down => p := p.(line := SaturatingSubUsize(p.line, count));
        case Left => p := p.(column := SaturatingSubUsize(p.column, count));
      }
      if resetColumn {
        p := p.(column := 0);
      }
      grid.cursor := grid.cursor.(position := p);
    }

    /**
     * `put_char` with the character's display width given (None for a
     * control character, which changes nothing). A width-1 character
     * before the last column shifts the rest of its row right by one,
     * dropping the last cell, is written at the cursor with the template's
     * style, and moves the cursor one column right. A zero-width or wide
     * character and a write at the last column reach `todo!()`, and a
     * cursor line outside the grid fails the row index: those panic.
     */
    method PutChar(c: char, width: Option<usize>) returns (panicked: bool)
      requires Valid()
      modifies grid
      ensures Valid() && grid.dimensions == old(grid.dimensions)
      ensures var p := old(grid.cursor.position);
        panicked <==> (width.Some? && !(width.value == 1 && p.line < grid.Height() && p.column + 1 < grid.Width()))
      ensures width.None? ==> grid.rows == old(grid.rows) && grid.cursor == old(grid.cursor)
      ensures width.Some? && !panicked ==>
        var p := old(grid.cursor.position);
        var shifted := RotatedRight(old(grid.rows)[p.line], p.column);
        && grid.rows == old(grid.rows)[p.line := shifted[p.column := Written(shifted[p.column], grid.cursor.template, c)]]
        && grid.cursor == old(grid.cursor).(position := p.(column := p.column + 1))
        && grid.savedCursor == old(grid.savedCursor)
    {
      if width.None? {
        return false;
      }
      var w := width.value;
      if w == 0 {
        return true;
      }
      if w > 1 {
        return true;
      }
      var gridColumns := grid.Width();
      if grid.cursor.position.column + w < gridColumns {
        if grid.cursor.position.line >= grid.Height() {
          return true;
        }
        ShiftRight(grid.cursor.position.line, grid.cursor.position.column);
      }
      if !InBounds(grid.rows, grid.cursor.position) {
        return true;
      }
      WriteAtCursor(c);
      if grid.cursor.position.column + 1 < gridColumns {
        grid.cursor := grid.cursor.(position := grid.cursor.position.(column := grid.cursor.position.column + 1));
      } else {
        return true;
      }
      return false;
    }

    /** The reverse swap loop of `put_char` over the cursor's row, from the end down to the cursor. */
    method ShiftRight(line: usize, from: usize)
      requires Valid() && line < grid.Height() && from + 1 < grid.Width()
      modifies grid
      ensures Valid() && grid.cursor == old(grid.cursor) && grid.dimensions == old(grid.dimensions)
      ensures grid.savedCursor == old(grid.savedCursor)
      ensures grid.rows == old(grid.rows)[line := RotatedRight(old(grid.rows)[line], from)]
    {
      ghost var row := grid.rows[line];
      var column := grid.Width() - 1;
      RotatedRightAtEnd(row);
      assert grid.rows == grid.rows[line := RotatedRight(row, column)];
      while column > from
        invariant from <= column < grid.Width() && Valid()
        invariant grid.cursor == old(grid.cursor) && grid.dimensions == old(grid.dimensions)
        invariant grid.savedCursor == old(grid.savedCursor)
        invariant grid.rows == old(grid.rows)[line := RotatedRight(row, column)]
        decreases column
      {
        column := column - 1;
        RotatedRightStep(row, column);
        grid.SwapInRow(line, column + 1, column);
      }
    }

    /** `newline`: a line feed, then a carriage return when `line_feed_new_line` is set. */
    method Newline()
      requires Valid() && grid.cursor.position.line < USIZE_MAX
      modifies grid
      ensures Valid() && grid.rows == old(grid.rows) && grid.dimensions == old(grid.dimensions)
      ensures var p := old(grid.cursor.position);
        var fed := if p.line + 1 >= grid.Height() then p.(line := p.line + 1) else p;
        grid.cursor == old(grid.cursor).(position := if mode.lineFeedNewLine then fed.(column := 0) else fed)
    {
      Linefeed();
      if mode.lineFeedNewLine {
        CarriageReturn();
      }
    }

    /** `carriage_return`: the cursor to column 0 of its line. */
    method CarriageReturn()
      requires Valid()
      modifies grid
      ensures Valid() && grid.rows == old(grid.rows) && grid.dimensions == old(grid.dimensions)
      ensures grid.cursor == old(grid.cursor).(position := old(grid.cursor.position).(column := 0))
    {
      grid.cursor := grid.cursor.(position := grid.cursor.position.(column := 0));
    }

    /**
     * `linefeed`: the cursor goes to the next line only when that line is
     * at or past the height of the grid; below it, nothing moves.
     */
    method Linefeed()
      requires Valid() && grid.cursor.position.line < USIZE_MAX
      modifies grid
      ensures Valid() && grid.rows == old(grid.rows) && grid.dimensions == old(grid.dimensions)
      ensures var p := old(grid.cursor.position);
        grid.cursor == old(grid.cursor).(position := if p.line + 1 >= grid.Height() then p.(line := p.line + 1) else p)
    {
      var nextLine := grid.cursor.position.line + 1;
      if nextLine >= grid.Height() {
        grid.cursor := grid.cursor.(position := grid.cursor.position.(line := nextLine));
      }
    }
  }
}
