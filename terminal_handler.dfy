/**
 * saiga_backend's `Terminal` of `terminal.rs`: one grid and an event
 * listener, with the handler methods that place and move the cursor,
 * write a character's `char` field, restore a saved cursor, step back, and
 * report a new title. The listener is modelled by the events it has
 * received, in order.
 */
module TerminalHandler {
  import opened Common
  import opened GridCell
  import opened GridModel
  import G = Grid

  /** `Event`: what the terminal reports to its listener. */
  datatype Event = SetTitle(title: string) | PtyWrite(bytes: seq<u8>)

  class Terminal {
    var grid: G.Grid
    var events: seq<Event>

    ghost predicate Valid()
      reads this, grid
    {
      grid.Valid()
    }

    /** The struct built from a grid and a listener that has received nothing. */
    constructor(g: G.Grid)
      ensures grid == g && events == []
    {
      grid := g;
      events := [];
    }

    /** `set_char_at_cursor`: only the `char` field of the cursor's cell changes. */
    method SetCharAtCursor(c: char)
      requires Valid() && InBounds(grid.rows, grid.cursor.position)
      modifies grid
      ensures Valid() && grid.cursor == old(grid.cursor) && grid.savedCursor == old(grid.savedCursor)
      ensures grid.dimensions == old(grid.dimensions)
      ensures var p := grid.cursor.position;
        grid.rows == old(grid.rows)[p.line := old(grid.rows)[p.line][p.column := old(grid.CellAtCursor()).(character := Some(c))]]
    {
      var cell := grid.CellAtCursor();
      grid.SetAt(grid.cursor.position, cell.(character := Some(c)));
    }

    /** `set_title`: exactly one `SetTitle` event carrying the title; the grid is not touched. */
    method SetTitle(title: string)
      modifies this
      ensures events == old(events) + [Event.SetTitle(title)] && grid == old(grid)
    {
      events := events + [Event.SetTitle(title)];
    }

    /** `set_cursor_position`: both coordinates are replaced, nothing else changes. */
    method SetCursorPosition(position: Position)
      requires Valid()
      modifies grid
      ensures Valid() && grid.rows == old(grid.rows) && grid.dimensions == old(grid.dimensions)
      ensures grid.savedCursor == old(grid.savedCursor)
      ensures grid.cursor == old(grid.cursor).(position := position)
    {
      grid.cursor := grid.cursor.(position := grid.cursor.position.(line := position.line));
      grid.cursor := grid.cursor.(position := grid.cursor.position.(column := position.column));
    }

    /** `set_cursor_line`: the line is replaced, the column kept. */
    method SetCursorLine(line: usize)
      requires Valid()
      modifies grid
      ensures Valid() && grid.rows == old(grid.rows) && grid.dimensions == old(grid.dimensions)
      ensures grid.savedCursor == old(grid.savedCursor)
      ensures grid.cursor == old(grid.cursor).(position := old(grid.cursor.position).(line := line))
    {
      grid.cursor := grid.cursor.(position := grid.cursor.position.(line := line));
    }

    /** `set_cursor_column`: the column is replaced, the line kept. */
    method SetCursorColumn(column: usize)
      requires Valid()
      modifies grid
      ensures Valid() && grid.rows == old(grid.rows) && grid.dimensions == old(grid.dimensions)
      ensures grid.savedCursor == old(grid.savedCursor)
      ensures grid.cursor == old(grid.cursor).(position := old(grid.cursor.position).(column := column))
    {
      grid.cursor := grid.cursor.(position := grid.cursor.position.(column := column));
    }

    /** `move_cursor`: the saturating rules of `GridModel.Moved`, then column 0 when asked. */
    method MoveCursor(direction: Direction, count: usize, resetColumn: bool)
      requires Valid()
      modifies grid
      ensures Valid() && grid.rows == old(grid.rows) && grid.dimensions == old(grid.dimensions)
      ensures grid.savedCursor == old(grid.savedCursor)
      ensures grid.cursor == old(grid.cursor).(position := Moved(old(grid.cursor.position), direction, count, resetColumn))
    {
      match direction {
        case Up =>
          grid.cursor := grid.cursor.(position := grid.cursor.position.(line := SaturatingAddUsize(grid.cursor.position.line, count)));
        case Right =>
          grid.cursor := grid.cursor.(position := grid.cursor.position.(column := SaturatingAddUsize(grid.cursor.position.column, count)));
        case Down =>
          grid.cursor := grid.cursor.(position := grid.cursor.position.(line := SaturatingSubUsize(grid.cursor.position.line, count)));
        case Left =>
          grid.cursor := grid.cursor.(position := grid.cursor.position.(column := SaturatingSubUsize(grid.cursor.position.column, count)));
      }
      if resetColumn {
        grid.cursor := grid.cursor.(position := grid.cursor.position.(column := 0));
      }
    }

    /**
     * `put_char` with the character's display width given (None for a
     * control character, a no-op). A character that fits strictly before
     * the last column has only the `char` field of the cursor's cell set;
     * the cursor does not move, and a character that does not fit is
     * dropped. A zero-width character reaches `todo!()`, a `column + width`
     * beyond `usize::MAX` overflows, and a cursor line outside the grid fails
     * the index: those panic.
     */
    method PutChar(c: char, width: Option<usize>) returns (panicked: bool)
      requires Valid()
      modifies grid
      ensures Valid() && grid.cursor == old(grid.cursor) && grid.savedCursor == old(grid.savedCursor)
      ensures grid.dimensions == old(grid.dimensions)
      ensures var p := grid.cursor.position;
        panicked <==> (width == Some(0) || (width.Some? && p.column + width.value > USIZE_MAX) ||
                       (width.Some? && p.column + width.value < grid.Width() && p.line >= grid.Height()))
      ensures var p := grid.cursor.position;
        !panicked ==> grid.rows == (if width.Some? && p.column + width.value < grid.Width()
          then old(grid.rows)[p.line := old(grid.rows)[p.line][p.column := old(grid.rows)[p.line][p.column].(character := Some(c))]]
          else old(grid.rows))
    {
      if width.None? {
        return false;
      }
      var w := width.value;
      if w == 0 {
        return true;
      }
      if grid.cursor.position.column + w > USIZE_MAX {
        return true;
      }
      if grid.cursor.position.column + w < grid.dimensions.columns {
        if !InBounds(grid.rows, grid.cursor.position) {
          return true;
        }
        SetCharAtCursor(c);
      }
      return false;
    }

    /**
     * `restore_cursor_position`: the saved cursor, if any, is taken out of
     * its slot and becomes the cursor; with none saved nothing changes.
     */
    method RestoreCursorPosition()
      requires Valid()
      modifies grid
      ensures Valid() && grid.rows == old(grid.rows) && grid.dimensions == old(grid.dimensions)
      ensures grid.savedCursor.None?
      ensures grid.cursor == if old(grid.savedCursor).Some? then old(grid.savedCursor).value else old(grid.cursor)
    {
      var saved := grid.savedCursor;
      grid.savedCursor := None;
      if saved.Some? {
        grid.cursor := saved.value;
      }
    }

    /** `backspace`: one column left unless at column 0, the same as moving left by one. */
    method Backspace()
      requires Valid()
      modifies grid
      ensures Valid() && grid.rows == old(grid.rows) && grid.dimensions == old(grid.dimensions)
      ensures grid.savedCursor == old(grid.savedCursor)
      ensures var p := old(grid.cursor.position);
        grid.cursor == old(grid.cursor).(position := if p.column == 0 then p else p.(column := p.column - 1))
      ensures grid.cursor.position == Moved(old(grid.cursor.position), Left, 1, false)
    {
      if grid.cursor.position.column == 0 {
        return;
      }
      grid.cursor := grid.cursor.(position := grid.cursor.position.(column := grid.cursor.position.column - 1));
    }
  }
}
