/**
 * The cursor of cursor.go: a (row, column) pair of Go ints with step
 * helpers. The helpers know nothing of the buffer; keeping the cursor inside
 * the text is the editor state's job.
 */
module Cursors {

  datatype Cursor = Cursor(row: int, col: int)
  {
    /** One column left, unless already at column 0 (or before it). */
    function Left(): (r: Cursor)
      ensures r.row == row
      ensures col > 0 ==> r.col == col - 1
      ensures col <= 0 ==> r == this
      ensures col >= 0 ==> r.col >= 0
    {
      if col > 0 then Cursor(row, col - 1) else this
    }

    /** Four columns left, clamped at column 0. */
    function LeftTab(): (r: Cursor)
      ensures r.row == row && r.col >= 0
      ensures col >= 4 ==> r.col == col - 4
      ensures col < 4 ==> r.col == 0
    {
      var newCol := col - 4;
      Cursor(row, if newCol < 0 then 0 else newCol)
    }

    /** One column right, with no upper bound. */
    function Right(): (r: Cursor)
      ensures r.row == row && r.col == col + 1
    {
      Cursor(row, col + 1)
    }

    /** Four columns right, with no upper bound. */
    function RightTab(): (r: Cursor)
      ensures r.row == row && r.col == col + 4
    {
      Cursor(row, col + 4)
    }

    /** One row up, unless already on row 0 (or before it). */
    function Up(): (r: Cursor)
      ensures r.col == col
      ensures row > 0 ==> r.row == row - 1
      ensures row <= 0 ==> r == this
    {
      if row > 0 then Cursor(row - 1, col) else this
    }

    /** One row down, with no upper bound. */
    function Down(): (r: Cursor)
      ensures r.row == row + 1 && r.col == col
    {
      Cursor(row + 1, col)
    }

    function BeginningOfLine(): (r: Cursor)
      ensures r.row == row && r.col == 0
    {
      Cursor(row, 0)
    }

    /** The start of the next row, where a newline leaves the cursor. */
    function DownBeginningOfLine(): (r: Cursor)
      ensures r.row == row + 1 && r.col == 0
    {
      Cursor(row + 1, 0)
    }
  }

  /** From a column that is not negative, Left undoes Right. */
  lemma RightThenLeft(c: Cursor)
    requires c.col >= 0
    ensures c.Right().Left() == c
  {
  }

  /** Left does not undo Right from a negative column: Left never moves there. */
  lemma RightThenLeftBelowZero(c: Cursor)
    requires c.col < 0
    ensures c.Right().Left() == Cursor(c.row, c.col + 1)
  {
  }

  /** From a column that is not negative, LeftTab undoes RightTab. */
  lemma RightTabThenLeftTab(c: Cursor)
    requires c.col >= 0
    ensures c.RightTab().LeftTab() == c
  {
  }

  /** From a row that is not negative, Up undoes Down. */
  lemma DownThenUp(c: Cursor)
    requires c.row >= 0
    ensures c.Down().Up() == c
  {
  }

  /** Up on the first row and Left on the first column change nothing. */
  lemma ClampedAtOrigin(c: Cursor)
    requires c.row == 0 && c.col == 0
    ensures c.Up() == c && c.Left() == c && c.LeftTab() == c
  {
  }
}
