/**
 * The editor state of editor_state.go: a buffer, a scroll offset and a
 * cursor, with the edit and movement transitions. Each transition returns a
 * new state. A Go struct literal that names only buffer and cursor leaves
 * scroll at its zero value, so every branch that builds a new state has
 * scroll 0, and only the branches that return the old state keep it.
 *
 * Most transitions index the cursor row; where the Go code would panic the
 * transition has a precondition, written as a Can... predicate so that the
 * input dispatcher can test it.
 */
module Editor {
  import opened Bytes
  import opened Buffers
  import opened Cursors

  function Min(a: int, b: int): int {
    if a < b then a else b
  }

  datatype EditorState = EditorState(buffer: Buffer, scroll: int, cursor: Cursor)
  {
    /** At least one row, the cursor on a row, its column at most that row's length. */
    predicate WellFormed() {
      |buffer| > 0 && 0 <= cursor.row < |buffer| && 0 <= cursor.col <= |buffer[cursor.row]|
    }

    /** A state a session can start from: well formed, or no rows at all with the cursor at the origin. */
    predicate Startable() {
      WellFormed() || (buffer == [] && cursor == Cursor(0, 0))
    }

    predicate CursorRowExists() {
      0 <= cursor.row < |buffer|
    }

    predicate CanWrite() {
      CanInsertCharacterAt(buffer, cursor.row, cursor.col)
    }

    predicate CanMoveUp() {
      cursor.row == 0 || 0 < cursor.row <= |buffer|
    }

    predicate CanMoveDown() {
      cursor.row == |buffer| - 1 || 0 <= cursor.row + 1 < |buffer|
    }

    predicate CanNewline() {
      CursorRowExists() && (|buffer[cursor.row]| == 0 || 0 <= cursor.col <= |buffer[cursor.row]|)
    }

    predicate CanBackspace() {
      if cursor.col == 0 then cursor.row == 0 || 0 < cursor.row < |buffer|
      else CanRemoveCharacterAt(buffer, cursor.row, cursor.col - 1)
    }

    predicate CanTrimLine() {
      CanTrimRowAt(buffer, cursor.row, cursor.col)
    }

    /** Write: the byte goes in at the cursor and the cursor moves one column right. */
    function Write(b: Byte): (r: EditorState)
      requires CanWrite()
      ensures r.scroll == 0 && r.cursor == Cursor(cursor.row, cursor.col + 1)
      ensures |buffer| == 0 ==> r.buffer == [[b]]
      ensures WellFormed() ==>
        r.buffer == buffer[cursor.row := buffer[cursor.row][..cursor.col] + [b] + buffer[cursor.row][cursor.col..]]
      ensures Startable() ==> r.WellFormed()
    {
      EditorState(CharInserted(buffer, cursor.row, cursor.col, b), 0, cursor.Right())
    }

    /** MoveLeft: one column left, clamped at column 0; the buffer is untouched. */
    function MoveLeft(): (r: EditorState)
      ensures r.buffer == buffer && r.scroll == 0 && r.cursor.row == cursor.row
      ensures cursor.col >= 0 ==> r.cursor.col == if cursor.col == 0 then 0 else cursor.col - 1
      ensures cursor.col < 0 ==> r.cursor == cursor
      ensures WellFormed() ==> r.WellFormed()
      ensures Startable() ==> r.Startable()
    {
      EditorState(buffer, 0, cursor.Left())
    }

    /** MoveRight: one column right, but not past the end of the row. */
    function MoveRight(): (r: EditorState)
      requires CursorRowExists()
      ensures r.buffer == buffer
      ensures cursor.col == |buffer[cursor.row]| ==> r == this
      ensures cursor.col != |buffer[cursor.row]| ==> r.scroll == 0 && r.cursor == Cursor(cursor.row, cursor.col + 1)
      ensures WellFormed() ==>
        r.WellFormed() && r.cursor.col == Min(cursor.col + 1, |buffer[cursor.row]|)
    {
      if cursor.col == |buffer[cursor.row]| then this
      else EditorState(buffer, 0, cursor.Right())
    }

    /** MoveUp: one row up, the column clamped to the length of that row; nothing on row 0. */
    function MoveUp(): (r: EditorState)
      requires CanMoveUp()
      ensures r.buffer == buffer
      ensures cursor.row == 0 ==> r == this
      ensures cursor.row != 0 ==>
        r.scroll == 0 && r.cursor == Cursor(cursor.row - 1, Min(cursor.col, |buffer[cursor.row - 1]|))
      ensures WellFormed() ==> r.WellFormed()
      ensures Startable() ==> r.Startable()
    {
      if cursor.row == 0 then this
      else
        var previousLineLength := |buffer[cursor.row - 1]|;
        if cursor.col < previousLineLength then EditorState(buffer, 0, cursor.Up())
        else EditorState(buffer, 0, Cursor(cursor.row - 1, previousLineLength))
    }

    /** MoveDown: one row down, the column clamped to the length of that row; nothing on the last row. */
    function MoveDown(): (r: EditorState)
      requires CanMoveDown()
      ensures r.buffer == buffer
      ensures cursor.row == |buffer| - 1 ==> r == this
      ensures cursor.row != |buffer| - 1 ==>
        r.scroll == 0 && r.cursor == Cursor(cursor.row + 1, Min(cursor.col, |buffer[cursor.row + 1]|))
      ensures WellFormed() ==> r.WellFormed()
    {
      if cursor.row == |buffer| - 1 then this
      else
        var nextLineLength := |buffer[cursor.row + 1]|;
        if cursor.col < nextLineLength then EditorState(buffer, 0, cursor.Down())
        else EditorState(buffer, 0, Cursor(cursor.row + 1, nextLineLength))
    }

    function MoveToBeginningOfLine(): (r: EditorState)
      ensures r.buffer == buffer && r.scroll == 0 && r.cursor == Cursor(cursor.row, 0)
      ensures WellFormed() ==> r.WellFormed()
      ensures Startable() ==> r.Startable()
    {
      EditorState(buffer, 0, cursor.BeginningOfLine())
    }

    function MoveToEndOfLine(): (r: EditorState)
      requires CursorRowExists()
      ensures r.buffer == buffer && r.scroll == 0 && r.cursor == Cursor(cursor.row, |buffer[cursor.row]|)
      ensures WellFormed() ==> r.WellFormed()
    {
      EditorState(buffer, 0, Cursor(cursor.row, |buffer[cursor.row]|))
    }

    /**
     * Newline: the cursor row is split at the cursor (on an empty row or at
     * the end of the row, an empty row is inserted after it) and the cursor
     * goes to the start of the new row.
     */
    function Newline(): (r: EditorState)
      requires CanNewline()
      ensures r.scroll == 0 && r.cursor == Cursor(cursor.row + 1, 0)
      ensures |r.buffer| == |buffer| + 1
      ensures r.buffer[..cursor.row] == buffer[..cursor.row]
      ensures r.buffer[cursor.row + 2..] == buffer[cursor.row + 1..]
      ensures r.buffer[cursor.row] + r.buffer[cursor.row + 1] == buffer[cursor.row]
      ensures 0 <= cursor.col <= |buffer[cursor.row]| ==> r.buffer[cursor.row] == buffer[cursor.row][..cursor.col]
      ensures r.WellFormed()
    {
      if |buffer[cursor.row]| == 0 then
        EditorState(RowInserted(buffer, cursor.row + 1), 0, cursor.DownBeginningOfLine())
      else if cursor.col == |buffer[cursor.row]| then
        EditorState(RowInserted(buffer, cursor.row + 1), 0, cursor.DownBeginningOfLine())
      else
        EditorState(RowSplit(buffer, cursor.row, cursor.col), 0, cursor.DownBeginningOfLine())
    }

    /**
     * Backspace: at column 0 of row 0 nothing; at column 0 of a later row
     * the row is joined onto the previous one (dropped if empty) and the
     * cursor goes to the old end of the previous row; elsewhere the byte
     * left of the cursor is removed and the cursor moves left.
     */
    function Backspace(): (r: EditorState)
      requires CanBackspace()
      ensures cursor.col == 0 && cursor.row == 0 ==> r == this
      ensures cursor.col == 0 && cursor.row != 0 ==>
        r.scroll == 0 && r.cursor == Cursor(cursor.row - 1, |buffer[cursor.row - 1]|) &&
        r.buffer == buffer[..cursor.row - 1] + [buffer[cursor.row - 1] + buffer[cursor.row]] + buffer[cursor.row + 1..]
      ensures cursor.col < 0 ==> r.buffer == buffer && r.cursor == cursor && r.scroll == 0
      ensures WellFormed() && cursor.col > 0 ==>
        r.scroll == 0 && r.cursor == Cursor(cursor.row, cursor.col - 1) &&
        r.buffer == buffer[cursor.row := buffer[cursor.row][..cursor.col - 1] + buffer[cursor.row][cursor.col..]]
      ensures WellFormed() ==> r.WellFormed()
      ensures Startable() ==> r.Startable()
    {
      if cursor.col == 0 then
        if cursor.row == 0 then this
        else
          var previousRow := cursor.row - 1;
          var endOfLine := |buffer[previousRow]|;
          if |buffer[cursor.row]| == 0 then
            JoinEmptyRowIsRemoval(buffer, cursor.row);
            EditorState(RowRemoved(buffer, cursor.row), 0, Cursor(previousRow, endOfLine))
          else
            EditorState(RowJoined(buffer, cursor.row), 0, Cursor(previousRow, endOfLine))
      else
        EditorState(CharRemoved(buffer, cursor.row, cursor.col - 1), 0, cursor.Left())
    }

    /** TrimLine: the cursor row keeps the bytes before the cursor; no row is removed. */
    function TrimLine(): (r: EditorState)
      requires CanTrimLine()
      ensures r.scroll == 0 && r.cursor == cursor && |r.buffer| == |buffer|
      ensures CursorRowExists() && |buffer[cursor.row]| != 0 ==>
        r.buffer == buffer[cursor.row := buffer[cursor.row][..cursor.col]]
      ensures !(CursorRowExists() && |buffer[cursor.row]| != 0) ==> r.buffer == buffer
      ensures WellFormed() ==> r.WellFormed()
      ensures Startable() ==> r.Startable()
    {
      EditorState(RowTrimmed(buffer, cursor.row, cursor.col), 0, cursor)
    }
  }

  /** A well-formed state meets the precondition of every transition. */
  lemma WellFormedEnablesAll(es: EditorState)
    requires es.WellFormed()
    ensures es.CanWrite() && es.CursorRowExists() && es.CanMoveUp() && es.CanMoveDown()
    ensures es.CanNewline() && es.CanBackspace() && es.CanTrimLine()
  {
  }

  /** Backspace undoes Write in a well-formed state (the scroll offset aside). */
  lemma WriteThenBackspace(es: EditorState, b: Byte)
    requires es.WellFormed()
    ensures es.Write(b).CanBackspace()
    ensures es.Write(b).Backspace().buffer == es.buffer
    ensures es.Write(b).Backspace().cursor == es.cursor
  {
    InsertThenRemoveCharacter(es.buffer, es.cursor.row, es.cursor.col, b);
  }

  /** Backspace undoes Newline in a well-formed state (the scroll offset aside). */
  lemma NewlineThenBackspace(es: EditorState)
    requires es.WellFormed()
    ensures es.Newline().CanBackspace()
    ensures es.Newline().Backspace().buffer == es.buffer
    ensures es.Newline().Backspace().cursor == es.cursor
  {
    var row, col := es.cursor.row, es.cursor.col;
    var b := es.buffer;
    var n := es.Newline().buffer;
    if |b[row]| == 0 || col == |b[row]| {
      InsertThenRemoveRow(b, row + 1);
      assert n[row + 1] == [];
      JoinEmptyRowIsRemoval(n, row + 1);
    } else {
      SplitThenJoin(b, row, col);
    }
  }

  /** Backspace at the start of a row keeps every byte: the rows' concatenation is unchanged. */
  lemma BackspaceJoinKeepsText(es: EditorState)
    requires es.CanBackspace() && es.cursor.col == 0 && es.cursor.row != 0
    ensures Flatten(es.Backspace().buffer) == Flatten(es.buffer)
  {
    var b := es.buffer;
    var row := es.cursor.row;
    var pre, post := b[..row - 1], b[row + 1..];
    assert Flatten([b[row - 1] + b[row]]) == b[row - 1] + b[row];
    assert Flatten([b[row - 1]]) == b[row - 1];
    assert Flatten([b[row]]) == b[row];
    calc {
      Flatten(es.Backspace().buffer);
      Flatten(pre + [b[row - 1] + b[row]] + post);
      { FlattenAppend(pre + [b[row - 1] + b[row]], post); FlattenAppend(pre, [b[row - 1] + b[row]]); }
      Flatten(pre) + (b[row - 1] + b[row]) + Flatten(post);
      { FlattenAppend(pre + [b[row - 1]], [b[row]]); FlattenAppend(pre, [b[row - 1]]); }
      Flatten(pre + [b[row - 1]] + [b[row]]) + Flatten(post);
      { FlattenAppend(pre + [b[row - 1]] + [b[row]], post); }
      Flatten(pre + [b[row - 1]] + [b[row]] + post);
      { assert pre + [b[row - 1]] + [b[row]] + post == b; }
      Flatten(b);
    }
  }

  /** All rows of a buffer, one after the other. */
  function Flatten(b: Buffer): Row {
    if b == [] then [] else b[0] + Flatten(b[1..])
  }

  lemma {:induction false} FlattenAppend(a: Buffer, b: Buffer)
    ensures Flatten(a + b) == Flatten(a) + Flatten(b)
  {
    if a == [] {
      assert a + b == b;
    } else {
      assert (a + b)[1..] == a[1..] + b;
      FlattenAppend(a[1..], b);
    }
  }
}
