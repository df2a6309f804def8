/**
 * The line buffer of buffer.go: a sequence of rows, each a sequence of bytes.
 *
 * Every Go method returns a new buffer and is modelled twice. A function says
 * row by row what the new buffer holds, in the shape of buffer.go's loop; its
 * postconditions restate that value in terms of slices of the old buffer. The
 * editor transitions, which are pure, use these functions. A method of the
 * Go method's name builds the new row array index by index the way buffer.go
 * does and is proved to return exactly the function's value.
 *
 * Where the Go code would panic (an index or slice out of range), the
 * operation has a precondition; every other out-of-range case follows the
 * code's policy (append, no-op or clamp).
 */
module Buffers {
  import opened Bytes

  type Row = seq<Byte>
  type Buffer = seq<Row>

  // ---------------------------------------------------------------------
  // Preconditions: exactly the inputs on which buffer.go does not panic,
  // except CanTrimRowAt, which is stricter (see its comment)
  // ---------------------------------------------------------------------

  /** RowLength indexes the row unless the buffer is empty. */
  predicate CanRowLength(b: Buffer, row: int) {
    |b| == 0 || 0 <= row < |b|
  }

  /** InsertCharacterAt slices the target row at col when col is inside it. */
  predicate CanInsertCharacterAt(b: Buffer, row: int, col: int) {
    0 <= row < |b| ==> 0 <= col
  }

  /** The loop of RemoveRowAt writes out of range unless row is a real row. */
  predicate CanRemoveRowAt(b: Buffer, row: int) {
    |b| != 0 ==> 0 <= row < |b|
  }

  /** RemoveCharacterAt slices past the end of a non-empty target row when col is too large. */
  predicate CanRemoveCharacterAt(b: Buffer, row: int, col: int) {
    |b| != 0 && 0 <= col && 0 <= row < |b| && |b[row]| != 0 ==> col < |b[row]|
  }

  /**
   * TrimRowAt slices a non-empty target row to col. Go accepts any col up
   * to the row's capacity; only col up to its length is allowed here.
   */
  predicate CanTrimRowAt(b: Buffer, row: int, col: int) {
    |b| != 0 && 0 <= row < |b| && |b[row]| != 0 ==> 0 <= col <= |b[row]|
  }

  /** MoveAfterToNewRow reads b[row - 1] or b[-1] for a negative row and slices the target row at col. */
  predicate CanMoveAfterToNewRow(b: Buffer, row: int, col: int) {
    0 <= row && (row < |b| ==> 0 <= col <= |b[row]|)
  }

  // ---------------------------------------------------------------------
  // The operations as values
  // ---------------------------------------------------------------------

  /** RowLength: 0 for a buffer without rows, else the length of the row. */
  function RowLength(b: Buffer, row: int): (n: nat)
    requires CanRowLength(b, row)
    ensures |b| == 0 ==> n == 0
    ensures |b| != 0 ==> n == |b[row]|
  {
    if |b| == 0 then 0 else |b[row]|
  }

  /**
   * InsertRowAt: an empty row before index row; appended at the end when row
   * is at or past the end, and also when row is negative (the loop never
   * meets it and the last slot of the new array stays empty).
   */
  function RowInserted(b: Buffer, row: int): (r: Buffer)
    ensures |r| == |b| + 1
    ensures 0 <= row < |b| ==> r == b[..row] + [[]] + b[row..]
    ensures row < 0 || |b| <= row ==> r == b + [[]]
  {
    if row >= |b| then b + [[]]
    else
      var r := seq(|b| + 1, y requires 0 <= y <= |b| =>
        if row < 0 || y < row then (if y < |b| then b[y] else [])
        else if y == row then []
        else b[y - 1]);
      assert 0 <= row ==> r == b[..row] + [[]] + b[row..];
      r
  }

  /**
   * InsertCharacterAt: c goes into the target row at col, or at the end of
   * the row when col is at or past its end; a buffer without rows becomes
   * the single row [c] whatever row and col are.
   */
  function CharInserted(b: Buffer, row: int, col: int, c: Byte): (r: Buffer)
    requires CanInsertCharacterAt(b, row, col)
    ensures |b| == 0 ==> r == [[c]]
    ensures |b| != 0 ==> |r| == |b|
    ensures 0 <= row < |b| ==>
      var k := if col < |b[row]| then col else |b[row]|;
      r == b[row := b[row][..k] + [c] + b[row][k..]]
    ensures |b| != 0 && !(0 <= row < |b|) ==> r == b
  {
    if |b| == 0 then [[c]]
    else
      var r := seq(|b|, y requires 0 <= y < |b| =>
        if y == row then
          (if col >= |b[y]| then b[y] + [c] else b[y][..col] + [c] + b[y][col..])
        else b[y]);
      assert 0 <= row < |b| && |b[row]| <= col ==>
        b[row][..|b[row]|] + [c] + b[row][|b[row]|..] == b[row] + [c] && r == b[row := b[row] + [c]];
      assert 0 <= row < |b| && col < |b[row]| ==> r == b[row := b[row][..col] + [c] + b[row][col..]];
      r
  }

  /** RemoveRowAt: the row is cut out and later rows move up; no rows stays no rows. */
  function RowRemoved(b: Buffer, row: int): (r: Buffer)
    requires CanRemoveRowAt(b, row)
    ensures |b| == 0 ==> r == b
    ensures |b| != 0 ==> |r| == |b| - 1 && r == b[..row] + b[row + 1..]
  {
    if |b| == 0 then b
    else
      var r := seq(|b| - 1, y requires 0 <= y < |b| - 1 => if y < row then b[y] else b[y + 1]);
      assert r == b[..row] + b[row + 1..];
      r
  }

  /**
   * RemoveCharacterAt: the byte at col leaves the target row. A buffer
   * without rows, a negative col, a row out of range and an empty target
   * row all leave the buffer as it was.
   */
  function CharRemoved(b: Buffer, row: int, col: int): (r: Buffer)
    requires CanRemoveCharacterAt(b, row, col)
    ensures |r| == |b|
    ensures 0 <= row < |b| && 0 <= col < |b[row]| ==>
      r == b[row := b[row][..col] + b[row][col + 1..]] && |r[row]| == |b[row]| - 1
    ensures !(0 <= row < |b| && 0 <= col < |b[row]|) ==> r == b
  {
    if |b| == 0 then b
    else if col < 0 then b
    else
      var r := seq(|b|, y requires 0 <= y < |b| =>
        if y == row then
          (if |b[y]| > 0 then
             (if col == |b[y]| - 1 then b[y][..col] else b[y][..col] + b[y][col + 1..])
           else [])
        else b[y]);
      assert 0 <= row < |b| && col == |b[row]| - 1 ==> b[row][..col] + b[row][col + 1..] == b[row][..col];
      assert 0 <= row < |b| && |b[row]| == 0 ==> r[row] == b[row];
      r
  }

  /** TrimRowAt: the target row keeps its first col bytes; an empty row stays empty. */
  function RowTrimmed(b: Buffer, row: int, col: int): (r: Buffer)
    requires CanTrimRowAt(b, row, col)
    ensures |r| == |b|
    ensures 0 <= row < |b| && |b[row]| != 0 ==>
      r == b[row := b[row][..col]] && r[row] <= b[row] && |r[row]| == col
    ensures !(0 <= row < |b| && |b[row]| != 0) ==> r == b
  {
    if |b| == 0 then b
    else
      seq(|b|, y requires 0 <= y < |b| =>
        if y == row then (if |b[y]| > 0 then b[y][..col] else [])
        else b[y])
  }

  /**
   * MoveAfterToNewRow: the target row is split at col, its tail becoming a
   * new row right after it; past the end an empty row is appended.
   */
  function RowSplit(b: Buffer, row: int, col: int): (r: Buffer)
    requires CanMoveAfterToNewRow(b, row, col)
    ensures |r| == |b| + 1
    ensures |b| <= row ==> r == b + [[]]
    ensures row < |b| ==>
      r[..row] == b[..row] && r[row + 2..] == b[row + 1..] &&
      r[row] == b[row][..col] && r[row] + r[row + 1] == b[row]
  {
    if row >= |b| then b + [[]]
    else
      var r := seq(|b| + 1, y requires 0 <= y <= |b| => SplitRowAt(b, row, col, y));
      assert r[..row] == b[..row];
      assert r[row + 2..] == b[row + 1..];
      assert b[row][..col] + b[row][col..] == b[row];
      r
  }

  /** Row y of the split of row `row` at col. */
  function SplitRowAt(b: Buffer, row: int, col: int, y: int): Row
    requires 0 <= row < |b| && 0 <= col <= |b[row]| && 0 <= y <= |b|
  {
    if y == row then b[y][..col]
    else if y == row + 1 then b[y - 1][col..]
    else if y > row then b[y - 1]
    else b[y]
  }

  /**
   * MoveRowToEndOfPrevious, which buffer.go does not define and its test
   * describes: row is appended onto the row before it, then removed.
   */
  function RowJoined(b: Buffer, row: int): (r: Buffer)
    requires 0 < row < |b|
    ensures |r| == |b| - 1
    ensures r == b[..row - 1] + [b[row - 1] + b[row]] + b[row + 1..]
  {
    var appended := b[row - 1 := b[row - 1] + b[row]];
    assert appended[..row] == b[..row - 1] + [b[row - 1] + b[row]];
    RowRemoved(appended, row)
  }

  // ---------------------------------------------------------------------
  // Relations between the operations
  // ---------------------------------------------------------------------

  /** Removing the byte just inserted restores the buffer. */
  lemma InsertThenRemoveCharacter(b: Buffer, row: int, col: int, c: Byte)
    requires 0 <= row < |b| && 0 <= col <= |b[row]|
    ensures CanRemoveCharacterAt(CharInserted(b, row, col, c), row, col)
    ensures CharRemoved(CharInserted(b, row, col, c), row, col) == b
  {
    var s := b[row];
    var t := s[..col] + [c] + s[col..];
    assert t[..col] + t[col + 1..] == s by {
      assert t[..col] == s[..col];
      assert t[col + 1..] == s[col..];
    }
  }

  /** Removing the row just inserted restores the buffer. */
  lemma InsertThenRemoveRow(b: Buffer, row: int)
    requires 0 <= row <= |b|
    ensures CanRemoveRowAt(RowInserted(b, row), row)
    ensures RowRemoved(RowInserted(b, row), row) == b
  {
    var r := RowInserted(b, row);
    if row < |b| {
      assert r[..row] == b[..row];
      assert r[row + 1..] == b[row..];
    } else {
      assert r[..row] == b;
    }
  }

  /** A split followed by joining the new row back onto its predecessor restores the buffer. */
  lemma SplitThenJoin(b: Buffer, row: int, col: int)
    requires 0 <= row < |b| && 0 <= col <= |b[row]|
    ensures 0 < row + 1 < |RowSplit(b, row, col)|
    ensures RowJoined(RowSplit(b, row, col), row + 1) == b
  {
    var r := RowSplit(b, row, col);
    assert r[..row] == b[..row];
    calc {
      r[..row] + [r[row] + r[row + 1]] + r[row + 2..];
      b[..row] + [b[row]] + b[row + 1..];
      { assert b == b[..row] + [b[row]] + b[row + 1..]; }
      b;
    }
  }

  /** Trimming a row at its full length changes nothing. */
  lemma TrimAtFullLength(b: Buffer, row: int)
    requires 0 <= row < |b|
    ensures RowTrimmed(b, row, |b[row]|) == b
  {
    assert b[row][..|b[row]|] == b[row];
  }

  /** Appending an empty row is the same however far past the end row is. */
  lemma InsertRowPastEnd(b: Buffer, row: int)
    requires row >= |b|
    ensures RowInserted(b, row) == RowInserted(b, |b|) == b + [[]]
  {
  }

  /** A join of row with an empty row is the removal of that row. */
  lemma JoinEmptyRowIsRemoval(b: Buffer, row: int)
    requires 0 < row < |b| && b[row] == []
    ensures RowJoined(b, row) == RowRemoved(b, row)
  {
    assert b[row - 1] + b[row] == b[row - 1];
    assert b[..row] == b[..row - 1] + [b[row - 1]];
  }

  // ---------------------------------------------------------------------
  // Which bytes a buffer holds
  // ---------------------------------------------------------------------

  /** No row of b holds the byte x. */
  predicate Absent(b: Buffer, x: Byte) {
    forall y :: 0 <= y < |b| ==> x !in b[y]
  }

  // No edit but the insertion of x itself brings a byte x into the buffer.

  lemma RowInsertedKeepsAbsent(b: Buffer, row: int, x: Byte)
    requires Absent(b, x)
    ensures Absent(RowInserted(b, row), x)
  {
  }

  lemma CharInsertedKeepsAbsent(b: Buffer, row: int, col: int, c: Byte, x: Byte)
    requires Absent(b, x) && c != x && CanInsertCharacterAt(b, row, col)
    ensures Absent(CharInserted(b, row, col, c), x)
  {
  }

  lemma RowRemovedKeepsAbsent(b: Buffer, row: int, x: Byte)
    requires Absent(b, x) && CanRemoveRowAt(b, row)
    ensures Absent(RowRemoved(b, row), x)
  {
  }

  lemma CharRemovedKeepsAbsent(b: Buffer, row: int, col: int, x: Byte)
    requires Absent(b, x) && CanRemoveCharacterAt(b, row, col)
    ensures Absent(CharRemoved(b, row, col), x)
  {
  }

  lemma RowTrimmedKeepsAbsent(b: Buffer, row: int, col: int, x: Byte)
    requires Absent(b, x) && CanTrimRowAt(b, row, col)
    ensures Absent(RowTrimmed(b, row, col), x)
  {
  }

  lemma RowSplitKeepsAbsent(b: Buffer, row: int, col: int, x: Byte)
    requires Absent(b, x) && CanMoveAfterToNewRow(b, row, col)
    ensures Absent(RowSplit(b, row, col), x)
  {
  }

  lemma RowJoinedKeepsAbsent(b: Buffer, row: int, x: Byte)
    requires Absent(b, x) && 0 < row < |b|
    ensures Absent(RowJoined(b, row), x)
  {
  }

  // ---------------------------------------------------------------------
  // The Go loops
  // ---------------------------------------------------------------------

  /** buffer.go InsertRowAt, with its afterInsert flag and the `y--` that revisits index row. */
  method InsertRowAt(b: Buffer, row: int) returns (r: Buffer)
    ensures r == RowInserted(b, row)
  {
    if row >= |b| {
      return b + [[]];
    }
    var output := new Row[|b| + 1](_ => []);
    var afterInsert := false;
    var y := 0;
    while y < |b|
      invariant 0 <= y <= |b|
      invariant afterInsert ==> 0 <= row <= y
      invariant !afterInsert ==> row < 0 || y <= row
      invariant !afterInsert ==> forall k :: 0 <= k < y ==> output[k] == b[k]
      invariant afterInsert ==> forall k :: 0 <= k < row ==> output[k] == b[k]
      invariant afterInsert ==> output[row] == []
      invariant afterInsert ==> forall k :: row < k <= y ==> output[k] == b[k - 1]
      invariant forall k :: y + (if afterInsert then 1 else 0) <= k <= |b| ==> output[k] == []
      decreases |b| - y, if afterInsert then 0 else 1
    {
      if y == row && !afterInsert {
        output[y] := [];
        afterInsert := true;
        y := y - 1;
      } else if afterInsert {
        output[y + 1] := b[y];
      } else {
        output[y] := b[y];
      }
      y := y + 1;
    }
    r := output[..];
    if afterInsert {
      assert r == b[..row] + [[]] + b[row..];
    } else {
      assert r == b + [[]];
    }
  }

  /** buffer.go InsertCharacterAt. */
  method InsertCharacterAt(b: Buffer, row: int, col: int, c: Byte) returns (r: Buffer)
    requires CanInsertCharacterAt(b, row, col)
    ensures r == CharInserted(b, row, col, c)
  {
    if |b| == 0 {
      return [[c]];
    }
    var output := new Row[|b|](_ => []);
    for y := 0 to |b|
      invariant forall k :: 0 <= k < y ==> output[k] == CharInserted(b, row, col, c)[k]
    {
      if y == row {
        if col >= |b[y]| {
          output[y] := b[y] + [c];
        } else {
          output[y] := b[y][..col] + [c] + b[y][col..];
        }
      } else {
        output[y] := b[y];
      }
    }
    r := output[..];
  }

  /** buffer.go RemoveRowAt, with its afterSnip flag. */
  method RemoveRowAt(b: Buffer, row: int) returns (r: Buffer)
    requires CanRemoveRowAt(b, row)
    ensures r == RowRemoved(b, row)
  {
    if |b| == 0 {
      return b;
    }
    var output := new Row[|b| - 1](_ => []);
    var afterSnip := false;
    for y := 0 to |b|
      invariant afterSnip <==> row < y
      invariant forall k :: 0 <= k < |b| - 1 && k < (if afterSnip then y - 1 else y) ==>
        output[k] == RowRemoved(b, row)[k]
    {
      if y == row {
        afterSnip := true;
      } else if afterSnip {
        output[y - 1] := b[y];
      } else {
        output[y] := b[y];
      }
    }
    r := output[..];
  }

  /** buffer.go RemoveCharacterAt; an empty target row keeps its zero-valued (empty) slot. */
  method RemoveCharacterAt(b: Buffer, row: int, col: int) returns (r: Buffer)
    requires CanRemoveCharacterAt(b, row, col)
    ensures r == CharRemoved(b, row, col)
  {
    if |b| == 0 {
      return b;
    }
    if col < 0 {
      return b;
    }
    var output := new Row[|b|](_ => []);
    for y := 0 to |b|
      invariant forall k :: 0 <= k < |b| ==>
        output[k] == if k < y then CharRemoved(b, row, col)[k] else []
    {
      if y == row {
        if |b[y]| > 0 {
          if col == |b[y]| - 1 {
            output[y] := b[y][..col];
          } else {
            output[y] := b[y][..col] + b[y][col + 1..];
          }
        }
      } else {
        output[y] := b[y];
      }
    }
    r := output[..];
  }

  /** buffer.go TrimRowAt. */
  method TrimRowAt(b: Buffer, row: int, col: int) returns (r: Buffer)
    requires CanTrimRowAt(b, row, col)
    ensures r == RowTrimmed(b, row, col)
  {
    if |b| == 0 {
      return b;
    }
    var output := new Row[|b|](_ => []);
    for y := 0 to |b|
      invariant forall k :: 0 <= k < |b| ==>
        output[k] == if k < y then RowTrimmed(b, row, col)[k] else []
    {
      if y == row {
        if |b[y]| > 0 {
          output[y] := b[y][..col];
        }
      } else {
        output[y] := b[y];
      }
    }
    r := output[..];
  }

  /** buffer.go MoveAfterToNewRow (called MoveAfterToNextRow by editor_state.go and the tests). */
  method MoveAfterToNewRow(b: Buffer, row: int, col: int) returns (r: Buffer)
    requires CanMoveAfterToNewRow(b, row, col)
    ensures r == RowSplit(b, row, col)
  {
    if row >= |b| {
      return b + [[]];
    }
    var output := new Row[|b| + 1](_ => []);
    for y := 0 to |b| + 1
      invariant forall k :: 0 <= k < y ==> output[k] == SplitRowAt(b, row, col, k)
    {
      if y == row {
        output[y] := b[y][..col];
      } else if y == row + 1 {
        output[y] := b[y - 1][col..];
      } else if y > row {
        output[y] := b[y - 1];
      } else {
        output[y] := b[y];
      }
    }
    r := output[..];
    assert r == RowSplit(b, row, col);
  }
}
