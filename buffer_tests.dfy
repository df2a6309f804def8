/**
 * The cases of buffer_test.go as lemmas about the buffer operations. Bytes
 * are written as numbers: 'a' = 97, 'b' = 98, 'c' = 99, 'd' = 100,
 * 'e' = 101, 'x' = 120, 'y' = 121, 'z' = 122.
 */
module BufferTests {
  import opened Bytes
  import opened Buffers

  const Abc: Row := [97, 98, 99]
  const Abcd: Row := [97, 98, 99, 100]
  const Abcde: Row := [97, 98, 99, 100, 101]
  const Zxy: Row := [122, 120, 121]

  /** TestBufferInsertRowAt: an empty buffer gets one row. */
  lemma InsertRowAtOnEmpty()
    ensures RowInserted([], 0) == [[]]
  {
  }

  /** TestBufferInsertRowAtMid. */
  lemma InsertRowAtMid()
    ensures RowInserted([[97], [98]], 1) == [[97], [], [98]]
  {
  }

  /** TestBufferInsertRowAtEnd: two appends past the end. */
  lemma InsertRowAtEnd()
    ensures RowInserted([[97], [98]], 2) == [[97], [98], []]
    ensures RowInserted(RowInserted([[97], [98]], 2), 3) == [[97], [98], [], []]
  {
  }

  /** TestBufferMoveAfterToNextRow: "abcd" split at column 2. */
  lemma MoveAfterToNextRowSplits()
    ensures RowSplit([Abcd, Zxy], 0, 2) == [[97, 98], [99, 100], Zxy]
  {
    var r := RowSplit([Abcd, Zxy], 0, 2);
    assert r[0] == Abcd[..2] == [97, 98];
    assert r[1] == Abcd[2..] == [99, 100];
    assert r[2..] == [Zxy];
  }

  /** TestBufferMoveRowToEndOfPrevious: "zxy" joins "abcd". */
  lemma MoveRowToEndOfPreviousJoins()
    ensures RowJoined([Abcd, Zxy], 1) == [[97, 98, 99, 100, 122, 120, 121]]
  {
    assert Abcd + Zxy == [97, 98, 99, 100, 122, 120, 121];
  }

  /** TestInsertAtEmptyLine: the bootstrap case. */
  lemma InsertAtEmptyBuffer()
    ensures CharInserted([], 0, 0, 97) == [[97]]
  {
  }

  /** TestInsertAtEndOfLine. */
  lemma InsertAtEndOfLine()
    ensures CharInserted([[97]], 0, 1, 98) == [[97, 98]]
  {
    var row: Row := [97];
    assert row[..1] + [98] + row[1..] == [97, 98];
  }

  /** TestInsertMidLine: 'd' into "abc" at column 1. */
  lemma InsertMidLine()
    ensures CharInserted([Abc], 0, 1, 100) == [[97, 100, 98, 99]]
  {
    assert Abc[..1] + [100] + Abc[1..] == [97, 100, 98, 99];
  }

  /** TestBufferRemoveCharacterAtStart: only row 1 changes. */
  lemma RemoveCharacterAtStart()
    ensures CharRemoved([Abc, Abc, Abc], 1, 0) == [Abc, [98, 99], Abc]
  {
    assert Abc[..0] + Abc[1..] == [98, 99];
  }

  /** TestBufferRemoveCharacterAtMid. */
  lemma RemoveCharacterAtMid()
    ensures CharRemoved([Abc], 0, 1) == [[97, 99]]
  {
    assert Abc[..1] + Abc[2..] == [97, 99];
  }

  /** TestBufferRemoveCharacterAtEnd. */
  lemma RemoveCharacterAtEnd()
    ensures CharRemoved([Abc], 0, 2) == [[97, 98]]
  {
    assert Abc[..2] + Abc[3..] == [97, 98];
  }

  /** TestBufferTrimLineAt: only row 1 is shortened, to "ab". */
  lemma TrimLineAt()
    ensures RowTrimmed([Abcde, Abcde, Abcde], 1, 2) == [Abcde, [97, 98], Abcde]
  {
    assert Abcde[..2] == [97, 98];
  }
}
