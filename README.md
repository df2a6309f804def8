# A verified model of the editing core of wcharczuk/editor

`editor` is a tiny terminal text editor written in Go. Its editing core works like this:

- A **buffer** is a slice of byte rows. Six operations edit it and `RowLength` reads it. Outside their early returns, the edits build a fresh row array in a loop.
- A **cursor** is a `(row, col)` value with step helpers.
- An **editor state** is `{buffer, scroll, cursor}`. Value methods give the editing and movement transitions.
- **processSingleInput** maps a control byte to a transition.
- The **read loop** of `main` recognizes the three-byte arrow-key sequences.
- The **ANSI table** holds the control bytes and builds the escape strings the renderer writes.

This project models each of these in Dafny and proves its properties.

| file | models |
|---|---|
| `bytes.dfy` | `Byte`: a 0..255 subset type for Go's `byte` |
| `buffer.dfy` | `buffer.go`. For each of the six edits there is a pure specification function and a method named after the Go method. The method fills `new Row[n]` index by index, with the Go loop's flag variables. It is proved equal to the specification function. `RowLength` is a single function. `MoveRowToEndOfPrevious` has no Go definition and is modelled by the function `RowJoined` alone. |
| `buffer_tests.dfy` | `buffer_test.go`, restated as concrete example lemmas |
| `cursor.dfy` | `cursor.go`, as a datatype with member functions |
| `editor_state.dfy` | `editor_state.go`, as a datatype whose member functions are the transitions |
| `input.dfy` | `processSingleInput`, its command table, and the read loop of `main` |
| `ansi.dfy` | `ansi.go`: the control bytes, `Escape`, `ClearScreen`, `MoveCursor` and `Spaces` |

How Go constructs are modelled:

- **Panics.** Where Go would index out of range, the operation has a `requires` clause stating when it does not panic (the `Can…` predicates). These match Go's panic conditions exactly, except for trimming, where the requires is stricter (see "## Left out"). The error paths the Go code handles, such as appends, no-ops and clamps, are modelled as they are.
- **Omitted scroll.** Every Go struct literal that leaves out `scroll` gives 0. The model does the same.
- **Nil rows.** Rows that Go's `make` leaves `nil` are empty sequences.
- **The read loop.** It is a fold, `Run`, over a finite byte sequence, plus a method, `RunLoop`, that steps through the same bytes as the Go `for` loop does. A run ends in one of three ways:
  - `Exited`: the quit byte was read.
  - `AwaitingInput`: all bytes were consumed, so the Go program would block in the next read.
  - `Panicked`: the next transition would index out of range.

`Run` is proved never to panic from a well-formed state. From the other allowed start, zero rows with the cursor at `(0, 0)`, it panics only while the buffer is still empty.

Two behaviours differ from what an editor user might expect; the model follows the code:

- `TrimLine` only truncates the cursor row. It never removes a row.
- `Backspace` at column 0 joins the row onto the previous one with `MoveRowToEndOfPrevious`.

Two names used by `editor_state.go` differ from what `buffer.go` defines:

- `MoveRowToEndOfPrevious` is not defined in `buffer.go`. It is modelled as `Buffers.RowJoined`, as its test in `buffer_test.go` describes it.
- `Newline` calls `MoveAfterToNextRow`. `buffer.go` defines that split under the name `MoveAfterToNewRow`, and the model uses the one definition for both names.

## Model

| member | source | states |
|---|---|---|
| `Buffers.RowLength` | buffer.go:5-10 | 0 for a buffer with no rows, otherwise the length of row `row`; panics (requires) only when a non-empty buffer is indexed out of range |
| `Buffers.RowInserted` | buffer.go:12-33 | one more row; for `0 <= row < len` the result is `b[..row] + [[]] + b[row..]`; for a negative or too large `row` an empty row is appended |
| `Buffers.InsertRowAt` | buffer.go:12-33 | the loop with the `afterInsert` flag and the `y--` re-visit builds exactly `RowInserted(b, row)` |
| `Buffers.CharInserted` | buffer.go:35-54 | a zero-row buffer becomes `[[c]]`; otherwise the row count is kept, the target row gets `c` at `min(col, len)` (appended when `col` is past the end), other rows are kept, and an out-of-range row changes nothing |
| `Buffers.InsertCharacterAt` | buffer.go:35-54 | the copying loop builds exactly `CharInserted(b, row, col, c)`; requires `col >= 0` only when the target row is reached |
| `Buffers.RowRemoved` | buffer.go:56-75 | a zero-row buffer is returned unchanged; otherwise one row fewer, equal to `b[..row] + b[row+1..]` |
| `Buffers.RemoveRowAt` | buffer.go:56-75 | the loop with the `afterSnip` flag builds exactly `RowRemoved(b, row)`; requires `0 <= row < len` on a non-empty buffer |
| `Buffers.CharRemoved` | buffer.go:77-101 | row count kept; with `row` and `col` in range the byte at `col` is deleted from that row only; in every other case (zero rows, empty row, negative `col`) the buffer is unchanged |
| `Buffers.RemoveCharacterAt` | buffer.go:77-101 | the copying loop builds exactly `CharRemoved(b, row, col)`; requires `col < len(row)` on a non-empty target row |
| `Buffers.RowTrimmed` | buffer.go:103-119 | row count kept; the target row becomes its first `col` bytes, an empty row stays empty, other rows are kept |
| `Buffers.TrimRowAt` | buffer.go:103-119 | the copying loop builds exactly `RowTrimmed(b, row, col)`; requires `0 <= col <= len(row)` on a non-empty target row |
| `Buffers.RowSplit` | buffer.go:121-143 | one more row; past the end an empty row is appended; otherwise earlier rows are kept, `new[row] == old[row][..col]`, `new[row] + new[row+1] == old[row]`, later rows shift down by one |
| `Buffers.MoveAfterToNewRow` | buffer.go:121-143 | the loop builds exactly `RowSplit(b, row, col)`; requires `row >= 0` and `0 <= col <= len(row)` for an existing row |
| `Buffers.RowJoined` | buffer_test.go:75-89 | `MoveRowToEndOfPrevious(row)`: one row fewer, row `row` appended onto row `row-1`, all other rows kept |
| `Buffers.InsertThenRemoveCharacter` | buffer.go:35-101 | inserting a byte at `(row, col)` with `0 <= col <= len(row)` and removing the byte at `(row, col)` restores the buffer |
| `Buffers.InsertThenRemoveRow` | buffer.go:12-75 | inserting an empty row at `0 <= row <= len` and removing row `row` restores the buffer |
| `Buffers.SplitThenJoin` | buffer.go:121-143 | splitting a row at any inside column and joining the new row back onto it restores the buffer |
| `Buffers.TrimAtFullLength` | buffer.go:103-119 | trimming a row at its own length is the identity |
| `Buffers.InsertRowPastEnd` | buffer.go:12-33 | every `row >= len` inserts the same thing: one empty row at the end |
| `Buffers.JoinEmptyRowIsRemoval` | buffer_test.go:75-89 | joining an empty row onto the previous one is the same as removing it |
| `Buffers.RowInsertedKeepsAbsent` | buffer.go:12-33 | a byte absent from the buffer stays absent after a row insertion |
| `Buffers.CharInsertedKeepsAbsent` | buffer.go:35-54 | a byte absent from the buffer stays absent after inserting a different byte |
| `Buffers.RowRemovedKeepsAbsent` | buffer.go:56-75 | a byte absent from the buffer stays absent after a row removal |
| `Buffers.CharRemovedKeepsAbsent` | buffer.go:77-101 | a byte absent from the buffer stays absent after a character removal |
| `Buffers.RowTrimmedKeepsAbsent` | buffer.go:103-119 | a byte absent from the buffer stays absent after trimming |
| `Buffers.RowSplitKeepsAbsent` | buffer.go:121-143 | a byte absent from the buffer stays absent after a split |
| `Buffers.RowJoinedKeepsAbsent` | buffer_test.go:75-89 | a byte absent from the buffer stays absent after a join |
| `BufferTests.InsertRowAtOnEmpty` | buffer_test.go:10-16 | `InsertRowAt(0)` on an empty buffer gives one (empty) row |
| `BufferTests.InsertRowAtMid` | buffer_test.go:18-31 | `InsertRowAt(1)` on `["a","b"]` gives `["a","","b"]` |
| `BufferTests.InsertRowAtEnd` | buffer_test.go:33-54 | `InsertRowAt(2)` then `InsertRowAt(3)` on `["a","b"]` give `["a","b","",""]` |
| `BufferTests.MoveAfterToNextRowSplits` | buffer_test.go:56-73 | splitting `["abcd","zxy"]` at `(0, 2)` gives `["ab","cd","zxy"]` |
| `BufferTests.MoveRowToEndOfPreviousJoins` | buffer_test.go:75-89 | joining row 1 of `["abcd","zxy"]` gives `["abcdzxy"]` |
| `BufferTests.InsertAtEmptyBuffer` | buffer_test.go:91-98 | inserting `a` into an empty buffer gives `["a"]` |
| `BufferTests.InsertAtEndOfLine` | buffer_test.go:100-110 | inserting `b` into `"a"` at column 1 gives `"ab"` |
| `BufferTests.InsertMidLine` | buffer_test.go:112-124 | inserting `d` into `"abc"` at column 1 gives `"adbc"` |
| `BufferTests.RemoveCharacterAtStart` | buffer_test.go:126-141 | removing column 0 of `"abc"` gives `"bc"`; the other row is unchanged |
| `BufferTests.RemoveCharacterAtMid` | buffer_test.go:143-153 | removing column 1 of `"abc"` gives `"ac"` |
| `BufferTests.RemoveCharacterAtEnd` | buffer_test.go:155-165 | removing column 2 of `"abc"` gives `"ab"` |
| `BufferTests.TrimLineAt` | buffer_test.go:167-181 | trimming row 1 of three `"abcde"` rows at 2 shortens only that row, to `"ab"` |
| `Cursors.Cursor.Left` | cursor.go:7-15 | decrements `col` only when `col > 0`, otherwise the cursor is unchanged; `row` untouched; never makes a non-negative `col` negative |
| `Cursors.Cursor.LeftTab` | cursor.go:17-26 | subtracts 4 from `col`, clamped at 0; `row` untouched |
| `Cursors.Cursor.Up` | cursor.go:42-50 | decrements `row` only when `row > 0`; `col` untouched |
| `Cursors.Cursor.Right` | cursor.go:28-33 | adds 1 to `col` with no upper bound; `row` kept |
| `Cursors.Cursor.RightTab` | cursor.go:35-40 | adds 4 to `col` with no upper bound; `row` kept |
| `Cursors.Cursor.Down` | cursor.go:52-57 | adds 1 to `row` with no upper bound; `col` kept |
| `Cursors.Cursor.BeginningOfLine` | cursor.go:59-64 | sets `col` to 0; `row` kept |
| `Cursors.Cursor.DownBeginningOfLine` | cursor.go:66-71 | moves to `(row + 1, 0)` |
| `Cursors.RightThenLeft` | cursor.go:7-33 | `Right` then `Left` is the identity for a non-negative column |
| `Cursors.RightThenLeftBelowZero` | cursor.go:7-33 | for a negative column `Left` does not undo `Right` |
| `Cursors.RightTabThenLeftTab` | cursor.go:17-40 | `RightTab` then `LeftTab` is the identity for a non-negative column |
| `Cursors.DownThenUp` | cursor.go:42-57 | `Down` then `Up` is the identity for a non-negative row |
| `Cursors.ClampedAtOrigin` | cursor.go:7-50 | at `(0, 0)`, `Up`, `Left` and `LeftTab` all stay put |
| `Editor.EditorState.Write` | editor_state.go:9-14 | inserts the byte at the cursor and advances `col` by 1 with `scroll` 0; zero rows become `[[b]]`; from a well-formed state or the zero-row start the result is well formed |
| `Editor.EditorState.MoveLeft` | editor_state.go:16-21 | buffer unchanged, `scroll` 0, column decremented and clamped at 0; keeps well-formedness and the zero-row start |
| `Editor.EditorState.MoveRight` | editor_state.go:23-31 | buffer unchanged; the state is returned as is at the end of the row, otherwise `col + 1` with `scroll` 0; keeps well-formedness |
| `Editor.EditorState.MoveUp` | editor_state.go:33-52 | buffer unchanged; no-op on the first row, otherwise row - 1 with `col := min(col, len(target))`; keeps well-formedness |
| `Editor.EditorState.MoveDown` | editor_state.go:54-74 | buffer unchanged; no-op on the last row, otherwise row + 1 with `col := min(col, len(target))`; keeps well-formedness |
| `Editor.EditorState.MoveToBeginningOfLine` | editor_state.go:76-81 | buffer unchanged, `scroll` 0, column 0 |
| `Editor.EditorState.MoveToEndOfLine` | editor_state.go:83-91 | buffer unchanged, `scroll` 0, column at the row's length |
| `Editor.EditorState.Newline` | editor_state.go:93-117 | exactly one row more, `new[row] ++ new[row+1] == old[row]`, `new[row] == old[row][..col]`, other rows kept, cursor `(row+1, 0)` in all three branches; always well formed |
| `Editor.EditorState.Backspace` | editor_state.go:119-155 | unchanged at `(0, 0)`; at column 0 of a later row the row is joined onto the previous one and the cursor goes to the old end of that row; otherwise the byte before the cursor is removed and `col` decremented |
| `Editor.EditorState.TrimLine` | editor_state.go:157-162 | truncates the cursor row to its first `col` bytes, keeps the cursor and the row count |
| `Editor.WellFormedEnablesAll` | editor_state.go:9-162 | on a well-formed state no transition panics |
| `Editor.WriteThenBackspace` | editor_state.go:9-155 | `Write(b)` then `Backspace` restores buffer and cursor of a well-formed state |
| `Editor.NewlineThenBackspace` | editor_state.go:93-155 | `Newline` then `Backspace` restores buffer and cursor of a well-formed state |
| `Editor.BackspaceJoinKeepsText` | editor_state.go:119-148 | backspace at the start of a row changes the line structure but not the text: the concatenation of all rows is the same |
| `Editor.FlattenAppend` | editor_state.go:119-148 | the text of two buffers placed one after the other is the concatenation of their texts |
| `Input.ProcessSingleInput` | main.go:16-41 | a non-nil error exactly for etx (0x03), and then the state is unchanged; keeps well-formedness and the zero-row start |
| `Input.DispatchFollowsTable` | main.go:16-41 | for every byte and state, processSingleInput panics exactly when the command of the byte table is disabled, and otherwise performs that command |
| `Input.TableLookup` | main.go:17-40 | the command table gives, byte by byte, the same choice as the chain of cases in processSingleInput; every byte outside it is text |
| `Input.AliasedBytes` | main.go:34-37 | bs and del both map to backspace; cr and lf both map to newline |
| `Input.TabAndEotAreText` | main.go:38-39 | tab and eot are written into the buffer like any other text byte |
| `Input.DispatchKeepsAbsent` | main.go:16-41 | a dispatched byte `c` puts no byte other than `c` into the buffer |
| `Input.Run` | main.go:192-218 | from a well-formed state the loop never panics and ends well formed; from the zero-row start it stays startable and can panic only while the buffer is empty; without etx in the input it never exits |
| `Input.RunLoop` | main.go:192-218 | the byte-by-byte loop returns exactly `Run(input, start)` |
| `Input.ExitStopsReading` | main.go:213-216 | etx ends the loop at once with the state unchanged, whatever follows |
| `Input.ArrowRightMoves` | main.go:197-204 | ESC `[` `C` consumes three bytes and moves right |
| `Input.ArrowLeftMoves` | main.go:197-207 | ESC `[` `D` consumes three bytes and moves left |
| `Input.OtherArrowIgnored` | main.go:197-210 | ESC `[` and any other byte consume three bytes and change nothing |
| `Input.EscapeWithoutBracketIgnored` | main.go:197-211 | ESC and a byte other than `[` consume two bytes and change nothing |
| `Input.PlainByteDispatched` | main.go:212-217 | any other byte is one step of processSingleInput |
| `Input.EscapeNeverInserted` | main.go:197-217 | ESC never reaches processSingleInput, so a buffer without ESC never gets one |
| `Input.NewlineOnZeroRowsPanics` | main.go:36-37 | Enter on a buffer with no rows panics (index out of range in Newline) |
| `Input.FirstByteBootstraps` | main.go:38-39 | the first text byte typed into a zero-row buffer makes it the well-formed `[[c]]` |
| `Ansi.ControlBytesDistinct` | ansi.go:7-21 | the fifteen control bytes are pairwise distinct |
| `Ansi.Escape` | ansi.go:75-77 | the result is ESC `[` followed by the sequence |
| `Ansi.ClearScreen` | ansi.go:79-81 | exactly ESC `[` `2` `J`, the ED control with parameter 2 of section 8.3.39 of ECMA-48 |
| `Ansi.Digits` | ansi.go:85-89 | the decimal digits of a natural number: non-empty, all digits, no leading zero |
| `Ansi.Decimal` | ansi.go:85-89 | `%d` of an integer: non-empty, digits with a leading `-` for a negative number, no leading zero except for 0 itself, never `;` or `H` |
| `Ansi.DigitsRoundTrip` | ansi.go:85-89 | parsing the digits of `n` gives back `n` |
| `Ansi.DecimalRoundTrip` | ansi.go:85-89 | parsing `%d` of any integer gives it back |
| `Ansi.MoveCursor` | ansi.go:83-90 | the CUP control of section 8.3.21 of ECMA-48: starts with ESC `[`, ends with `H`; a zero column is left out (`;` just before `H`), and a zero row is left out (`;` right after ESC `[`) |
| `Ansi.MoveCursorRoundTrip` | ansi.go:83-90 | in all three branches the row and column can be read back from the string, an omitted parameter reading as 0 |
| `Ansi.RoundTripBoth` | ansi.go:84-85 | with both parameters non-zero, `"row;col"` reads back as `(row, col)` |
| `Ansi.RoundTripRowOnly` | ansi.go:86-87 | with a zero column, `"row;"` reads back as `(row, 0)` |
| `Ansi.RoundTripColumnOnly` | ansi.go:89 | with a zero row, `";col"` reads back as `(0, col)` |
| `Ansi.MoveCursorRowOnly` | ansi.go:86-87 | `MoveCursor(5, 0)` leaves the zero column out: ESC `[` `5` `;` `H` |
| `Ansi.MoveCursorColumnOnly` | ansi.go:89 | `MoveCursor(0, 5)` leaves the zero row out: ESC `[` `;` `5` `H` |
| `Ansi.MoveCursorOrigin` | ansi.go:83-90 | `MoveCursor(0, 0)` is ESC `[` `;` `0` `H` |
| `Ansi.SpaceBytes` | ansi.go:92-123 | every byte is a space; a negative count gives nothing; the length is the count for 0..6 and above 10, and one less for 7..10 |
| `Ansi.Spaces` | ansi.go:92-123 | the literal cases and the appending loop give exactly `SpaceBytes(count)` |
| `Ansi.PaddedSpaces` | ansi.go:92-123 | exactly `max(count, 0)` spaces |
| `Ansi.SpacesAgreeOutsideSevenToTen` | ansi.go:92-123 | outside 7..10 `Spaces` gives exactly `max(count, 0)` spaces |
| `Ansi.SpacesSevenIsShort` | ansi.go:108-109 | `Spaces(7)` is six spaces where seven were intended |
| `Ansi.TabWidthSpaces` | ansi.go:102-103 | `Spaces(4)`, the width `render` uses for a tab, is exactly four spaces |

## Left out

- `render` (main.go:43-76) only writes to the terminal. It is not modelled. Its tab arithmetic, which counts every tab on the cursor row, is not modelled either.
- Terminal raw mode is not modelled: `initTerm` and `restoreTerm` (main.go:78-97) and termios_flags_darwin.go. They are system calls.
- File loading is left out: `stateFromFile`, `stateFromReader` and `readLine` (main.go:99-174). These are I/O over Go's `io.ReaderAt`.
- `newEditorState` is not part of this model. Instead, the start state of `Run` is stated as a precondition: a well-formed state, or zero rows with the cursor at `(0, 0)`.
- `main`'s argument handling, `log.Fatal` and `defer` are not modelled.
- Reads from stdin are not modelled: short reads, EOF and blocking. `Run` takes a finite sequence whose bytes are all present. Running out of input ends the run as `AwaitingInput`.
- Go slice aliasing is not modelled. Rows are immutable sequences here. In Go, `append(b[y], c)` (buffer.go:45) and `append(b[y][0:col], …)` (buffer.go:47, 93) can write into the backing array of the caller's row, past its end or in place. The two halves made by `MoveAfterToNewRow` (`b[y][0:col]` at buffer.go:129 and `b[y-1][col:]` at buffer.go:133) share one backing array. So the model does not claim that the caller's buffer is left untouched.
- Editor.EditorState.Write: "other rows are kept" holds only for immutable rows. An example: type `abcd`, then ^B ^B, Enter, ^P, `X`. The append at buffer.go:47 then writes in place into the shared backing array. Go would give `["Xab", "bd"]`, while the model gives `["Xab", "cd"]`. This behaviour was found by reading the source; it was never run.
- Editor.WriteThenBackspace: restoring the buffer holds only for immutable rows. From the state in the example above, Go's `Write` followed by `Backspace` leaves row 1 as `"bd"`, not `"cd"`.
- Buffers.RowTrimmed: a `col` past the row's length is excluded by the requires clause. Go's `b[y][0:col]` (buffer.go:112) accepts any `col` up to the slice's capacity, and the result then depends on the backing array.
- Buffers.TrimRowAt: has the same stricter requires as `RowTrimmed`, for the same reason.
- Editor.EditorState.TrimLine: inherits that requires through `CanTrimLine`. It is met from every well-formed state.
- Machine integers are unbounded here. `Right`, `RightTab`, `Down` and `row + 1` would wrap around at 2^63 in Go; that case is not modelled.
- The Go error value is modelled as an optional string, not as Go's `error` interface.
- `colorReset` is written only by `render` (main.go:46), which is left out. `clearLine`, `hideCursor`, `showCursor` and the other colour constants (ansi.go:25-35) are unused. None of them is modelled. So are the fields `left`, `right`, `up` and `down`, which are never initialised.

## Findings

| source | as written | input that shows it | evidently intended | confidence | as-written member | corrected member |
|---|---|---|---|---|---|---|
| ansi.go:108-115 | the literal cases for 7, 8, 9 and 10 hold 6, 7, 8 and 9 spaces | `Spaces(7)` returns six spaces | `count` spaces for every count, as in cases 0..6 and the loop | high; not executed | `Ansi.SpacesSevenIsShort` | `Ansi.PaddedSpaces` |
