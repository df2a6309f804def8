/**
 * The input side of main.go: processSingleInput, the table from a control
 * byte to a transition, and the read loop of main with its recognizer for
 * the three-byte arrow-key sequences ESC '[' 'C' and ESC '[' 'D'.
 *
 * The terminal and stdin are left out: the loop reads from a finite
 * sequence of bytes and renders nothing. It ends in one of three ways:
 * the quit byte (the Go loop returns), the end of the sequence (the Go loop
 * would block in the next read) or an index out of range (the Go program
 * would panic), which, from the start states Run allows, can happen only
 * on a buffer with no rows.
 */
module Input {
  import opened Bytes
  import opened Ansi
  import opened Buffers
  import opened Cursors
  import opened Editor

  /** The direction bytes main recognizes after ESC '['. */
  const ArrowRight: Byte := 0x43   // 'C'
  const ArrowLeft: Byte := 0x44    // 'D'

  /** What processSingleInput returns: the next state and a Go error, non-nil to ask for exit. */
  datatype Reply = Reply(state: EditorState, err: Option<string>)

  /** processSingleInput would not panic: the transition the byte selects has its precondition. */
  predicate Dispatchable(c: Byte, es: EditorState) {
    if c == Etx then true
    else if c == Vt then es.CanTrimLine()
    else if c == Dle then es.CanMoveUp()
    else if c == So then es.CanMoveDown()
    else if c == Soh then true
    else if c == Stx then true
    else if c == Ack then es.CursorRowExists()
    else if c == Enq then es.CursorRowExists()
    else if c == Bs || c == Del then es.CanBackspace()
    else if c == Cr || c == Lf then es.CanNewline()
    else es.CanWrite()
  }

  /** processSingleInput: the switch from a byte to a transition; etx asks to exit. */
  function ProcessSingleInput(c: Byte, es: EditorState): (r: Reply)
    requires Dispatchable(c, es)
    ensures r.err.Some? <==> c == Etx
    ensures r.err.Some? ==> r.state == es
    ensures es.WellFormed() ==> r.state.WellFormed()
    ensures es.Startable() ==> r.state.Startable()
  {
    if c == Etx then Reply(es, Some("should exit"))
    else if c == Vt then Reply(es.TrimLine(), None)
    else if c == Dle then Reply(es.MoveUp(), None)
    else if c == So then Reply(es.MoveDown(), None)
    else if c == Soh then Reply(es.MoveToBeginningOfLine(), None)
    else if c == Stx then Reply(es.MoveLeft(), None)
    else if c == Ack then Reply(es.MoveRight(), None)
    else if c == Enq then Reply(es.MoveToEndOfLine(), None)
    else if c == Bs || c == Del then Reply(es.Backspace(), None)
    else if c == Cr || c == Lf then Reply(es.Newline(), None)
    else Reply(es.Write(c), None)
  }

  // ---------------------------------------------------------------------
  // The command table, as a constant map from byte to command
  // ---------------------------------------------------------------------

  datatype Command =
    | Quit | KillLine | LineUp | LineDown | Home | CharLeft | CharRight | End
    | Erase | Break | Insert(b: Byte)

  const Commands: map<Byte, Command> := map[
    Etx := Quit, Vt := KillLine, Dle := LineUp, So := LineDown, Soh := Home,
    Stx := CharLeft, Ack := CharRight, Enq := End, Bs := Erase, Del := Erase,
    Cr := Break, Lf := Break]

  /** A byte that is not in the table is text. */
  function CommandFor(c: Byte): Command {
    if c in Commands then Commands[c] else Insert(c)
  }

  predicate Enabled(cmd: Command, es: EditorState) {
    match cmd
    case Quit => true
    case KillLine => es.CanTrimLine()
    case LineUp => es.CanMoveUp()
    case LineDown => es.CanMoveDown()
    case Home => true
    case CharLeft => true
    case CharRight => es.CursorRowExists()
    case End => es.CursorRowExists()
    case Erase => es.CanBackspace()
    case Break => es.CanNewline()
    case Insert(_) => es.CanWrite()
  }

  function Perform(cmd: Command, es: EditorState): Reply
    requires Enabled(cmd, es)
  {
    match cmd
    case Quit => Reply(es, Some("should exit"))
    case KillLine => Reply(es.TrimLine(), None)
    case LineUp => Reply(es.MoveUp(), None)
    case LineDown => Reply(es.MoveDown(), None)
    case Home => Reply(es.MoveToBeginningOfLine(), None)
    case CharLeft => Reply(es.MoveLeft(), None)
    case CharRight => Reply(es.MoveRight(), None)
    case End => Reply(es.MoveToEndOfLine(), None)
    case Erase => Reply(es.Backspace(), None)
    case Break => Reply(es.Newline(), None)
    case Insert(b) => Reply(es.Write(b), None)
  }

  /** processSingleInput is the table: for every byte and state it does what the table's command does. */
  lemma DispatchFollowsTable(c: Byte, es: EditorState)
    ensures Dispatchable(c, es) <==> Enabled(CommandFor(c), es)
    ensures Dispatchable(c, es) ==> ProcessSingleInput(c, es) == Perform(CommandFor(c), es)
  {
    TableLookup(c);
  }

  /** The table, read as the chain of comparisons processSingleInput makes. */
  lemma TableLookup(c: Byte)
    ensures CommandFor(c) ==
      if c == Etx then Quit
      else if c == Vt then KillLine
      else if c == Dle then LineUp
      else if c == So then LineDown
      else if c == Soh then Home
      else if c == Stx then CharLeft
      else if c == Ack then CharRight
      else if c == Enq then End
      else if c == Bs || c == Del then Erase
      else if c == Cr || c == Lf then Break
      else Insert(c)
  {
    if c in Commands {
      assert c in {Etx, Vt, Dle, So, Soh, Stx, Ack, Enq, Bs, Del, Cr, Lf};
    }
  }

  /** bs and del both erase, cr and lf both break the line. */
  lemma AliasedBytes()
    ensures CommandFor(Bs) == CommandFor(Del) == Erase
    ensures CommandFor(Cr) == CommandFor(Lf) == Break
  {
  }

  /** Tab and eot are in the control table but not dispatched: they are written as text. */
  lemma TabAndEotAreText(es: EditorState)
    requires es.CanWrite()
    ensures ProcessSingleInput(Tab, es) == Reply(es.Write(Tab), None)
    ensures ProcessSingleInput(Eot, es) == Reply(es.Write(Eot), None)
  {
  }

  /** No byte other than the one written enters the buffer through a dispatched transition. */
  lemma DispatchKeepsAbsent(c: Byte, es: EditorState, x: Byte)
    requires Dispatchable(c, es) && Absent(es.buffer, x) && c != x
    ensures Absent(ProcessSingleInput(c, es).state.buffer, x)
  {
    var b, row, col := es.buffer, es.cursor.row, es.cursor.col;
    if c == Vt {
      RowTrimmedKeepsAbsent(b, row, col, x);
    } else if c == Bs || c == Del {
      if col == 0 && row != 0 {
        if |b[row]| == 0 {
          RowRemovedKeepsAbsent(b, row, x);
        } else {
          RowJoinedKeepsAbsent(b, row, x);
        }
      } else if col != 0 {
        CharRemovedKeepsAbsent(b, row, col - 1, x);
      }
    } else if c == Cr || c == Lf {
      if |b[row]| == 0 || col == |b[row]| {
        RowInsertedKeepsAbsent(b, row + 1, x);
      } else {
        RowSplitKeepsAbsent(b, row, col, x);
      }
    } else if !(c in Commands) {
      CharInsertedKeepsAbsent(b, row, col, c, x);
    }
  }

  // ---------------------------------------------------------------------
  // The read loop of main
  // ---------------------------------------------------------------------

  /** How reading a finite input ends. */
  datatype Outcome =
    | Exited(state: EditorState)          // processSingleInput asked to exit
    | AwaitingInput(state: EditorState)   // every byte consumed; the next read would block
    | Panicked(state: EditorState)        // the next transition would index out of range

  /**
   * The loop of main over the input bytes. ESC '[' and a third byte consume
   * three bytes (moving right or left on 'C' or 'D', nothing otherwise); ESC
   * and any other byte consume two and do nothing; every other byte goes to
   * processSingleInput.
   */
  function Run(input: seq<Byte>, es: EditorState): (r: Outcome)
    ensures es.WellFormed() ==> !r.Panicked? && r.state.WellFormed()
    ensures es.Startable() ==> r.state.Startable() && (r.Panicked? ==> r.state.buffer == [])
    ensures Etx !in input ==> !r.Exited?
    decreases |input|
  {
    if |input| == 0 then AwaitingInput(es)
    else if input[0] == Esc then
      if |input| == 1 then AwaitingInput(es)
      else if input[1] != LeftBracket then Run(input[2..], es)
      else if |input| == 2 then AwaitingInput(es)
      else if input[2] == ArrowRight then
        if es.CursorRowExists() then Run(input[3..], es.MoveRight()) else Panicked(es)
      else if input[2] == ArrowLeft then Run(input[3..], es.MoveLeft())
      else Run(input[3..], es)
    else if !Dispatchable(input[0], es) then Panicked(es)
    else
      var reply := ProcessSingleInput(input[0], es);
      if reply.err.Some? then Exited(reply.state) else Run(input[1..], reply.state)
  }

  /** main's loop, reassigning state byte by byte as the Go code does. */
  method RunLoop(input: seq<Byte>, start: EditorState) returns (r: Outcome)
    ensures r == Run(input, start)
  {
    var state := start;
    var i := 0;
    while i < |input|
      invariant 0 <= i <= |input|
      invariant Run(input[i..], state) == Run(input, start)
      decreases |input| - i
    {
      ghost var rest := input[i..];
      var c := input[i];
      i := i + 1;
      if c == Esc {
        if i == |input| {
          return AwaitingInput(state);
        }
        c := input[i];
        i := i + 1;
        if c == LeftBracket {
          if i == |input| {
            return AwaitingInput(state);
          }
          c := input[i];
          i := i + 1;
          assert input[i..] == rest[3..];
          if c == ArrowRight {
            if !state.CursorRowExists() {
              return Panicked(state);
            }
            state := state.MoveRight();
          } else if c == ArrowLeft {
            state := state.MoveLeft();
          }
        } else {
          assert input[i..] == rest[2..];
        }
      } else {
        if !Dispatchable(c, state) {
          return Panicked(state);
        }
        var reply := ProcessSingleInput(c, state);
        state := reply.state;
        if reply.err.Some? {
          return Exited(state);
        }
        assert input[i..] == rest[1..];
      }
    }
    return AwaitingInput(state);
  }

  // ---------------------------------------------------------------------
  // Properties of the loop
  // ---------------------------------------------------------------------

  /** etx ends the loop at once, whatever follows it. */
  lemma ExitStopsReading(es: EditorState, rest: seq<Byte>)
    ensures Run([Etx] + rest, es) == Exited(es)
  {
  }

  /** ESC '[' 'C' consumes three bytes and moves right. */
  lemma ArrowRightMoves(es: EditorState, rest: seq<Byte>)
    requires es.CursorRowExists()
    ensures Run([Esc, LeftBracket, ArrowRight] + rest, es) == Run(rest, es.MoveRight())
  {
    assert ([Esc, LeftBracket, ArrowRight] + rest)[3..] == rest;
  }

  /** ESC '[' 'D' consumes three bytes and moves left. */
  lemma ArrowLeftMoves(es: EditorState, rest: seq<Byte>)
    ensures Run([Esc, LeftBracket, ArrowLeft] + rest, es) == Run(rest, es.MoveLeft())
  {
    assert ([Esc, LeftBracket, ArrowLeft] + rest)[3..] == rest;
  }

  /** ESC '[' and any other direction byte consume three bytes and change nothing. */
  lemma OtherArrowIgnored(d: Byte, es: EditorState, rest: seq<Byte>)
    requires d != ArrowRight && d != ArrowLeft
    ensures Run([Esc, LeftBracket, d] + rest, es) == Run(rest, es)
  {
    assert ([Esc, LeftBracket, d] + rest)[3..] == rest;
  }

  /** ESC and a byte other than '[' consume two bytes and change nothing. */
  lemma EscapeWithoutBracketIgnored(x: Byte, es: EditorState, rest: seq<Byte>)
    requires x != LeftBracket
    ensures Run([Esc, x] + rest, es) == Run(rest, es)
  {
    assert ([Esc, x] + rest)[2..] == rest;
  }

  /** Any other byte is one step of processSingleInput. */
  lemma PlainByteDispatched(c: Byte, es: EditorState, rest: seq<Byte>)
    requires c != Esc && c != Etx && Dispatchable(c, es)
    ensures Run([c] + rest, es) == Run(rest, ProcessSingleInput(c, es).state)
  {
    assert ([c] + rest)[1..] == rest;
  }

  /** ESC is never written into the buffer: the loop never hands it to processSingleInput. */
  lemma {:induction false} EscapeNeverInserted(input: seq<Byte>, es: EditorState)
    requires Absent(es.buffer, Esc)
    ensures Absent(Run(input, es).state.buffer, Esc)
    decreases |input|
  {
    if |input| == 0 {
    } else if input[0] == Esc {
      if |input| >= 3 && input[1] == LeftBracket {
        if input[2] == ArrowRight && es.CursorRowExists() {
          EscapeNeverInserted(input[3..], es.MoveRight());
        } else if input[2] == ArrowLeft {
          EscapeNeverInserted(input[3..], es.MoveLeft());
        } else if input[2] != ArrowRight {
          EscapeNeverInserted(input[3..], es);
        }
      } else if |input| >= 2 && input[1] != LeftBracket {
        EscapeNeverInserted(input[2..], es);
      }
    } else if Dispatchable(input[0], es) {
      var reply := ProcessSingleInput(input[0], es);
      DispatchKeepsAbsent(input[0], es, Esc);
      if reply.err.None? {
        EscapeNeverInserted(input[1..], reply.state);
      }
    }
  }

  /** A session on a file with no lines panics on the first Enter. */
  lemma NewlineOnZeroRowsPanics(es: EditorState)
    requires es.buffer == []
    ensures Run([Cr], es) == Panicked(es)
  {
  }

  /** A session started on no rows becomes well formed with its first written byte. */
  lemma FirstByteBootstraps(c: Byte, es: EditorState)
    requires es.buffer == [] && es.cursor == Cursor(0, 0)
    requires !(c in Commands) && c != Esc
    ensures ProcessSingleInput(c, es).state.WellFormed()
    ensures ProcessSingleInput(c, es).state.buffer == [[c]]
  {
  }
}
