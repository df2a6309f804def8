/**
 * ansi.go: the control bytes the input dispatcher matches on and the byte
 * strings written to the terminal. MoveCursor emits the CUP control
 * (ECMA-48 section 8.3.21, "CSI Pn1 ; Pn2 H") and ClearScreen the ED control
 * with parameter 2 (ECMA-48 section 8.3.39, "CSI 2 J"). A decoder for the CUP
 * string is given as the partner of MoveCursor.
 */
module Ansi {
  import opened Bytes

  datatype Option<T> = None | Some(value: T)

  // The single-byte control codes of the ANSI table.
  const Soh: Byte := 1
  const Stx: Byte := 2
  const Etx: Byte := 3
  const Eot: Byte := 4
  const Enq: Byte := 5
  const Ack: Byte := 6
  const Bs: Byte := 8
  const Tab: Byte := 9
  const Lf: Byte := 10
  const Vt: Byte := 11
  const Cr: Byte := 13
  const So: Byte := 14
  const Dle: Byte := 16
  const Esc: Byte := 27
  const Del: Byte := 127

  const ControlBytes: seq<Byte> := [Soh, Stx, Etx, Eot, Enq, Ack, Bs, Tab, Lf, Vt, Cr, So, Dle, Esc, Del]

  // Printable bytes used by the builders.
  const LeftBracket: Byte := 91   // '['
  const Semicolon: Byte := 59     // ';'
  const Minus: Byte := 45         // '-'
  const Zero: Byte := 48          // '0'
  const FinalH: Byte := 72        // 'H', final byte of CUP
  const FinalJ: Byte := 74        // 'J', final byte of ED
  const Space: Byte := 32         // ' '

  /** The control sequence introducer, ESC '['. */
  const EscSequenceStart: seq<Byte> := [Esc, LeftBracket]
  /** ESC [ 2 J: erase the whole display. */
  const Clear: seq<Byte> := [Esc, LeftBracket, 50, FinalJ]

  /** The fifteen control codes are pairwise distinct. */
  lemma ControlBytesDistinct()
    ensures forall i, j :: 0 <= i < j < |ControlBytes| ==> ControlBytes[i] != ControlBytes[j]
  {
  }

  /** Escape: the introducer followed by the given bytes. */
  function Escape(sequence: seq<Byte>): (r: seq<Byte>)
    ensures |r| == |sequence| + 2
    ensures r[..2] == EscSequenceStart && r[2..] == sequence
  {
    EscSequenceStart + sequence
  }

  /** ClearScreen: ED with parameter 2, that is Escape("2J"). */
  function ClearScreen(): (r: seq<Byte>)
    ensures r == Escape([50, FinalJ])
    ensures r == [27, 91, 50, 74]
  {
    Clear
  }

  // ---------------------------------------------------------------------
  // Decimal numbers, as fmt's %d writes a Go int
  // ---------------------------------------------------------------------

  predicate IsDigit(x: Byte) {
    Zero <= x <= Zero + 9
  }

  /** The decimal digits of n, most significant first, with no leading zero. */
  function Digits(n: nat): (r: seq<Byte>)
    ensures |r| >= 1
    ensures forall i :: 0 <= i < |r| ==> IsDigit(r[i])
    ensures r[0] == Zero ==> n == 0
  {
    if n < 10 then [Zero + n] else Digits(n / 10) + [Zero + n % 10]
  }

  /** %d: a minus sign before the digits of a negative number. */
  function Decimal(n: int): (r: seq<Byte>)
    ensures |r| >= 1
    ensures Semicolon !in r && FinalH !in r
    ensures n >= 0 ==> forall i :: 0 <= i < |r| ==> IsDigit(r[i])
    ensures n < 0 ==> r[0] == Minus && forall i :: 1 <= i < |r| ==> IsDigit(r[i])
    ensures n >= 0 && r[0] == Zero ==> n == 0
    ensures n < 0 ==> |r| >= 2 && r[1] != Zero
  {
    if n < 0 then [Minus] + Digits(-n) else Digits(n)
  }

  /** The value of a string of digits; the empty string reads as 0. */
  function ParseDigits(s: seq<Byte>): int {
    if s == [] then 0 else ParseDigits(s[..|s| - 1]) * 10 + (s[|s| - 1] - Zero)
  }

  /** The value of an optionally signed decimal; the empty string reads as 0. */
  function ParseDecimal(s: seq<Byte>): int {
    if |s| > 0 && s[0] == Minus then -ParseDigits(s[1..]) else ParseDigits(s)
  }

  lemma {:induction false} DigitsRoundTrip(n: nat)
    ensures ParseDigits(Digits(n)) == n
  {
    if n >= 10 {
      var d := Digits(n / 10);
      var s := d + [Zero + n % 10];
      assert s[..|s| - 1] == d;
      DigitsRoundTrip(n / 10);
    }
  }

  lemma DecimalRoundTrip(n: int)
    ensures ParseDecimal(Decimal(n)) == n
  {
    if n < 0 {
      assert Decimal(n)[1..] == Digits(-n);
      DigitsRoundTrip(-n);
    } else {
      DigitsRoundTrip(n);
    }
  }

  // ---------------------------------------------------------------------
  // Cursor positioning
  // ---------------------------------------------------------------------

  /**
   * MoveCursor: CUP with row and column in decimal; a zero column is left
   * out ("row;"), and so is a zero row (";col", which gives ";0" at 0, 0).
   */
  function MoveCursor(row: int, col: int): (r: seq<Byte>)
    ensures |r| >= 4
    ensures r[..2] == EscSequenceStart && r[|r| - 1] == FinalH
    ensures row != 0 && col == 0 ==> r[|r| - 2] == Semicolon
    ensures row == 0 ==> r[2] == Semicolon
  {
    if row != 0 && col != 0 then EscSequenceStart + Decimal(row) + [Semicolon] + Decimal(col) + [FinalH]
    else if row != 0 then EscSequenceStart + Decimal(row) + [Semicolon, FinalH]
    else EscSequenceStart + [Semicolon] + Decimal(col) + [FinalH]
  }

  /** The first index of x in s, or |s| when there is none. */
  function IndexOf(s: seq<Byte>, x: Byte): (i: nat)
    ensures i <= |s|
    ensures i < |s| ==> s[i] == x
    ensures forall k :: 0 <= k < i ==> s[k] != x
  {
    if s == [] then 0 else if s[0] == x then 0 else 1 + IndexOf(s[1..], x)
  }

  lemma IndexOfAfterAbsentPrefix(a: seq<Byte>, x: Byte, b: seq<Byte>)
    requires x !in a
    ensures IndexOf(a + [x] + b, x) == |a|
  {
    var s := a + [x] + b;
    assert s[|a|] == x;
  }

  /** The two parameters of a CUP string's middle part, split at the first ';'. */
  function Parameters(middle: seq<Byte>): Option<(int, int)> {
    var i := IndexOf(middle, Semicolon);
    if i == |middle| then None
    else Some((ParseDecimal(middle[..i]), ParseDecimal(middle[i + 1..])))
  }

  /**
   * The two parameters of a CUP string as written, an omitted one read as 0
   * (a terminal would read it as 1); None for anything else.
   */
  function CursorPosition(s: seq<Byte>): Option<(int, int)> {
    if |s| < 3 || s[..2] != EscSequenceStart || s[|s| - 1] != FinalH then None
    else Parameters(s[2..|s| - 1])
  }

  lemma CursorPositionOfFramed(middle: seq<Byte>)
    ensures CursorPosition(EscSequenceStart + middle + [FinalH]) == Parameters(middle)
  {
    var s := EscSequenceStart + middle + [FinalH];
    assert s[..2] == EscSequenceStart;
    assert s[2..|s| - 1] == middle;
  }

  lemma ParametersOfPair(a: seq<Byte>, b: seq<Byte>)
    requires Semicolon !in a
    ensures Parameters(a + [Semicolon] + b) == Some((ParseDecimal(a), ParseDecimal(b)))
  {
    var m := a + [Semicolon] + b;
    IndexOfAfterAbsentPrefix(a, Semicolon, b);
    assert m[..|a|] == a;
    assert m[|a| + 1..] == b;
  }

  /** MoveCursor loses nothing: its row and column can be read back from what it writes. */
  lemma MoveCursorRoundTrip(row: int, col: int)
    ensures CursorPosition(MoveCursor(row, col)) == Some((row, col))
  {
    if row != 0 && col != 0 {
      RoundTripBoth(row, col);
    } else if row != 0 {
      RoundTripRowOnly(row);
    } else {
      RoundTripColumnOnly(col);
    }
  }

  lemma RoundTripBoth(row: int, col: int)
    requires row != 0 && col != 0
    ensures CursorPosition(MoveCursor(row, col)) == Some((row, col))
  {
    var m := Decimal(row) + [Semicolon] + Decimal(col);
    assert MoveCursor(row, col) == EscSequenceStart + m + [FinalH];
    CursorPositionOfFramed(m);
    ParametersOfPair(Decimal(row), Decimal(col));
    DecimalRoundTrip(row);
    DecimalRoundTrip(col);
  }

  lemma RoundTripRowOnly(row: int)
    requires row != 0
    ensures CursorPosition(MoveCursor(row, 0)) == Some((row, 0))
  {
    var m := Decimal(row) + [Semicolon] + [];
    assert MoveCursor(row, 0) == EscSequenceStart + m + [FinalH];
    CursorPositionOfFramed(m);
    ParametersOfPair(Decimal(row), []);
    DecimalRoundTrip(row);
  }

  lemma RoundTripColumnOnly(col: int)
    ensures CursorPosition(MoveCursor(0, col)) == Some((0, col))
  {
    var m := [] + [Semicolon] + Decimal(col);
    assert MoveCursor(0, col) == EscSequenceStart + m + [FinalH];
    CursorPositionOfFramed(m);
    ParametersOfPair([], Decimal(col));
    DecimalRoundTrip(col);
  }

  /** A zero column is left out of the string. */
  lemma MoveCursorRowOnly()
    ensures MoveCursor(5, 0) == [Esc, LeftBracket, Zero + 5, Semicolon, FinalH]
  {
  }

  /** A zero row is left out of the string. */
  lemma MoveCursorColumnOnly()
    ensures MoveCursor(0, 5) == [Esc, LeftBracket, Semicolon, Zero + 5, FinalH]
  {
  }

  /** MoveCursor(0, 0), as render and initTerm send it, is ESC [ ; 0 H. */
  lemma MoveCursorOrigin()
    ensures MoveCursor(0, 0) == [Esc, LeftBracket, Semicolon, Zero, FinalH]
  {
  }

  // ---------------------------------------------------------------------
  // Runs of spaces
  // ---------------------------------------------------------------------

  /**
   * Spaces as ansi.go computes it: a literal for each count from 0 to 10,
   * of which those for 7 to 10 hold one space too few, and count spaces
   * otherwise (none for a negative count).
   */
  function SpaceBytes(count: int): (r: seq<Byte>)
    ensures forall i :: 0 <= i < |r| ==> r[i] == Space
    ensures count < 0 ==> r == []
    ensures 0 <= count <= 6 || count > 10 ==> |r| == count
    ensures 7 <= count <= 10 ==> |r| == count - 1
  {
    if count == 0 then []
    else if count == 1 then [Space]
    else if count == 2 then [Space, Space]
    else if count == 3 then [Space, Space, Space]
    else if count == 4 then [Space, Space, Space, Space]
    else if count == 5 then [Space, Space, Space, Space, Space]
    else if count == 6 then [Space, Space, Space, Space, Space, Space]
    else if count == 7 then [Space, Space, Space, Space, Space, Space]
    else if count == 8 then [Space, Space, Space, Space, Space, Space, Space]
    else if count == 9 then [Space, Space, Space, Space, Space, Space, Space, Space]
    else if count == 10 then [Space, Space, Space, Space, Space, Space, Space, Space, Space]
    else seq(if count < 0 then 0 else count, _ => Space)
  }

  /** ansi.go Spaces: the literal cases, else a loop that appends one space at a time. */
  method Spaces(count: int) returns (r: seq<Byte>)
    ensures r == SpaceBytes(count)
  {
    if 0 <= count <= 10 {
      return SpaceBytes(count);
    }
    var bytes: seq<Byte> := [];
    var x := 0;
    while x < count
      invariant 0 <= x <= (if count < 0 then 0 else count)
      invariant |bytes| == x
      invariant forall i :: 0 <= i < x ==> bytes[i] == Space
    {
      bytes := bytes + [Space];
      x := x + 1;
    }
    r := bytes;
    assert |r| == |SpaceBytes(count)|;
  }

  /** What Spaces evidently means: exactly count spaces, none for a negative count. */
  function PaddedSpaces(count: int): (r: seq<Byte>)
    ensures |r| == if count < 0 then 0 else count
    ensures forall i :: 0 <= i < |r| ==> r[i] == Space
  {
    seq(if count < 0 then 0 else count, _ => Space)
  }

  /** Outside 7..10 Spaces gives what was meant. */
  lemma SpacesAgreeOutsideSevenToTen(count: int)
    requires !(7 <= count <= 10)
    ensures SpaceBytes(count) == PaddedSpaces(count)
  {
    var a, b := SpaceBytes(count), PaddedSpaces(count);
    assert |a| == |b|;
    assert forall i :: 0 <= i < |a| ==> a[i] == b[i];
  }

  /** Spaces(7) is one space short. */
  lemma SpacesSevenIsShort()
    ensures |SpaceBytes(7)| == 6 && |PaddedSpaces(7)| == 7
  {
  }

  /** The one width render uses, a tab's four columns, is right. */
  lemma TabWidthSpaces()
    ensures SpaceBytes(4) == PaddedSpaces(4) == [Space, Space, Space, Space]
  {
    SpacesAgreeOutsideSevenToTen(4);
  }
}
