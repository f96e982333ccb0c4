/**
 Does it matter how the emulator's input is cut into chunks?

 The end of a chunk ends the run, and the next chunk begins a new one on the
 same line.  That is harmless exactly when the run was over anyway or the cursor is
 inside the margin and the line has no gap before it.  A tab on a line above the
 bottom one leaves such a gap, and moving to a column on a screen of one column
 passes the margin; nothing else does either, so on two columns or more input that
 never moves up can be cut anywhere.
 */
module ChunkIndependence {
  import opened Base
  import opened Utf8
  import opened RichText
  import opened Screen
  import opened Feeding
  import opened Gaps

  /** Terminal widths, which fit a C int. */
  predicate Sized(columns: nat) {
    1 <= columns < 0x8000_0000
  }

  /** On one column, moving to a column past the margin does not stay on the line. */
  predicate Wide(columns: nat) {
    2 <= columns < 0x8000_0000
  }

  /** The parser fields agree with a stream that owes `owed` continuation bytes. */
  predicate Parsing(owed: nat, c: Control) {
    && Steppable(c)
    && Sized(c.columns)
    && (c.mode.Unescaped? ==> c.multiByte == (owed > 0))
    && (if c.mode.ControlSequence? then c.staged.value.kind.Sequence? else c.pending == [])
    && (forall k :: k in c.pending ==> k.kind.ControlCharacter?)
    && (owed > 0 ==> c.multiByte && |c.partial| + owed == c.partialSize && |c.partial| >= 1)
  }

  /** No gap before the cursor. */
  predicate Snug(r: Run) {
    r.control.column <= Length(r.line)
  }

  predicate InMargin(r: Run) {
    r.control.column < r.control.columns
  }

  /** The cursor is on the line, and ending the run would not move it, unless there is but one column. */
  predicate Calm(r: Run) {
    && (InMargin(r) || r.control.columns == 1)
    && (r.control.action.ResetColumn? ==> r.control.column == 0)
    && (r.control.rowOffset == 0 && InMargin(r) ==> Snug(r))
  }

  /** A run on `row offset` `offset` that was fed well-formed UTF-8. */
  predicate Orderly(owed: nat, offset: int, r: Run) {
    && Parsing(owed, r.control)
    && offset <= 0
    && (r.broken ==> r.control.mode.Unescaped?)
    && (!r.broken ==> r.control.rowOffset == offset && Calm(r))
  }

  // ----- one handler keeps a calm run calm

  lemma InsertBlanksKeepsFilled(r: Run, p: seq<uint32>)
    requires Wide(r.control.columns) && r.control.column < r.control.columns && Snug(r)
    ensures Snug(OnInsertBlanks(r, p))
  {
    hide Count, Length, ShiftedRight, Padded, FillRange;
    var c := r.control;
    var length := Length(r.line);
    var full := length + Count(p) >= c.columns;
    var count := if full then Wrapped(c.columns - length - 1) else Count(p);
    var newLength := if full then c.columns - 1 else length + Count(p);
    var last := if length == 0 || length - 1 >= c.columns then c.columns - 1 else length - 1;
    var padded := Padded(r.line, c.columns, length, newLength);
    FilledIsLength(r.line, c.column);
    PaddedFills(r.line, c.columns, newLength);
    assert Filled(padded, length);
    if length >= c.columns {
      FullRowStaysFilled(padded, c.columns, last, c.column, count);
    } else {
      assert last + count < SIZE_SPAN;
      assert c.column <= last + 1;
      ShiftedRightKeepsFilled(padded, c.columns, last, c.column, count, c.column);
    }
    FilledIsLength(OnInsertBlanks(r, p).line, c.column);
  }

  lemma EraseLineKeepsFilled(r: Run, p: seq<uint32>)
    requires r.control.column < r.control.columns && Snug(r)
    ensures Snug(OnEraseLine(r, p))
  {
    var c := r.control;
    var left := BlankedDown(r.line, c.columns, c.column, c.style);
    BlankedDownKeepsFilled(r.line, c.columns, c.column, c.style, c.column);
    RemovedRangeKeepsFilled(left, c.columns, c.column, Length(r.line), c.column);
    RemovedRangeKeepsFilled(r.line, c.columns, c.column, Length(r.line), c.column);
    FilledIsLength(OnEraseLine(r, p).line, c.column);
  }

  lemma PaddingStaysCalm(r: Run, column: nat)
    requires Sized(r.control.columns) && column < r.control.columns
    ensures var c := r.control;
      Calm(Preserving(Run(c.(column := column), Padded(r.line, c.columns, Length(r.line), column), r.broken)))
  {
    PaddedFills(r.line, r.control.columns, column);
    FilledIsLength(Padded(r.line, r.control.columns, Length(r.line), column), column);
  }

  lemma DeleteKeepsFilled(r: Run, p: seq<uint32>)
    requires Snug(r)
    ensures Snug(OnDeleteCharacters(r, p))
  {
    var c := r.control;
    var length := Length(r.line);
    if c.column < length {
      var count := if c.column + Count(p) >= length then length - 1 else Count(p);
      ShiftedLeftKeepsFilled(r.line, c.columns, c.column, length, count, c.column);
      FilledIsLength(ShiftedLeft(r.line, c.columns, c.column, length, count), c.column);
    }
  }

  lemma EraseKeepsFilled(r: Run, p: seq<uint32>)
    requires Snug(r)
    ensures Snug(OnEraseCharacters(r, p))
  {
    var c := r.control;
    var end := if c.column + Count(p) < Length(r.line) then c.column + Count(p) else Length(r.line);
    BlankedUpKeepsFilled(r.line, c.columns, c.column, end, c.style, c.column);
    FilledIsLength(BlankedUp(r.line, c.columns, c.column, end, c.style), c.column);
  }

  /** The handlers that move along the line. */
  lemma MoveStaysCalm(r: Run, code: byte, p: seq<uint32>)
    requires Sized(r.control.columns) && Calm(r) && !r.broken
    requires code == 'C' as int || code == 'D' as int || code == 'G' as int
    ensures var d := OnSequence(r, code, p);
      !d.broken ==> Calm(d) && d.control.rowOffset == r.control.rowOffset
  {
    var c := r.control;
    if code == 'C' as int {
      if c.column + Count(p) < c.columns { PaddingStaysCalm(r, c.column + Count(p)); }
    } else if code == 'D' as int {
      var column := if Count(p) > c.column then 0 else c.column - Count(p);
      if column < c.columns { PaddingStaysCalm(r, column); }
    } else {
      var column := if Count(p) > c.columns then 1 else Count(p) - 1;
      if column < c.columns { PaddingStaysCalm(r, column); }
    }
  }

  /** The handlers that edit the line. */
  lemma EditStaysCalm(r: Run, code: byte, p: seq<uint32>)
    requires Sized(r.control.columns) && Calm(r)
    requires code == '@' as int || code == 'K' as int || code == 'P' as int || code == 'X' as int
    ensures var d := OnSequence(r, code, p);
      Calm(d) && d.control.rowOffset == r.control.rowOffset
  {
    if Snug(r) && r.control.columns >= 2 {
      if code == '@' as int {
        InsertBlanksKeepsFilled(r, p);
      } else if code == 'K' as int {
        EraseLineKeepsFilled(r, p);
      } else if code == 'P' as int {
        DeleteKeepsFilled(r, p);
      } else {
        EraseKeepsFilled(r, p);
      }
    }
  }

  lemma SequenceStaysCalm(r: Run, code: byte, p: seq<uint32>)
    requires Sized(r.control.columns) && Calm(r) && !r.broken
    ensures var d := OnSequence(r, code, p);
      !d.broken ==> Calm(d) && d.control.rowOffset == r.control.rowOffset
  {
    if code == 'C' as int || code == 'D' as int || code == 'G' as int {
      MoveStaysCalm(r, code, p);
    } else if code == '@' as int || code == 'K' as int || code == 'P' as int || code == 'X' as int {
      EditStaysCalm(r, code, p);
    }
  }

  lemma TabStaysCalm(r: Run)
    requires Sized(r.control.columns) && Calm(r)
    ensures Calm(OnTab(r))
  {
    var c := r.control;
    var length := Length(r.line);
    var pad := ToTabStop(c.column);
    var newLength := if length + pad >= c.columns - 1 then c.columns - 1 else length + pad;
    if c.rowOffset == 0 {
      FillRangeFills(r.line, c.columns, length, newLength);
      FilledIsLength(OnTab(r).line, OnTab(r).control.column);
    }
  }

  lemma DispatchStaysCalm(r: Run, command: Command)
    requires Sized(r.control.columns) && Calm(r) && !r.broken
    ensures var d := Dispatch(r, command);
      !d.broken ==> Calm(d) && d.control.rowOffset == r.control.rowOffset
  {
    match command.kind
    case ControlCharacter => if command.code == 9 { TabStaysCalm(r); }
    case EscapeCode =>
    case Sequence => if command.valid { SequenceStaysCalm(r, command.code, command.parameters); }
  }

  lemma {:induction false} DispatchAllStaysCalm(r: Run, commands: seq<Command>)
    requires Sized(r.control.columns) && (!r.broken ==> Calm(r))
    ensures var d := DispatchAll(r, commands);
      !d.broken ==> !r.broken && Calm(d) && d.control.rowOffset == r.control.rowOffset
    decreases commands
  {
    if commands != [] {
      if !r.broken {
        DispatchStaysCalm(r, commands[0]);
      }
      DispatchAllStaysCalm(Dispatch(r, commands[0]), commands[1..]);
    }
  }

  // ----- one byte keeps an orderly run orderly

  lemma FlushStaysCalm(r: Run)
    requires Sized(r.control.columns) && Calm(r) && r.control.action.PreserveColumn?
    ensures var d := Flushed(r); !d.broken ==> Calm(d) && d.control.rowOffset == r.control.rowOffset
  {
    var c := r.control;
    var ch := Character(c.partial, c.style);
    if Snug(r) {
      FilledIsLength(r.line, c.column);
      PutKeepsFilled(r.line, c.columns, c.column, ch, c.column);
      FilledIsLength(Put(r.line, c.columns, c.column, ch), c.column + 1);
    }
  }

  lemma PrintedStaysOrderly(offset: int, r: Run, b: byte)
    requires Orderly(0, offset, r) && !r.broken && r.control.action.PreserveColumn?
    requires r.control.mode.Unescaped? && b != ESC && !IsControl(b)
    ensures Interpreted(r, b) == Parsed(r, b) && Orderly(0, offset, Parsed(r, b))
  {
    var p := Parsed(r, b);
    FlushStaysCalm(r.(control := r.control.(partial := r.control.partial + [b])));
    assert DispatchAll(p, p.control.pending) == p;
  }

  lemma ParsedStaysCalm(offset: int, r: Run, b: byte)
    requires Orderly(0, offset, r) && !r.broken && r.control.action.PreserveColumn? && !r.control.multiByte
    requires !r.control.mode.Unescaped? || b == ESC || IsControl(b)
    ensures var p := Parsed(r, b);
      && Calm(p) && p.control.rowOffset == offset && !p.broken && Sized(p.control.columns) && !p.control.multiByte
      && (!p.control.mode.Unescaped? ==> Parsing(0, p.control))
  {
  }

  lemma InterpretedStaysOrderly(offset: int, r: Run, b: byte)
    requires Orderly(0, offset, r) && !r.broken && r.control.action.PreserveColumn? && !r.control.multiByte
    ensures Orderly(0, offset, Interpreted(r, b))
  {
    if r.control.mode.Unescaped? && b != ESC && !IsControl(b) {
      PrintedStaysOrderly(offset, r, b);
    } else {
      ParsedStaysCalm(offset, r, b);
      DispatchAllStaysCalm(Parsed(r, b), Parsed(r, b).control.pending);
    }
  }

  lemma ContinuedStaysOrderly(owed: nat, offset: int, r: Run, b: byte)
    requires Orderly(owed, offset, r) && !r.broken && r.control.action.PreserveColumn? && owed > 0
    ensures Orderly(owed - 1, offset, Continued(r, b))
  {
    var more := r.control.(partial := r.control.partial + [b]);
    if |more.partial| >= more.partialSize && more.mode.Unescaped? {
      FlushStaysCalm(r.(control := more.(multiByte := false)));
    }
  }

  lemma StepStaysOrderly(owed: nat, offset: int, r: Run, b: byte)
    requires Orderly(owed, offset, r) && !r.broken && Fits(owed, b)
    ensures Orderly(Owed(owed, b), offset, Step(r, b))
  {
    var r1 := Preserving(r);
    assert Orderly(owed, offset, r1);
    if TypeOf(b).Continuation? {
      ContinuedStaysOrderly(owed, offset, r1, b);
    } else if TypeOf(b).OneByte? {
      var r2 := r1.(control := r1.control.(partial := [], multiByte := false, partialSize := 1));
      assert Orderly(0, offset, r2);
      InterpretedStaysOrderly(offset, r2, b);
    }
  }

  // ----- runs

  /** `r` is a run opened on `e`, in which well-formed input was read. */
  predicate InRun(owed: nat, e: Emulator, r: Run) {
    Sound(e) && r.control.columns == e.control.columns && Orderly(owed, Clamped(e.control.rowOffset, e.lineCount), r)
  }

  /** The emulator between two chunks of well-formed input. */
  predicate Idle(owed: nat, e: Emulator) {
    Sound(e) && Parsing(owed, e.control) && (e.control.action.ResetColumn? ==> e.control.column == 0)
  }

  lemma FreshIsIdle(rows: nat, columns: nat)
    requires rows >= 1 && Sized(columns)
    ensures Idle(0, Fresh(rows, columns))
  {
  }

  lemma OpenBeginsRun(owed: nat, e: Emulator)
    requires Idle(owed, e)
    ensures InRun(owed, e, Open(e)) && !Open(e).broken && Snug(Open(e)) && InMargin(Open(e))
  {
    var line := e.lines[Slot(CursorRow(e), e.rows)];
    var column := if e.control.column >= e.control.columns then 0 else e.control.column;
    PaddedFills(line, e.control.columns, column);
    FilledIsLength(Open(e).line, column);
  }

  lemma CommitIsIdle(owed: nat, e: Emulator, r: Run)
    requires InRun(owed, e, r)
    ensures Idle(owed, Commit(e, r)) && Commit(e, r).control.columns == e.control.columns
  {
  }

  lemma {:induction false} AfterIsInRun(owed: nat, e: Emulator, r: Run, a: seq<byte>)
    requires InRun(owed, e, r) && WellFormed(owed, a)
    ensures var p := After(e, r, a); InRun(OwedAfter(owed, a), p.0, p.1) && p.0.control.columns == e.control.columns
    decreases |a|, if Due(r) then 1 else 0
  {
    if a == [] {
    } else if Due(r) {
      CommitIsIdle(owed, e, r);
      OpenBeginsRun(owed, Commit(e, r));
      AfterIsInRun(owed, Commit(e, r), Open(Commit(e, r)), a);
    } else {
      StepStaysOrderly(owed, Clamped(e.control.rowOffset, e.lineCount), r, a[0]);
      AfterIsInRun(Owed(owed, a[0]), e, Step(r, a[0]), a[1..]);
    }
  }

  /** Ending a run that need not end and beginning another changes nothing when there is no gap. */
  lemma SnugReopens(owed: nat, e: Emulator, r: Run)
    requires InRun(owed, e, r) && !Due(r) && Snug(r) && InMargin(r)
    ensures Open(Commit(e, r)) == r && CursorRow(Commit(e, r)) == CursorRow(e)
  {
    var f := Commit(e, r);
    assert Ended(r.control) == r.control;
    assert f.lines == e.lines[Slot(CursorRow(e), e.rows) := r.line];
  }

  /** Of the emulator a run was opened on, only the other lines and the position matter to the rest of the input. */
  lemma {:induction false} FeedSameBase(e: Emulator, f: Emulator, r: Run, input: seq<byte>)
    requires Sound(e) && Sound(f) && Steppable(r.control)
    requires e.rows == f.rows && e.lineCount == f.lineCount && CursorRow(e) == CursorRow(f)
    requires f.lines == e.lines[Slot(CursorRow(e), e.rows) := f.lines[Slot(CursorRow(e), e.rows)]]
    ensures Feed(e, r, input) == Feed(f, r, input)
    decreases input
  {
    var slot := Slot(CursorRow(e), e.rows);
    assert e.lines[slot := r.line] == f.lines[slot := r.line];
    assert Commit(e, r) == Commit(f, r);
    if input != [] && !Due(r) {
      FeedSameBase(e, f, Step(r, input[0]), input[1..]);
    }
  }

  /** Cutting the input after `a` makes no difference to the rest, `b`. */
  ghost predicate Harmless(e: Emulator, a: seq<byte>, b: seq<byte>)
    requires Sound(e)
  {
    ParseLines(ParseLines(e, a), b) == ParseLines(e, a + b)
  }

  /** The run that the last byte of `a` was read in is over, or its cursor is inside the margin with no gap before it. */
  predicate GapFree(e: Emulator, a: seq<byte>)
    requires Sound(e)
  {
    var r := After(e, Open(e), a).1;
    Due(r) || (Snug(r) && InMargin(r))
  }

  lemma GapFreeIsHarmless(owed: nat, e: Emulator, a: seq<byte>, b: seq<byte>)
    requires Idle(owed, e)
    requires WellFormed(owed, a) && a != [] && GapFree(e, a)
    ensures Harmless(e, a, b)
  {
    OpenBeginsRun(owed, e);
    AfterIsInRun(owed, e, Open(e), a);
    FeedIsCommitted(e, Open(e), a);
    FeedSplits(e, Open(e), a, b);
    var p := After(e, Open(e), a);
    if b != [] && !Due(p.1) {
      SnugReopens(OwedAfter(owed, a), p.0, p.1);
      FeedSameBase(p.0, Commit(p.0, p.1), p.1, b);
    } else if b == [] {
      assert a + b == a;
    }
  }

  lemma InterruptedKeepsSlots(r: Run, n: nat)
    requires Steppable(r.control) && n < r.control.column && n < r.control.columns
    ensures At(Interrupted(r).line, n) == At(r.line, n)
    ensures Interrupted(r).control.rowOffset <= r.control.rowOffset + 1
    ensures Interrupted(r).control.mode == r.control.mode
  {
    SetCharacterAt(r.line, Span(0, r.control.columns), r.control.column, Character([PLACEHOLDER], r.control.style));
  }

  /** A carriage return writes nothing. */
  lemma CarriageReturnKeepsLine(r: Run)
    requires Steppable(r.control) && (!r.control.mode.ControlSequence? ==> r.control.pending == [])
    ensures Interpreted(r, 13).line == r.line && Interpreted(r, 13).control.rowOffset == r.control.rowOffset
  {
    var p := Parsed(r, 13);
    if p.control.mode.Unescaped? {
      var k := p.control.pending;
      assert |k| == 1;
      assert DispatchAll(p, k) == DispatchAll(Dispatch(p, k[0]), []);
    }
  }

  lemma CarriageReturnKeepsSlots(owed: nat, offset: int, r: Run, n: nat)
    requires Orderly(owed, offset, r) && !r.broken && n < r.control.column && InMargin(r)
    ensures At(Step(r, 13).line, n) == At(r.line, n)
    ensures Step(r, 13).control.rowOffset <= r.control.rowOffset + 1
  {
    var r1 := Preserving(r);
    InterruptedKeepsSlots(r1, n);
    var r2 := Interrupted(r1);
    CarriageReturnKeepsLine(r2.(control := r2.control.(multiByte := false, partialSize := 1)));
  }

  /** A carriage return that ends the input leaves a slot before the cursor on its line as it was. */
  lemma CarriageReturnCommits(owed: nat, e: Emulator, r: Run, n: nat)
    requires InRun(owed, e, r) && !r.broken && n < r.control.column && InMargin(r) && r.control.rowOffset < 0
    ensures At(Feed(e, r, [13]).lines[Slot(CursorRow(e), e.rows)], n) == At(r.line, n)
  {
    CarriageReturnKeepsSlots(owed, Clamped(e.control.rowOffset, e.lineCount), r, n);
    assert [13][1..] == [];
    assert Feed(e, r, [13]) == Feed(e, Step(r, 13), [13][1..]) == Commit(e, Step(r, 13));
  }

  /** A gap is seen by what follows: after a cut it is padded, without one it is not. */
  lemma GapIsPadded(owed: nat, e: Emulator, r: Run)
    requires InRun(owed, e, r) && !Due(r) && InMargin(r) && !Snug(r)
    ensures var f := Commit(e, r); Feed(f, Open(f), [13]) != Feed(e, r, [13])
  {
    var f := Commit(e, r);
    var n := Length(r.line);
    assert Ended(r.control) == r.control;
    assert f.lines == e.lines[Slot(CursorRow(e), e.rows) := r.line];
    assert CursorRow(f) == CursorRow(e);
    CommitIsIdle(owed, e, r);
    OpenBeginsRun(owed, f);
    CarriageReturnCommits(owed, e, r, n);
    CarriageReturnCommits(owed, f, Open(f), n);
  }

  /** A column past the margin is given up by a cut, and kept by a byte that does nothing. */
  lemma MarginIsLeft(owed: nat, e: Emulator, r: Run)
    requires InRun(owed, e, r) && !Due(r) && !InMargin(r)
    requires !r.control.multiByte || !r.control.mode.Unescaped?
    ensures var f := Commit(e, r); Feed(f, Open(f), [0]) != Feed(e, r, [0])
  {
    var f := Commit(e, r);
    assert f.control.column == r.control.column;
    NulCommits(e, r);
    CommitIsIdle(owed, e, r);
    OpenBeginsRun(owed, f);
    NulCommits(f, Open(f));
  }

  lemma NulCommits(e: Emulator, r: Run)
    requires Sound(e) && Steppable(r.control) && !Due(r) && (!r.control.multiByte || !r.control.mode.Unescaped?)
    ensures Feed(e, r, [0]).control.column == r.control.column
  {
    assert [0][1..] == [];
    assert Feed(e, r, [0]) == Feed(e, Step(r, 0), [0][1..]) == Commit(e, Step(r, 0));
  }

  /** Inside a character, the beginning of a control sequence first flushes the character and then keeps the column. */
  lemma MarginIsLeftInside(owed: nat, e: Emulator, r: Run)
    requires InRun(owed, e, r) && !Due(r) && !InMargin(r)
    requires r.control.multiByte && r.control.mode.Unescaped?
    ensures var f := Commit(e, r); Feed(f, Open(f), [ESC, BRACKET]) != Feed(e, r, [ESC, BRACKET])
  {
    var f := Commit(e, r);
    assert f.control.column == r.control.column;
    IntroducerCommits(e, r);
    CommitIsIdle(owed, e, r);
    OpenBeginsRun(owed, f);
    IntroducerCommits(f, Open(f));
  }

  lemma IntroducerCommits(e: Emulator, r: Run)
    requires Sound(e) && Steppable(r.control) && !Due(r) && r.control.multiByte && r.control.mode.Unescaped?
    ensures Feed(e, r, [ESC, BRACKET]).control.column == r.control.column + 1
  {
    var s := Step(r, ESC);
    assert s.control.mode.Escaped? && s.control.column == r.control.column + 1;
    var t := Step(s, BRACKET);
    assert t.control.column == s.control.column && t.control.action.PreserveColumn?;
    assert [ESC, BRACKET][1..] == [BRACKET] && [BRACKET][1..] == [];
    hide Step;
    assert Feed(e, r, [ESC, BRACKET]) == Feed(e, s, [BRACKET]) == Feed(e, t, [BRACKET][1..]) == Commit(e, t);
  }

  /** Some input that follows tells a cut at a gap, or past the margin, from none. */
  lemma GapIsHarmful(owed: nat, e: Emulator, a: seq<byte>) returns (b: seq<byte>)
    requires Idle(owed, e)
    requires WellFormed(owed, a) && a != [] && !GapFree(e, a)
    ensures !Harmless(e, a, b)
    ensures InMargin(After(e, Open(e), a).1) ==> b == [13]
  {
    OpenBeginsRun(owed, e);
    AfterIsInRun(owed, e, Open(e), a);
    FeedIsCommitted(e, Open(e), a);
    var p := After(e, Open(e), a);
    if InMargin(p.1) {
      b := [13];
      GapIsPadded(OwedAfter(owed, a), p.0, p.1);
    } else if p.1.control.multiByte && p.1.control.mode.Unescaped? {
      b := [ESC, BRACKET];
      MarginIsLeftInside(OwedAfter(owed, a), p.0, p.1);
    } else {
      b := [0];
      MarginIsLeft(OwedAfter(owed, a), p.0, p.1);
    }
    FeedSplits(e, Open(e), a, b);
  }

  /**
   Exactly when a cut is harmless.  `a` is any well-formed text, cut anywhere
   (even inside a character or an escape sequence), and `b` is anything.
   */
  lemma SplitIsHarmlessIffGapFree(owed: nat, e: Emulator, a: seq<byte>)
    requires Idle(owed, e)
    requires WellFormed(owed, a) && a != []
    ensures (forall b :: Harmless(e, a, b)) <==> GapFree(e, a)
  {
    if GapFree(e, a) {
      forall b ensures Harmless(e, a, b) {
        GapFreeIsHarmless(owed, e, a, b);
      }
    } else {
      var b := GapIsHarmful(owed, e, a);
    }
  }

  // ----- input that never moves up

  function NextMode(mode: Mode, b: byte): Mode {
    if !TypeOf(b).OneByte? then mode
    else match mode
      case Unescaped => if b == ESC then Escaped else Unescaped
      case Escaped => if b == BRACKET then ControlSequence else Unescaped
      case ControlSequence => if 64 <= b <= 157 then Unescaped else ControlSequence
  }

  /** The byte completes ESC M, CSI A or CSI F. */
  predicate MovesUp(mode: Mode, b: byte) {
    || (mode.Escaped? && b == 'M' as int)
    || (mode.ControlSequence? && (b == 'A' as int || b == 'F' as int))
  }

  predicate NeverUp(mode: Mode, s: seq<byte>)
    decreases s
  {
    s == [] || (!MovesUp(mode, s[0]) && NeverUp(NextMode(mode, s[0]), s[1..]))
  }

  /** Reverse line feed and the two cursor-up commands. */
  predicate Rises(command: Command) {
    || (command.kind.EscapeCode? && command.code == 'M' as int)
    || (command.kind.Sequence? && (command.code == 'A' as int || command.code == 'F' as int))
  }

  lemma DispatchNeverMovesUp(r: Run, command: Command)
    requires r.control.columns >= 1 && !Rises(command)
    ensures Dispatch(r, command).control.rowOffset >= r.control.rowOffset
  {
  }

  lemma {:induction false} OthersNeverMoveUp(r: Run, commands: seq<Command>)
    requires r.control.columns >= 1
    requires forall k :: k in commands ==> !Rises(k)
    ensures DispatchAll(r, commands).control.rowOffset >= r.control.rowOffset
    decreases commands
  {
    if commands != [] {
      DispatchNeverMovesUp(r, commands[0]);
      OthersNeverMoveUp(Dispatch(r, commands[0]), commands[1..]);
    }
  }

  lemma ParsedNeverMovesUp(r: Run, b: byte)
    requires Parsing(0, r.control) && !MovesUp(r.control.mode, b) && TypeOf(b).OneByte?
    ensures var p := Parsed(r, b);
      && p.control.rowOffset >= r.control.rowOffset
      && p.control.mode == NextMode(r.control.mode, b)
      && forall k :: k in p.control.pending ==> !Rises(k)
  {
    hide Put, WithDigit, WithParameter;
  }

  lemma InterpretedNeverMovesUp(r: Run, b: byte)
    requires Parsing(0, r.control) && !MovesUp(r.control.mode, b) && TypeOf(b).OneByte?
    ensures Interpreted(r, b).control.rowOffset >= r.control.rowOffset
    ensures Interpreted(r, b).control.mode == NextMode(r.control.mode, b)
  {
    var p := Parsed(r, b);
    ParsedNeverMovesUp(r, b);
    OthersNeverMoveUp(p, p.control.pending);
  }

  lemma StepNeverMovesUp(owed: nat, offset: int, r: Run, b: byte)
    requires Orderly(owed, offset, r) && !r.broken && Fits(owed, b) && !MovesUp(r.control.mode, b)
    ensures Step(r, b).control.rowOffset >= r.control.rowOffset
    ensures Step(r, b).control.mode == NextMode(r.control.mode, b)
  {
    if TypeOf(b).OneByte? {
      var c := r.control.(action := PreserveColumn, partial := [], multiByte := false, partialSize := 1);
      InterpretedNeverMovesUp(r.(control := c), b);
    }
  }

  lemma {:induction false} NeverUpStaysOnBottomRow(owed: nat, e: Emulator, r: Run, a: seq<byte>)
    requires InRun(owed, e, r) && WellFormed(owed, a) && NeverUp(r.control.mode, a)
    requires e.control.rowOffset == 0 && r.control.rowOffset >= 0
    ensures var p := After(e, r, a); p.0.control.rowOffset == 0 && p.1.control.rowOffset >= 0
    decreases |a|, if Due(r) then 1 else 0
  {
    if a == [] {
    } else if Due(r) {
      CommitIsIdle(owed, e, r);
      OpenBeginsRun(owed, Commit(e, r));
      NeverUpStaysOnBottomRow(owed, Commit(e, r), Open(Commit(e, r)), a);
    } else {
      StepStaysOrderly(owed, 0, r, a[0]);
      StepNeverMovesUp(owed, 0, r, a[0]);
      NeverUpStaysOnBottomRow(Owed(owed, a[0]), e, Step(r, a[0]), a[1..]);
    }
  }

  /**
   Chunk independence: well-formed input that never moves up may be cut
   anywhere, whatever follows.
   */
  lemma NeverUpIsHarmless(owed: nat, e: Emulator, a: seq<byte>, b: seq<byte>)
    requires Idle(owed, e) && e.control.rowOffset == 0 && Wide(e.control.columns)
    requires WellFormed(owed, a) && NeverUp(e.control.mode, a)
    ensures Harmless(e, a, b)
    ensures Idle(OwedAfter(owed, a), ParseLines(e, a)) && ParseLines(e, a).control.rowOffset == 0
    ensures ParseLines(e, a).control.columns == e.control.columns
  {
    if a == [] {
      assert a + b == b;
    } else {
      OpenBeginsRun(owed, e);
      NeverUpStaysOnBottomRow(owed, e, Open(e), a);
      AfterIsInRun(owed, e, Open(e), a);
      FeedIsCommitted(e, Open(e), a);
      var p := After(e, Open(e), a);
      CommitIsIdle(OwedAfter(owed, a), p.0, p.1);
      GapFreeIsHarmless(owed, e, a, b);
    }
  }

  function Flat(chunks: seq<seq<byte>>): seq<byte> {
    if chunks == [] then [] else chunks[0] + Flat(chunks[1..])
  }

  function ParseChunks(e: Emulator, chunks: seq<seq<byte>>): Emulator
    requires Sound(e)
    decreases chunks
  {
    if chunks == [] then e else ParseChunks(ParseLines(e, chunks[0]), chunks[1..])
  }

  lemma {:induction false} ModeFollowsInput(owed: nat, e: Emulator, r: Run, a: seq<byte>)
    requires InRun(owed, e, r) && WellFormed(owed, a) && NeverUp(r.control.mode, a)
    ensures After(e, r, a).1.control.mode == ModeAfter(r.control.mode, a)
    decreases |a|, if Due(r) then 1 else 0
  {
    if a == [] {
    } else if Due(r) {
      CommitIsIdle(owed, e, r);
      OpenBeginsRun(owed, Commit(e, r));
      ModeFollowsInput(owed, Commit(e, r), Open(Commit(e, r)), a);
    } else {
      var offset := Clamped(e.control.rowOffset, e.lineCount);
      StepStaysOrderly(owed, offset, r, a[0]);
      StepNeverMovesUp(owed, offset, r, a[0]);
      ModeFollowsInput(Owed(owed, a[0]), e, Step(r, a[0]), a[1..]);
    }
  }

  function ModeAfter(mode: Mode, s: seq<byte>): Mode
    decreases s
  {
    if s == [] then mode else ModeAfter(NextMode(mode, s[0]), s[1..])
  }

  lemma {:induction false} NeverUpConcat(mode: Mode, a: seq<byte>, b: seq<byte>)
    ensures NeverUp(mode, a + b) <==> NeverUp(mode, a) && NeverUp(ModeAfter(mode, a), b)
    decreases a
  {
    if a == [] {
      assert a + b == b;
    } else {
      assert (a + b)[1..] == a[1..] + b;
      NeverUpConcat(NextMode(mode, a[0]), a[1..], b);
    }
  }

  lemma {:induction false} ChunksAreTheirConcatenation(owed: nat, e: Emulator, chunks: seq<seq<byte>>)
    requires Idle(owed, e) && e.control.rowOffset == 0 && Wide(e.control.columns)
    requires WellFormed(owed, Flat(chunks)) && NeverUp(e.control.mode, Flat(chunks))
    ensures ParseChunks(e, chunks) == ParseLines(e, Flat(chunks))
    decreases chunks
  {
    if chunks != [] {
      var a, b := chunks[0], Flat(chunks[1..]);
      WellFormedConcat(owed, a, b);
      NeverUpConcat(e.control.mode, a, b);
      NeverUpIsHarmless(owed, e, a, b);
      if a != [] {
        OpenBeginsRun(owed, e);
        ModeFollowsInput(owed, e, Open(e), a);
        FeedIsCommitted(e, Open(e), a);
      }
      ChunksAreTheirConcatenation(OwedAfter(owed, a), ParseLines(e, a), chunks[1..]);
    }
  }

  /** Any two ways of cutting the same text show a new emulator the same thing. */
  lemma CuttingDoesNotMatter(rows: nat, columns: nat, chunks: seq<seq<byte>>, others: seq<seq<byte>>)
    requires rows >= 1 && Wide(columns) && Flat(chunks) == Flat(others)
    requires WellFormed(0, Flat(chunks)) && NeverUp(Unescaped, Flat(chunks))
    ensures ParseChunks(Fresh(rows, columns), chunks) == ParseChunks(Fresh(rows, columns), others)
  {
    FreshIsIdle(rows, columns);
    ChunksAreTheirConcatenation(0, Fresh(rows, columns), chunks);
    ChunksAreTheirConcatenation(0, Fresh(rows, columns), others);
  }

  // ----- why the two conditions are there

  lemma OneCommand(r: Run, command: Command)
    requires r.control.columns >= 1
    ensures DispatchAll(r, [command]) == Dispatch(r, command)
  {
    assert DispatchAll(r, [command]) == DispatchAll(Dispatch(r, command), [command][1..]);
  }

  lemma ControlStep(r: Run, b: byte)
    requires r.control.columns >= 1 && r.control.mode.Unescaped? && r.control.pending == [] && !r.control.multiByte
    requires b == 9 || b == 10
    ensures var c := r.control.(action := PreserveColumn, partial := [], partialSize := 1, staged := None);
      var d := OnControlCharacter(r.(control := c.(pending := [Command(b, ControlCharacter, [], false)])), b);
      Step(r, b) == d.(control := d.control.(pending := []))
  {
    var c := r.control.(action := PreserveColumn, partial := [], partialSize := 1, staged := None);
    var k := Command(b, ControlCharacter, [], false);
    assert [] + [k] == [k];
    OneCommand(r.(control := c.(pending := [k])), k);
  }

  /** Where a tab moves the cursor. */
  function TabStop(c: Control): nat
    requires c.columns >= 1
  {
    if c.column + ToTabStop(c.column) >= c.columns - 1 then c.columns - 1 else c.column + ToTabStop(c.column)
  }

  /** A cut after a tab is harmless exactly on the bottom row, where a tab pads, or when the line reaches the tab stop anyway. */
  lemma TabIsHarmlessIff(e: Emulator)
    requires Idle(0, e) && e.control.mode.Unescaped?
    ensures (forall b :: Harmless(e, [9], b)) <==>
            var r := Open(e); r.control.rowOffset == 0 || TabStop(r.control) <= Length(r.line)
  {
    var r := Open(e);
    OpenBeginsRun(0, e);
    TabIsTaken(e, r);
    var d := Step(r, 9);
    StepStaysOrderly(0, Clamped(e.control.rowOffset, e.lineCount), r, 9);
    assert WellFormed(0, [9]) by { assert [9][1..] == []; }
    SplitIsHarmlessIffGapFree(0, e, [9]);
  }

  lemma TabIsTaken(e: Emulator, r: Run)
    requires Sound(e) && r.control.columns >= 1 && r.control.mode.Unescaped? && r.control.pending == [] && !r.control.multiByte
    requires !r.broken
    ensures After(e, r, [9]) == (e, Step(r, 9))
    ensures var d := Step(r, 9);
      && !d.broken && d.control.column == TabStop(r.control) && d.control.rowOffset == r.control.rowOffset
      && (r.control.rowOffset != 0 ==> d.line == r.line)
  {
    assert [9][1..] == [];
    assert After(e, r, [9]) == After(e, Step(r, 9), []);
    ControlStep(r, 9);
  }

  /** A line feed, a reverse line feed and a tab leave a gap on the upper line of a new screen. */
  lemma TabAboveBottomRowIsHarmful()
    ensures var e := ParseLines(Fresh(2, 80), [10, 27, 77]);
      Idle(0, e) && !Harmless(e, [9], [13])
  {
    CursorAboveBottomRow();
    var e := ParseLines(Fresh(2, 80), [10, 27, 77]);
    assert Open(e).line == [] && Open(e).control.column == 0;
    TabIsTaken(e, Open(e));
    assert WellFormed(0, [9]) by { assert [9][1..] == []; }
    assert InMargin(After(e, Open(e), [9]).1);
    var b := GapIsHarmful(0, e, [9]);
  }

  /** How the screen of the previous lemma comes about: a line feed and a reverse line feed. */
  lemma CursorAboveBottomRow()
    ensures ParseLines(Fresh(2, 80), [10, 27, 77]) ==
            Fresh(2, 80).(lineCount := 2, control := FRESH_CONTROL.(columns := 80, rowOffset := -1, partialSize := 1))
  {
    var e := Fresh(2, 80);
    assert [10, 27, 77][1..] == [27, 77];
    ControlStep(Open(e), 10);
    var r1 := Step(Open(e), 10);
    var e1 := Commit(e, r1);
    assert e1.control == FRESH_CONTROL.(columns := 80, partialSize := 1, action := ResetColumn);
    assert e1.lines == e.lines;
    assert ParseLines(e, [10, 27, 77]) == Feed(e, r1, [27, 77]) == Feed(e1, Open(e1), [27, 77]);
    ReverseLineFeed(e1);
  }

  lemma ReverseLineFeed(e: Emulator)
    requires e == Fresh(2, 80).(lineCount := 2, control := FRESH_CONTROL.(columns := 80, partialSize := 1, action := ResetColumn))
    ensures Feed(e, Open(e), [27, 77]) ==
            Fresh(2, 80).(lineCount := 2, control := FRESH_CONTROL.(columns := 80, rowOffset := -1, partialSize := 1))
  {
    var r := Open(e);
    assert r == Run(FRESH_CONTROL.(columns := 80, partialSize := 1, action := ResetColumn), [], false) by { FilledIsLength([], 0); }
    EscapeStep(r);
    var r2 := Step(r, 27);
    ReverseStep(r2);
    hide Step;
    assert [27, 77][1..] == [77] && [77][1..] == [];
    assert Feed(e, r, [27, 77]) == Feed(e, r2, [77]) == Feed(e, Step(r2, 77), [77][1..]) == Commit(e, Step(r2, 77));
  }

  lemma EscapeStep(r: Run)
    requires r.control.columns >= 1 && r.control.mode.Unescaped? && !r.control.multiByte
    ensures Step(r, 27) ==
            r.(control := r.control.(action := PreserveColumn, partial := [], partialSize := 1, mode := Escaped,
                                     staged := Some(Command(0, ControlCharacter, [], false))))
  {
  }

  lemma ReverseStep(r: Run)
    requires r.control.columns >= 1 && r.control.mode.Escaped? && !r.control.multiByte && r.control.pending == []
    requires r.control.staged == Some(Command(0, ControlCharacter, [], false))
    ensures var c := r.control.(action := PreserveColumn, partial := [], partialSize := 1, mode := Unescaped, staged := None);
      var d := OnEscapeCode(r.(control := c.(pending := [Command(77, EscapeCode, [], false)])), 77);
      Step(r, 77) == d.(control := d.control.(pending := []))
  {
    hide OnEscapeCode;
    var c := r.control.(action := PreserveColumn, partial := [], partialSize := 1, mode := Unescaped, staged := None);
    var k := Command(77, EscapeCode, [], false);
    assert [] + [k] == [k];
    OneCommand(r.(control := c.(pending := [k])), k);
  }

  /** CSI 2 G */
  const MOVE: seq<byte> := [ESC, BRACKET, '2' as int, 'G' as int]

  /** The control state it leaves on a new screen of one column. */
  const MOVED := FRESH_CONTROL.(column := 1, partialSize := 1, lastWasInteger := true)

  lemma BracketStep(r: Run)
    requires r.control.columns >= 1 && r.control.mode.Escaped? && !r.control.multiByte && r.control.pending == []
    requires r.control.staged == Some(Command(0, ControlCharacter, [], false))
    ensures Step(r, BRACKET) ==
            r.(control := r.control.(action := PreserveColumn, partial := [], partialSize := 1, mode := ControlSequence,
                                     value := 0, lastWasInteger := false, staged := Some(Command(0, Sequence, [], true))))
  {
  }

  lemma DigitStep(r: Run)
    requires r.control.columns >= 1 && r.control.mode.ControlSequence? && !r.control.multiByte && r.control.staged.Some?
    requires r.control.value == 0
    ensures Step(r, '2' as int) ==
            r.(control := r.control.(action := PreserveColumn, partial := [], partialSize := 1, value := 2, lastWasInteger := true))
  {
  }

  lemma MoveToSecondOfOneColumn(r: Run, g: byte)
    requires g == 'G' as int && r.line == [] && !r.broken
    requires r.control == FRESH_CONTROL.(mode := ControlSequence, staged := Some(Command(0, Sequence, [], true)), value := 2,
                                         lastWasInteger := true, partialSize := 1)
    ensures Step(r, g) == Run(MOVED, [Some(BLANK), None], false)
  {
    var k := Command(g, Sequence, [2], true);
    assert [] + [2] == [2] && [] + [k] == [k];
    OneCommand(Run(FRESH_CONTROL.(partialSize := 1, lastWasInteger := true, pending := [k]), [], false), k);
    var none: Line := [];
    assert Extended(none, 0) == Extended([None], 0) by { assert none + [None] == [None]; }
    assert Extended([Some(BLANK)], 1) == Extended([Some(BLANK), None], 1) by { assert [Some(BLANK)] + [None] == [Some(BLANK), None]; }
    assert Put([], 1, 0, BLANK) == [Some(BLANK)] && Put([Some(BLANK)], 1, 1, BLANK) == [Some(BLANK), None];
    assert Padded([], 1, 0, 1) == FillRange([Some(BLANK)], 1, 1, 2) == FillRange([Some(BLANK), None], 1, 2, 2);
  }

  lemma OneByteFirst(mode: Mode, b: byte, s: seq<byte>)
    requires 0 < b < 0x80 && !MovesUp(mode, b)
    ensures WellFormed(0, [b] + s) <==> WellFormed(0, s)
    ensures NeverUp(mode, [b] + s) <==> NeverUp(NextMode(mode, b), s)
  {
    assert ([b] + s)[1..] == s;
  }

  lemma MoveIsWellFormed()
    ensures WellFormed(0, MOVE) && NeverUp(Unescaped, MOVE)
  {
    var two: byte, g: byte := '2' as int, 'G' as int;
    OneByteFirst(ControlSequence, g, []);
    OneByteFirst(ControlSequence, two, [g]);
    OneByteFirst(Escaped, BRACKET, [two] + [g]);
    OneByteFirst(Unescaped, ESC, [BRACKET] + ([two] + [g]));
    assert [g] + [] == [g] && [ESC] + ([BRACKET] + ([two] + [g])) == MOVE;
  }

  /** On a new screen of one column, CSI 2 G puts the cursor past the margin and keeps the line. */
  lemma MoveIsTaken(rows: nat)
    requires rows >= 1
    ensures var e := Fresh(rows, 1); After(e, Open(e), MOVE) == (e, Run(MOVED, [Some(BLANK), None], false))
    ensures WellFormed(0, MOVE) && NeverUp(Unescaped, MOVE)
  {
    var e := Fresh(rows, 1);
    var two: byte, g: byte := '2' as int, 'G' as int;
    var r0 := Open(e);
    assert r0 == Run(FRESH_CONTROL, [], false) by { FilledIsLength([], 0); }
    EscapeStep(r0);
    var r1 := Step(r0, ESC);
    BracketStep(r1);
    var r2 := Step(r1, BRACKET);
    DigitStep(r2);
    var r3 := Step(r2, two);
    MoveToSecondOfOneColumn(r3, g);
    var r4 := Step(r3, g);
    assert MOVE[1..] == [BRACKET, two, g] && [BRACKET, two, g][1..] == [two, g] && [two, g][1..] == [g] && [g][1..] == [];
    MoveIsWellFormed();
    hide Step, WellFormed, NeverUp;
    assert After(e, r3, [g]) == After(e, r4, []) == (e, r4);
    assert After(e, r2, [two, g]) == After(e, r3, [g]);
    assert After(e, r1, [BRACKET, two, g]) == After(e, r2, [two, g]);
    assert After(e, r0, MOVE) == After(e, r1, [BRACKET, two, g]);
  }

  /**
   From a new screen, well-formed text that never moves up may be cut anywhere,
   whatever follows, exactly when the screen has two columns or more.
   */
  lemma AnyCutIsHarmlessIff(rows: nat, columns: nat)
    requires rows >= 1 && Sized(columns)
    ensures (forall a, b :: WellFormed(0, a) && NeverUp(Unescaped, a) ==> Harmless(Fresh(rows, columns), a, b)) <==> columns >= 2
  {
    hide Harmless, WellFormed, NeverUp, Fresh;
    FreshIsIdle(rows, columns);
    FreshMode(rows, columns);
    var e := Fresh(rows, columns);
    if columns >= 2 {
      forall a, b | WellFormed(0, a) && NeverUp(Unescaped, a) ensures Harmless(e, a, b) {
        NeverUpIsHarmless(0, e, a, b);
      }
    } else {
      MoveIsTaken(rows);
      var b := GapIsHarmful(0, e, MOVE);
    }
  }

  lemma FreshMode(rows: nat, columns: nat)
    requires rows >= 1 && columns >= 1
    ensures Fresh(rows, columns).control == FRESH_CONTROL.(columns := columns)
  {
  }

  /** It can be seen: on one column and two rows, whether a character shows after CSI 2 G depends on the cut. */
  lemma OneColumnIsHarmful(rows: nat)
    requires rows >= 2
    ensures !Harmless(Fresh(rows, 1), MOVE, ['x' as int])
    ensures ParseLines(ParseLines(Fresh(rows, 1), MOVE), ['x' as int]).lines[0] !=
            ParseLines(Fresh(rows, 1), MOVE + ['x' as int]).lines[0]
  {
    hide Slot, Step, After, Harmless, Begun, SetCharacter;
    var x: byte := 'x' as int;
    var e, r := Fresh(rows, 1), Run(MOVED, [Some(BLANK), None], false);
    FirstSlots(rows);
    MoveIsTaken(rows);
    FeedSplits(e, Open(e), MOVE, [x]);
    FeedIsCommitted(e, Open(e), MOVE);
    var f := Commit(e, r);
    assert f.lines[0] == r.line;
    ReopenedInMargin(f, r.line);
    var q := Run(MOVED.(column := 0), r.line, false);
    PrintOnOneColumn(e, r, x);
    PrintOnOneColumn(f, q, x);
    SetCharacterAt(r.line, Span(0, 1), 1, Character([x], r.control.style));
    SetCharacterAt(r.line, Span(0, 1), 0, Character([x], r.control.style));
    assert At(Put(r.line, 1, 0, Character([x], r.control.style)), 0) == Some(Character([x], r.control.style));
    assert At(Put(r.line, 1, 1, Character([x], r.control.style)), 0) == Some(BLANK);
    SeenIsHarmful(rows, x);
  }

  lemma SeenIsHarmful(rows: nat, x: byte)
    requires rows >= 1
    requires ParseLines(ParseLines(Fresh(rows, 1), MOVE), [x]) != ParseLines(Fresh(rows, 1), MOVE + [x])
    ensures !Harmless(Fresh(rows, 1), MOVE, [x])
  {
  }

  lemma FirstSlots(rows: nat)
    requires rows >= 2
    ensures Slot(0, rows) == 0 && Slot(1, rows) == 1
  {
  }

  lemma ReopenedInMargin(f: Emulator, line: Line)
    requires Sound(f) && f.control == MOVED && f.lineCount == 1 && f.rows >= 2 && f.lines[0] == line
    ensures Open(f) == Run(MOVED.(column := 0), if Length(line) == 0 then Padded(line, 1, 0, 0) else line, false)
  {
    FirstSlots(f.rows);
  }

  lemma PrintOnOneColumn(e: Emulator, r: Run, x: byte)
    requires Sound(e) && e.rows >= 2 && e.lineCount == 1 && r.control.columns == 1 && x == 'x' as int
    requires r.control.mode.Unescaped? && r.control.pending == [] && !r.control.multiByte && !r.broken
    requires r.control.rowOffset == 0
    ensures Feed(e, r, [x]).lines[0] == Put(r.line, 1, r.control.column, Character([x], r.control.style))
  {
    PrintStep(r, x);
    var f := Step(r, x);
    hide Step, Slot, Appended;
    FirstSlots(e.rows);
    assert [x][1..] == [];
    assert Feed(e, r, [x]) == Feed(e, f, [x][1..]) == Commit(e, f);
    assert CursorRow(e) == 0 && Down(f.control) == 1;
    NextLineIsEmptied(e.lines[Slot(0, e.rows) := f.line]);
  }

  lemma NextLineIsEmptied(lines: seq<Line>)
    requires |lines| >= 2
    ensures Appended(lines, 1, 1)[0] == lines[0]
  {
    FirstSlots(|lines|);
    assert Appended(lines, 1, 1) == Appended(lines[Slot(1, |lines|) := []], 2, 0);
  }

  lemma PrintStep(r: Run, x: byte)
    requires r.control.columns == 1 && x == 'x' as int
    requires r.control.mode.Unescaped? && r.control.pending == [] && !r.control.multiByte && !r.broken && r.control.rowOffset == 0
    ensures var f := Step(r, x);
      && f.line == Put(r.line, 1, r.control.column, Character([x], r.control.style))
      && f.control.rowOffset == 1 && f.control.columns == 1
  {
    hide Put;
    var c := r.control.(action := PreserveColumn, partial := [], partialSize := 1);
    assert [] + [x] == [x];
    var f := Flushed(r.(control := c.(partial := [x])));
    assert DispatchAll(f, []) == f;
    assert Step(r, x) == f.(control := f.control.(pending := []));
  }
}
