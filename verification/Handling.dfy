/**
 What the handlers of control sequences do to the slots of the line and to the cursor
 (src/libply-splash-core/ply-terminal-emulator.c), as a table of its own.
 */
module Handling {
  import opened Base
  import opened RichText
  import opened Screen
  import opened Feeding
  import opened ControlSequences
  import opened Attributes
  import opened Rendition

  // ----- the drawing functions, slot by slot

  lemma {:induction false} FillRangeAt(line: Line, columns: nat, i: nat, end: nat, k: nat)
    ensures At(FillRange(line, columns, i, end), k) == if i <= k < end && k < columns then Some(BLANK) else At(line, k)
    decreases end - i
  {
    if i < end {
      SetCharacterAt(line, Span(0, columns), i, BLANK);
      FillRangeAt(Put(line, columns, i, BLANK), columns, i + 1, end, k);
    }
  }

  lemma {:induction false} FillRangeLength(line: Line, columns: nat, i: nat, end: nat)
    ensures |FillRange(line, columns, i, end)| == if i < end && |line| < end then end else |line|
    decreases end - i
  {
    if i < end {
      SetCharacterAt(line, Span(0, columns), i, BLANK);
      FillRangeLength(Put(line, columns, i, BLANK), columns, i + 1, end);
    }
  }

  lemma {:induction false} BlankedDownAt(line: Line, columns: nat, i: nat, style: Style, k: nat)
    requires i < columns
    ensures At(BlankedDown(line, columns, i, style), k) == if k <= i then Some(Character([SPACE], style)) else At(line, k)
    decreases i
  {
    var c := Character([SPACE], style);
    SetCharacterAt(line, Span(0, columns), i, c);
    if i > 0 {
      BlankedDownAt(Put(line, columns, i, c), columns, i - 1, style, k);
    }
  }

  lemma {:induction false} BlankedUpAt(line: Line, columns: nat, i: nat, end: nat, style: Style, k: nat)
    ensures At(BlankedUp(line, columns, i, end, style), k) ==
            if i <= k < end && k < columns then Some(Character([SPACE], style)) else At(line, k)
    decreases end - i
  {
    if i < end {
      var c := Character([SPACE], style);
      SetCharacterAt(line, Span(0, columns), i, c);
      BlankedUpAt(Put(line, columns, i, c), columns, i + 1, end, style, k);
    }
  }

  lemma {:induction false} RemovedRangeAt(line: Line, columns: nat, i: nat, end: nat, k: nat)
    ensures At(RemovedRange(line, columns, i, end), k) == if i <= k < end && k < columns then None else At(line, k)
    decreases end - i
  {
    if i < end {
      RemovedRangeAt(RemoveCharacter(line, Span(0, columns), i), columns, i + 1, end, k);
    }
  }

  /** A slot takes what is `count` further right, if that is on the line; what was moved and not replaced is gone. */
  function Closed(line: Line, columns: nat, from: nat, end: nat, count: nat, k: nat): Option<Character> {
    if from <= k < end && k + count < |line| && k + count < columns then if count == 0 then None else At(line, k + count)
    else if from + count <= k < end + count && k < |line| && k < columns then None
    else At(line, k)
  }

  lemma {:induction false} ShiftedLeftAt(line: Line, columns: nat, i: nat, end: nat, count: nat, k: nat)
    ensures At(ShiftedLeft(line, columns, i, end, count), k) == Closed(line, columns, i, end, count, k)
    decreases end - i
  {
    if i < end {
      var moved := MoveCharacter(line, Span(0, columns), i + count, i);
      MoveCharacterAt(line, Span(0, columns), i + count, i);
      ShiftedLeftAt(moved, columns, i + 1, end, count, k);
    }
  }

  /** A slot takes what is `count` further left, and blanks fill what was left. */
  function Opened(line: Line, columns: nat, last: nat, column: nat, count: nat, k: nat): Option<Character> {
    if count >= 1 && column + count <= k <= last + count && k < columns then At(line, k - count)
    else if column <= k <= last then Some(BLANK)
    else At(line, k)
  }

  lemma {:induction false} ShiftedRightAt(line: Line, columns: nat, i: nat, column: nat, count: nat, k: nat)
    requires i < columns && i + count < SIZE_SPAN
    requires i == columns - 1 || |line| > i + count || |line| >= columns
    ensures At(ShiftedRight(line, columns, i, column, count), k) == Opened(line, columns, i, column, count, k)
    decreases i
  {
    hide Put, MoveCharacter, At;
    if i >= column {
      OneShiftedAt(line, columns, i, count);
      var blanked := Put(MoveCharacter(line, Span(0, columns), i, Wrapped(i + count)), columns, i, BLANK);
      if i > 0 {
        ShiftedRightAt(blanked, columns, i - 1, column, count, k);
      }
    }
  }

  lemma OneShiftedAt(line: Line, columns: nat, i: nat, count: nat)
    requires i < columns && i + count < SIZE_SPAN
    requires i == columns - 1 || |line| > i + count || |line| >= columns
    ensures var blanked := Put(MoveCharacter(line, Span(0, columns), i, Wrapped(i + count)), columns, i, BLANK);
      && |blanked| == (if |line| <= i then i + 1 else |line|)
      && forall k: nat :: At(blanked, k) ==
           if k == i then Some(BLANK) else if k == i + count && k < columns then At(line, i) else At(line, k)
  {
    WrappedIsSame(i + count);
    var moved := MoveCharacter(line, Span(0, columns), i, i + count);
    MoveCharacterAt(line, Span(0, columns), i, i + count);
    SetCharacterAt(moved, Span(0, columns), i, BLANK);
  }

  lemma WrappedIsSame(n: nat)
    requires n < SIZE_SPAN
    ensures Wrapped(n) == n
  {
  }

  /** On a full row the offset wraps around to one slot to the left: one character goes there, and blanks follow. */
  lemma {:induction false} FullRowShiftedAt(line: Line, columns: nat, i: nat, column: nat, k: nat)
    requires i < columns <= |line| && columns < SIZE_SPAN
    ensures At(ShiftedRight(line, columns, i, column, SIZE_SPAN - 1), k) ==
            if column <= i && k + 1 == column then At(line, i)
            else if column <= k <= i then Some(BLANK)
            else At(line, k)
    decreases i
  {
    if i >= column {
      var to := Wrapped(i + (SIZE_SPAN - 1));
      WrapsToLeft(i);
      var moved := MoveCharacter(line, Span(0, columns), i, to);
      var blanked := Put(moved, columns, i, BLANK);
      MoveCharacterAt(line, Span(0, columns), i, to);
      SetCharacterAt(moved, Span(0, columns), i, BLANK);
      if i > 0 {
        FullRowShiftedAt(blanked, columns, i - 1, column, k);
      }
    }
  }

  lemma WrapsToLeft(i: nat)
    requires i < SIZE_SPAN
    ensures Wrapped(i + (SIZE_SPAN - 1)) == if i == 0 then SIZE_SPAN - 1 else i - 1
  {
  }

  // ----- the table

  const PLAIN := Style(9, 9, false, false, false, false, false)

  const GAP := Character([32], PLAIN)

  /** A parameter that is missing, 0 or too large for the handler counts as 1. */
  function Amount(p: seq<uint32>, limit: nat): nat {
    if p == [] || p[0] == 0 || p[0] >= limit then 1 else p[0]
  }

  function Lesser(a: int, b: int): int {
    if a < b then a else b
  }

  /** Where the cursor is, how many rows down it was asked to go, and whether the line is given up and the column reset. */
  predicate IsAt(q: Run, r: Run, column: nat, down: int, isOver: bool, resets: bool) {
    && q.control.column == column && q.control.rowOffset == r.control.rowOffset + down
    && q.broken == isOver && q.control.action.ResetColumn? == resets
    && q.control.columns == r.control.columns
  }

  predicate Stays(q: Run, r: Run) {
    IsAt(q, r, r.control.column, 0, false, false)
  }

  ghost predicate KeepsLine(q: Run, r: Run) {
    forall k: nat :: At(q.line, k) == At(r.line, k)
  }

  /** A slot after blanks were put from `length` through `stop`. */
  function Widened(line: Line, columns: nat, length: nat, stop: nat, k: nat): Option<Character> {
    if length < stop && length <= k <= stop && k < columns then Some(GAP) else At(line, k)
  }

  ghost predicate IsPadded(q: Run, r: Run, stop: nat) {
    forall k: nat :: At(q.line, k) == Widened(r.line, r.control.columns, Length(r.line), stop, k)
  }

  /** CSI K: to the right, to the left, or the whole line. */
  ghost predicate IsErased(q: Run, r: Run, what: nat)
    requires r.control.columns >= 1
  {
    var start := Lesser(r.control.column, r.control.columns - 1);
    forall k: nat :: At(q.line, k) ==
      if (what == 0 || what == 2) && start <= k < Length(r.line) && k < r.control.columns then None
      else if (what == 1 || what == 2) && k <= start then Some(Character([32], r.control.style))
      else At(r.line, k)
  }

  /** CSI P: what follows moves up to the cursor. */
  ghost predicate IsClosed(q: Run, r: Run, n: nat) {
    var column, length := r.control.column, Length(r.line);
    if column >= length then KeepsLine(q, r)
    else
      var count := if column + n >= length then length - 1 else n;
      forall k: nat :: At(q.line, k) == Closed(r.line, r.control.columns, column, length, count, k)
  }

  /** CSI X */
  ghost predicate IsBlanked(q: Run, r: Run, n: nat) {
    forall k: nat :: At(q.line, k) ==
      if r.control.column <= k < r.control.column + n && k < Length(r.line) && k < r.control.columns
      then Some(Character([32], r.control.style)) else At(r.line, k)
  }

  /** CSI @: what is under the cursor and after it moves to the right; a full row moves one character to the left instead. */
  ghost predicate IsOpened(q: Run, r: Run, n: nat)
    requires Length(r.line) <= r.control.columns && r.control.columns >= 1
  {
    var columns, column, length := r.control.columns, r.control.column, Length(r.line);
    if length == columns && columns >= 2 then
      forall k: nat :: At(q.line, k) ==
        if column < columns && k + 1 == column then At(r.line, columns - 1)
        else if column <= k < columns then Some(GAP)
        else At(r.line, k)
    else if columns == 1 then KeepsLine(q, r)
    else
      var stop := Lesser(length + n, columns - 1);
      var shift := if length + n >= columns then columns - 1 - length else n;
      var last := if length == 0 then columns - 1 else length - 1;
      forall k: nat :: At(q.line, k) == Parted(r.line, columns, column, length, stop, shift, last, k)
  }

  function Parted(line: Line, columns: nat, column: nat, length: nat, stop: nat, shift: nat, last: nat, k: nat): Option<Character> {
    if shift >= 1 && column + shift <= k <= last + shift && k < columns then Widened(line, columns, length, stop, k - shift)
    else if column <= k <= last then Some(GAP)
    else Widened(line, columns, length, stop, k)
  }

  /** What a control sequence does, by its final byte. */
  ghost predicate Does(final: byte, p: seq<uint32>, r: Run, q: Run)
    requires r.control.columns >= 1
  {
    var column, columns, n := r.control.column, r.control.columns, Amount(p, 0x8000_0000);
    && (if final == 'm' as int then IsDecided(q.control.style, r.control.style, Heard(p)) else q.control.style == r.control.style)
    && match final as char
       case 'A' => KeepsLine(q, r) && IsAt(q, r, column, 0 - n, true, false)
       case 'B' => KeepsLine(q, r) && IsAt(q, r, column, n, true, false)
       case 'C' =>
         if column + n >= columns then KeepsLine(q, r) && IsAt(q, r, column + n, 0, true, false)
         else IsPadded(q, r, column + n) && IsAt(q, r, column + n, 0, false, false)
       case 'D' =>
         var to := if n > column then 0 else column - n;
         IsPadded(q, r, to) && IsAt(q, r, to, 0, false, false)
       case 'E' => KeepsLine(q, r) && IsAt(q, r, column, n, true, true)
       case 'F' => KeepsLine(q, r) && IsAt(q, r, column, 0 - Amount(p, 0x1_0000_0000), true, true)
       case 'G' =>
         var to := if n > columns then 1 else n - 1;
         IsPadded(q, r, to) && IsAt(q, r, to, 0, false, false)
       case 'K' => IsErased(q, r, if p == [] then 0 else p[0]) && Stays(q, r)
       case 'P' => IsClosed(q, r, n) && Stays(q, r)
       case 'X' => IsBlanked(q, r, n) && Stays(q, r)
       case '@' => (Length(r.line) <= columns < 0x8000_0000 ==> IsOpened(q, r, n)) && Stays(q, r)
       case _ => KeepsLine(q, r) && Stays(q, r)
  }

  // ----- the handlers do it

  lemma PaddedAt(line: Line, columns: nat, stop: nat)
    ensures forall k: nat :: At(Padded(line, columns, Length(line), stop), k) == Widened(line, columns, Length(line), stop, k)
    ensures Length(line) < stop ==> |Padded(line, columns, Length(line), stop)| > stop
    ensures |Padded(line, columns, Length(line), stop)| >= |line|
  {
    hide FillRange;
    if stop > Length(line) {
      FillRangeLength(line, columns, Length(line), stop + 1);
      forall k: nat ensures At(Padded(line, columns, Length(line), stop), k) == Widened(line, columns, Length(line), stop, k) {
        FillRangeAt(line, columns, Length(line), stop + 1, k);
      }
    }
  }

  lemma MovingPads(r: Run, p: seq<uint32>)
    requires r.control.columns >= 1 && !r.broken && r.control.action.PreserveColumn?
    ensures Does('C' as int, p, r, OnMoveRight(r, p)) && Does('D' as int, p, r, OnMoveLeft(r, p)) && Does('G' as int, p, r, OnMoveToColumn(r, p))
  {
    hide Padded, Widened, Length;
    PaddedAt(r.line, r.control.columns, OnMoveRight(r, p).control.column);
    PaddedAt(r.line, r.control.columns, OnMoveLeft(r, p).control.column);
    PaddedAt(r.line, r.control.columns, OnMoveToColumn(r, p).control.column);
  }

  lemma ErasingErases(r: Run, p: seq<uint32>)
    requires r.control.columns >= 1 && !r.broken && r.control.action.PreserveColumn?
    ensures Does('K' as int, p, r, OnEraseLine(r, p))
  {
    hide BlankedDown, RemovedRange;
    var c, q := r.control, OnEraseLine(r, p);
    var what, start := if p == [] then 0 else p[0], Lesser(c.column, c.columns - 1);
    var left := if what == 1 || what == 2 then BlankedDown(r.line, c.columns, start, c.style) else r.line;
    forall k: nat
      ensures At(q.line, k) ==
              if (what == 0 || what == 2) && start <= k < Length(r.line) && k < c.columns then None
              else if (what == 1 || what == 2) && k <= start then Some(Character([32], c.style))
              else At(r.line, k)
    {
      BlankedDownAt(r.line, c.columns, start, c.style, k);
      RemovedRangeAt(left, c.columns, start, Length(r.line), k);
    }
  }

  lemma DeletingCloses(r: Run, p: seq<uint32>)
    requires r.control.columns >= 1 && !r.broken && r.control.action.PreserveColumn?
    ensures Does('P' as int, p, r, OnDeleteCharacters(r, p)) && Does('X' as int, p, r, OnEraseCharacters(r, p))
  {
    hide ShiftedLeft, BlankedUp, Closed;
    var c, length, n := r.control, Length(r.line), Amount(p, 0x8000_0000);
    var count: nat := if c.column + n >= length && length > 0 then length - 1 else n;
    var end := if c.column + n < length then c.column + n else length;
    forall k: nat
      ensures c.column < length ==> At(OnDeleteCharacters(r, p).line, k) == Closed(r.line, c.columns, c.column, length, count, k)
    {
      if c.column < length {
        ShiftedLeftAt(r.line, c.columns, c.column, length, count, k);
      }
    }
    forall k: nat
      ensures At(OnEraseCharacters(r, p).line, k) ==
              if c.column <= k < end && k < c.columns then Some(Character([32], c.style)) else At(r.line, k)
    {
      BlankedUpAt(r.line, c.columns, c.column, end, c.style, k);
    }
  }

  lemma InsertingOpensFullRow(r: Run, p: seq<uint32>)
    requires 2 <= r.control.columns < 0x8000_0000 && Length(r.line) == r.control.columns
    ensures IsOpened(OnInsertBlanks(r, p), r, Amount(p, 0x8000_0000))
  {
    hide ShiftedRight, FillRange;
    var c, q := r.control, OnInsertBlanks(r, p);
    assert Wrapped(c.columns - c.columns - 1) == SIZE_SPAN - 1;
    forall k: nat
      ensures At(q.line, k) ==
              if c.column < c.columns && k + 1 == c.column then At(r.line, c.columns - 1)
              else if c.column <= k < c.columns then Some(GAP)
              else At(r.line, k)
    {
      FullRowShiftedAt(r.line, c.columns, c.columns - 1, c.column, k);
    }
  }

  lemma InsertingOpens(r: Run, p: seq<uint32>)
    requires 2 <= r.control.columns < 0x8000_0000 && Length(r.line) < r.control.columns
    ensures IsOpened(OnInsertBlanks(r, p), r, Amount(p, 0x8000_0000))
  {
    hide ShiftedRight, Padded, Opened, Widened;
    var c, q, length, n := r.control, OnInsertBlanks(r, p), Length(r.line), Amount(p, 0x8000_0000);
    var stop: nat := Lesser(length + n, c.columns - 1);
    var shift: nat := if length + n >= c.columns then c.columns - 1 - length else n;
    var last: nat := if length == 0 then c.columns - 1 else length - 1;
    var padded := Padded(r.line, c.columns, length, stop);
    PaddedAt(r.line, c.columns, stop);
    WrappedIsSame(c.columns - 1 - length);
    assert q.line == ShiftedRight(padded, c.columns, last, c.column, shift);
    forall k: nat
      ensures At(q.line, k) == Parted(r.line, c.columns, c.column, length, stop, shift, last, k)
    {
      RowHasSlots(r, stop, last, shift);
      ShiftedRightAt(padded, c.columns, last, c.column, shift, k);
      OpenedIs(padded, c.columns, last, c.column, shift, k);
    }
  }

  lemma OpenedIs(line: Line, columns: nat, last: nat, column: nat, count: nat, k: nat)
    ensures Opened(line, columns, last, column, count, k) ==
            if count >= 1 && column + count <= k <= last + count && k < columns then At(line, k - count)
            else if column <= k <= last then Some(GAP)
            else At(line, k)
  {
  }

  lemma RowHasSlots(r: Run, stop: nat, last: nat, shift: nat)
    requires Length(r.line) < r.control.columns && stop <= r.control.columns - 1
    requires last == if Length(r.line) == 0 then r.control.columns - 1 else Length(r.line) - 1
    requires stop > Length(r.line) || shift == 0
    requires shift >= 1 ==> stop >= Length(r.line) + shift || stop == r.control.columns - 1
    ensures var padded := Padded(r.line, r.control.columns, Length(r.line), stop);
      last == r.control.columns - 1 || |padded| > last + shift || |padded| >= r.control.columns
  {
    hide FillRange;
    PaddedAt(r.line, r.control.columns, stop);
  }

  lemma InsertingDoes(r: Run, p: seq<uint32>)
    requires r.control.columns >= 1 && !r.broken && r.control.action.PreserveColumn?
    ensures Does('@' as int, p, r, OnInsertBlanks(r, p))
  {
    hide ShiftedRight, Padded;
    var c := r.control;
    if Length(r.line) <= c.columns < 0x8000_0000 {
      if c.columns == 1 {
        assert Wrapped(0) == 0;
      } else if Length(r.line) == c.columns {
        InsertingOpensFullRow(r, p);
      } else {
        InsertingOpens(r, p);
      }
    }
  }

  lemma SequencesDo(r: Run, final: byte, p: seq<uint32>)
    requires r.control.columns >= 1 && !r.broken && r.control.action.PreserveColumn?
    ensures Does(final, p, r, OnSequence(r, final, p))
  {
    hide Length, OnInsertBlanks, OnMoveRight, OnMoveLeft, OnMoveToColumn, OnEraseLine, OnDeleteCharacters, OnEraseCharacters, IsOpened, IsErased,
      IsClosed, IsBlanked, IsPadded, IsDecided, WithAttributes;
    ParametersDecide(r.control.style, p);
    match final as char {
      case 'C' => MovingPads(r, p);
      case 'D' => MovingPads(r, p);
      case 'G' => MovingPads(r, p);
      case 'K' => ErasingErases(r, p);
      case 'P' => DeletingCloses(r, p);
      case 'X' => DeletingCloses(r, p);
      case '@' => InsertingDoes(r, p);
      case _ =>
    }
  }

  // ----- whole sequences

  /** The table looks at the line, the cursor and the style only. */
  lemma DoesIgnoresScratch(final: byte, p: seq<uint32>, r: Run, s: Run, q: Run, t: Run)
    requires r.control.columns >= 1 && s.control.columns >= 1 && Does(final, p, s, t) && r.line == s.line && q.line == t.line && q.broken == t.broken
    requires Bare(r.control) == Bare(s.control) && r.control.style == s.control.style
    requires Bare(q.control) == Bare(t.control) && q.control.style == t.control.style && q.control.action == t.control.action
    ensures Does(final, p, r, q)
  {
    SameCursor(r.control, s.control);
    SameCursor(q.control, t.control);
    SlotsIgnoreScratch(r, s, q, t);
    CursorIgnoresScratch(r, s, q, t);
    hide Bare, Amount, KeepsLine, IsPadded, IsErased, IsClosed, IsBlanked, IsOpened, IsDecided, Length, IsAt, Stays, Heard;
  }

  lemma CursorIgnoresScratch(r: Run, s: Run, q: Run, t: Run)
    requires Bare(r.control) == Bare(s.control) && Bare(q.control) == Bare(t.control)
    requires q.broken == t.broken && q.control.action == t.control.action
    ensures Stays(q, r) == Stays(t, s)
    ensures forall column: nat, down, isOver, resets :: IsAt(q, r, column, down, isOver, resets) == IsAt(t, s, column, down, isOver, resets)
  {
  }

  lemma SlotsIgnoreScratch(r: Run, s: Run, q: Run, t: Run)
    requires r.line == s.line && q.line == t.line && r.control.style == s.control.style
    requires r.control.column == s.control.column && r.control.columns == s.control.columns >= 1
    ensures KeepsLine(q, r) == KeepsLine(t, s)
    ensures forall n: nat :: IsPadded(q, r, n) == IsPadded(t, s, n) && IsErased(q, r, n) == IsErased(t, s, n)
    ensures forall n: nat :: IsClosed(q, r, n) == IsClosed(t, s, n) && IsBlanked(q, r, n) == IsBlanked(t, s, n)
    ensures Length(r.line) <= r.control.columns ==> forall n: nat :: IsOpened(q, r, n) == IsOpened(t, s, n)
  {
    hide Length, Widened, Closed, At, Parted;
  }

  lemma SameCursor(c: Control, d: Control)
    requires Bare(c) == Bare(d)
    ensures c.columns == d.columns && c.column == d.column && c.rowOffset == d.rowOffset
  {
  }

  /** ESC [, parameters and a final byte do to the line and the cursor what the table says, and nothing else that shows. */
  lemma SequenceDoes(r: Run, fields: seq<seq<byte>>, final: byte)
    requires Resting(r) && !r.broken && fields != [] && AreFields(fields) && IsFinal(final)
    ensures Does(final, Recent(Values(fields)), r, Steps(r, [ESC] + ([BRACKET] + Joined(fields) + [final])))
  {
    hide Step, Ran, Does, OnSequence, Recent;
    var body, p := Joined(fields), Recent(Values(fields));
    JoinedIsBody(fields);
    EscapeIsRead(r);
    Attributes.OneStep(r, ESC);
    StepsConcat(r, [ESC], [BRACKET] + body + [final]);
    SequenceIsDispatched(Escaping(r), body, fields, final);
    var k := Command(final, Sequence, p, true);
    assert [] + [k] == [k];
    var lastWasInteger := fields[|fields| - 1] != [];
    OneCommandRuns(r, lastWasInteger, k);
    var s := r.(control := r.control.(mode := Unescaped, staged := None, value := 0, lastWasInteger := lastWasInteger, pending := [k],
                                      action := PreserveColumn, partial := [], multiByte := false, partialSize := 1));
    SequencesDo(s, final, p);
    DoesIgnoresScratch(final, p, r, s, Ran(Escaping(r), lastWasInteger, [k]), OnSequence(s, final, p));
  }

  lemma OneCommandRuns(r: Run, lastWasInteger: bool, k: Command)
    requires Resting(r) && k.kind.Sequence? && k.valid
    ensures var c := r.control.(mode := Unescaped, staged := None, value := 0, lastWasInteger := lastWasInteger, pending := [k],
                                action := PreserveColumn, partial := [], multiByte := false, partialSize := 1);
      var d := OnSequence(r.(control := c), k.code, k.parameters);
      Ran(Escaping(r), lastWasInteger, [k]) == d.(control := d.control.(pending := []))
  {
    hide OnSequence;
    var c := r.control.(mode := Unescaped, staged := None, value := 0, lastWasInteger := lastWasInteger, pending := [k],
                        action := PreserveColumn, partial := [], multiByte := false, partialSize := 1);
    assert [k][1..] == [];
    assert DispatchAll(r.(control := c), [k]) == DispatchAll(Dispatch(r.(control := c), k), [k][1..]);
  }

  // ----- control characters and escape codes

  /** Backspace, tab, line feeds and carriage return; the other control characters do nothing. */
  ghost predicate DoesControl(code: byte, r: Run, q: Run) {
    var column, columns, length := r.control.column, r.control.columns, Length(r.line);
    && q.control.style == r.control.style
    && if code == 8 then KeepsLine(q, r) && IsAt(q, r, if column == 0 then 0 else column - 1, 0, false, false)
       else if code == 9 then
         var pad := 8 - column % 8;
         var to := Lesser(column + pad, columns - 1);
         && to >= 0 && IsAt(q, r, to, 0, false, false)
         && (if r.control.rowOffset != 0 || to < length then KeepsLine(q, r)
             else forall k: nat :: At(q.line, k) == if length <= k < length + pad && k < columns - 1 then Some(GAP) else At(r.line, k))
       else if code in {10, 11, 12} then KeepsLine(q, r) && IsAt(q, r, column, 1, true, true)
       else if code == 13 then KeepsLine(q, r) && IsAt(q, r, 0, 0, false, true)
       else KeepsLine(q, r) && Stays(q, r)
  }

  lemma ControlCharactersDo(r: Run, code: byte)
    requires r.control.columns >= 1 && !r.broken && r.control.action.PreserveColumn?
    ensures DoesControl(code, r, OnControlCharacter(r, code))
  {
    hide FillRange;
    var c, length := r.control, Length(r.line);
    var pad := 8 - c.column % 8;
    var end := if length + pad >= c.columns - 1 then c.columns - 1 else length + pad;
    forall k: nat
      ensures At(FillRange(r.line, c.columns, length, end), k) ==
              if length <= k < length + pad && k < c.columns - 1 then Some(GAP) else At(r.line, k)
    {
      FillRangeAt(r.line, c.columns, length, end, k);
    }
  }

  lemma DoesControlIgnoresScratch(code: byte, r: Run, s: Run, q: Run, t: Run)
    requires DoesControl(code, s, t) && r.line == s.line && q.line == t.line && q.broken == t.broken
    requires Bare(r.control) == Bare(s.control) && r.control.style == s.control.style
    requires Bare(q.control) == Bare(t.control) && q.control.style == t.control.style && q.control.action == t.control.action
    ensures DoesControl(code, r, q)
  {
    hide Length, At;
  }

  /** One control character, read between others. */
  lemma ControlCharacterDoes(r: Run, code: byte)
    requires Resting(r) && !r.broken && IsControl(code) && code != 0 && code != ESC
    ensures DoesControl(code, r, Step(r, code))
  {
    hide DoesControl, OnControlCharacter;
    var k := Command(code, ControlCharacter, [], false);
    var s := r.(control := r.control.(action := PreserveColumn, multiByte := false, partial := [], partialSize := 1, staged := None,
                                      pending := [k]));
    ControlIsDispatched(r, code);
    ControlCharactersDo(s, code);
    DoesControlIgnoresScratch(code, r, s, Step(r, code), OnControlCharacter(s, code));
  }

  lemma ControlIsDispatched(r: Run, code: byte)
    requires Resting(r) && !r.broken && IsControl(code) && code != 0 && code != ESC
    ensures var k := Command(code, ControlCharacter, [], false);
      var d := OnControlCharacter(r.(control := r.control.(action := PreserveColumn, multiByte := false, partial := [], partialSize := 1,
                                                           staged := None, pending := [k])), code);
      Step(r, code) == d.(control := d.control.(pending := []))
  {
    hide OnControlCharacter;
    var k := Command(code, ControlCharacter, [], false);
    var c := r.control.(action := PreserveColumn, multiByte := false, partial := [], partialSize := 1, staged := None, pending := [k]);
    assert [] + [k] == [k] && [k][1..] == [];
    assert DispatchAll(r.(control := c), [k]) == DispatchAll(Dispatch(r.(control := c), k), [k][1..]);
  }

  /** ESC D, ESC E and ESC M move by a row; other codes do nothing. */
  lemma EscapeCodeDoes(r: Run, code: byte)
    requires Resting(r) && !r.broken && 0 < code < 0x80 && code != BRACKET
    ensures var q := Steps(r, [ESC, code]);
      && KeepsLine(q, r) && q.control.style == r.control.style
      && IsAt(q, r, r.control.column, if code == 'D' as int || code == 'E' as int then 1 else if code == 'M' as int then -1 else 0,
              code == 'D' as int || code == 'E' as int || code == 'M' as int, code == 'E' as int)
  {
    EscapeIsRead(r);
    assert [ESC, code][1..] == [code];
    Attributes.OneStep(Escaping(r), code);
    assert Steps(r, [ESC, code]) == Step(Escaping(r), code);
    EscapeCodeIsDispatched(r, code);
  }

  lemma EscapeCodeIsDispatched(r: Run, code: byte)
    requires Resting(r) && !r.broken && 0 < code < 0x80 && code != BRACKET
    ensures var k := Command(code, EscapeCode, [], false);
      var d := OnEscapeCode(r.(control := r.control.(action := PreserveColumn, multiByte := false, partial := [], partialSize := 1,
                                                     staged := None, pending := [k], mode := Unescaped)), code);
      Step(Escaping(r), code) == d.(control := d.control.(pending := []))
  {
    hide OnEscapeCode;
    var k := Command(code, EscapeCode, [], false);
    var c := r.control.(action := PreserveColumn, multiByte := false, partial := [], partialSize := 1, staged := None, pending := [k],
                        mode := Unescaped);
    assert [] + [k] == [k] && [k][1..] == [];
    assert DispatchAll(r.(control := c), [k]) == DispatchAll(Dispatch(r.(control := c), k), [k][1..]);
  }

  // ----- sequences that are not understood

  /** In a sequence, with everything that shows as it was; `valid` says whether it can still be run. */
  predicate IsReading(q: Run, r: Run, valid: bool) {
    && q == r.(control := q.control) && Bare(q.control) == Bare(r.control) && q.control.style == r.control.style
    && q.control.mode.ControlSequence? && q.control.pending == [] && !q.control.multiByte && q.control.columns >= 1
    && q.control.staged.Some? && q.control.staged.value.kind.Sequence? && q.control.staged.value.valid == valid
  }

  lemma {:induction false} BodyIsRead(q: Run, r: Run, s: seq<byte>, valid: bool)
    requires IsReading(q, r, valid) && (forall b <- s :: 32 <= b < 64)
    ensures IsReading(Steps(q, s), r, valid && forall b <- s :: IsDigit(b) || b == SEMICOLON)
    decreases s
  {
    if s != [] {
      var next := Step(q, s[0]);
      assert s[0] in s && forall b <- s[1..] :: b in s;
      assert IsReading(next, r, valid && (IsDigit(s[0]) || s[0] == SEMICOLON)) by {
        hide WithDigit, WithParameter;
      }
      HeadAndTail(s);
      hide Step;
      BodyIsRead(next, r, s[1..], valid && (IsDigit(s[0]) || s[0] == SEMICOLON));
    }
  }

  lemma FinalIsIgnored(q: Run, r: Run, final: byte)
    requires Resting(r) && !r.broken && IsReading(q, r, false) && IsFinal(final)
    ensures var t := Step(q, final); KeepsLine(t, r) && Stays(t, r) && t.control.style == r.control.style
  {
    hide OnSequence, OnControlCharacter, OnEscapeCode;
    var k := q.control.staged.value.(code := final, parameters := WithParameter(q.control.staged.value.parameters, q.control.value));
    assert [] + [k] == [k] && [k][1..] == [];
    var p := Parsed(Interrupted(Preserving(q)).(control := Interrupted(Preserving(q)).control.(multiByte := false, partialSize := 1)), final);
    assert p.control.pending == [k];
    assert DispatchAll(p, [k]) == DispatchAll(Dispatch(p, k), [k][1..]);
  }

  /** A sequence with anything else among its parameters is read to its end and does nothing. */
  lemma OtherSequencesDoNothing(r: Run, body: seq<byte>, final: byte)
    requires Resting(r) && !r.broken && IsFinal(final)
    requires (forall b <- body :: 32 <= b < 64) && exists b <- body :: !IsDigit(b) && b != SEMICOLON
    ensures var q := Steps(r, [ESC] + ([BRACKET] + body + [final]));
      KeepsLine(q, r) && Stays(q, r) && q.control.style == r.control.style
  {
    EscapeIsRead(r);
    BracketBegins(r);
    hide Step, IsReading, KeepsLine, IsDigit;
    Attributes.OneStep(r, ESC);
    StepsConcat(r, [ESC], [BRACKET] + body + [final]);
    BodyIsRead(Step(Escaping(r), BRACKET), r, body, true);
    FirstAndLastStep(Escaping(r), BRACKET, body, final);
    FinalIsIgnored(Steps(Step(Escaping(r), BRACKET), body), r, final);
  }

  lemma BracketBegins(r: Run)
    requires Resting(r) && !r.broken
    ensures IsReading(Step(Escaping(r), BRACKET), r, true)
  {
  }

  // ----- taking a line up

  /** A run begins on the cursor's line: a column past the margin returns to the first, and a gap before the cursor is filled. */
  lemma LineIsTakenUp(e: Emulator)
    requires Sound(e)
    ensures var r, line := Open(e), e.lines[Slot(CursorRow(e), e.rows)];
      && r.control.column == (if e.control.column >= e.control.columns then 0 else e.control.column)
      && r.control.style == e.control.style && r.control.columns == e.control.columns && !r.broken
      && forall k: nat :: At(r.line, k) == Widened(line, e.control.columns, Length(line), r.control.column, k)
  {
    hide Padded, Length;
    var line := e.lines[Slot(CursorRow(e), e.rows)];
    PaddedAt(line, e.control.columns, if e.control.column >= e.control.columns then 0 else e.control.column);
  }
}
