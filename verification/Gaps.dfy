/** Which slots of a line the drawing functions leave filled. */
module Gaps {
  import opened Base
  import opened RichText
  import opened Screen

  lemma PutKeepsFilled(line: Line, columns: nat, i: nat, c: Character, n: nat)
    requires Filled(line, n)
    ensures Filled(Put(line, columns, i, c), n)
    ensures i == n && i < columns ==> Filled(Put(line, columns, i, c), n + 1)
  {
    SetCharacterAt(line, Span(0, columns), i, c);
  }

  lemma {:induction false} FillRangeFills(line: Line, columns: nat, i: nat, end: nat)
    requires Filled(line, i) && end <= columns
    ensures Filled(FillRange(line, columns, i, end), i)
    ensures i <= end ==> Filled(FillRange(line, columns, i, end), end)
    decreases end - i
  {
    if i < end {
      PutKeepsFilled(line, columns, i, BLANK, i);
      FillRangeFills(Put(line, columns, i, BLANK), columns, i + 1, end);
    }
  }

  /** Padding up to a column leaves no gap before it, nor at it when it lay past the end. */
  lemma PaddedFills(line: Line, columns: nat, stop: nat)
    requires stop < columns
    ensures Filled(Padded(line, columns, Length(line), stop), stop)
    ensures Length(line) < stop ==> Filled(Padded(line, columns, Length(line), stop), stop + 1)
    ensures Filled(Padded(line, columns, Length(line), stop), Length(line))
  {
    if stop > Length(line) {
      FillRangeFills(line, columns, Length(line), stop + 1);
    }
  }

  lemma {:induction false} ShiftedRightKeepsFilled(line: Line, columns: nat, i: nat, column: nat, count: nat, n: nat)
    requires Filled(line, n)
    requires n <= column <= i + 1
    requires i + count < SIZE_SPAN
    ensures Filled(ShiftedRight(line, columns, i, column, count), n)
    decreases i
  {
    if column <= i {
      var moved := MoveCharacter(line, Span(0, columns), i, i + count);
      MoveCharacterAt(line, Span(0, columns), i, i + count);
      assert Filled(moved, n);
      PutKeepsFilled(moved, columns, i, BLANK, n);
      if i > 0 {
        ShiftedRightKeepsFilled(Put(moved, columns, i, BLANK), columns, i - 1, column, count, n);
      }
    }
  }

  /** On a full row the count wraps around, so slots move left; they all stay filled whatever it is. */
  lemma {:induction false} FullRowStaysFilled(line: Line, columns: nat, i: nat, column: nat, count: nat)
    requires Filled(line, columns) && i < columns
    ensures Filled(ShiftedRight(line, columns, i, column, count), columns)
    decreases i
  {
    if column <= i {
      var to := Wrapped(i + count);
      var moved := MoveCharacter(line, Span(0, columns), i, to);
      MoveCharacterAt(line, Span(0, columns), i, to);
      SetCharacterAt(moved, Span(0, columns), i, BLANK);
      var blanked := Put(moved, columns, i, BLANK);
      assert Filled(blanked, columns);
      if i > 0 {
        FullRowStaysFilled(blanked, columns, i - 1, column, count);
      }
    }
  }

  lemma {:induction false} ShiftedLeftKeepsFilled(line: Line, columns: nat, i: nat, end: nat, count: nat, n: nat)
    requires Filled(line, n) && n <= i
    ensures Filled(ShiftedLeft(line, columns, i, end, count), n)
    decreases end - i
  {
    if i < end {
      MoveCharacterAt(line, Span(0, columns), i + count, i);
      ShiftedLeftKeepsFilled(MoveCharacter(line, Span(0, columns), i + count, i), columns, i + 1, end, count, n);
    }
  }

  lemma {:induction false} BlankedDownKeepsFilled(line: Line, columns: nat, i: nat, style: Style, n: nat)
    requires Filled(line, n)
    ensures Filled(BlankedDown(line, columns, i, style), n)
    decreases i
  {
    var c := Character([SPACE], style);
    PutKeepsFilled(line, columns, i, c, n);
    if i > 0 {
      BlankedDownKeepsFilled(Put(line, columns, i, c), columns, i - 1, style, n);
    }
  }

  lemma {:induction false} BlankedUpKeepsFilled(line: Line, columns: nat, i: nat, end: nat, style: Style, n: nat)
    requires Filled(line, n)
    ensures Filled(BlankedUp(line, columns, i, end, style), n)
    decreases end - i
  {
    if i < end {
      var c := Character([SPACE], style);
      PutKeepsFilled(line, columns, i, c, n);
      BlankedUpKeepsFilled(Put(line, columns, i, c), columns, i + 1, end, style, n);
    }
  }

  lemma {:induction false} RemovedRangeKeepsFilled(line: Line, columns: nat, i: nat, end: nat, n: nat)
    requires Filled(line, n) && n <= i
    ensures Filled(RemovedRange(line, columns, i, end), n)
    decreases end - i
  {
    if i < end {
      RemovedRangeKeepsFilled(RemoveCharacter(line, Span(0, columns), i), columns, i + 1, end, n);
    }
  }
}
