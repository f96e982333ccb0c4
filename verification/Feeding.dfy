/**
 How runs follow one another: a ring of lines is fed with bytes
 (parse_lines and the two ends of parse_substring in
 src/libply-splash-core/ply-terminal-emulator.c).
 */
module Feeding {
  import opened Base
  import opened Utf8
  import opened RichText
  import opened Screen

  /** The emulator between two calls: `lines` is the ring, `lineCount` the number of lines ever begun. */
  datatype Emulator = Emulator(rows: nat, lineCount: nat, lines: seq<Line>, control: Control)

  /** The slot of the ring that line `n` is kept in. */
  function Slot(n: nat, rows: nat): (slot: nat)
    requires rows >= 1
    ensures slot < rows
  {
    n % rows
  }

  predicate Sound(e: Emulator) {
    && e.rows >= 1 && |e.lines| == e.rows && e.lineCount >= 1
    && Steppable(e.control) && e.control.rowOffset <= 0
  }

  const FRESH_CONTROL := Control(Unescaped, 1, 0, 0, PreserveColumn, false, 0, None, [], false, [], 0, DEFAULT_STYLE)

  /** A new emulator: every line empty, the cursor at the start of the first. */
  function Fresh(rows: nat, columns: nat): (e: Emulator)
    requires rows >= 1 && columns >= 1
    ensures Sound(e)
  {
    Emulator(rows, 1, seq(rows, i => []), FRESH_CONTROL.(columns := columns))
  }

  /** Moving up stops at the first line. */
  function Clamped(rowOffset: int, lineCount: nat): int
    requires lineCount >= 1
  {
    if rowOffset < 0 && 0 - rowOffset > lineCount - 1 then 0 - (lineCount - 1) else rowOffset
  }

  function CursorRow(e: Emulator): (row: nat)
    requires Sound(e)
    ensures row < e.lineCount
  {
    e.lineCount - 1 + Clamped(e.control.rowOffset, e.lineCount)
  }

  /** Begin a run on `line`: a column past the margin returns to 0, a gap before the cursor is padded. */
  function Begun(control: Control, line: Line): Run {
    var c := if control.column >= control.columns then control.(column := 0) else control;
    var length := Length(line);
    Run(c, if c.column >= length then Padded(line, c.columns, length, c.column) else line, false)
  }

  function Open(e: Emulator): (r: Run)
    requires Sound(e)
    ensures !r.broken && Steppable(r.control)
  {
    Begun(e.control.(rowOffset := Clamped(e.control.rowOffset, e.lineCount)), e.lines[Slot(CursorRow(e), e.rows)])
  }

  /** `count` new lines: the slots they take in the ring are emptied. */
  function Appended(lines: seq<Line>, lineCount: nat, count: nat): (r: seq<Line>)
    requires |lines| >= 1
    ensures |r| == |lines|
    decreases count
  {
    if count == 0 then lines
    else Appended(lines[Slot(lineCount, |lines|) := []], lineCount + 1, count - 1)
  }

  function Down(c: Control): nat {
    if c.rowOffset > 0 then c.rowOffset else 0
  }

  /** What is remembered of the control state when a run ends. */
  function Ended(c: Control): Control {
    c.(rowOffset := if c.rowOffset > 0 then 0 else c.rowOffset,
       column := if c.action.ResetColumn? then 0 else c.column)
  }

  /** End the run `r` that was opened on `e`. */
  function Commit(e: Emulator, r: Run): (f: Emulator)
    requires Sound(e) && Steppable(r.control)
    ensures Sound(f) && f.rows == e.rows
  {
    var kept := e.lines[Slot(CursorRow(e), e.rows) := r.line];
    Emulator(e.rows, e.lineCount + Down(r.control), Appended(kept, e.lineCount, Down(r.control)), Ended(r.control))
  }

  /** Take the rest of the input in the run `r`, opened on `e`, and in the runs that follow it. */
  function Feed(e: Emulator, r: Run, input: seq<byte>): (f: Emulator)
    requires Sound(e) && Steppable(r.control)
    ensures Sound(f) && f.rows == e.rows
    decreases |input|, if Due(r) then 1 else 0
  {
    if input == [] then Commit(e, r)
    else if Due(r) then Feed(Commit(e, r), Open(Commit(e, r)), input)
    else Feed(e, Step(r, input[0]), input[1..])
  }

  function ParseLines(e: Emulator, text: seq<byte>): (f: Emulator)
    requires Sound(e)
    ensures Sound(f)
  {
    if text == [] then e else Feed(e, Open(e), text)
  }

  /** The emulator a run was opened on, and the run, once `input` was taken but not yet committed. */
  function After(e: Emulator, r: Run, input: seq<byte>): (p: (Emulator, Run))
    requires Sound(e) && Steppable(r.control)
    ensures Sound(p.0) && Steppable(p.1.control)
    decreases |input|, if Due(r) then 1 else 0
  {
    if input == [] then (e, r)
    else if Due(r) then After(Commit(e, r), Open(Commit(e, r)), input)
    else After(e, Step(r, input[0]), input[1..])
  }

  lemma {:induction false} FeedSplits(e: Emulator, r: Run, a: seq<byte>, b: seq<byte>)
    requires Sound(e) && Steppable(r.control)
    ensures var p := After(e, r, a); Feed(e, r, a + b) == Feed(p.0, p.1, b)
    decreases |a|, if Due(r) then 1 else 0
  {
    if a == [] {
      assert a + b == b;
    } else if Due(r) {
      FeedSplits(Commit(e, r), Open(Commit(e, r)), a, b);
    } else {
      assert (a + b)[1..] == a[1..] + b;
      FeedSplits(e, Step(r, a[0]), a[1..], b);
    }
  }

  lemma {:induction false} FeedIsCommitted(e: Emulator, r: Run, a: seq<byte>)
    requires Sound(e) && Steppable(r.control)
    ensures var p := After(e, r, a); Feed(e, r, a) == Commit(p.0, p.1)
  {
    FeedSplits(e, r, a, []);
    assert a + [] == a;
  }

  lemma {:induction false} AppendedAt(lines: seq<Line>, lineCount: nat, count: nat, i: nat)
    requires |lines| >= 1 && i < |lines|
    ensures Appended(lines, lineCount, count)[i] ==
            if exists n: nat :: lineCount <= n < lineCount + count && Slot(n, |lines|) == i then [] else lines[i]
    decreases count
  {
    if count > 0 {
      AppendedAt(lines[Slot(lineCount, |lines|) := []], lineCount + 1, count - 1, i);
      if Slot(lineCount, |lines|) == i {
        assert lineCount <= lineCount < lineCount + count && Slot(lineCount, |lines|) == i;
      }
    }
  }
}
