/**
 The ring of lines with a cursor counted from the bottom shows the tail of a
 document with a cursor counted from the top.

 In a document no line is ever thrown away and the cursor row is absolute.  The
 ring agrees with the document on its last `rows` lines for as long as the cursor
 stays among them; above them, the ring's slot belongs to a younger line.
 */
module LineRing {
  import opened Base
  import opened Arithmetic
  import opened Utf8
  import opened RichText
  import opened Screen
  import opened Feeding
  import opened ChunkIndependence

  /** Every line since boot, the absolute row of the cursor, and the control state (its row offset is not used). */
  datatype Document = Document(lines: seq<Line>, row: nat, control: Control)

  predicate Proper(d: Document) {
    d.row < |d.lines| && Steppable(d.control)
  }

  function Offset(d: Document): int {
    d.row - (|d.lines| - 1)
  }

  function OpenDocument(d: Document): (r: Run)
    requires Proper(d)
    ensures !r.broken && Steppable(r.control)
  {
    Begun(d.control.(rowOffset := Offset(d)), d.lines[d.row])
  }

  /** The row the cursor is on after a run: rows above the first do not exist. */
  function Target(d: Document, r: Run): nat
    requires Proper(d)
  {
    var row := |d.lines| - 1 + r.control.rowOffset;
    if row < 0 then 0 else row
  }

  function CommitDocument(d: Document, r: Run): (f: Document)
    requires Proper(d) && Steppable(r.control)
    ensures Proper(f)
  {
    var kept := d.lines[d.row := r.line];
    Document(kept + seq(Down(r.control), i => []), Target(d, r), Ended(r.control))
  }

  function FeedDocument(d: Document, r: Run, input: seq<byte>): (f: Document)
    requires Proper(d) && Steppable(r.control)
    ensures Proper(f)
    decreases |input|, if Due(r) then 1 else 0
  {
    if input == [] then CommitDocument(d, r)
    else if Due(r) then FeedDocument(CommitDocument(d, r), OpenDocument(CommitDocument(d, r)), input)
    else FeedDocument(d, Step(r, input[0]), input[1..])
  }

  function ParseDocument(d: Document, text: seq<byte>): (f: Document)
    requires Proper(d)
    ensures Proper(f)
  {
    if text == [] then d else FeedDocument(d, OpenDocument(d), text)
  }

  /** The cursor is on one of the last `rows` lines. */
  predicate InWindow(rows: nat, d: Document) {
    d.row + rows >= |d.lines|
  }

  /** Each run of the input is on one of the last `rows` lines. */
  predicate StaysInWindow(rows: nat, d: Document, r: Run, input: seq<byte>)
    requires Proper(d) && Steppable(r.control)
    decreases |input|, if Due(r) then 1 else 0
  {
    && InWindow(rows, d)
    && (if input == [] then true
        else if Due(r) then StaysInWindow(rows, CommitDocument(d, r), OpenDocument(CommitDocument(d, r)), input)
        else StaysInWindow(rows, d, Step(r, input[0]), input[1..]))
  }

  /** The slot of line `n` holds line `n`, for the last `rows` lines. */
  ghost predicate Shows(e: Emulator, d: Document)
    requires Sound(e)
  {
    forall n: nat :: |d.lines| - e.rows <= n < |d.lines| ==> e.lines[Slot(n, e.rows)] == d.lines[n]
  }

  /** The ring `e` shows the document `d`. */
  ghost predicate Refines(e: Emulator, d: Document) {
    && Sound(e) && Proper(d)
    && e.lineCount == |d.lines|
    && CursorRow(e) == d.row
    && e.control.(rowOffset := 0) == d.control.(rowOffset := 0)
    && Shows(e, d)
  }

  lemma FreshRefines(rows: nat, columns: nat)
    requires rows >= 1 && columns >= 1
    ensures Refines(Fresh(rows, columns), Document([[]], 0, FRESH_CONTROL.(columns := columns)))
  {
  }

  lemma WritingShows(e: Emulator, d: Document, line: Line)
    requires Sound(e) && Proper(d) && e.lineCount == |d.lines| && Shows(e, d) && InWindow(e.rows, d)
    ensures Shows(e.(lines := e.lines[Slot(d.row, e.rows) := line]), d.(lines := d.lines[d.row := line]))
  {
    var f := e.(lines := e.lines[Slot(d.row, e.rows) := line]);
    var g := d.(lines := d.lines[d.row := line]);
    forall n: nat | |g.lines| - f.rows <= n < |g.lines| ensures f.lines[Slot(n, f.rows)] == g.lines[n] {
      if n < d.row {
        RemaindersDiffer(n, d.row, e.rows);
      } else if d.row < n {
        RemaindersDiffer(d.row, n, e.rows);
      }
    }
  }

  /** Appending empties exactly the slots whose old lines leave the window. */
  lemma {:induction false} AppendingShows(e: Emulator, d: Document, count: nat)
    requires Sound(e) && e.lineCount == |d.lines| && Shows(e, d)
    ensures Shows(e.(lines := Appended(e.lines, e.lineCount, count), lineCount := e.lineCount + count),
                  d.(lines := d.lines + seq(count, i => [])))
    decreases count
  {
    if count == 0 {
      assert d.lines + seq(count, i => []) == d.lines;
    } else {
      var e1 := e.(lines := e.lines[Slot(e.lineCount, e.rows) := []], lineCount := e.lineCount + 1);
      var d1 := d.(lines := d.lines + [[]]);
      forall n: nat | |d1.lines| - e1.rows <= n < |d1.lines| ensures e1.lines[Slot(n, e1.rows)] == d1.lines[n] {
        if n < e.lineCount {
          RemaindersDiffer(n, e.lineCount, e.rows);
        }
      }
      AppendingShows(e1, d1, count - 1);
      var rest: seq<Line> := seq(count - 1, i => []);
      assert d1.lines + rest == d.lines + seq(count, i => []);
    }
  }

  /** A run is begun on the same line with the same state. */
  lemma OpeningAgrees(e: Emulator, d: Document)
    requires Refines(e, d) && InWindow(e.rows, d)
    ensures Open(e) == OpenDocument(d)
  {
    assert e.lines[Slot(CursorRow(e), e.rows)] == d.lines[d.row];
    assert Clamped(e.control.rowOffset, e.lineCount) == Offset(d);
    assert e.control.(rowOffset := Offset(d)) == e.control.(rowOffset := 0).(rowOffset := Offset(d));
    assert d.control.(rowOffset := Offset(d)) == d.control.(rowOffset := 0).(rowOffset := Offset(d));
  }

  lemma CommittingRefines(e: Emulator, d: Document, r: Run)
    requires Refines(e, d) && InWindow(e.rows, d) && Steppable(r.control)
    ensures Refines(Commit(e, r), CommitDocument(d, r))
  {
    WritingShows(e, d, r.line);
    var f := e.(lines := e.lines[Slot(d.row, e.rows) := r.line]);
    var g := d.(lines := d.lines[d.row := r.line]);
    AppendingShows(f, g, Down(r.control));
    var h := Commit(e, r);
    var k := CommitDocument(d, r);
    assert h.lines == Appended(f.lines, f.lineCount, Down(r.control));
    assert k.lines == g.lines + seq(Down(r.control), i => []);
    assert CursorRow(h) == k.row;
  }

  lemma {:induction false} FeedingRefines(e: Emulator, d: Document, r: Run, input: seq<byte>)
    requires Refines(e, d) && Steppable(r.control) && StaysInWindow(e.rows, d, r, input)
    ensures Refines(Feed(e, r, input), FeedDocument(d, r, input))
    decreases |input|, if Due(r) then 1 else 0
  {
    CommittingRefines(e, d, r);
    if input == [] {
    } else if Due(r) {
      OpeningAgrees(Commit(e, r), CommitDocument(d, r));
      FeedingRefines(Commit(e, r), CommitDocument(d, r), Open(Commit(e, r)), input);
    } else {
      FeedingRefines(e, d, Step(r, input[0]), input[1..]);
    }
  }

  /** The ring refines the document over every text whose runs stay in the window. */
  lemma RingRefinesDocument(e: Emulator, d: Document, text: seq<byte>)
    requires Refines(e, d)
    requires text != [] ==> StaysInWindow(e.rows, d, OpenDocument(d), text)
    ensures Refines(ParseLines(e, text), ParseDocument(d, text))
  {
    if text != [] {
      OpeningAgrees(e, d);
      FeedingRefines(e, d, OpenDocument(d), text);
    }
  }

  /** Text that never moves up stays on the last line, which is always in the window. */
  lemma {:induction false} NeverUpStaysInWindow(owed: nat, e: Emulator, d: Document, r: Run, input: seq<byte>)
    requires Refines(e, d) && InRun(owed, e, r) && WellFormed(owed, input) && NeverUp(r.control.mode, input)
    requires e.control.rowOffset == 0 && r.control.rowOffset >= 0
    ensures StaysInWindow(e.rows, d, r, input)
    decreases |input|, if Due(r) then 1 else 0
  {
    hide Refines, Step, MovesUp, WellFormed, CommitDocument, Commit;
    BottomRowIsInWindow(e, d);
    if input == [] {
    } else if Due(r) {
      CommittingRefines(e, d, r);
      CommitIsIdle(owed, e, r);
      OpenBeginsRun(owed, Commit(e, r));
      CommitStaysOnBottomRow(e, r);
      BottomRowIsInWindow(Commit(e, r), CommitDocument(d, r));
      OpeningAgrees(Commit(e, r), CommitDocument(d, r));
      NeverUpStaysInWindow(owed, Commit(e, r), CommitDocument(d, r), Open(Commit(e, r)), input);
    } else {
      WellFormedStep(owed, input);
      StepStaysOrderly(owed, 0, r, input[0]);
      StepNeverMovesUp(owed, 0, r, input[0]);
      NeverUpStaysInWindow(Owed(owed, input[0]), e, d, Step(r, input[0]), input[1..]);
    }
  }

  lemma WellFormedStep(owed: nat, s: seq<byte>)
    requires WellFormed(owed, s) && s != []
    ensures Fits(owed, s[0]) && WellFormed(Owed(owed, s[0]), s[1..])
  {
  }

  lemma BottomRowIsInWindow(e: Emulator, d: Document)
    requires Refines(e, d) && e.control.rowOffset == 0
    ensures Proper(d) && d.row == |d.lines| - 1 && InWindow(e.rows, d)
  {
  }

  lemma CommitStaysOnBottomRow(e: Emulator, r: Run)
    requires Sound(e) && Steppable(r.control) && e.control.rowOffset == 0 && r.control.rowOffset >= 0
    ensures Commit(e, r).control.rowOffset == 0 && Commit(e, r).rows == e.rows && Open(Commit(e, r)).control.rowOffset == 0
    ensures Open(Commit(e, r)).control.mode == r.control.mode
  {
  }

  /** From a new emulator, any well-formed text that never moves up shows the tail of its document. */
  lemma NeverUpRefinesDocument(rows: nat, columns: nat, text: seq<byte>)
    requires rows >= 1 && Sized(columns) && WellFormed(0, text) && NeverUp(Unescaped, text)
    ensures var d := Document([[]], 0, FRESH_CONTROL.(columns := columns));
      Refines(ParseLines(Fresh(rows, columns), text), ParseDocument(d, text))
  {
    var e, d := Fresh(rows, columns), Document([[]], 0, FRESH_CONTROL.(columns := columns));
    FreshRefines(rows, columns);
    FreshIsIdle(rows, columns);
    if text != [] {
      OpenBeginsRun(0, e);
      OpeningAgrees(e, d);
      NeverUpStaysInWindow(0, e, d, Open(e), text);
    }
    RingRefinesDocument(e, d, text);
  }

  /** The rows on which the runs of the input leave the cursor, in order. */
  function RowsReached(d: Document, r: Run, input: seq<byte>): seq<nat>
    requires Proper(d) && Steppable(r.control)
    decreases |input|, if Due(r) then 1 else 0
  {
    if input == [] then [Target(d, r)]
    else if Due(r) then [Target(d, r)] + RowsReached(CommitDocument(d, r), OpenDocument(CommitDocument(d, r)), input)
    else RowsReached(d, Step(r, input[0]), input[1..])
  }

  /** `n` lines are as many as it takes to have `begun` lines and all the rows. */
  predicate IsHighWaterMark(n: nat, begun: nat, rows: seq<nat>) {
    && begun <= n && (forall row <- rows :: row < n)
    && (n == begun || n - 1 in rows)
  }

  lemma CommitReaches(d: Document, r: Run)
    requires Proper(d) && Steppable(r.control)
    ensures IsHighWaterMark(|CommitDocument(d, r).lines|, |d.lines|, [Target(d, r)])
    ensures CommitDocument(d, r).row == Target(d, r)
  {
  }

  lemma ReachesFurther(n: nat, m: nat, begun: nat, row: nat, rows: seq<nat>)
    requires IsHighWaterMark(m, begun, [row]) && IsHighWaterMark(n, m, rows)
    ensures IsHighWaterMark(n, begun, [row] + rows)
  {
  }

  /**
   The line count is the high-water mark: over any input, lines are begun up to the
   lowest row the cursor was ever left on, and none is given back.
   */
  lemma {:induction false} LineCountIsHighWaterMark(d: Document, r: Run, input: seq<byte>)
    requires Proper(d) && Steppable(r.control)
    ensures IsHighWaterMark(|FeedDocument(d, r, input).lines|, |d.lines|, RowsReached(d, r, input))
    ensures RowsReached(d, r, input) != [] && FeedDocument(d, r, input).row == RowsReached(d, r, input)[|RowsReached(d, r, input)| - 1]
    decreases |input|, if Due(r) then 1 else 0
  {
    hide CommitDocument, Target, OpenDocument, Step, IsHighWaterMark;
    if input == [] {
      CommitReaches(d, r);
    } else if Due(r) {
      var e := CommitDocument(d, r);
      CommitReaches(d, r);
      LineCountIsHighWaterMark(e, OpenDocument(e), input);
      ReachesFurther(|FeedDocument(d, r, input).lines|, |e.lines|, |d.lines|, Target(d, r), RowsReached(e, OpenDocument(e), input));
    } else {
      LineCountIsHighWaterMark(d, Step(r, input[0]), input[1..]);
    }
  }

  /** The ring has begun as many lines as that, over every text whose runs stay in the window. */
  lemma RingCountIsHighWaterMark(e: Emulator, d: Document, text: seq<byte>)
    requires Refines(e, d) && text != [] && StaysInWindow(e.rows, d, OpenDocument(d), text)
    ensures IsHighWaterMark(ParseLines(e, text).lineCount, e.lineCount, RowsReached(d, OpenDocument(d), text))
  {
    hide ParseLines, StaysInWindow, RowsReached, IsHighWaterMark, FeedDocument;
    RingRefinesDocument(e, d, text);
    LineCountIsHighWaterMark(d, OpenDocument(d), text);
  }

  /** Outside the window the slot that is selected holds the line `rows` (or a multiple of it) further down. */
  lemma AboveWindowTheSlotIsTaken(e: Emulator, d: Document)
    requires Refines(e, d) && !InWindow(e.rows, d)
    ensures exists n: nat :: d.row < n < |d.lines| && Slot(n, e.rows) == Slot(d.row, e.rows)
                             && e.lines[Slot(CursorRow(e), e.rows)] == d.lines[n]
  {
    var k := (|d.lines| - 1 - d.row) / e.rows;
    var n := d.row + e.rows * k;
    ModuloOfSum(d.row, e.rows, k);
    assert (|d.lines| - 1 - d.row) == e.rows * k + (|d.lines| - 1 - d.row) % e.rows;
    assert k >= 1;
    assert e.rows * k >= e.rows;
    assert |d.lines| - e.rows <= n < |d.lines|;
    assert Slot(n, e.rows) == Slot(d.row, e.rows) && e.lines[Slot(n, e.rows)] == d.lines[n];
  }
}
