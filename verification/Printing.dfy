/**
 Where printed characters go: which slot of which line holds which bytes in which
 style (flush_pending_character_to_line and the loop around it in
 src/libply-splash-core/ply-terminal-emulator.c).
 */
module Printing {
  import opened Base
  import opened Arithmetic
  import opened Utf8
  import opened RichText
  import opened Screen
  import opened Feeding
  import opened ControlSequences
  import opened Attributes

  /** A line like another, but for one slot. */
  ghost predicate IsPutAt(after: Line, before: Line, i: nat, c: Character) {
    forall k: nat :: At(after, k) == if k == i then Some(c) else At(before, k)
  }

  /** One slot, the cursor, and at the margin a new line: a printed character changes nothing else that shows. */
  ghost predicate IsPrinted(q: Run, r: Run, s: seq<byte>) {
    && IsPutAt(q.line, r.line, r.control.column, Character(s, r.control.style))
    && q.control.columns == r.control.columns && q.control.style == r.control.style
    && q.control.column == r.control.column + 1
    && (q.broken <==> r.control.column + 1 >= r.control.columns)
    && q.control.rowOffset == r.control.rowOffset + if r.control.column + 1 >= r.control.columns then 1 else 0
  }

  lemma FlushIsPrinted(r: Run, size: nat, s: seq<byte>)
    requires Resting(r) && !r.broken && r.control.column < r.control.columns
    ensures IsPrinted(Flushed(r.(control := r.control.(action := PreserveColumn, partialSize := size, partial := s))), r, s)
  {
    SetCharacterAt(r.line, Span(0, r.control.columns), r.control.column, Character(s, r.control.style));
  }

  /** A printable character is stored as its bytes, in the style in force, in the slot under the cursor. */
  lemma PrintedAt(r: Run, s: seq<byte>)
    requires Resting(r) && !r.broken && r.control.column < r.control.columns && IsPrintable(s)
    ensures Quiet(r, s) && Resting(Steps(r, s)) && IsPrinted(Steps(r, s), r, s)
  {
    hide Step, Flushed, IsPrinted, BareRun, Plotted;
    TextIsPlotted(r, s);
    HeadAndTail(s);
    FlushIsPrinted(r, |s|, s);
    if |s| == 1 {
      assert s == [s[0]];
      OneStep(r, s[0]);
      AsciiIsFlushed(r, s[0]);
    } else {
      LeadIsGathered(r, s[0]);
      ContinuationsAreGathered(r, |s|, [s[0]], s[1..]);
    }
  }

  /** A byte that continues no character is printed as a question mark, */
  lemma StrayByteIsPrinted(r: Run, b: byte)
    requires Resting(r) && !r.broken && r.control.column < r.control.columns && 0x80 <= b < 0xC0
    ensures Resting(Step(r, b)) && IsPrinted(Step(r, b), r, [63])
  {
    FlushIsPrinted(r, 1, [PLACEHOLDER]);
    GlyphIsPlotted(r, 1, [PLACEHOLDER]);
  }

  /** and so is a character that is not finished when the next one begins. */
  lemma CutCharacterIsPrinted(r: Run, lead: byte, b: byte) returns (between: Run)
    requires Resting(r) && !r.broken && r.control.column + 1 < r.control.columns && 0xC0 <= lead < 0xF8 && 32 <= b < 127
    ensures IsPrinted(between, r, [63]) && IsPrinted(Steps(r, [lead, b]), between, [b])
  {
    var size := SizeOf(TypeOf(lead));
    LeadIsGathered(r, lead);
    OneStep(Step(r, lead), b);
    assert [lead, b][1..] == [b];
    FlushIsPrinted(r, size, [PLACEHOLDER]);
    GlyphIsPlotted(r, size, [PLACEHOLDER]);
    between := Flushed(r.(control := r.control.(action := PreserveColumn, partialSize := size, partial := [PLACEHOLDER])));
    CutIsInterrupted(r, size, lead, b, between);
    FlushIsPrinted(between, 1, [b]);
  }

  lemma CutIsInterrupted(r: Run, size: nat, lead: byte, b: byte, between: Run)
    requires Resting(r) && !r.broken && r.control.column + 1 < r.control.columns && 32 <= b < 127
    requires between == Flushed(r.(control := r.control.(action := PreserveColumn, partialSize := size, partial := [PLACEHOLDER])))
    ensures Step(Gathering(r, size, [lead]), b) ==
            Flushed(between.(control := between.control.(action := PreserveColumn, partialSize := 1, partial := [b])))
  {
    hide Put;
    assert [] + [b] == [b];
    var p := Interrupted(Preserving(Gathering(r, size, [lead])));
    assert p == between.(control := between.control.(multiByte := true));
    var q := Parsed(p.(control := p.control.(multiByte := false, partialSize := 1)), b);
    assert DispatchAll(q, []) == q;
  }

  // ----- whole texts, on as many lines as they need

  /** Characters and attribute sequences only. */
  ghost predicate IsPrinting(ts: seq<Token>) {
    AreTokens(ts) && forall t <- ts :: !t.Motion?
  }

  /** The characters of a text, each in the style left by the sequences before it. */
  function Glyphs(style: Style, ts: seq<Token>): seq<Character>
    requires AreTokens(ts)
    decreases ts
  {
    if ts == [] then []
    else match ts[0]
      case Text(s) => [Character(s, style)] + Glyphs(style, ts[1..])
      case _ => Glyphs(StyleOf(style, ts[0]), ts[1..])
  }

  /** A line that holds some characters from the first slot on, and nothing after them. */
  ghost predicate Holds(line: Line, cs: seq<Character>) {
    forall k: nat :: At(line, k) == if k < |cs| then Some(cs[k]) else None
  }

  /** What is printed on line `m` when lines are `columns` long. */
  function OnLine(cs: seq<Character>, columns: nat, m: nat): seq<Character> {
    if Times(m, columns) >= |cs| then []
    else if Times(m, columns) + columns >= |cs| then cs[Times(m, columns)..]
    else cs[Times(m, columns)..Times(m, columns) + columns]
  }

  /** The lines of the ring that are still there. */
  predicate IsKept(m: nat, lineCount: nat, rows: nat) {
    m < lineCount <= m + rows
  }

  /** In a run on the last line, all characters so far stand one after the other, line by line. */
  ghost predicate Shows(e: Emulator, r: Run, cs: seq<Character>) {
    && Sound(e) && Resting(r) && e.control.rowOffset == 0 && r.control.columns == e.control.columns
    && Holds(r.line, OnLine(cs, e.control.columns, e.lineCount - 1))
    && (forall m: nat :: IsKept(m, e.lineCount, e.rows) && m < e.lineCount - 1 ==>
          Holds(e.lines[Slot(m, e.rows)], OnLine(cs, e.control.columns, m)))
    && (if r.broken then r.control.rowOffset == 1 && |cs| == Times(e.lineCount, e.control.columns)
        else && r.control.rowOffset == 0 && r.control.column < e.control.columns
             && |cs| == Times(e.lineCount - 1, e.control.columns) + r.control.column)
  }

  /** Between calls: the characters stand line by line, and the cursor after the last. */
  ghost predicate Stands(e: Emulator, cs: seq<Character>) {
    && Settled(e) && e.control.rowOffset == 0
    && (forall m: nat :: IsKept(m, e.lineCount, e.rows) ==> Holds(e.lines[Slot(m, e.rows)], OnLine(cs, e.control.columns, m)))
    && |cs| == Times(e.lineCount - 1, e.control.columns) + e.control.column
  }

  lemma NextLine(m: nat, columns: nat)
    ensures Times(m + 1, columns) == Times(m, columns) + columns
  {
    Distributes(m, 1, columns);
  }

  lemma {:induction false} LinesAreApart(m: nat, n: nat, columns: nat)
    requires m < n
    ensures Times(m, columns) + columns <= Times(n, columns)
    decreases n
  {
    NextLine(n - 1, columns);
    if m < n - 1 {
      LinesAreApart(m, n - 1, columns);
    }
  }

  /** One more character is on the line that is not full, and on no other. */
  lemma OneMoreOnLine(cs: seq<Character>, c: Character, columns: nat, n: nat, m: nat)
    requires Times(n, columns) <= |cs| < Times(n, columns) + columns
    ensures OnLine(cs + [c], columns, n) == OnLine(cs, columns, n) + [c]
    ensures |OnLine(cs, columns, n)| == |cs| - Times(n, columns)
    ensures m < n ==> OnLine(cs + [c], columns, m) == OnLine(cs, columns, m)
  {
    hide Times;
    if m < n {
      LinesAreApart(m, n, columns);
    }
  }

  lemma HeldWithOneMore(line: Line, after: Line, cs: seq<Character>, c: Character)
    requires Holds(line, cs) && IsPutAt(after, line, |cs|, c)
    ensures Holds(after, cs + [c])
  {
  }

  lemma PrintingShows(e: Emulator, r: Run, cs: seq<Character>, s: seq<byte>)
    requires Shows(e, r, cs) && !r.broken && IsPrintable(s)
    ensures Quiet(r, s) && Shows(e, Steps(r, s), cs + [Character(s, r.control.style)])
    ensures Steps(r, s).control.style == r.control.style
  {
    hide Times, OnLine, IsPutAt, Holds, Step, Quiet, IsPrintable;
    var n, columns, c := e.lineCount - 1, e.control.columns, Character(s, r.control.style);
    PrintedAt(r, s);
    OneMoreOnLine(cs, c, columns, n, 0);
    HeldWithOneMore(r.line, Steps(r, s).line, OnLine(cs, columns, n), c);
    forall m: nat | m < n ensures OnLine(cs + [c], columns, m) == OnLine(cs, columns, m) {
      OneMoreOnLine(cs, c, columns, n, m);
    }
    NextLine(n, columns);
  }

  /** Nothing is on the line after the last that is full. */
  lemma NothingBelow(cs: seq<Character>, columns: nat, m: nat)
    requires Times(m, columns) == |cs|
    ensures OnLine(cs, columns, m) == []
  {
  }

  /** A run that is over: its line is kept, and a new one is begun. */
  lemma LineIsBegun(e: Emulator, r: Run, cs: seq<Character>)
    requires Shows(e, r, cs) && r.broken
    ensures Stands(Commit(e, r), cs) && Commit(e, r).control.style == r.control.style
  {
    hide Times, OnLine, Holds;
    var f, n := Commit(e, r), e.lineCount - 1;
    NothingBelow(cs, e.control.columns, n + 1);
    EmptyHoldsNothing();
    AppendedOnce(e.lines[Slot(n, e.rows) := r.line], e.lineCount);
    forall m: nat | IsKept(m, f.lineCount, f.rows)
      ensures Holds(f.lines[Slot(m, f.rows)], OnLine(cs, e.control.columns, m))
    {
      if m <= n {
        KeptSlotsDiffer(m, n + 1, e.rows);
        if m < n {
          KeptSlotsDiffer(m, n, e.rows);
        }
      }
    }
  }

  lemma AppendedOnce(lines: seq<Line>, lineCount: nat)
    requires |lines| >= 1
    ensures Appended(lines, lineCount, 1) == lines[Slot(lineCount, |lines|) := []]
  {
  }

  lemma EmptyHoldsNothing()
    ensures Holds([], [])
  {
  }

  lemma KeptSlotsDiffer(m: nat, n: nat, rows: nat)
    requires rows >= 1 && m < n < m + rows
    ensures Slot(m, rows) != Slot(n, rows)
  {
    RemaindersDiffer(m, n, rows);
  }

  /** A run on the last line that is not over can be put down and taken up. */
  lemma RunIsPutDown(e: Emulator, r: Run, cs: seq<Character>)
    requires Shows(e, r, cs) && !r.broken
    ensures Stands(Commit(e, r), cs) && Commit(e, r).control.style == r.control.style
  {
    hide Times, OnLine;
    var f, n := Commit(e, r), e.lineCount - 1;
    OnLineLength(cs, e.control.columns, n);
    HeldLength(r.line, OnLine(cs, e.control.columns, n));
    hide Holds;
    forall m: nat | IsKept(m, f.lineCount, f.rows) ensures Holds(f.lines[Slot(m, f.rows)], OnLine(cs, e.control.columns, m)) {
      if m < n {
        KeptSlotsDiffer(m, n, e.rows);
      }
    }
  }

  lemma OnLineLength(cs: seq<Character>, columns: nat, n: nat)
    requires Times(n, columns) <= |cs| < Times(n, columns) + columns
    ensures |OnLine(cs, columns, n)| == |cs| - Times(n, columns)
  {
  }

  lemma HeldLength(line: Line, cs: seq<Character>)
    requires Holds(line, cs)
    ensures Length(line) == |cs|
  {
    assert forall j: nat :: j < |cs| ==> At(line, j).Some?;
    assert At(line, |cs|).None?;
    FilledIsLength(line, |cs|);
    FilledIsLength(line, |cs| + 1);
  }

  lemma RunIsTakenUp(e: Emulator, cs: seq<Character>)
    requires Stands(e, cs)
    ensures Shows(e, Open(e), cs) && Open(e).control.style == e.control.style && !Open(e).broken
  {
    hide Times, OnLine, Holds;
    SettledReopens(e);
    assert IsKept(e.lineCount - 1, e.lineCount, e.rows);
  }

  lemma {:induction false} FeedingPrints(e: Emulator, r: Run, cs: seq<Character>, ts: seq<Token>)
    requires Shows(e, r, cs) && IsPrinting(ts)
    ensures Stands(Feed(e, r, WrittenAll(ts)), cs + Glyphs(r.control.style, ts))
    ensures Feed(e, r, WrittenAll(ts)).rows == e.rows && Feed(e, r, WrittenAll(ts)).control.columns == e.control.columns
    decreases |ts|, if r.broken then 1 else 0
  {
    hide Step, Times, Holds, OnLine, Open, Commit, Shows, Stands, Quiet;
    ShowsIsSound(e, r, cs);
    if ts == [] {
      assert cs + [] == cs;
      if r.broken { LineIsBegun(e, r, cs); } else { RunIsPutDown(e, r, cs); }
      CommitKeepsShape(e, r);
    } else if r.broken {
      LineIsBegun(e, r, cs);
      CommitKeepsShape(e, r);
      RunIsTakenUp(Commit(e, r), cs);
      WrittenIsSomething(ts[0]);
      FeedingPrints(Commit(e, r), Open(Commit(e, r)), cs, ts);
    } else {
      OneTokenShows(e, r, cs, ts[0]);
      FeedQuiet(e, r, Written(ts[0]), WrittenAll(ts[1..]));
      var q := Steps(r, Written(ts[0]));
      FirstGlyph(r.control.style, ts);
      var first := Glyphs(r.control.style, [ts[0]]);
      FeedingPrints(e, q, cs + first, ts[1..]);
      Regroup(cs, first, Glyphs(q.control.style, ts[1..]));
    }
  }

  lemma CommitKeepsShape(e: Emulator, r: Run)
    requires Sound(e) && Steppable(r.control)
    ensures Commit(e, r).rows == e.rows && Commit(e, r).control.columns == r.control.columns
  {
  }

  lemma ShowsIsSound(e: Emulator, r: Run, cs: seq<Character>)
    requires Shows(e, r, cs)
    ensures Sound(e) && Resting(r) && r.control.columns == e.control.columns && (Due(r) <==> r.broken)
  {
  }

  lemma FirstGlyph(style: Style, ts: seq<Token>)
    requires AreTokens(ts) && ts != []
    ensures AreTokens([ts[0]]) && AreTokens(ts[1..])
    ensures Glyphs(style, ts) == Glyphs(style, [ts[0]]) + Glyphs(StyleOf(style, ts[0]), ts[1..])
  {
    hide IsToken, WithAttributes;
    assert [ts[0]][1..] == [];
    assert Glyphs(style, [ts[0]]) == if ts[0].Text? then [Character(ts[0].bytes, style)] else [];
  }

  lemma OneTokenShows(e: Emulator, r: Run, cs: seq<Character>, t: Token)
    requires Shows(e, r, cs) && !r.broken && IsToken(t) && !t.Motion?
    ensures AreTokens([t]) && Quiet(r, Written(t))
    ensures var q := Steps(r, Written(t));
      Shows(e, q, cs + Glyphs(r.control.style, [t])) && q.control.style == StyleOf(r.control.style, t)
  {
    hide Step, Times, Holds, OnLine, Quiet, WithAttributes;
    assert [t][1..] == [];
    match t {
      case Text(s) =>
        PrintingShows(e, r, cs, s);
        assert [Character(s, r.control.style)] + [] == [Character(s, r.control.style)];
      case Attribute(fields) =>
        AttributeIsNotPlotted(r, fields);
        AttributeIsQuiet(r, fields);
        assert cs + [] == cs;
    }
  }

  /** The number of characters in a text. */
  function TextCount(ts: seq<Token>): nat {
    if ts == [] then 0 else (if ts[0].Text? then 1 else 0) + TextCount(ts[1..])
  }

  lemma {:induction false} GlyphOf(style: Style, ts: seq<Token>, j: nat)
    requires AreTokens(ts) && j <= |ts|
    ensures AreTokens(ts[..j]) && |Glyphs(style, ts)| == TextCount(ts)
    ensures j < |ts| && ts[j].Text? ==>
              && TextCount(ts[..j]) < TextCount(ts)
              && Glyphs(style, ts)[TextCount(ts[..j])] == Character(ts[j].bytes, StyleAfter(style, ts[..j]))
    decreases ts
  {
    PlainStyle(style, ts);
    hide IsToken, StyleOf, StyleAfter;
    NoSequences(style);
    if ts != [] {
      var next := StyleOf(style, ts[0]);
      if j > 0 {
        assert ts[..j][1..] == ts[1..][..j - 1];
        GlyphOf(next, ts[1..], j - 1);
        StyledStep(style, ts[..j]);
      } else {
        GlyphOf(next, ts[1..], 0);
      }
    }
  }

  lemma PlainStyle(style: Style, ts: seq<Token>)
    requires AreTokens(ts)
    ensures ts != [] && !ts[0].Attribute? ==> StyleOf(style, ts[0]) == style
  {
  }

  lemma NoSequences(style: Style)
    ensures StyleAfter(style, []) == style
  {
  }

  lemma FreshStands(rows: nat, columns: nat)
    requires rows >= 1 && columns >= 1
    ensures Stands(Fresh(rows, columns), [])
  {
    FreshIsSettled(rows, columns);
    EmptyHoldsNothing();
    assert Times(0, columns) == 0;
  }

  /**
   What a new emulator shows of characters mixed with attribute sequences, however
   many: every character on the line and in the slot its number says, with its bytes
   and in the style left by the sequences before it, as long as the line is kept;
   all other slots of kept lines are empty, and the cursor is after the last.
   */
  lemma TextIsShown(rows: nat, columns: nat, ts: seq<Token>)
    requires rows >= 1 && columns >= 1 && IsPrinting(ts)
    ensures var f := ParseLines(Fresh(rows, columns), WrittenAll(ts));
      && f.rows == rows && f.control.columns == columns && Stands(f, Glyphs(DEFAULT_STYLE, ts))
  {
    hide Stands, Shows, Feed, Open;
    FreshStands(rows, columns);
    RunIsTakenUp(Fresh(rows, columns), []);
    if ts != [] {
      WrittenIsSomething(ts[0]);
      FeedingPrints(Fresh(rows, columns), Open(Fresh(rows, columns)), [], ts);
      assert [] + Glyphs(DEFAULT_STYLE, ts) == Glyphs(DEFAULT_STYLE, ts);
    }
  }

  /** On the first line: slot by slot, for fewer characters than it has columns. */
  lemma FirstLineIsShown(rows: nat, columns: nat, ts: seq<Token>, j: nat, k: nat)
    requires rows >= 1 && IsPrinting(ts) && TextCount(ts) < columns && j < |ts|
    ensures AreTokens(ts[..j])
    ensures var f := ParseLines(Fresh(rows, columns), WrittenAll(ts));
      && |f.lines| == rows && f.lineCount == 1 && f.control.column == TextCount(ts)
      && (ts[j].Text? ==> At(f.lines[0], TextCount(ts[..j])) == Some(Character(ts[j].bytes, StyleAfter(DEFAULT_STYLE, ts[..j]))))
      && (k >= TextCount(ts) ==> At(f.lines[0], k) == None)
  {
    hide StyleAfter, Glyphs, WrittenAll, ParseLines, Length;
    var f, cs := ParseLines(Fresh(rows, columns), WrittenAll(ts)), Glyphs(DEFAULT_STYLE, ts);
    TextIsShown(rows, columns, ts);
    GlyphOf(DEFAULT_STYLE, ts, j);
    assert Times(0, columns) == 0 && OnLine(cs, columns, 0) == cs;
    if f.lineCount > 1 {
      LinesAreApart(0, f.lineCount - 1, columns);
    }
    hide Times, OnLine;
    assert IsKept(0, f.lineCount, f.rows);
    assert Slot(0, rows) == 0;
  }

  /** A byte that belongs to no character is passed over. */
  lemma OtherBytesAreSkipped(r: Run, b: byte)
    requires Resting(r) && !r.broken && (b == 0 || b >= 0xF8)
    ensures var q := Step(r, b);
      && q.line == r.line && !q.broken && q.control.column == r.control.column && q.control.rowOffset == r.control.rowOffset
      && q.control.style == r.control.style && Resting(q)
  {
  }
}
