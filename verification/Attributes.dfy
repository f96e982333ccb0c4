/**
 Text attributes do not move anything.

 A text of printable characters, backspaces, tabs, line feeds, carriage returns
 and attribute sequences (CSI ... m) shows what a plotter shows that is handed
 the characters already styled: each in the style left by the attribute
 sequences before it.  The attribute sequences themselves plot nothing, so
 without them the same characters stand in the same places.
 */
module Attributes {
  import opened Base
  import opened Utf8
  import opened RichText
  import opened Screen
  import opened Feeding
  import opened ControlSequences

  datatype Token = Text(bytes: seq<byte>) | Motion(code: byte) | Attribute(fields: seq<seq<byte>>)

  /** One printable character in UTF-8. */
  predicate IsPrintable(s: seq<byte>) {
    && s != []
    && (if |s| == 1 then 32 <= s[0] < 127
        else IsMultiByte(TypeOf(s[0])) && |s| == SizeOf(TypeOf(s[0])) && forall i :: 1 <= i < |s| ==> TypeOf(s[i]).Continuation?)
  }

  predicate IsToken(t: Token) {
    match t
    case Text(s) => IsPrintable(s)
    case Motion(code) => code == 8 || code == 9 || code == 10 || code == 13
    case Attribute(fields) => fields != [] && AreFields(fields)
  }

  predicate AreTokens(ts: seq<Token>) {
    ts == [] || (IsToken(ts[0]) && AreTokens(ts[1..]))
  }

  const ATTRIBUTES: byte := 'm' as int

  function Written(t: Token): seq<byte>
    requires IsToken(t)
  {
    match t
    case Text(s) => s
    case Motion(code) => [code]
    case Attribute(fields) => [ESC] + ([BRACKET] + Joined(fields) + [ATTRIBUTES])
  }

  function WrittenAll(ts: seq<Token>): seq<byte>
    requires AreTokens(ts)
  {
    if ts == [] then [] else Written(ts[0]) + WrittenAll(ts[1..])
  }

  // ----- the plotter

  datatype Draw = Glyph(c: Character) | Move(code: byte)

  /** The characters in their styles, and the motions. */
  function Styled(style: Style, ts: seq<Token>): seq<Draw>
    requires AreTokens(ts)
    decreases ts
  {
    if ts == [] then []
    else match ts[0]
      case Text(s) => [Glyph(Character(s, style))] + Styled(style, ts[1..])
      case Motion(code) => [Move(code)] + Styled(style, ts[1..])
      case Attribute(fields) => Styled(WithAttributes(style, Recent(Values(fields))), ts[1..])
  }

  /** A control state that remembers nothing but where the cursor is. */
  function Bare(c: Control): Control {
    Control(Unescaped, c.columns, c.rowOffset, c.column, PreserveColumn, false, 0, None, [], false, [], 0, DEFAULT_STYLE)
  }

  /** A run without its scratch fields; the break action only matters to a run that is over. */
  function BareRun(r: Run): Run {
    r.(control := Bare(r.control).(action := if r.broken then r.control.action else PreserveColumn))
  }

  function BareEmulator(e: Emulator): Emulator {
    e.(control := Bare(e.control))
  }

  function Plotted(r: Run, d: Draw): (p: Run)
    requires Steppable(r.control)
    ensures Steppable(p.control)
  {
    match d
    case Glyph(c) => BareRun(Flushed(r.(control := r.control.(action := PreserveColumn, partial := c.bytes, style := c.style))))
    case Move(code) => BareRun(OnControlCharacter(Preserving(r), code))
  }

  function Plot(e: Emulator, r: Run, draws: seq<Draw>): (f: Emulator)
    requires Sound(e) && Steppable(r.control)
    ensures Sound(f)
    decreases |draws|, if Due(r) then 1 else 0
  {
    var done := BareEmulator(Commit(e, r));
    if draws == [] then done
    else if Due(r) then Plot(done, Open(done), draws)
    else Plot(e, Plotted(r, draws[0]), draws[1..])
  }

  // ----- the emulator between tokens

  predicate Resting(r: Run) {
    && r.control.columns >= 1 && r.control.mode.Unescaped?
    && r.control.pending == [] && !r.control.multiByte
    && (r.broken ==> r.control.action.ResetColumn?)
    && (!r.broken && r.control.action.ResetColumn? ==> r.control.column == 0)
  }

  predicate OnTheRing(e: Emulator, r: Run) {
    Sound(e) && r.control.rowOffset >= 0 - (e.lineCount - 1)
  }

  /** None of the bytes ends the run before the last is taken. */
  predicate Quiet(r: Run, s: seq<byte>)
    requires Steppable(r.control)
    decreases s
  {
    s == [] || (!Due(r) && Quiet(Step(r, s[0]), s[1..]))
  }

  lemma {:induction false} FeedQuiet(e: Emulator, r: Run, s: seq<byte>, rest: seq<byte>)
    requires Sound(e) && Steppable(r.control) && Quiet(r, s)
    ensures Feed(e, r, s + rest) == Feed(e, Steps(r, s), rest)
    decreases s
  {
    hide Step;
    if s == [] {
      assert s + rest == rest;
    } else {
      assert (s + rest)[1..] == s[1..] + rest;
      FeedQuiet(e, Step(r, s[0]), s[1..], rest);
    }
  }

  lemma {:induction false} QuietConcat(r: Run, a: seq<byte>, b: seq<byte>)
    requires Steppable(r.control)
    ensures Quiet(r, a + b) <==> Quiet(r, a) && Quiet(Steps(r, a), b)
    decreases a
  {
    hide Step;
    if a == [] {
      assert a + b == b;
    } else {
      assert (a + b)[1..] == a[1..] + b;
      QuietConcat(Step(r, a[0]), a[1..], b);
    }
  }

  lemma OneStep(r: Run, b: byte)
    requires Steppable(r.control)
    ensures Steps(r, [b]) == Step(r, b)
    ensures Quiet(r, [b]) == !Due(r)
  {
    hide Step;
    assert [b][1..] == [];
  }

  // ----- one token

  lemma MotionIsDispatched(r: Run, code: byte)
    requires Resting(r) && !r.broken && IsToken(Motion(code))
    ensures var k := Command(code, ControlCharacter, [], false);
      var d := OnControlCharacter(r.(control := r.control.(action := PreserveColumn, partial := [], partialSize := 1,
                                                           staged := None, pending := [k])), code);
      Step(r, code) == d.(control := d.control.(pending := []))
  {
    var k := Command(code, ControlCharacter, [], false);
    var c := r.control.(action := PreserveColumn, partial := [], partialSize := 1, staged := None, pending := [k]);
    assert [] + [k] == [k];
    assert DispatchAll(r.(control := c), [k]) == DispatchAll(Dispatch(r.(control := c), k), [k][1..]);
  }

  /** Motions look at the cursor and the line only. */
  lemma MotionIgnoresScratch(r: Run, q: Run, code: byte)
    requires IsToken(Motion(code)) && r.control.columns >= 1 && !r.broken
    requires q == r.(control := q.control) && Bare(q.control) == Bare(r.control)
    ensures var (a, b) := (OnControlCharacter(r, code), OnControlCharacter(q, code));
      && a.line == b.line && a.broken == b.broken && Bare(a.control) == Bare(b.control)
      && (a.broken ==> a.control.action.ResetColumn? && b.control.action.ResetColumn?)
      && (!a.broken && a.control.action.ResetColumn? ==> a.control.column == 0)
      && a.control.rowOffset >= r.control.rowOffset && a.control.style == r.control.style
  {
  }

  lemma MotionIsPlotted(r: Run, code: byte)
    requires Resting(r) && !r.broken && IsToken(Motion(code))
    ensures var q := Step(r, code);
      && Resting(q) && BareRun(q) == Plotted(BareRun(r), Move(code)) && q.control.style == r.control.style
      && q.control.rowOffset >= r.control.rowOffset
  {
    hide Step, OnControlCharacter;
    MotionIsDispatched(r, code);
    var k := Command(code, ControlCharacter, [], false);
    var c := r.control.(action := PreserveColumn, partial := [], partialSize := 1, staged := None, pending := [k]);
    MotionIgnoresScratch(r.(control := c), Preserving(BareRun(r)), code);
  }

  lemma GlyphIsPlotted(r: Run, size: nat, s: seq<byte>)
    requires Resting(r) && !r.broken
    ensures var q := Flushed(r.(control := r.control.(action := PreserveColumn, partialSize := size, partial := s)));
      && Resting(q) && BareRun(q) == Plotted(BareRun(r), Glyph(Character(s, r.control.style)))
      && q.control.style == r.control.style && q.control.rowOffset >= r.control.rowOffset
  {
  }

  lemma AsciiIsFlushed(r: Run, b: byte)
    requires Resting(r) && !r.broken && 32 <= b < 127
    ensures Step(r, b) == Flushed(r.(control := r.control.(action := PreserveColumn, partialSize := 1, partial := [b])))
  {
    assert [] + [b] == [b];
    var p := Parsed(r.(control := r.control.(action := PreserveColumn, partial := [], partialSize := 1)), b);
    assert DispatchAll(p, []) == p;
  }

  /** A run in the middle of a character. */
  function Gathering(r: Run, size: nat, partial: seq<byte>): Run {
    r.(control := r.control.(action := PreserveColumn, multiByte := true, partialSize := size, partial := partial))
  }

  lemma {:induction false} ContinuationsAreGathered(r: Run, size: nat, partial: seq<byte>, rest: seq<byte>)
    requires Resting(r) && !r.broken
    requires |partial| + |rest| == size && rest != []
    requires forall i :: 0 <= i < |rest| ==> TypeOf(rest[i]).Continuation?
    ensures Quiet(Gathering(r, size, partial), rest)
    ensures Steps(Gathering(r, size, partial), rest) ==
            Flushed(r.(control := r.control.(action := PreserveColumn, partialSize := size, partial := partial + rest)))
    decreases rest
  {
    var g := Gathering(r, size, partial);
    var more := partial + [rest[0]];
    HeadAndTail(rest);
    if |rest| == 1 {
      assert rest == [rest[0]];
      OneStep(g, rest[0]);
    } else {
      assert Step(g, rest[0]) == Gathering(r, size, more);
      ContinuationsAreGathered(r, size, more, rest[1..]);
      Regroup(partial, [rest[0]], rest[1..]);
    }
  }

  lemma LeadIsGathered(r: Run, b: byte)
    requires Resting(r) && IsMultiByte(TypeOf(b))
    ensures Step(r, b) == Gathering(r, SizeOf(TypeOf(b)), [b])
  {
    assert [] + [b] == [b];
  }

  lemma TextIsPlotted(r: Run, s: seq<byte>)
    requires Resting(r) && !r.broken && IsPrintable(s)
    ensures Quiet(r, s)
    ensures var q := Steps(r, s);
      && Resting(q) && BareRun(q) == Plotted(BareRun(r), Glyph(Character(s, r.control.style)))
      && q.control.style == r.control.style && q.control.rowOffset >= r.control.rowOffset
  {
    hide Step, Flushed, Plotted, BareRun;
    HeadAndTail(s);
    GlyphIsPlotted(r, |s|, s);
    if |s| == 1 {
      assert s == [s[0]];
      OneStep(r, s[0]);
      AsciiIsFlushed(r, s[0]);
    } else {
      LeadIsGathered(r, s[0]);
      ContinuationsAreGathered(r, |s|, [s[0]], s[1..]);
    }
  }

  lemma {:induction false} SequenceIsQuiet(r: Run, s: seq<byte>)
    requires Steppable(r.control) && r.control.mode.ControlSequence? && IsBody(s)
    ensures Quiet(r, s) && Steps(r, s).control.mode.ControlSequence?
    decreases s
  {
    if s != [] {
      assert Step(r, s[0]).control.mode.ControlSequence?;
      SequenceIsQuiet(Step(r, s[0]), s[1..]);
    }
  }

  lemma {:induction false} DigitsAreBody(s: seq<byte>)
    requires AllDigits(s)
    ensures IsBody(s) && Stripped(s) == s && NestedCommands(s) == []
    decreases s
  {
    if s != [] {
      DigitsAreBody(s[1..]);
      HeadAndTail(s);
    }
  }

  lemma {:induction false} BodyConcat(a: seq<byte>, b: seq<byte>)
    requires IsBody(a) && IsBody(b)
    ensures IsBody(a + b) && Stripped(a + b) == Stripped(a) + Stripped(b)
    ensures NestedCommands(a + b) == NestedCommands(a) + NestedCommands(b)
    decreases a
  {
    if a == [] {
      assert a + b == b;
    } else {
      hide IsNested, IsParameterByte;
      assert (a + b)[1..] == a[1..] + b;
      BodyConcat(a[1..], b);
      var first := if IsNested(a[0]) then [] else [a[0]];
      Regroup(first, Stripped(a[1..]), Stripped(b));
      var command := if IsNested(a[0]) then [Command(a[0], ControlCharacter, [], false)] else [];
      Regroup(command, NestedCommands(a[1..]), NestedCommands(b));
    }
  }

  lemma {:induction false} JoinedIsBody(fields: seq<seq<byte>>)
    requires fields != [] && AreFields(fields)
    ensures IsBody(Joined(fields)) && Stripped(Joined(fields)) == Joined(fields) && NestedCommands(Joined(fields)) == []
    decreases fields
  {
    DigitsAreBody(fields[0]);
    if |fields| > 1 {
      JoinedIsBody(fields[1..]);
      var semicolon: seq<byte> := [SEMICOLON];
      assert semicolon[1..] == [];
      assert IsBody(semicolon) && Stripped(semicolon) == semicolon && NestedCommands(semicolon) == [];
      BodyConcat(fields[0], semicolon);
      BodyConcat(fields[0] + semicolon, Joined(fields[1..]));
    }
  }

  /** A run that has just read ESC. */
  function Escaping(r: Run): Run {
    r.(control := r.control.(action := PreserveColumn, partial := [], multiByte := false, partialSize := 1,
                             mode := Escaped, staged := Some(Command(0, ControlCharacter, [], false))))
  }

  lemma EscapeIsRead(r: Run)
    requires Resting(r)
    ensures Step(r, ESC) == Escaping(r)
  {
  }

  lemma BracketIsRead(r: Run)
    requires Steppable(r.control) && r.control.mode.Escaped?
    ensures Step(r, BRACKET).control.mode.ControlSequence?
  {
  }

  lemma AttributeIsQuiet(r: Run, fields: seq<seq<byte>>)
    requires Resting(r) && !r.broken && fields != [] && AreFields(fields)
    ensures Quiet(r, Written(Attribute(fields)))
  {
    hide Step;
    var body := Joined(fields);
    JoinedIsBody(fields);
    EscapeIsRead(r);
    var r1 := Escaping(r);
    BracketIsRead(r1);
    SequenceIsQuiet(Step(r1, BRACKET), body);
    OneStep(Steps(Step(r1, BRACKET), body), ATTRIBUTES);
    QuietConcat(Step(r1, BRACKET), body, [ATTRIBUTES]);
    OneStep(r1, BRACKET);
    QuietConcat(r1, [BRACKET], body + [ATTRIBUTES]);
    Regroup([BRACKET], body, [ATTRIBUTES]);
    OneStep(r, ESC);
    QuietConcat(r, [ESC], [BRACKET] + body + [ATTRIBUTES]);
  }

  lemma AttributesAreSet(r: Run, lastWasInteger: bool, values: seq<uint32>)
    requires Resting(r) && !r.broken
    ensures var q := Ran(Escaping(r), lastWasInteger, [Command(ATTRIBUTES, Sequence, values, true)]);
      && Resting(q) && BareRun(q) == BareRun(r) && q.control.style == WithAttributes(r.control.style, values)
      && q.control.rowOffset == r.control.rowOffset
  {
    var k := Command(ATTRIBUTES, Sequence, values, true);
    var c := r.control.(mode := Unescaped, staged := None, value := 0, lastWasInteger := lastWasInteger, pending := [k],
                        action := PreserveColumn, partial := [], multiByte := false, partialSize := 1);
    assert [k][1..] == [];
    assert DispatchAll(r.(control := c), [k]) == DispatchAll(Dispatch(r.(control := c), k), [k][1..]);
  }

  /** An attribute sequence changes the style and nothing that is plotted. */
  lemma AttributeIsNotPlotted(r: Run, fields: seq<seq<byte>>)
    requires Resting(r) && !r.broken && fields != [] && AreFields(fields)
    ensures var q := Steps(r, Written(Attribute(fields)));
      && Resting(q) && BareRun(q) == BareRun(r)
      && q.control.style == WithAttributes(r.control.style, Recent(Values(fields)))
      && q.control.rowOffset == r.control.rowOffset
  {
    hide Step, Ran;
    var body := Joined(fields);
    JoinedIsBody(fields);
    EscapeIsRead(r);
    OneStep(r, ESC);
    StepsConcat(r, [ESC], [BRACKET] + body + [ATTRIBUTES]);
    SequenceIsDispatched(Escaping(r), body, fields, ATTRIBUTES);
    var k := [Command(ATTRIBUTES, Sequence, Recent(Values(fields)), true)];
    assert [] + k == k;
    AttributesAreSet(r, fields[|fields| - 1] != [], Recent(Values(fields)));
  }

  // ----- whole texts

  /** The emulator at rest with the cursor settled: beginning a run and ending it changes nothing that shows. */
  predicate Settled(e: Emulator) {
    && Sound(e) && e.control.mode.Unescaped? && e.control.pending == [] && !e.control.multiByte
    && e.control.column < e.control.columns
    && e.control.rowOffset >= 0 - (e.lineCount - 1)
    && e.control.column <= Length(e.lines[Slot(CursorRow(e), e.rows)])
    && (e.control.action.ResetColumn? ==> e.control.column == 0)
  }

  lemma FreshIsSettled(rows: nat, columns: nat)
    requires rows >= 1 && columns >= 1
    ensures Settled(Fresh(rows, columns))
  {
  }

  lemma SettledReopens(e: Emulator)
    requires Settled(e)
    ensures Open(e) == Run(e.control, e.lines[Slot(CursorRow(e), e.rows)], false)
    ensures BareEmulator(Commit(e, Open(e))) == BareEmulator(e)
    ensures Resting(Open(e)) && OnTheRing(e, Open(e))
  {
    var slot := Slot(CursorRow(e), e.rows);
    assert e.lines[slot := e.lines[slot]] == e.lines;
  }

  /** A run that is over leaves a settled emulator: the column is reset. */
  lemma OverLeavesSettled(e: Emulator, r: Run)
    requires OnTheRing(e, r) && Resting(r) && r.broken
    ensures Settled(Commit(e, r)) && Commit(e, r).control.style == r.control.style
  {
  }

  /** What a run leaves behind does not depend on its scratch fields. */
  lemma BareCommit(e: Emulator, r: Run)
    requires Sound(e) && Resting(r)
    ensures BareEmulator(Commit(e, r)) == BareEmulator(Commit(BareEmulator(e), BareRun(r)))
  {
  }

  lemma BareOpen(e: Emulator)
    requires Settled(e)
    ensures Settled(BareEmulator(e)) && Open(BareEmulator(e)) == BareRun(Open(e))
  {
    SettledReopens(e);
    SettledReopens(BareEmulator(e));
  }

  lemma {:induction false} OverIsReplotted(e: Emulator, r: Run, draws: seq<Draw>)
    requires OnTheRing(e, r) && Resting(r) && r.broken
    ensures var f := Commit(e, r);
      Plot(BareEmulator(f), BareRun(Open(f)), draws) == Plot(BareEmulator(e), BareRun(r), draws)
  {
    hide BareRun, Open, Commit, BareEmulator;
    var f := Commit(e, r);
    BareCommit(e, r);
    OverLeavesSettled(e, r);
    BareOpen(f);
    SettledReopens(f);
    BareCommit(f, Open(f));
    BareRunIsOver(r);
  }

  lemma BareRunIsOver(r: Run)
    requires Resting(r)
    ensures BareRun(r).broken == r.broken && Steppable(BareRun(r).control) && Due(BareRun(r)) == Due(r)
  {
  }

  /** One token, in a run that is not over. */
  lemma TokenIsPlotted(e: Emulator, r: Run, t: Token, rest: seq<byte>)
    requires OnTheRing(e, r) && Resting(r) && !r.broken && IsToken(t)
    ensures var q := Steps(r, Written(t));
      && Feed(e, r, Written(t) + rest) == Feed(e, q, rest)
      && Resting(q) && OnTheRing(e, q)
      && q.control.style == StyleAfter(r.control.style, [t])
      && BareRun(q) == match t
           case Text(s) => Plotted(BareRun(r), Glyph(Character(s, r.control.style)))
           case Motion(code) => Plotted(BareRun(r), Move(code))
           case Attribute(_) => BareRun(r)
  {
    hide Step, Plotted, BareRun;
    assert [t][1..] == [];
    match t {
      case Text(s) => TextIsPlotted(r, s);
      case Motion(code) => MotionIsPlotted(r, code); OneStep(r, code);
      case Attribute(fields) => AttributeIsNotPlotted(r, fields); AttributeIsQuiet(r, fields);
    }
    FeedQuiet(e, r, Written(t), rest);
  }

  /** The style once all attribute sequences of a text were read. */
  function StyleAfter(style: Style, ts: seq<Token>): Style
    requires AreTokens(ts)
    decreases ts
  {
    if ts == [] then style
    else if ts[0].Attribute? then StyleAfter(WithAttributes(style, Recent(Values(ts[0].fields))), ts[1..])
    else StyleAfter(style, ts[1..])
  }

  lemma {:induction false} FeedingIsPlotting(e: Emulator, r: Run, ts: seq<Token>)
    requires OnTheRing(e, r) && Resting(r) && AreTokens(ts)
    ensures var f := Feed(e, r, WrittenAll(ts));
      && BareEmulator(f) == Plot(BareEmulator(e), BareRun(r), Styled(r.control.style, ts))
      && f.control.style == StyleAfter(r.control.style, ts)
    decreases |ts|, if r.broken then 1 else 0
  {
    hide Step, Plotted, BareRun, Commit, Open, BareEmulator;
    BareRunIsOver(r);
    if ts == [] {
      BareCommit(e, r);
      CommitKeepsStyle(e, r);
    } else if r.broken {
      var f := Commit(e, r);
      OverLeavesSettled(e, r);
      SettledReopens(f);
      WrittenIsSomething(ts[0]);
      FeedingIsPlotting(f, Open(f), ts);
      OverIsReplotted(e, r, Styled(r.control.style, ts));
    } else {
      var q := Steps(r, Written(ts[0]));
      TokenIsPlotted(e, r, ts[0], WrittenAll(ts[1..]));
      FeedingIsPlotting(e, q, ts[1..]);
      if !ts[0].Attribute? {
        PlotOne(e, r, ts);
      }
    }
  }

  lemma CommitKeepsStyle(e: Emulator, r: Run)
    requires Sound(e) && Steppable(r.control)
    ensures Commit(e, r).control.style == r.control.style
  {
  }

  lemma WrittenIsSomething(t: Token)
    requires IsToken(t)
    ensures Written(t) != []
  {
  }

  lemma PlotOne(e: Emulator, r: Run, ts: seq<Token>)
    requires Sound(e) && Resting(r) && !r.broken && AreTokens(ts) && ts != [] && !ts[0].Attribute?
    ensures var d := Styled(r.control.style, ts);
      Plot(BareEmulator(e), BareRun(r), d) == Plot(BareEmulator(e), Plotted(BareRun(r), d[0]), d[1..])
  {
  }

  /**
   What a text shows: the plot of its characters, each in the style folded from
   the attribute sequences before it.
   */
  lemma ParsingIsPlotting(e: Emulator, ts: seq<Token>)
    requires Settled(e) && AreTokens(ts)
    ensures var f := ParseLines(e, WrittenAll(ts));
      && BareEmulator(f) == Plot(BareEmulator(e), Open(BareEmulator(e)), Styled(e.control.style, ts))
      && f.control.style == StyleAfter(e.control.style, ts)
  {
    hide Plot, Commit, Open, BareEmulator, BareRun;
    SettledReopens(e);
    BareOpen(e);
    if ts != [] {
      WrittenIsSomething(ts[0]);
      FeedingIsPlotting(e, Open(e), ts);
    } else {
      PlotNothing(e);
    }
  }

  lemma PlotNothing(e: Emulator)
    requires Settled(e)
    ensures Plot(BareEmulator(e), Open(BareEmulator(e)), []) == BareEmulator(e)
  {
    SettledReopens(e);
    SettledReopens(BareEmulator(e));
    BareOpen(e);
  }

  /** Every printed character is drawn in the style left by the sequences before it. */
  lemma {:induction false} CharactersTakeTheirStyle(style: Style, before: seq<Token>, s: seq<byte>, after: seq<Token>)
    requires AreTokens(before) && IsPrintable(s) && AreTokens(after)
    ensures AreTokens(before + [Text(s)] + after)
    ensures Styled(style, before + [Text(s)] + after) ==
            Styled(style, before) + [Glyph(Character(s, StyleAfter(style, before)))] + Styled(StyleAfter(style, before), after)
    decreases before
  {
    var ts := before + [Text(s)] + after;
    assert IsToken(Text(s));
    hide IsToken, IsPrintable, WithAttributes, Recent;
    if before == [] {
      assert ts == [Text(s)] + after && ts[1..] == after;
      assert Styled(style, before) == [];
    } else {
      hide Values;
      var first, next := DrawOf(style, before[0]), StyleOf(style, before[0]);
      CharactersTakeTheirStyle(next, before[1..], s, after);
      assert ts[0] == before[0] && ts[1..] == before[1..] + [Text(s)] + after;
      StyledStep(style, ts);
      StyledStep(style, before);
      hide Styled, DrawOf, StyleOf;
      var glyph, rest := [Glyph(Character(s, StyleAfter(style, before)))], Styled(StyleAfter(style, before), after);
      Regroup(first, Styled(next, before[1..]), glyph);
      Regroup(first, Styled(next, before[1..]) + glyph, rest);
    }
  }

  function DrawOf(style: Style, t: Token): seq<Draw> {
    match t
    case Text(s) => [Glyph(Character(s, style))]
    case Motion(code) => [Move(code)]
    case Attribute(_) => []
  }

  function StyleOf(style: Style, t: Token): Style
    requires IsToken(t)
  {
    if t.Attribute? then WithAttributes(style, Recent(Values(t.fields))) else style
  }

  lemma StyledStep(style: Style, ts: seq<Token>)
    requires AreTokens(ts) && ts != []
    ensures Styled(style, ts) == DrawOf(style, ts[0]) + Styled(StyleOf(style, ts[0]), ts[1..])
    ensures StyleAfter(style, ts) == StyleAfter(StyleOf(style, ts[0]), ts[1..])
  {
    hide IsToken, WithAttributes, Recent, Values;
  }

  // ----- without the attribute sequences

  function WithoutAttributes(ts: seq<Token>): seq<Token> {
    if ts == [] then []
    else if ts[0].Attribute? then WithoutAttributes(ts[1..])
    else [ts[0]] + WithoutAttributes(ts[1..])
  }

  function PlainCharacter(c: Option<Character>): Option<Character> {
    match c
    case None => None
    case Some(ch) => Some(ch.(style := DEFAULT_STYLE))
  }

  /** The same characters in the same places, all in the default style. */
  function PlainLine(line: Line): (p: Line)
    ensures |p| == |line| && forall i :: 0 <= i < |p| ==> p[i] == PlainCharacter(line[i])
  {
    seq(|line|, i requires 0 <= i < |line| => PlainCharacter(line[i]))
  }

  function PlainLines(lines: seq<Line>): (p: seq<Line>)
    ensures |p| == |lines| && forall i :: 0 <= i < |p| ==> p[i] == PlainLine(lines[i])
  {
    seq(|lines|, i requires 0 <= i < |lines| => PlainLine(lines[i]))
  }

  function Plain(e: Emulator): Emulator {
    e.(lines := PlainLines(e.lines), control := Bare(e.control))
  }

  function PlainDraw(d: Draw): Draw {
    match d
    case Glyph(c) => Glyph(c.(style := DEFAULT_STYLE))
    case Move(_) => d
  }

  function PlainDraws(ds: seq<Draw>): seq<Draw> {
    if ds == [] then [] else [PlainDraw(ds[0])] + PlainDraws(ds[1..])
  }

  lemma {:induction false} AttributesAreNotDrawn(style: Style, other: Style, ts: seq<Token>)
    requires AreTokens(ts)
    ensures AreTokens(WithoutAttributes(ts))
    ensures PlainDraws(Styled(style, ts)) == PlainDraws(Styled(other, WithoutAttributes(ts)))
    decreases ts
  {
    if ts != [] {
      match ts[0] {
        case Attribute(fields) =>
          AttributesAreNotDrawn(WithAttributes(style, Recent(Values(fields))), other, ts[1..]);
        case _ =>
          AttributesAreNotDrawn(style, other, ts[1..]);
          var rest := WithoutAttributes(ts[1..]);
          assert WithoutAttributes(ts)[0] == ts[0] && WithoutAttributes(ts)[1..] == rest;
          assert Styled(style, ts)[1..] == Styled(style, ts[1..]);
          assert Styled(other, WithoutAttributes(ts))[1..] == Styled(other, rest);
      }
    }
  }

  lemma PlainAt(line: Line, i: nat)
    ensures At(PlainLine(line), i) == PlainCharacter(At(line, i))
  {
  }

  lemma {:induction false} PlainExtended(line: Line, i: nat)
    ensures PlainLine(Extended(line, i)) == Extended(PlainLine(line), i)
    decreases i + 1 - |line|
  {
    if |line| <= i {
      PlainExtended(line + [None], i);
      assert PlainLine(line + [None]) == PlainLine(line) + [None];
    }
  }

  lemma PlainPut(line: Line, columns: nat, i: nat, c: Character)
    ensures PlainLine(Put(line, columns, i, c)) == Put(PlainLine(line), columns, i, c.(style := DEFAULT_STYLE))
  {
    PlainExtended(line, i);
    ExtendedIsPadding(line, i);
    assert PlainLine(Put(line, columns, i, c)) == Put(PlainLine(line), columns, i, c.(style := DEFAULT_STYLE));
  }

  lemma {:induction false} PlainFill(line: Line, columns: nat, i: nat, end: nat)
    ensures PlainLine(FillRange(line, columns, i, end)) == FillRange(PlainLine(line), columns, i, end)
    decreases end - i
  {
    hide Put;
    if i < end {
      PlainPut(line, columns, i, BLANK);
      PlainFill(Put(line, columns, i, BLANK), columns, i + 1, end);
    }
  }

  lemma PlainLength(line: Line)
    ensures Length(PlainLine(line)) == Length(line)
  {
    var n := Length(line);
    PlainAt(line, n);
    FilledIsLength(PlainLine(line), n + 1);
    forall j: nat | j < n ensures At(PlainLine(line), j).Some? {
      PlainAt(line, j);
      assert At(line, j).Some?;
    }
    FilledIsLength(PlainLine(line), n);
  }

  function PlainRun(r: Run): Run {
    r.(line := PlainLine(r.line))
  }

  lemma PlainTab(r: Run)
    requires r.control.columns >= 1
    ensures PlainRun(OnTab(r)) == OnTab(PlainRun(r))
  {
    hide Put, FillRange, PlainLine, ToTabStop, Length;
    var c := r.control;
    var length := Length(r.line);
    var pad := ToTabStop(c.column);
    PlainLength(r.line);
    PlainFill(r.line, c.columns, length, if length + pad >= c.columns - 1 then c.columns - 1 else length + pad);
  }

  lemma PlainPlotted(r: Run, d: Draw)
    requires Steppable(r.control)
    ensures PlainRun(Plotted(r, d)) == Plotted(PlainRun(r), PlainDraw(d))
  {
    hide OnTab, PlainLine, Flushed, OnControlCharacter;
    match d {
      case Glyph(c) => PlainFlushed(r.(control := r.control.(action := PreserveColumn, partial := c.bytes, style := c.style)));
      case Move(code) => PlainControl(Preserving(r), code);
    }
  }

  lemma PlainFlushed(r: Run)
    ensures BareRun(PlainRun(Flushed(r))) == BareRun(Flushed(PlainRun(r.(control := r.control.(style := DEFAULT_STYLE)))))
  {
    hide Put, PlainLine;
    PlainPut(r.line, r.control.columns, r.control.column, Character(r.control.partial, r.control.style));
  }

  lemma PlainControl(r: Run, code: byte)
    requires r.control.columns >= 1
    ensures PlainRun(OnControlCharacter(r, code)) == OnControlCharacter(PlainRun(r), code)
  {
    hide OnTab, PlainLine;
    PlainTab(r);
  }

  lemma {:induction false} PlainAppended(lines: seq<Line>, lineCount: nat, count: nat)
    requires |lines| >= 1
    ensures PlainLines(Appended(lines, lineCount, count)) == Appended(PlainLines(lines), lineCount, count)
    decreases count
  {
    if count > 0 {
      var next := lines[Slot(lineCount, |lines|) := []];
      PlainAppended(next, lineCount + 1, count - 1);
      assert PlainLines(next) == PlainLines(lines)[Slot(lineCount, |lines|) := []];
    }
  }

  lemma PlainCommit(e: Emulator, r: Run)
    requires Sound(e) && Steppable(r.control)
    ensures Sound(Plain(e)) && Plain(Commit(e, r)) == BareEmulator(Commit(Plain(e), PlainRun(r)))
    ensures BareEmulator(Plain(e)) == Plain(e) && Plain(BareEmulator(e)) == Plain(e)
  {
    var slot := Slot(CursorRow(e), e.rows);
    var kept := e.lines[slot := r.line];
    PlainAppended(kept, e.lineCount, Down(r.control));
    assert PlainLines(kept) == PlainLines(e.lines)[slot := PlainLine(r.line)];
  }

  lemma PlainOpen(e: Emulator)
    requires Sound(e) && e == BareEmulator(e)
    ensures Sound(Plain(e)) && Open(Plain(e)) == PlainRun(Open(e))
  {
    hide FillRange;
    var line := e.lines[Slot(CursorRow(e), e.rows)];
    PlainLength(line);
    var column := if e.control.column >= e.control.columns then 0 else e.control.column;
    PlainFill(line, e.control.columns, Length(line), column + 1);
  }

  lemma {:induction false} PlainPlot(e: Emulator, r: Run, ds: seq<Draw>)
    requires Sound(e) && Steppable(r.control) && e == BareEmulator(e)
    ensures Sound(Plain(e)) && Plain(Plot(e, r, ds)) == Plot(Plain(e), PlainRun(r), PlainDraws(ds))
    decreases |ds|, if Due(r) then 1 else 0
  {
    hide Plotted, Open, Commit, PlainLine;
    PlainCommit(e, r);
    var done := BareEmulator(Commit(e, r));
    assert done == BareEmulator(done);
    PlainIsBare(Commit(e, r));
    if ds == [] {
    } else if Due(r) {
      PlainOpen(done);
      PlainPlot(done, Open(done), ds);
    } else {
      PlainPlotted(r, ds[0]);
      PlainPlot(e, Plotted(r, ds[0]), ds[1..]);
    }
  }

  lemma PlainIsBare(e: Emulator)
    ensures Plain(BareEmulator(e)) == Plain(e)
  {
  }

  /**
   Attribute transparency: deleting every attribute sequence from a text leaves
   the same characters at the same rows and columns, and the cursor where it was.
   */
  lemma AttributesAreTransparent(e: Emulator, ts: seq<Token>)
    requires Settled(e) && AreTokens(ts)
    ensures AreTokens(WithoutAttributes(ts))
    ensures Plain(ParseLines(e, WrittenAll(ts))) == Plain(ParseLines(e, WrittenAll(WithoutAttributes(ts))))
  {
    hide Plot, Open, Plain, PlainLine, BareEmulator;
    var style := e.control.style;
    AttributesAreNotDrawn(style, style, ts);
    ParsingIsPlotting(e, ts);
    ParsingIsPlotting(e, WithoutAttributes(ts));
    var b := BareEmulator(e);
    BareIsBare(e);
    PlainPlot(b, Open(b), Styled(style, ts));
    PlainPlot(b, Open(b), Styled(style, WithoutAttributes(ts)));
    PlainIsBare(ParseLines(e, WrittenAll(ts)));
    PlainIsBare(ParseLines(e, WrittenAll(WithoutAttributes(ts))));
  }

  /** From a new emulator, texts that differ only in attribute sequences show the same characters. */
  lemma NewEmulatorShowsTheSame(rows: nat, columns: nat, ts: seq<Token>, us: seq<Token>)
    requires rows >= 1 && columns >= 1 && AreTokens(ts) && AreTokens(us) && WithoutAttributes(ts) == WithoutAttributes(us)
    ensures Plain(ParseLines(Fresh(rows, columns), WrittenAll(ts))) == Plain(ParseLines(Fresh(rows, columns), WrittenAll(us)))
  {
    hide Plain, ParseLines, Settled, WrittenAll;
    FreshIsSettled(rows, columns);
    AttributesAreTransparent(Fresh(rows, columns), ts);
    AttributesAreTransparent(Fresh(rows, columns), us);
  }

  lemma BareIsBare(e: Emulator)
    requires Settled(e)
    ensures Sound(BareEmulator(e)) && BareEmulator(BareEmulator(e)) == BareEmulator(e)
  {
  }
}
