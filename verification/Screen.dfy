/**
 What one input byte does to the terminal emulator
 (src/libply-splash-core/ply-terminal-emulator.c), as functions on values.

 Bytes are consumed in runs.  A run works on one line; it ends when the input
 ends or when a byte asked for another line.  `Step` is one iteration of the
 loop in parse_substring, and the On... functions are the handlers of the
 dispatch table.
 */
module Screen {
  import opened Base
  import opened Utf8
  import opened RichText

  const SPACES_PER_TAB: nat := 8
  const ESC: byte := 27
  const SPACE: byte := 32
  const PLACEHOLDER: byte := 63

  datatype Mode = Unescaped | Escaped | ControlSequence

  datatype CommandType = ControlCharacter | EscapeCode | Sequence

  datatype Command = Command(code: byte, kind: CommandType, parameters: seq<uint32>, valid: bool)

  datatype BreakAction = ResetColumn | PreserveColumn

  /** Everything the emulator remembers between bytes, apart from its lines. */
  datatype Control = Control(
    mode: Mode,
    columns: nat,
    rowOffset: int,
    column: nat,
    action: BreakAction,
    lastWasInteger: bool,
    value: uint32,
    staged: Option<Command>,
    pending: seq<Command>,
    multiByte: bool,
    partial: seq<byte>,
    partialSize: nat,
    style: Style)

  /** A run in progress: `broken` says that the line has to be given up. */
  datatype Run = Run(control: Control, line: Line, broken: bool)

  // ----- drawing on the current line

  const BLANK := Character([SPACE], DEFAULT_STYLE)

  function Put(line: Line, columns: nat, i: nat, c: Character): Line {
    SetCharacter(line, Span(0, columns), i, c)
  }

  /** Blanks in slots `i` up to, not including, `end`. */
  function FillRange(line: Line, columns: nat, i: nat, end: nat): Line
    decreases end - i
  {
    if i >= end then line else FillRange(Put(line, columns, i, BLANK), columns, i + 1, end)
  }

  /** fill_offsets_with_padding: the stop offset is filled too. */
  function Padded(line: Line, columns: nat, start: nat, stop: nat): Line {
    if stop > start then FillRange(line, columns, start, stop + 1) else line
  }

  /** Each slot from `i` down to `column` moves by `count`, modulo the width of size_t, and becomes blank. */
  function ShiftedRight(line: Line, columns: nat, i: nat, column: nat, count: nat): Line
    decreases i
  {
    if i < column then line
    else
      var moved := MoveCharacter(line, Span(0, columns), i, Wrapped(i + count));
      var blanked := Put(moved, columns, i, BLANK);
      if i == 0 then blanked else ShiftedRight(blanked, columns, i - 1, column, count)
  }

  function ShiftedLeft(line: Line, columns: nat, i: nat, end: nat, count: nat): Line
    decreases end - i
  {
    if i >= end then line
    else ShiftedLeft(MoveCharacter(line, Span(0, columns), i + count, i), columns, i + 1, end, count)
  }

  function BlankedDown(line: Line, columns: nat, i: nat, style: Style): Line
    decreases i
  {
    var blanked := Put(line, columns, i, Character([SPACE], style));
    if i == 0 then blanked else BlankedDown(blanked, columns, i - 1, style)
  }

  function BlankedUp(line: Line, columns: nat, i: nat, end: nat, style: Style): Line
    decreases end - i
  {
    if i >= end then line
    else BlankedUp(Put(line, columns, i, Character([SPACE], style)), columns, i + 1, end, style)
  }

  function RemovedRange(line: Line, columns: nat, i: nat, end: nat): Line
    decreases end - i
  {
    if i >= end then line
    else RemovedRange(RemoveCharacter(line, Span(0, columns), i), columns, i + 1, end)
  }

  // ----- parameters

  /** A parameter is read as a C int; zero and what comes out negative count as one. */
  function Count(parameters: seq<uint32>): (n: nat)
    ensures n >= 1
  {
    if |parameters| == 0 || parameters[0] == 0 || parameters[0] >= 0x8000_0000 then 1 else parameters[0]
  }

  /** As `Count`, for the one handler that keeps the parameter in a size_t. */
  function WideCount(parameters: seq<uint32>): (n: nat)
    ensures n >= 1
  {
    if |parameters| == 0 || parameters[0] == 0 then 1 else parameters[0]
  }

  // ----- the handlers

  /** What a handler may change besides the line; once given up, a line stays given up. */
  predicate Framed(r: Run, d: Run) {
    && d.control == r.control.(rowOffset := d.control.rowOffset, column := d.control.column,
                               action := d.control.action, style := d.control.style)
    && (r.broken ==> d.broken)
  }

  function MovedRows(r: Run, delta: int, action: BreakAction): (d: Run)
    ensures Framed(r, d)
  {
    r.(control := r.control.(rowOffset := r.control.rowOffset + delta, action := action), broken := true)
  }

  function Preserving(r: Run): (d: Run)
    ensures Framed(r, d)
  {
    r.(control := r.control.(action := PreserveColumn))
  }

  function OnInsertBlanks(r: Run, parameters: seq<uint32>): (d: Run)
    requires r.control.columns >= 1
    ensures Framed(r, d)
  {
    var c := r.control;
    var length := Length(r.line);
    var full := length + Count(parameters) >= c.columns;
    var count := if full then Wrapped(c.columns - length - 1) else Count(parameters);
    var newLength := if full then c.columns - 1 else length + Count(parameters);
    var last := if length == 0 || length - 1 >= c.columns then c.columns - 1 else length - 1;
    if newLength == 0 then Preserving(r)
    else Preserving(r.(line := ShiftedRight(Padded(r.line, c.columns, length, newLength), c.columns, last, c.column, count)))
  }

  function OnMoveRight(r: Run, parameters: seq<uint32>): (d: Run)
    ensures Framed(r, d)
  {
    var c := r.control;
    var column := c.column + Count(parameters);
    var moved := Preserving(r.(control := c.(column := column)));
    if column >= c.columns then moved.(broken := true)
    else moved.(line := Padded(r.line, c.columns, Length(r.line), column))
  }

  function OnMoveLeft(r: Run, parameters: seq<uint32>): (d: Run)
    ensures Framed(r, d)
  {
    var c := r.control;
    var column := if Count(parameters) > c.column then 0 else c.column - Count(parameters);
    Preserving(Run(c.(column := column), Padded(r.line, c.columns, Length(r.line), column), r.broken))
  }

  function OnMoveToColumn(r: Run, parameters: seq<uint32>): (d: Run)
    ensures Framed(r, d)
  {
    var c := r.control;
    var column := if Count(parameters) > c.columns then 1 else Count(parameters) - 1;
    Preserving(Run(c.(column := column), Padded(r.line, c.columns, Length(r.line), column), r.broken))
  }

  function OnEraseLine(r: Run, parameters: seq<uint32>): (d: Run)
    requires r.control.columns >= 1
    ensures Framed(r, d)
  {
    var c := r.control;
    var what := if |parameters| > 0 then parameters[0] else 0;
    var start := if c.column >= c.columns then c.columns - 1 else c.column;
    if what > 2 then Preserving(r)
    else
      var left := if what == 1 || what == 2 then BlankedDown(r.line, c.columns, start, c.style) else r.line;
      var right := if what == 0 || what == 2 then RemovedRange(left, c.columns, start, Length(r.line)) else left;
      Preserving(r.(line := right))
  }

  function OnDeleteCharacters(r: Run, parameters: seq<uint32>): (d: Run)
    ensures Framed(r, d)
  {
    var c := r.control;
    var length := Length(r.line);
    if c.column >= length then Preserving(r)
    else
      var count := if c.column + Count(parameters) >= length then length - 1 else Count(parameters);
      Preserving(r.(line := ShiftedLeft(r.line, c.columns, c.column, length, count)))
  }

  function OnEraseCharacters(r: Run, parameters: seq<uint32>): (d: Run)
    ensures Framed(r, d)
  {
    var c := r.control;
    var end := if c.column + Count(parameters) < Length(r.line) then c.column + Count(parameters) else Length(r.line);
    Preserving(r.(line := BlankedUp(r.line, c.columns, c.column, end, c.style)))
  }

  /** One SGR parameter (ECMA-48, section 8.3.117, and the bright colours). */
  function WithAttribute(style: Style, parameter: uint32): Style {
    if parameter == 0 || parameter >= 0x8000_0000 then DEFAULT_STYLE
    else if parameter == 1 then style.(bold := true)
    else if parameter == 2 then style.(dim := true)
    else if parameter == 22 then style.(bold := false, dim := false)
    else if parameter == 3 then style.(italic := true)
    else if parameter == 23 then style.(italic := false)
    else if parameter == 4 then style.(underline := true)
    else if parameter == 24 then style.(underline := false)
    else if parameter == 7 then style.(reverse := true)
    else if parameter == 27 then style.(reverse := false)
    else if 30 <= parameter <= 37 then style.(foreground := parameter - 30)
    else if parameter == 39 then style.(foreground := COLOR_DEFAULT)
    else if 40 <= parameter <= 47 then style.(background := parameter - 40)
    else if parameter == 49 then style.(background := COLOR_DEFAULT)
    else if 90 <= parameter <= 97 then style.(foreground := parameter - 90, dim := false)
    else if 100 <= parameter <= 107 then style.(background := parameter - 100)
    else style
  }

  /** 38 and 48 introduce a 256-colour code; the parameter after them is skipped. */
  predicate SkipsNext(parameter: uint32) {
    parameter == 38 || parameter == 48
  }

  function WithAttributes(style: Style, parameters: seq<uint32>): Style
    decreases |parameters|
  {
    if parameters == [] then style
    else if SkipsNext(parameters[0]) then
      if |parameters| == 1 then style else WithAttributes(style, parameters[2..])
    else WithAttributes(WithAttribute(style, parameters[0]), parameters[1..])
  }

  function OnSetAttributes(r: Run, parameters: seq<uint32>): (d: Run)
    ensures Framed(r, d)
  {
    Preserving(r.(control := r.control.(style := WithAttributes(r.control.style, parameters))))
  }

  function OnBackspace(r: Run): (d: Run)
    ensures Framed(r, d)
  {
    Preserving(r.(control := r.control.(column := if r.control.column != 0 then r.control.column - 1 else 0)))
  }

  /** The distance to the next tab stop. */
  function ToTabStop(column: nat): (pad: nat)
    ensures 1 <= pad <= SPACES_PER_TAB
  {
    SPACES_PER_TAB - column % SPACES_PER_TAB
  }

  function OnTab(r: Run): (d: Run)
    requires r.control.columns >= 1
    ensures Framed(r, d)
  {
    var c := r.control;
    var pad := ToTabStop(c.column);
    var column := if c.column + pad >= c.columns - 1 then c.columns - 1 else c.column + pad;
    var length := Length(r.line);
    var newLength := if length + pad >= c.columns - 1 then c.columns - 1 else length + pad;
    var moved := Preserving(r.(control := c.(column := column)));
    if c.rowOffset != 0 || column < length then moved
    else moved.(line := FillRange(r.line, c.columns, length, newLength))
  }

  function OnCarriageReturn(r: Run): (d: Run)
    ensures Framed(r, d)
  {
    r.(control := r.control.(column := 0, action := ResetColumn))
  }

  function OnControlCharacter(r: Run, code: byte): (d: Run)
    requires r.control.columns >= 1
    ensures Framed(r, d)
  {
    if code == 9 then OnTab(r)
    else if code == 8 then OnBackspace(r)
    else if code == 10 || code == 11 || code == 12 then MovedRows(r, 1, ResetColumn)
    else if code == 13 then OnCarriageReturn(r)
    else r
  }

  function OnEscapeCode(r: Run, code: byte): (d: Run)
    ensures Framed(r, d)
  {
    if code == 'D' as int then MovedRows(r, 1, PreserveColumn)
    else if code == 'E' as int then MovedRows(r, 1, ResetColumn)
    else if code == 'M' as int then MovedRows(r, -1, PreserveColumn)
    else r
  }

  function OnSequence(r: Run, code: byte, p: seq<uint32>): (d: Run)
    requires r.control.columns >= 1
    ensures Framed(r, d)
  {
    if code == '@' as int then OnInsertBlanks(r, p)
    else if code == 'A' as int then MovedRows(r, 0 - Count(p), PreserveColumn)
    else if code == 'B' as int then MovedRows(r, Count(p), PreserveColumn)
    else if code == 'C' as int then OnMoveRight(r, p)
    else if code == 'D' as int then OnMoveLeft(r, p)
    else if code == 'E' as int then MovedRows(r, Count(p), ResetColumn)
    else if code == 'F' as int then MovedRows(r, 0 - WideCount(p), ResetColumn)
    else if code == 'G' as int then OnMoveToColumn(r, p)
    else if code == 'K' as int then OnEraseLine(r, p)
    else if code == 'P' as int then OnDeleteCharacters(r, p)
    else if code == 'X' as int then OnEraseCharacters(r, p)
    else if code == 'm' as int then OnSetAttributes(r, p)
    else r
  }

  function Dispatch(r: Run, command: Command): (d: Run)
    requires r.control.columns >= 1
    ensures Framed(r, d)
  {
    match command.kind
    case ControlCharacter => OnControlCharacter(r, command.code)
    case EscapeCode => OnEscapeCode(r, command.code)
    case Sequence => if command.valid then OnSequence(r, command.code, command.parameters) else r
  }

  function DispatchAll(r: Run, commands: seq<Command>): (d: Run)
    requires r.control.columns >= 1
    ensures Framed(r, d)
    decreases commands
  {
    if commands == [] then r else DispatchAll(Dispatch(r, commands[0]), commands[1..])
  }

  // ----- one byte

  predicate Steppable(c: Control) {
    c.columns >= 1 && (c.mode.Unescaped? || c.staged.Some?)
  }

  /** flush_pending_character_to_line: a full row asks for a new line at once. */
  function Flushed(r: Run): Run {
    var c := r.control;
    var line := Put(r.line, c.columns, c.column, Character(c.partial, c.style));
    var next := c.(partial := [], column := c.column + 1);
    if c.column + 1 >= c.columns
    then Run(next.(rowOffset := c.rowOffset + 1, action := ResetColumn), line, true)
    else Run(next, line, false)
  }

  /** iscntrl in the C locale, for bytes below 0x80. */
  predicate IsControl(b: byte) {
    b < 32 || b == 127
  }

  predicate IsDigit(b: byte) {
    '0' as int <= b <= '9' as int
  }

  /** One more decimal digit, in 32 bits. */
  function WithDigit(value: uint32, digit: byte): uint32
    requires IsDigit(digit)
  {
    (value * 10 + (digit - '0' as int)) % 0x1_0000_0000
  }

  const SEMICOLON: byte := 59
  const BRACKET: byte := 91

  /** The most elements the source's growing array of uint32 keeps. */
  const MOST_PARAMETERS: nat := 255 * 4096 / 4 - 2

  /** ply_array_add_uint32_element: once the buffer is at its maximum the oldest element goes. */
  function WithParameter(parameters: seq<uint32>, value: uint32): seq<uint32> {
    if |parameters| >= MOST_PARAMETERS then parameters[|parameters| - MOST_PARAMETERS + 1..] + [value]
    else parameters + [value]
  }

  function Parameter(c: Control, b: byte): Control
    requires c.staged.Some?
  {
    var staged := c.staged.value;
    if 64 <= b <= 157 then
      var command := staged.(code := b, parameters := WithParameter(staged.parameters, c.value));
      c.(mode := Unescaped, value := 0, pending := c.pending + [command], staged := None)
    else if IsControl(b) && b != ESC then
      c.(pending := c.pending + [Command(b, ControlCharacter, [], false)])
    else if IsDigit(b) then
      c.(value := WithDigit(c.value, b), lastWasInteger := true)
    else if b == SEMICOLON then
      c.(staged := Some(staged.(parameters := WithParameter(staged.parameters, if c.lastWasInteger then c.value else 0))),
         value := 0, lastWasInteger := false)
    else
      c.(staged := Some(staged.(valid := false)))
  }

  /** The switch over the parser states, before pending commands are run. */
  function Parsed(r: Run, b: byte): (p: Run)
    requires Steppable(r.control)
    ensures Steppable(p.control) && p.control.columns == r.control.columns
  {
    var c := r.control;
    match c.mode
    case Unescaped =>
      if b == ESC then
        r.(control := c.(staged := Some(Command(0, ControlCharacter, [], false)), mode := Escaped))
      else if IsControl(b) then
        r.(control := c.(pending := c.pending + [Command(b, ControlCharacter, [], false)], staged := None))
      else
        Flushed(r.(control := c.(partial := c.partial + [b])))
    case Escaped =>
      if b == BRACKET then
        r.(control := c.(value := 0, lastWasInteger := false, mode := ControlSequence,
                         staged := Some(c.staged.value.(parameters := [], kind := Sequence, valid := true))))
      else
        var command := c.staged.value.(code := b, kind := EscapeCode);
        r.(control := c.(pending := c.pending + [command], staged := None, mode := Unescaped))
    case ControlSequence =>
      r.(control := Parameter(c, b))
  }

  function Interpreted(r: Run, b: byte): (s: Run)
    requires Steppable(r.control)
    ensures Steppable(s.control) && s.control.columns == r.control.columns
  {
    var p := Parsed(r, b);
    if p.control.mode.Unescaped? then
      var d := DispatchAll(p, p.control.pending);
      d.(control := d.control.(pending := []))
    else p
  }

  /** Continuation bytes: they complete the character begun, or stand alone. */
  function Continued(r: Run, b: byte): (s: Run)
    requires Steppable(r.control)
    ensures Steppable(s.control) && s.control.columns == r.control.columns
  {
    var c := r.control;
    if c.multiByte then
      var more := c.(partial := c.partial + [b]);
      if |more.partial| < c.partialSize then r.(control := more)
      else if !c.mode.Unescaped? then r.(control := more.(partial := []))
      else Flushed(r.(control := more.(multiByte := false)))
    else if !c.mode.Unescaped? then r.(control := c.(partial := []))
    else Flushed(r.(control := c.(partialSize := 1, partial := [PLACEHOLDER])))
  }

  /** A new character begins: one left incomplete outside an escape sequence becomes a placeholder. */
  function Interrupted(r: Run): (s: Run)
    requires Steppable(r.control)
    ensures Steppable(s.control) && s.control.columns == r.control.columns
  {
    if r.control.multiByte && r.control.mode.Unescaped?
    then Flushed(r.(control := r.control.(partial := [PLACEHOLDER])))
    else r.(control := r.control.(partial := []))
  }

  /** A byte that is not a continuation byte. */
  function Led(r: Run, b: byte): (s: Run)
    requires Steppable(r.control)
    ensures Steppable(s.control) && s.control.columns == r.control.columns
  {
    var t := TypeOf(b);
    if IsMultiByte(t) then
      r.(control := r.control.(multiByte := true, partialSize := SizeOf(t), partial := r.control.partial + [b]))
    else if t.OneByte? then
      Interpreted(r.(control := r.control.(multiByte := false, partialSize := 1)), b)
    else r
  }

  function Step(r: Run, b: byte): (s: Run)
    requires Steppable(r.control)
    ensures Steppable(s.control) && s.control.columns == r.control.columns
  {
    if TypeOf(b).Continuation? then Continued(Preserving(r), b) else Led(Interrupted(Preserving(r)), b)
  }

  /** The run has to give up its line before it takes another byte. */
  predicate Due(r: Run) {
    r.broken && r.control.mode.Unescaped?
  }
}
