/**
 The emulator object (src/libply-splash-core/ply-terminal-emulator.c): its fields
 are updated byte by byte and its lines are drawn on in place.

 Each method is tied to the function that specifies it; what the functions mean
 is proved in Feeding, ChunkIndependence, LineRing, ControlSequences and
 Attributes.
 */
module TerminalEmulator {
  import opened Base
  import opened Utf8
  import opened RichText
  import opened Screen
  import opened Feeding
  import opened ControlSequences
  import opened ChunkIndependence

  /** The text of the lines, in the order of their slots. */
  ghost function Texts(lines: seq<RichTextLine>): (t: seq<Line>)
    reads lines
    ensures |t| == |lines| && forall i :: 0 <= i < |lines| ==> t[i] == lines[i].characters
  {
    if lines == [] then [] else [lines[0].characters] + Texts(lines[1..])
  }

  class Terminal {
    const numberOfRows: nat
    const numberOfColumns: nat
    const lines: seq<RichTextLine>

    var state: Mode
    var lineCount: nat
    var cursorRowOffset: int
    var cursorColumn: nat
    var breakAction: BreakAction
    var lastParameterWasInteger: bool
    var pendingParameterValue: uint32
    var stagedCommand: Option<Command>
    var pendingCommands: seq<Command>
    var readingMultiByte: bool
    var pendingCharacter: seq<byte>
    var pendingCharacterSize: nat
    var currentLine: RichTextLine?
    var currentStyle: Style

    ghost function ControlNow(): Control
      reads this
    {
      Control(state, numberOfColumns, cursorRowOffset, cursorColumn, breakAction, lastParameterWasInteger,
              pendingParameterValue, stagedCommand, pendingCommands, readingMultiByte, pendingCharacter,
              pendingCharacterSize, currentStyle)
    }

    /** The lines are different objects, and as wide as the terminal. */
    ghost predicate Ring()
      reads lines
    {
      && (forall i, j :: 0 <= i < j < |lines| ==> lines[i] != lines[j])
      && (forall i :: 0 <= i < |lines| ==> lines[i].span == Span(0, numberOfColumns))
    }

    ghost predicate Valid()
      reads this, lines
    {
      && numberOfRows >= 1 && |lines| == numberOfRows && lineCount >= 1
      && Steppable(ControlNow())
      && Ring()
    }

    /** A line is being drawn on. */
    ghost predicate Drawing()
      reads this, lines
    {
      Valid() && currentLine != null && currentLine in lines
    }

    ghost function RunNow(broken: bool): Run
      reads this, currentLine
      requires currentLine != null
    {
      Run(ControlNow(), currentLine.characters, broken)
    }

    ghost function Contents(): Emulator
      reads this, lines
    {
      Emulator(numberOfRows, lineCount, Texts(lines), ControlNow())
    }

    constructor (rows: nat, columns: nat)
      requires rows >= 1 && columns >= 1
      ensures Valid() && currentLine == null && Contents() == Fresh(rows, columns)
    {
      numberOfRows, numberOfColumns := rows, columns;
      lineCount, cursorRowOffset, cursorColumn := 1, 0, 0;
      state, breakAction := Unescaped, PreserveColumn;
      lastParameterWasInteger, pendingParameterValue := false, 0;
      stagedCommand, pendingCommands := None, [];
      readingMultiByte, pendingCharacter, pendingCharacterSize := false, [], 0;
      currentLine := null;
      currentStyle := DEFAULT_STYLE;
      var made: seq<RichTextLine> := [];
      var i := 0;
      while i < rows
        invariant 0 <= i <= rows && |made| == i
        invariant forall l :: l in made ==> fresh(l)
        invariant forall j, k :: 0 <= j < k < |made| ==> made[j] != made[k]
        invariant forall j :: 0 <= j < |made| ==> made[j].characters == [] && made[j].span == Span(0, columns)
      {
        var line := new RichTextLine();
        line.SetMutableSpan(Span(0, columns));
        made := made + [line];
        i := i + 1;
      }
      lines := made;
      new;
      assert Texts(lines) == seq(rows, i => []);
    }

    // ----- drawing

    method FillOffsetsWithPadding(start: nat, stop: nat)
      requires Drawing()
      modifies currentLine`characters
      ensures currentLine.characters == Padded(old(currentLine.characters), numberOfColumns, start, stop)
    {
      if stop <= start {
        return;
      }
      ghost var target := FillRange(currentLine.characters, numberOfColumns, start, stop + 1);
      var i := start;
      while i <= stop
        invariant start <= i <= stop + 1
        invariant FillRange(currentLine.characters, numberOfColumns, i, stop + 1) == target
      {
        currentLine.Set(DEFAULT_STYLE, i, [SPACE]);
        i := i + 1;
      }
    }

    /** The first parameter as a count of at least one. */
    method CountParameter(parameters: seq<uint32>) returns (count: nat)
      ensures count == Count(parameters)
    {
      if |parameters| > 0 && parameters[0] < 0x8000_0000 {
        count := parameters[0];
        if count == 0 {
          count := 1;
        }
      } else {
        count := 1;
      }
    }

    method InsertBlankCharacters(parameters: seq<uint32>)
      requires Drawing()
      modifies `breakAction, currentLine`characters
      ensures RunNow(false) == OnInsertBlanks(old(RunNow(false)), parameters)
    {
      hide Wrapped, ShiftedRight, Padded;
      var length := currentLine.GetLength();
      breakAction := PreserveColumn;
      var parameter := CountParameter(parameters);
      var newLength := length + parameter;
      var appendCount := parameter;
      if newLength >= numberOfColumns {
        appendCount := Wrapped(numberOfColumns - length - 1);
        newLength := numberOfColumns - 1;
      }
      // for an empty line, length - 1 wraps around and is past the margin
      var last := if length == 0 || length - 1 >= numberOfColumns then numberOfColumns - 1 else length - 1;
      if newLength == 0 {
        return;
      }
      FillOffsetsWithPadding(length, newLength);
      ShiftRight(last, appendCount);
    }

    method ShiftRight(last: nat, count: nat)
      requires Drawing()
      modifies currentLine`characters
      ensures currentLine.characters == ShiftedRight(old(currentLine.characters), numberOfColumns, last, cursorColumn, count)
    {
      hide Wrapped;
      ghost var target := ShiftedRight(currentLine.characters, numberOfColumns, last, cursorColumn, count);
      var i: nat := last;
      while i >= cursorColumn
        invariant ShiftedRight(currentLine.characters, numberOfColumns, i, cursorColumn, count) == target
        decreases i
      {
        currentLine.Move(i, Wrapped(i + count));
        currentLine.Set(DEFAULT_STYLE, i, [SPACE]);
        if i == 0 {
          return;
        }
        i := i - 1;
      }
    }

    method MoveCursorRight(parameters: seq<uint32>) returns (broke: bool)
      requires Drawing()
      modifies `breakAction, `cursorColumn, currentLine`characters
      ensures RunNow(broke) == OnMoveRight(old(RunNow(false)), parameters)
    {
      var length := currentLine.GetLength();
      breakAction := PreserveColumn;
      var parameter := CountParameter(parameters);
      cursorColumn := cursorColumn + parameter;
      if cursorColumn >= numberOfColumns {
        return true;
      }
      FillOffsetsWithPadding(length, cursorColumn);
      return false;
    }

    method MoveCursorLeft(parameters: seq<uint32>)
      requires Drawing()
      modifies `breakAction, `cursorColumn, currentLine`characters
      ensures RunNow(false) == OnMoveLeft(old(RunNow(false)), parameters)
    {
      var length := currentLine.GetLength();
      breakAction := PreserveColumn;
      var parameter := CountParameter(parameters);
      if parameter > cursorColumn {
        cursorColumn := 0;
      } else {
        cursorColumn := cursorColumn - parameter;
      }
      FillOffsetsWithPadding(length, cursorColumn);
    }

    method MoveCursorToColumn(parameters: seq<uint32>)
      requires Drawing()
      modifies `breakAction, `cursorColumn, currentLine`characters
      ensures RunNow(false) == OnMoveToColumn(old(RunNow(false)), parameters)
    {
      var length := currentLine.GetLength();
      breakAction := PreserveColumn;
      var parameter := CountParameter(parameters);
      if parameter > numberOfColumns {
        cursorColumn := 1;
      } else {
        cursorColumn := parameter - 1;
      }
      FillOffsetsWithPadding(length, cursorColumn);
    }

    method EraseLine(parameters: seq<uint32>)
      requires Drawing()
      modifies `breakAction, currentLine`characters
      ensures RunNow(false) == OnEraseLine(old(RunNow(false)), parameters)
    {
      var start := cursorColumn;
      var length := currentLine.GetLength();
      breakAction := PreserveColumn;
      var what := 0;
      if |parameters| > 0 {
        what := parameters[0];
        if what > 2 {
          return;
        }
      }
      if start >= numberOfColumns {
        start := numberOfColumns - 1;
      }
      if what == 1 || what == 2 {
        BlankDown(start);
      }
      if what == 0 || what == 2 {
        RemoveUp(start, length);
      }
    }

    method BlankDown(start: nat)
      requires Drawing()
      modifies currentLine`characters
      ensures currentLine.characters == BlankedDown(old(currentLine.characters), numberOfColumns, start, currentStyle)
    {
      ghost var target := BlankedDown(currentLine.characters, numberOfColumns, start, currentStyle);
      var i := start;
      while true
        invariant BlankedDown(currentLine.characters, numberOfColumns, i, currentStyle) == target
        decreases i
      {
        currentLine.Set(currentStyle, i, [SPACE]);
        if i == 0 {
          return;
        }
        i := i - 1;
      }
    }

    method RemoveUp(start: nat, end: nat)
      requires Drawing()
      modifies currentLine`characters
      ensures currentLine.characters == RemovedRange(old(currentLine.characters), numberOfColumns, start, end)
    {
      ghost var target := RemovedRange(currentLine.characters, numberOfColumns, start, end);
      var i := start;
      while i < end
        invariant RemovedRange(currentLine.characters, numberOfColumns, i, end) == target
      {
        currentLine.RemoveAt(i);
        i := i + 1;
      }
    }

    method DeleteCharacters(parameters: seq<uint32>)
      requires Drawing()
      modifies `breakAction, currentLine`characters
      ensures RunNow(false) == OnDeleteCharacters(old(RunNow(false)), parameters)
    {
      var length := currentLine.GetLength();
      breakAction := PreserveColumn;
      var count := CountParameter(parameters);
      var parameter: int := count;
      if cursorColumn + parameter >= length {
        parameter := length as int - 1;
      }
      ShiftLeft(length, parameter);
    }

    method ShiftLeft(length: nat, count: int)
      requires Drawing() && (cursorColumn < length ==> count >= 0)
      modifies currentLine`characters
      ensures currentLine.characters == if cursorColumn >= length then old(currentLine.characters)
                else ShiftedLeft(old(currentLine.characters), numberOfColumns, cursorColumn, length, count)
    {
      ghost var n: nat := if count >= 0 then count else 0;
      ghost var target := ShiftedLeft(currentLine.characters, numberOfColumns, cursorColumn, length, n);
      var i := cursorColumn;
      while i < length
        invariant ShiftedLeft(currentLine.characters, numberOfColumns, i, length, n) == target
      {
        currentLine.Move(i + count, i);
        i := i + 1;
      }
    }

    method EraseCharacters(parameters: seq<uint32>)
      requires Drawing()
      modifies `breakAction, currentLine`characters
      ensures RunNow(false) == OnEraseCharacters(old(RunNow(false)), parameters)
    {
      var length := currentLine.GetLength();
      breakAction := PreserveColumn;
      var parameter := CountParameter(parameters);
      ghost var end := if cursorColumn + parameter < length then cursorColumn + parameter else length;
      ghost var target := BlankedUp(currentLine.characters, numberOfColumns, cursorColumn, end, currentStyle);
      var i := 0;
      while i < parameter
        modifies currentLine`characters
        invariant 0 <= i <= parameter
        invariant BlankedUp(currentLine.characters, numberOfColumns, cursorColumn + i, end, currentStyle) == target
      {
        var offset := cursorColumn + i;
        if offset >= length {
          break;
        }
        currentLine.Set(currentStyle, offset, [SPACE]);
        i := i + 1;
      }
    }

    method SetAttributes(parameters: seq<uint32>)
      requires Drawing()
      modifies `breakAction, `currentStyle
      ensures RunNow(false) == OnSetAttributes(old(RunNow(false)), parameters)
    {
      breakAction := PreserveColumn;
      var ignoreValue := false;
      var i := 0;
      while i < |parameters|
        modifies `currentStyle
        invariant 0 <= i <= |parameters|
        invariant (if ignoreValue && i < |parameters| then WithAttributes(currentStyle, parameters[i + 1..])
                   else WithAttributes(currentStyle, parameters[i..])) == WithAttributes(old(currentStyle), parameters)
      {
        assert parameters[i..][1..] == parameters[i + 1..];
        if ignoreValue {
          ignoreValue := false;
        } else if SkipsNext(parameters[i]) {
          assert i + 1 < |parameters| ==> parameters[i..][2..] == parameters[i + 2..];
          ignoreValue := true;
        } else {
          currentStyle := WithAttribute(currentStyle, parameters[i]);
        }
        i := i + 1;
      }
      assert parameters[|parameters|..] == [];
    }

    method Tab()
      requires Drawing()
      modifies `breakAction, `cursorColumn, currentLine`characters
      ensures RunNow(false) == OnTab(old(RunNow(false)))
    {
      hide ToTabStop, Ring, FillRange;
      FirstTabStop();
      var length := currentLine.GetLength();
      breakAction := PreserveColumn;
      var pad := if cursorColumn == 0 then SPACES_PER_TAB else ToTabStop(cursorColumn);
      var column := cursorColumn + pad;
      if column >= numberOfColumns - 1 {
        column := numberOfColumns - 1;
      }
      cursorColumn := column;
      if cursorRowOffset != 0 {
        return;
      }
      if column < length {
        return;
      }
      var newLength := length + pad;
      if newLength >= numberOfColumns - 1 {
        newLength := numberOfColumns - 1;
      }
      FillWithSpaces(length, newLength);
    }

    method FillWithSpaces(start: nat, stop: nat)
      requires Drawing()
      modifies currentLine`characters
      ensures currentLine.characters == FillRange(old(currentLine.characters), numberOfColumns, start, stop)
    {
      ghost var target := FillRange(currentLine.characters, numberOfColumns, start, stop);
      var i := start;
      while i < stop
        modifies currentLine`characters
        invariant FillRange(currentLine.characters, numberOfColumns, i, stop) == target
      {
        currentLine.Set(DEFAULT_STYLE, i, [SPACE]);
        i := i + 1;
      }
    }

    // ----- dispatch

    method DispatchSequence(code: byte, parameters: seq<uint32>) returns (broke: bool)
      requires Drawing()
      modifies `breakAction, `cursorColumn, `cursorRowOffset, `currentStyle, currentLine`characters
      ensures RunNow(broke) == OnSequence(old(RunNow(false)), code, parameters)
    {
      broke := false;
      var count := CountParameter(parameters);
      if code == '@' as int {
        InsertBlankCharacters(parameters);
      } else if code == 'A' as int {
        cursorRowOffset, breakAction, broke := cursorRowOffset - count, PreserveColumn, true;
      } else if code == 'B' as int {
        cursorRowOffset, breakAction, broke := cursorRowOffset + count, PreserveColumn, true;
      } else if code == 'C' as int {
        broke := MoveCursorRight(parameters);
      } else if code == 'D' as int {
        MoveCursorLeft(parameters);
      } else if code == 'E' as int {
        cursorRowOffset, breakAction, broke := cursorRowOffset + count, ResetColumn, true;
      } else if code == 'F' as int {
        var wide := if |parameters| > 0 && parameters[0] > 0 then parameters[0] else 1;
        cursorRowOffset, breakAction, broke := cursorRowOffset - wide, ResetColumn, true;
      } else if code == 'G' as int {
        MoveCursorToColumn(parameters);
      } else if code == 'K' as int {
        EraseLine(parameters);
      } else if code == 'P' as int {
        DeleteCharacters(parameters);
      } else if code == 'X' as int {
        EraseCharacters(parameters);
      } else if code == 'm' as int {
        SetAttributes(parameters);
      }
    }

    method DispatchCommand(command: Command) returns (broke: bool)
      requires Drawing()
      modifies `breakAction, `cursorColumn, `cursorRowOffset, `currentStyle, currentLine`characters
      ensures RunNow(broke) == Dispatch(old(RunNow(false)), command)
    {
      broke := false;
      match command.kind {
        case ControlCharacter =>
          if command.code == 9 {
            Tab();
          } else if command.code == 8 {
            breakAction := PreserveColumn;
            if cursorColumn != 0 {
              cursorColumn := cursorColumn - 1;
            }
          } else if command.code == 10 || command.code == 11 || command.code == 12 {
            cursorRowOffset, breakAction, broke := cursorRowOffset + 1, ResetColumn, true;
          } else if command.code == 13 {
            cursorColumn, breakAction := 0, ResetColumn;
          }
        case EscapeCode =>
          if command.code == 'D' as int {
            cursorRowOffset, breakAction, broke := cursorRowOffset + 1, PreserveColumn, true;
          } else if command.code == 'E' as int {
            cursorRowOffset, breakAction, broke := cursorRowOffset + 1, ResetColumn, true;
          } else if command.code == 'M' as int {
            cursorRowOffset, breakAction, broke := cursorRowOffset - 1, PreserveColumn, true;
          }
        case Sequence =>
          if command.valid {
            broke := DispatchSequence(command.code, command.parameters);
          }
      }
    }

    /** Run what is pending, in order; any command may ask for another line. */
    method DispatchPending(wasBroken: bool) returns (broke: bool)
      requires Drawing()
      modifies `breakAction, `cursorColumn, `cursorRowOffset, `currentStyle, `pendingCommands, currentLine`characters
      ensures pendingCommands == []
      ensures var d := DispatchAll(old(RunNow(wasBroken)), old(pendingCommands));
        RunNow(broke) == d.(control := d.control.(pending := []))
    {
      hide Dispatch;
      broke := wasBroken;
      ghost var all := DispatchAll(RunNow(broke), pendingCommands);
      var i := 0;
      while i < |pendingCommands|
        modifies `breakAction, `cursorColumn, `cursorRowOffset, `currentStyle, currentLine`characters
        invariant 0 <= i <= |pendingCommands|
        invariant DispatchAll(RunNow(broke), pendingCommands[i..]) == all
      {
        ghost var before := RunNow(broke);
        var asked := DispatchCommand(pendingCommands[i]);
        BrokenIsOnlyRaised(before, pendingCommands[i]);
        assert pendingCommands[i..][1..] == pendingCommands[i + 1..];
        broke := broke || asked;
        i := i + 1;
      }
      assert pendingCommands[|pendingCommands|..] == [];
      pendingCommands := [];
    }

    // ----- bytes

    method FlushPendingCharacter(ghost wasBroken: bool) returns (broke: bool)
      requires Drawing()
      modifies `pendingCharacter, `cursorColumn, `cursorRowOffset, `breakAction, currentLine`characters
      ensures RunNow(broke) == Flushed(old(RunNow(wasBroken)))
    {
      currentLine.Set(currentStyle, cursorColumn, pendingCharacter);
      pendingCharacter := [];
      cursorColumn := cursorColumn + 1;
      broke := false;
      if cursorColumn >= numberOfColumns {
        cursorRowOffset := cursorRowOffset + 1;
        breakAction := ResetColumn;
        broke := true;
      }
    }

    method ParseParameterByte(b: byte)
      requires Drawing() && state.ControlSequence?
      modifies `state, `stagedCommand, `pendingCommands, `pendingParameterValue, `lastParameterWasInteger
      ensures ControlNow() == Parameter(old(ControlNow()), b)
    {
      var staged := stagedCommand.value;
      if 64 <= b <= 157 {
        state := Unescaped;
        staged := staged.(code := b, parameters := WithParameter(staged.parameters, pendingParameterValue));
        pendingParameterValue := 0;
        pendingCommands := pendingCommands + [staged];
        stagedCommand := None;
      } else if IsControl(b) && b != ESC {
        pendingCommands := pendingCommands + [Command(b, ControlCharacter, [], false)];
      } else if b == SEMICOLON || IsDigit(b) {
        if IsDigit(b) {
          pendingParameterValue := WithDigit(pendingParameterValue, b);
          lastParameterWasInteger := true;
        } else {
          var value := if !lastParameterWasInteger then 0 else pendingParameterValue;
          stagedCommand := Some(staged.(parameters := WithParameter(staged.parameters, value)));
          pendingParameterValue := 0;
          lastParameterWasInteger := false;
        }
      } else {
        stagedCommand := Some(staged.(valid := false));
      }
    }

    method ParseByte(b: byte, wasBroken: bool) returns (broke: bool)
      requires Drawing()
      modifies `state, `stagedCommand, `pendingCommands, `pendingParameterValue, `lastParameterWasInteger,
        `pendingCharacter, `cursorColumn, `cursorRowOffset, `breakAction, currentLine`characters
      ensures RunNow(broke) == Parsed(old(RunNow(wasBroken)), b)
    {
      hide Flushed;
      broke := wasBroken;
      match state {
        case Unescaped =>
          if b == ESC {
            stagedCommand := Some(Command(0, ControlCharacter, [], false));
            state := Escaped;
          } else if IsControl(b) {
            pendingCommands := pendingCommands + [Command(b, ControlCharacter, [], false)];
            stagedCommand := None;
          } else {
            pendingCharacter := pendingCharacter + [b];
            assert RunNow(wasBroken) == old(RunNow(wasBroken)).(control := old(ControlNow()).(partial := old(pendingCharacter) + [b]));
            broke := FlushPendingCharacter(wasBroken);
          }
        case Escaped =>
          if b == BRACKET {
            pendingParameterValue := 0;
            stagedCommand := Some(stagedCommand.value.(parameters := [], kind := Sequence, valid := true));
            lastParameterWasInteger := false;
            state := ControlSequence;
          } else {
            pendingCommands := pendingCommands + [stagedCommand.value.(code := b, kind := EscapeCode)];
            stagedCommand := None;
            state := Unescaped;
          }
        case ControlSequence =>
          ParseParameterByte(b);
      }
    }

    /** A character left incomplete outside an escape sequence becomes a placeholder. */
    method BeginCharacter(wasBroken: bool) returns (broke: bool)
      requires Drawing()
      modifies `pendingCharacter, `cursorColumn, `cursorRowOffset, `breakAction, currentLine`characters
      ensures RunNow(broke) == Interrupted(old(RunNow(wasBroken)))
    {
      hide Flushed;
      broke := wasBroken;
      pendingCharacter := [];
      if readingMultiByte && state.Unescaped? {
        pendingCharacter := [PLACEHOLDER];
        broke := FlushPendingCharacter(wasBroken);
      }
    }

    method TakeFirstByte(b: byte, wasBroken: bool) returns (broke: bool)
      requires Drawing()
      modifies `state, `stagedCommand, `pendingCommands, `pendingParameterValue, `lastParameterWasInteger,
        `pendingCharacter, `pendingCharacterSize, `readingMultiByte, `cursorColumn, `cursorRowOffset, `breakAction,
        `currentStyle, currentLine`characters
      ensures RunNow(broke) == Led(old(RunNow(wasBroken)), b)
    {
      hide Parsed, DispatchAll;
      broke := wasBroken;
      var t := TypeOf(b);
      if IsMultiByte(t) {
        readingMultiByte := true;
        pendingCharacterSize := SizeOf(t);
        pendingCharacter := pendingCharacter + [b];
      } else if t.OneByte? {
        readingMultiByte := false;
        pendingCharacterSize := 1;
        broke := ParseByte(b, broke);
        if state.Unescaped? {
          broke := DispatchPending(broke);
        }
      }
    }

    /** One iteration of the loop over the input. */
    method TakeByte(b: byte, wasBroken: bool) returns (broke: bool)
      requires Drawing()
      modifies `state, `stagedCommand, `pendingCommands, `pendingParameterValue, `lastParameterWasInteger,
        `pendingCharacter, `pendingCharacterSize, `readingMultiByte, `cursorColumn, `cursorRowOffset, `breakAction,
        `currentStyle, currentLine`characters
      ensures Drawing() && RunNow(broke) == Step(old(RunNow(wasBroken)), b)
    {
      hide Continued, Interrupted, Led;
      broke := wasBroken;
      breakAction := PreserveColumn;
      if TypeOf(b).Continuation? {
        broke := TakeContinuation(b, broke);
      } else {
        broke := BeginCharacter(broke);
        broke := TakeFirstByte(b, broke);
      }
    }

    method TakeContinuation(b: byte, wasBroken: bool) returns (broke: bool)
      requires Drawing()
      modifies `pendingCharacter, `pendingCharacterSize, `readingMultiByte, `cursorColumn, `cursorRowOffset, `breakAction,
        currentLine`characters
      ensures RunNow(broke) == Continued(old(RunNow(wasBroken)), b)
    {
      hide Flushed;
      broke := wasBroken;
      if readingMultiByte {
        pendingCharacter := pendingCharacter + [b];
        if |pendingCharacter| < pendingCharacterSize {
          return;
        }
        if !state.Unescaped? {
          pendingCharacter := [];
          return;
        }
        readingMultiByte := false;
        broke := FlushPendingCharacter(wasBroken);
      } else {
        if !state.Unescaped? {
          pendingCharacter := [];
          return;
        }
        pendingCharacterSize := 1;
        pendingCharacter := [PLACEHOLDER];
        broke := FlushPendingCharacter(wasBroken);
      }
    }

    // ----- input

    method GetNthLine(lineNumber: nat) returns (line: RichTextLine)
      requires Valid()
      ensures line == lines[Slot(lineNumber, numberOfRows)]
    {
      line := lines[Slot(lineNumber, numberOfRows)];
    }

    /** Begin a run on `line`. */
    method BeginRun(line: RichTextLine)
      requires Valid() && line in lines
      modifies `currentLine, `cursorColumn, line`characters
      ensures Drawing() && currentLine == line
      ensures RunNow(false) == Begun(old(ControlNow()), old(line.characters))
    {
      currentLine := line;
      if cursorColumn >= numberOfColumns {
        cursorColumn := 0;
      }
      var length := currentLine.GetLength();
      if cursorColumn >= length {
        FillOffsetsWithPadding(length, cursorColumn);
      }
    }

    method ClearLine(lineNumber: nat)
      requires Valid()
      modifies lines
      ensures Valid() && Texts(lines) == old(Texts(lines))[Slot(lineNumber, numberOfRows) := []]
    {
      var line := GetNthLine(lineNumber);
      line.RemoveCharacters();
    }

    /** Moving down makes new lines: their slots in the ring are emptied. */
    method MakeNewLines() returns (ghost count: nat)
      requires Valid()
      modifies `cursorRowOffset, `lineCount, lines
      ensures Valid()
      ensures count == if old(cursorRowOffset) > 0 then old(cursorRowOffset) else 0
      ensures Texts(lines) == Appended(old(Texts(lines)), old(lineCount), count)
      ensures lineCount == old(lineCount) + count
      ensures cursorRowOffset == old(cursorRowOffset) - count
    {
      hide Slot, Ring, Texts;
      count := if cursorRowOffset > 0 then cursorRowOffset else 0;
      ghost var texts := Appended(Texts(lines), lineCount, count);
      ghost var left := count;
      while cursorRowOffset > 0
        invariant Valid()
        invariant left == if cursorRowOffset > 0 then cursorRowOffset else 0
        invariant lineCount + left == old(lineCount) + count
        invariant cursorRowOffset - left == old(cursorRowOffset) - count
        invariant Appended(Texts(lines), lineCount, left) == texts
        decreases left
      {
        cursorRowOffset := cursorRowOffset - 1;
        ClearLine(lineCount);
        lineCount := lineCount + 1;
        left := left - 1;
      }
    }

    /** End a run that was opened on `e` and has drawn `q` so far. */
    method EndRun(ghost e: Emulator, ghost q: Run)
      requires Valid() && Sound(e) && e.rows == numberOfRows && e.lineCount == lineCount
      requires Texts(lines) == e.lines[Slot(CursorRow(e), e.rows) := q.line] && ControlNow() == q.control
      modifies this, lines
      ensures Valid() && Contents() == Commit(e, q)
    {
      hide Slot, CursorRow, Appended, Ring, Texts;
      ghost var count := MakeNewLines();
      if breakAction.ResetColumn? {
        cursorColumn := 0;
      }
      currentLine := null;
    }

    /** Take bytes until the run is over or the input ends. */
    method TakeBytes(input: seq<byte>, ghost r: Run) returns (consumed: nat, ghost broken: bool)
      requires Drawing() && input != [] && r == RunNow(false)
      modifies this, currentLine`characters
      ensures Drawing() && currentLine == old(currentLine) && lineCount == old(lineCount)
      ensures consumed == Taken(r, input) && 1 <= consumed <= |input|
      ensures RunNow(broken) == Steps(r, input[..consumed])
    {
      hide Step;
      var broke := false;
      var i := 0;
      assert input[0..] == input && input[..0] == [];
      while i < |input| && !(broke && state.Unescaped?)
        invariant 0 <= i <= |input| && Drawing() && currentLine == old(currentLine) && lineCount == old(lineCount)
        invariant i == 0 ==> !broke
        invariant RunNow(broke) == Steps(r, input[..i])
        invariant Taken(r, input) == i + Taken(RunNow(broke), input[i..])
      {
        StepsExtend(r, input, i);
        assert input[i..][1..] == input[i + 1..];
        broke := TakeByte(input[i], broke);
        i := i + 1;
      }
      consumed, broken := i, broke;
    }

    /** parse_substring: one run, on `line`; `consumed` bytes of the input are used up. */
    method ParseSubstring(line: RichTextLine, input: seq<byte>) returns (consumed: nat)
      requires Valid() && input != []
      requires Sound(Contents()) && line == lines[Slot(CursorRow(Contents()), numberOfRows)]
      requires cursorRowOffset == Clamped(cursorRowOffset, lineCount)
      modifies this, lines
      ensures Valid()
      ensures var r := Open(old(Contents()));
        && consumed == Taken(r, input) && 1 <= consumed <= |input|
        && Contents() == Commit(old(Contents()), Steps(r, input[..consumed]))
    {
      hide Step, Begun, Commit, Slot, CursorRow, Clamped;
      ghost var e := Contents();
      ghost var broken;
      BeginRun(line);
      ghost var r := RunNow(false);
      assert r == Open(e);
      consumed, broken := TakeBytes(input, r);
      ghost var q := RunNow(broken);
      assert Texts(lines) == e.lines[Slot(CursorRow(e), numberOfRows) := q.line];
      EndRun(e, q);
    }

    /** Moving up stops at the first line. */
    method ClampCursor() returns (cursorRow: nat)
      requires Valid() && Sound(Contents())
      modifies `cursorRowOffset
      ensures Valid() && cursorRowOffset == Clamped(old(cursorRowOffset), lineCount) == Clamped(cursorRowOffset, lineCount)
      ensures Sound(Contents()) && cursorRow == CursorRow(Contents())
      ensures Contents() == old(Contents()).(control := old(ControlNow()).(rowOffset := Clamped(old(cursorRowOffset), lineCount)))
    {
      var lastRow := lineCount - 1;
      if cursorRowOffset < 0 {
        var linesToMoveUp := 0 - cursorRowOffset;
        if linesToMoveUp > lastRow {
          cursorRowOffset := 0 - lastRow;
        }
      }
      cursorRow := lastRow + cursorRowOffset;
    }

    /** parse_lines */
    method ParseLines(text: seq<byte>)
      requires Valid() && Sound(Contents())
      modifies this, lines
      ensures Valid() && Contents() == Feeding.ParseLines(old(Contents()), text)
    {
      hide Open, Commit, CursorRow, Slot, Clamped, Ring, Texts, Steppable, Taken, Steps, Feed, Sound, Feeding.ParseLines;
      ghost var target := Feeding.ParseLines(Contents(), text);
      assert text[0..] == text;
      var done := 0;
      while done < |text|
        invariant 0 <= done <= |text| && Valid() && Sound(Contents())
        invariant Feeding.ParseLines(Contents(), text[done..]) == target
      {
        ghost var e := Contents();
        var rest := text[done..];
        var cursorRow := ClampCursor();
        ParseLinesByRuns(e, rest);
        ghost var f := Contents();
        var line := GetNthLine(cursorRow);
        var consumed := ParseSubstring(line, rest);
        assert rest[consumed..] == text[done + consumed..];
        done := done + consumed;
      }
      assert text[|text|..] == [];
      ParsingNothing(Contents());
    }
  }

  lemma FirstTabStop()
    ensures ToTabStop(0) == SPACES_PER_TAB
  {
  }

  lemma ParsingNothing(e: Emulator)
    requires Sound(e)
    ensures Feeding.ParseLines(e, []) == e
  {
  }

  /** One run of the input, after clamping the cursor, and then the rest of the input. */
  lemma ParseLinesByRuns(e: Emulator, input: seq<byte>)
    requires Sound(e) && input != []
    ensures var f := e.(control := e.control.(rowOffset := Clamped(e.control.rowOffset, e.lineCount)));
      && Sound(f) && Steppable(Open(f).control)
      && var n := Taken(Open(f), input);
        var g := Commit(f, Steps(Open(f), input[..n]));
        Sound(g) && Feeding.ParseLines(e, input) == Feeding.ParseLines(g, input[n..])
  {
    hide Open, Commit, Taken, Steps, CursorRow, Slot, Clamped, Step;
    ClampingIsIdempotent(e, input);
    var f := e.(control := e.control.(rowOffset := Clamped(e.control.rowOffset, e.lineCount)));
    ParseRun(f, Open(f), input);
  }

  /** The number of bytes a run takes before it is over or the input ends. */
  function Taken(r: Run, input: seq<byte>): (n: nat)
    requires Steppable(r.control)
    ensures n <= |input|
    decreases input
  {
    if input == [] || Due(r) then 0 else 1 + Taken(Step(r, input[0]), input[1..])
  }

  lemma StepsExtend(r: Run, input: seq<byte>, i: nat)
    requires Steppable(r.control) && i < |input|
    ensures Steps(r, input[..i + 1]) == Step(Steps(r, input[..i]), input[i])
  {
    hide Step;
    assert input[..i + 1] == input[..i] + [input[i]];
    StepsConcat(r, input[..i], [input[i]]);
    var q := Steps(r, input[..i]);
    assert [input[i]][1..] == [];
    assert Steps(q, [input[i]]) == Steps(Step(q, input[i]), []);
  }

  /** The first run of the input, then the rest of the input. */
  lemma {:induction false} ParseRun(e: Emulator, r: Run, input: seq<byte>)
    requires Sound(e) && Steppable(r.control)
    ensures var n := Taken(r, input);
      var f := Commit(e, Steps(r, input[..n]));
      Feed(e, r, input) == if n == |input| then f else Feed(f, Open(f), input[n..])
    decreases input
  {
    hide Step, Commit, Open;
    if input == [] || Due(r) {
      assert input[..0] == [];
      assert input[0..] == input;
    } else {
      var s := Step(r, input[0]);
      var n := Taken(s, input[1..]);
      ParseRun(e, s, input[1..]);
      assert input[..n + 1][1..] == input[1..][..n] && input[n + 1..] == input[1..][n..];
    }
  }

  lemma ClampingIsIdempotent(e: Emulator, input: seq<byte>)
    requires Sound(e) && input != []
    ensures var f := e.(control := e.control.(rowOffset := Clamped(e.control.rowOffset, e.lineCount)));
      Sound(f) && Feeding.ParseLines(f, input) == Feeding.ParseLines(e, input)
  {
    var f := e.(control := e.control.(rowOffset := Clamped(e.control.rowOffset, e.lineCount)));
    assert CursorRow(f) == CursorRow(e) && Open(f) == Open(e);
    FeedSameBase(e, f, Open(e), input);
  }

  /** What a command does to the cursor and the line does not depend on whether the line was given up before it. */
  predicate OnlyRaises(r: Run, d: Run, e: Run) {
    d == e.(broken := r.broken || e.broken)
  }

  lemma EditsOnlyRaise(r: Run, code: byte, p: seq<uint32>)
    requires r.control.columns >= 1
    requires code == '@' as int || code == 'K' as int || code == 'P' as int || code == 'X' as int
    ensures OnlyRaises(r, OnSequence(r, code, p), OnSequence(r.(broken := false), code, p))
  {
    hide ShiftedRight, ShiftedLeft, Padded, BlankedDown, BlankedUp, RemovedRange;
  }

  lemma MovesOnlyRaise(r: Run, code: byte, p: seq<uint32>)
    requires r.control.columns >= 1
    requires code == 'C' as int || code == 'D' as int || code == 'G' as int
    ensures OnlyRaises(r, OnSequence(r, code, p), OnSequence(r.(broken := false), code, p))
  {
    hide Padded;
  }

  lemma BrokenIsOnlyRaised(r: Run, command: Command)
    requires r.control.columns >= 1
    ensures OnlyRaises(r, Dispatch(r, command), Dispatch(r.(broken := false), command))
  {
    hide OnTab, OnSequence;
    TabOnlyRaises(r);
    if command.kind.Sequence? && command.valid {
      SequenceOnlyRaises(r, command.code, command.parameters);
    }
  }

  lemma SequenceOnlyRaises(r: Run, code: byte, p: seq<uint32>)
    requires r.control.columns >= 1
    ensures OnlyRaises(r, OnSequence(r, code, p), OnSequence(r.(broken := false), code, p))
  {
    hide OnInsertBlanks, OnEraseLine, OnDeleteCharacters, OnEraseCharacters, OnMoveRight, OnMoveLeft, OnMoveToColumn, FillRange;
    if code == '@' as int || code == 'K' as int || code == 'P' as int || code == 'X' as int {
      EditsOnlyRaise(r, code, p);
    } else if code == 'C' as int || code == 'D' as int || code == 'G' as int {
      MovesOnlyRaise(r, code, p);
    }
  }

  lemma TabOnlyRaises(r: Run)
    requires r.control.columns >= 1
    ensures OnlyRaises(r, OnTab(r), OnTab(r.(broken := false)))
  {
    hide FillRange, ToTabStop;
  }
}
