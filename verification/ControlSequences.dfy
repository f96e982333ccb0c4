/**
 Reading a control sequence: ESC [, parameters in decimal separated by
 semicolons, and a final byte (section 5.4 of ECMA-48), with control characters
 allowed in between.
 */
module ControlSequences {
  import opened Base
  import opened Utf8
  import opened RichText
  import opened Screen

  /** The run after some bytes, none of which ends it. */
  function Steps(r: Run, s: seq<byte>): (q: Run)
    requires Steppable(r.control)
    ensures Steppable(q.control)
    decreases s
  {
    if s == [] then r else Steps(Step(r, s[0]), s[1..])
  }

  lemma {:induction false} StepsConcat(r: Run, a: seq<byte>, b: seq<byte>)
    requires Steppable(r.control)
    ensures Steps(r, a + b) == Steps(Steps(r, a), b)
    decreases a
  {
    if a == [] {
      assert a + b == b;
    } else {
      assert (a + b)[1..] == a[1..] + b;
      StepsConcat(Step(r, a[0]), a[1..], b);
    }
  }

  // ----- the text of a sequence

  /** A control character that may stand inside a sequence. */
  predicate IsNested(b: byte) {
    0 < b < 32 && b != ESC
  }

  predicate IsFinal(b: byte) {
    64 <= b < 128
  }

  predicate IsParameterByte(b: byte) {
    IsDigit(b) || b == SEMICOLON
  }

  /** The text without its control characters, */
  function Stripped(s: seq<byte>): seq<byte> {
    if s == [] then [] else (if IsNested(s[0]) then [] else [s[0]]) + Stripped(s[1..])
  }

  /** and the control characters, as commands in order of arrival. */
  function NestedCommands(s: seq<byte>): seq<Command> {
    if s == [] then []
    else (if IsNested(s[0]) then [Command(s[0], ControlCharacter, [], false)] else []) + NestedCommands(s[1..])
  }

  predicate AllDigits(s: seq<byte>) {
    s == [] || (IsDigit(s[0]) && AllDigits(s[1..]))
  }

  /** Parameter bytes, with control characters anywhere. */
  predicate IsBody(s: seq<byte>) {
    s == [] || ((IsNested(s[0]) || IsParameterByte(s[0])) && IsBody(s[1..]))
  }

  /** Parameters in decimal; a field may be empty. */
  predicate AreFields(fields: seq<seq<byte>>) {
    fields == [] || (AllDigits(fields[0]) && AreFields(fields[1..]))
  }

  function Joined(fields: seq<seq<byte>>): seq<byte>
    requires fields != []
  {
    if |fields| == 1 then fields[0] else fields[0] + [SEMICOLON] + Joined(fields[1..])
  }

  /** A field's number, in the width the source reads it in; an empty field is 0. */
  function ValueFrom(value: uint32, digits: seq<byte>): uint32
    requires AllDigits(digits)
    decreases digits
  {
    if digits == [] then value
    else ValueFrom(WithDigit(value, digits[0]), digits[1..])
  }

  function Values(fields: seq<seq<byte>>): (v: seq<uint32>)
    requires AreFields(fields)
    ensures |v| == |fields|
  {
    if fields == [] then [] else [ValueFrom(0, fields[0])] + Values(fields[1..])
  }

  /** All that is left of a long parameter list. */
  function Recent(values: seq<uint32>): (r: seq<uint32>)
    ensures |values| <= MOST_PARAMETERS ==> r == values
  {
    if |values| <= MOST_PARAMETERS then values else values[|values| - MOST_PARAMETERS..]
  }

  /** That is, of any number of parameters the last 261118. */
  lemma RecentIs(values: seq<uint32>)
    ensures Recent(values) == if |values| <= 261118 then values else values[|values| - 261118..]
  {
  }

  lemma WithParameterIsRecent(values: seq<uint32>, value: uint32)
    ensures WithParameter(Recent(values), value) == Recent(values + [value])
  {
  }

  // ----- what has been read of the parameters

  datatype Scan = Scan(parameters: seq<uint32>, value: uint32, lastWasInteger: bool)

  function Scanned(c: Scan, b: byte): Scan {
    if IsDigit(b) then Scan(c.parameters, WithDigit(c.value, b), true)
    else Scan(WithParameter(c.parameters, if c.lastWasInteger then c.value else 0), 0, false)
  }

  function ScannedAll(c: Scan, s: seq<byte>): Scan
    decreases s
  {
    if s == [] then c else ScannedAll(Scanned(c, s[0]), s[1..])
  }

  lemma {:induction false} ScannedAllConcat(c: Scan, a: seq<byte>, b: seq<byte>)
    ensures ScannedAll(c, a + b) == ScannedAll(ScannedAll(c, a), b)
    decreases a
  {
    if a == [] {
      assert a + b == b;
    } else {
      assert (a + b)[1..] == a[1..] + b;
      ScannedAllConcat(Scanned(c, a[0]), a[1..], b);
    }
  }

  lemma {:induction false} ScanDigits(c: Scan, digits: seq<byte>)
    requires AllDigits(digits)
    ensures ScannedAll(c, digits) == Scan(c.parameters, ValueFrom(c.value, digits), c.lastWasInteger || digits != [])
    decreases digits
  {
    if digits != [] {
      ScanDigits(Scanned(c, digits[0]), digits[1..]);
    }
  }

  /** The parameter array after all of `values` were added to it. */
  function Gathered(parameters: seq<uint32>, values: seq<uint32>): seq<uint32>
    decreases values
  {
    if values == [] then parameters else Gathered(WithParameter(parameters, values[0]), values[1..])
  }

  lemma {:induction false} GatheredIsRecent(before: seq<uint32>, values: seq<uint32>)
    ensures Gathered(Recent(before), values) == Recent(before + values)
    decreases values
  {
    hide Recent, WithParameter;
    if values == [] {
      assert before + [] == before;
    } else {
      WithParameterIsRecent(before, values[0]);
      GatheredIsRecent(before + [values[0]], values[1..]);
      HeadAndTail(values);
      Regroup(before, [values[0]], values[1..]);
    }
  }

  /** What a final byte or a semicolon makes of what was read. */
  function Finished(scan: Scan): seq<uint32> {
    WithParameter(scan.parameters, scan.value)
  }

  lemma ScanField(p: seq<uint32>, field: seq<byte>, rest: seq<byte>)
    requires AllDigits(field)
    ensures ScannedAll(Scan(p, 0, false), field + [SEMICOLON] + rest) ==
            ScannedAll(Scan(WithParameter(p, ValueFrom(0, field)), 0, false), rest)
  {
    hide WithDigit, WithParameter;
    var start := Scan(p, 0, false);
    assert field + [SEMICOLON] + rest == field + ([SEMICOLON] + rest);
    ScannedAllConcat(start, field, [SEMICOLON] + rest);
    ScanDigits(start, field);
    assert ([SEMICOLON] + rest)[1..] == rest;
  }

  /** Scanning joined fields collects their values. */
  lemma {:induction false} ScanFields(p: seq<uint32>, fields: seq<seq<byte>>)
    requires fields != [] && AreFields(fields)
    ensures var scan := ScannedAll(Scan(p, 0, false), Joined(fields));
      && Finished(scan) == Gathered(p, Values(fields))
      && scan.lastWasInteger == (fields[|fields| - 1] != [])
    decreases fields
  {
    hide WithDigit, WithParameter, Scanned;
    var v := ValueFrom(0, fields[0]);
    assert Values(fields)[1..] == Values(fields[1..]);
    assert Gathered(p, Values(fields)) == Gathered(WithParameter(p, v), Values(fields[1..]));
    if |fields| == 1 {
      ScanDigits(Scan(p, 0, false), fields[0]);
    } else {
      ScanField(p, fields[0], Joined(fields[1..]));
      ScanFields(WithParameter(p, v), fields[1..]);
    }
  }

  // ----- the emulator reads it

  /** A state inside a sequence in which all of `scan` was read and `pending` commands wait. */
  function InSequence(c: Control, scan: Scan, pending: seq<Command>): (d: Control)
    ensures c.columns >= 1 ==> Steppable(d)
  {
    c.(mode := ControlSequence, staged := Some(Command(0, Sequence, scan.parameters, true)), value := scan.value,
       lastWasInteger := scan.lastWasInteger, pending := pending,
       action := PreserveColumn, partial := [], multiByte := false, partialSize := 1)
  }

  lemma ReadNested(r: Run, c: Control, scan: Scan, pending: seq<Command>, b: byte)
    requires c.columns >= 1 && r.control == InSequence(c, scan, pending) && IsNested(b)
    ensures Step(r, b) == r.(control := InSequence(c, scan, pending + [Command(b, ControlCharacter, [], false)]))
  {
  }

  lemma ReadParameterByte(r: Run, c: Control, scan: Scan, pending: seq<Command>, b: byte)
    requires c.columns >= 1 && r.control == InSequence(c, scan, pending) && IsParameterByte(b)
    ensures Step(r, b) == r.(control := InSequence(c, Scanned(scan, b), pending))
  {
  }

  lemma {:induction false} ReadParameters(r: Run, c: Control, scan: Scan, pending: seq<Command>, s: seq<byte>)
    requires c.columns >= 1 && r.control == InSequence(c, scan, pending)
    requires IsBody(s)
    ensures Steps(r, s) == r.(control := InSequence(c, ScannedAll(scan, Stripped(s)), pending + NestedCommands(s)))
    decreases s
  {
    hide Step, InSequence, Scanned, IsNested, IsParameterByte;
    if s == [] {
      assert pending + [] == pending;
    } else if IsNested(s[0]) {
      var k := Command(s[0], ControlCharacter, [], false);
      ReadNested(r, c, scan, pending, s[0]);
      assert Stripped(s) == Stripped(s[1..]);
      ReadParameters(Step(r, s[0]), c, scan, pending + [k], s[1..]);
      Regroup(pending, [k], NestedCommands(s[1..]));
    } else {
      ReadParameterByte(r, c, scan, pending, s[0]);
      assert Stripped(s)[0] == s[0] && Stripped(s)[1..] == Stripped(s[1..]);
      assert NestedCommands(s) == NestedCommands(s[1..]);
      ReadParameters(Step(r, s[0]), c, Scanned(scan, s[0]), pending, s[1..]);
    }
  }

  lemma FirstAndLastStep(r: Run, first: byte, body: seq<byte>, last: byte)
    requires Steppable(r.control)
    ensures Steps(r, [first] + body + [last]) == Step(Steps(Step(r, first), body), last)
  {
    var s := [first] + body + [last];
    assert s[1..] == body + [last];
    StepsConcat(Step(r, first), body, [last]);
    var q := Steps(Step(r, first), body);
    assert [last][1..] == [] && Steps(q, [last]) == Steps(Step(q, last), [last][1..]);
  }

  /** Commands run with the parser back at rest. */
  function Ran(r: Run, lastWasInteger: bool, commands: seq<Command>): (d: Run)
    requires Steppable(r.control)
    ensures Steppable(d.control)
  {
    var c := r.control.(mode := Unescaped, staged := None, value := 0, lastWasInteger := lastWasInteger, pending := commands,
                        action := PreserveColumn, partial := [], multiByte := false, partialSize := 1);
    var d := DispatchAll(r.(control := c), commands);
    d.(control := d.control.(pending := []))
  }

  /**
   After ESC, `[`, a body and a final byte: the control characters in the body are
   run first, in order, and then the command, with exactly the listed values.
   Empty fields count as 0.
   */
  lemma SequenceIsDispatched(r: Run, body: seq<byte>, fields: seq<seq<byte>>, final: byte)
    requires Steppable(r.control) && r.control.mode.Escaped? && r.control.pending == []
    requires r.control.staged == Some(Command(0, ControlCharacter, [], false))
    requires fields != [] && AreFields(fields) && IsFinal(final)
    requires IsBody(body)
    requires Stripped(body) == Joined(fields)
    ensures Steps(r, [BRACKET] + body + [final]) ==
            Ran(r, fields[|fields| - 1] != [], NestedCommands(body) + [Command(final, Sequence, Recent(Values(fields)), true)])
  {
    hide Step, Ran, WithDigit, InSequence, Recent, WithParameter;
    BeginSequence(r);
    var scan := ScannedAll(Scan([], 0, false), Stripped(body));
    var k := NestedCommands(body);
    ReadParameters(Step(r, BRACKET), r.control, Scan([], 0, false), [], body);
    assert [] + k == k;
    EndSequence(Steps(Step(r, BRACKET), body), r.control, scan, k, final);
    ScanFields([], fields);
    AllAreRecent(Values(fields));
    RanForgetsSequence(r, scan, k, scan.lastWasInteger, k + [Command(final, Sequence, Finished(scan), true)]);
    FirstAndLastStep(r, BRACKET, body, final);
  }

  lemma AllAreRecent(values: seq<uint32>)
    ensures Gathered([], values) == Recent(values)
  {
    GatheredIsRecent([], values);
    assert [] + values == values;
  }

  lemma RanForgetsSequence(r: Run, scan: Scan, pending: seq<Command>, lastWasInteger: bool, commands: seq<Command>)
    requires Steppable(r.control)
    ensures Ran(r.(control := InSequence(r.control, scan, pending)), lastWasInteger, commands) == Ran(r, lastWasInteger, commands)
  {
  }

  lemma BeginSequence(r: Run)
    requires Steppable(r.control) && r.control.mode.Escaped? && r.control.pending == []
    requires r.control.staged == Some(Command(0, ControlCharacter, [], false))
    ensures Step(r, BRACKET) == r.(control := InSequence(r.control, Scan([], 0, false), []))
  {
  }

  lemma EndSequence(r: Run, c: Control, scan: Scan, pending: seq<Command>, final: byte)
    requires c.columns >= 1 && r.control == InSequence(c, scan, pending) && IsFinal(final)
    ensures Step(r, final) == Ran(r, scan.lastWasInteger,
              pending + [Command(final, Sequence, Finished(scan), true)])
  {
  }

  // ----- decimal

  function Decimal(n: nat): (digits: seq<byte>)
    ensures digits != [] && AllDigits(digits)
  {
    if n < 10 then ['0' as int + n]
    else
      DigitsConcat(Decimal(n / 10), ['0' as int + n % 10]);
      Decimal(n / 10) + ['0' as int + n % 10]
  }

  lemma {:induction false} DigitsConcat(a: seq<byte>, b: seq<byte>)
    requires AllDigits(a) && AllDigits(b)
    ensures AllDigits(a + b)
    decreases a
  {
    if a == [] {
      assert a + b == b;
    } else {
      assert (a + b)[1..] == a[1..] + b;
      DigitsConcat(a[1..], b);
    }
  }

  lemma {:induction false} ValueOfConcat(value: uint32, a: seq<byte>, b: seq<byte>)
    requires AllDigits(a) && AllDigits(b)
    ensures AllDigits(a + b) && ValueFrom(value, a + b) == ValueFrom(ValueFrom(value, a), b)
    decreases a
  {
    hide WithDigit;
    if a == [] {
      assert a + b == b;
    } else {
      assert (a + b)[1..] == a[1..] + b;
      ValueOfConcat(WithDigit(value, a[0]), a[1..], b);
    }
  }

  lemma WithDigitIsExact(n: nat)
    requires n < 0x1_0000_0000
    ensures WithDigit(n / 10, '0' as int + n % 10) == n
  {
  }

  lemma ValueOfDigit(value: uint32, digit: byte)
    requires IsDigit(digit)
    ensures ValueFrom(value, [digit]) == WithDigit(value, digit)
  {
    hide WithDigit;
    assert [digit][1..] == [];
  }

  lemma {:induction false} DecimalRoundTrip(n: uint32)
    ensures ValueFrom(0, Decimal(n)) == n
    decreases n
  {
    hide WithDigit;
    WithDigitIsExact(n);
    if n < 10 {
      ValueOfDigit(0, '0' as int + n);
    } else {
      DecimalRoundTrip(n / 10);
      ValueOfConcat(0, Decimal(n / 10), ['0' as int + n % 10]);
      ValueOfDigit(n / 10, '0' as int + n % 10);
    }
  }

  function Decimals(values: seq<uint32>): (fields: seq<seq<byte>>)
    ensures |fields| == |values| && AreFields(fields) && [] !in fields
  {
    if values == [] then [] else [Decimal(values[0])] + Decimals(values[1..])
  }

  lemma {:induction false} DecimalsRoundTrip(values: seq<uint32>)
    ensures Values(Decimals(values)) == values
    decreases values
  {
    if values != [] {
      DecimalRoundTrip(values[0]);
      DecimalsRoundTrip(values[1..]);
      assert Decimals(values)[1..] == Decimals(values[1..]);
    }
  }

  /**
   Printing any nonempty list of 32-bit numbers between ESC [ and a final byte,
   with control characters anywhere in between, dispatches exactly that list
   after the control characters (the most recent ones, if there are more than
   the source's array holds).
   */
  lemma ParametersRoundTrip(r: Run, body: seq<byte>, values: seq<uint32>, final: byte)
    requires Steppable(r.control) && r.control.mode.Escaped? && r.control.pending == []
    requires r.control.staged == Some(Command(0, ControlCharacter, [], false))
    requires values != [] && IsFinal(final)
    requires IsBody(body)
    requires Stripped(body) == Joined(Decimals(values))
    ensures Steps(r, [BRACKET] + body + [final]) ==
            Ran(r, true, NestedCommands(body) + [Command(final, Sequence, Recent(values), true)])
  {
    DecimalsRoundTrip(values);
    var fields := Decimals(values);
    assert fields[|fields| - 1] in fields;
    SequenceIsDispatched(r, body, fields, final);
  }
}
