/**
 What keys do to the keyboard's line and to the prompt's text
 (src/libply-splash-core/ply-keyboard.c, src/daemon/plymouthd-input.c).
 */
module LineEditing {
  import opened Base
  import opened Buffers
  import opened Utf8
  import opened Interactions
  import opened Keyboards

  const CTRL_U: byte := 0x15
  const CTRL_V: byte := 0x16
  const CTRL_W: byte := 0x17
  const DELETE: byte := 0x7F

  // ----- strings as characters

  predicate StartsWithLead(s: seq<byte>) {
    s == [] || !IsContinuation(s[0])
  }

  /** The characters of a string, as backspace sees them: each is a lead byte and what follows it. */
  function Chars(s: seq<byte>): (cs: seq<seq<byte>>)
    requires StartsWithLead(s)
    ensures cs == [] <==> s == []
    decreases |s|
  {
    if s == [] then []
    else
      assert HasLead(s);
      Chars(s[..LastLead(s)]) + [s[LastLead(s)..]]
  }

  lemma CharsOfPiece(s: seq<byte>, c: seq<byte>)
    requires StartsWithLead(s) && IsPiece(c)
    ensures StartsWithLead(s + c) && Chars(s + c) == Chars(s) + [c]
  {
    RemovingUndoesAppending(s, c);
    assert !IsContinuation((s + c)[|s|]);
    assert (s + c)[..LastLead(s + c)] == s;
    assert LastLead(s + c) == |s| && (s + c)[|s|..] == c;
  }

  lemma LastCharacter(t: seq<byte>)
    requires StartsWithLead(t) && t != []
    ensures HasLead(t)
    ensures var i := LastLead(t);
      && t == t[..i] + t[i..] && StartsWithLead(t[..i]) && IsPiece(t[i..]) && Chars(t) == Chars(t[..i]) + [t[i..]]
  {
  }

  lemma {:induction false} CharsOfSum(s: seq<byte>, t: seq<byte>)
    requires StartsWithLead(s) && StartsWithLead(t)
    ensures StartsWithLead(s + t) && Chars(s + t) == Chars(s) + Chars(t)
    decreases |t|
  {
    if t == [] {
      assert s + t == s && Chars(s) + [] == Chars(s);
    } else {
      LastCharacter(t);
      var front, last := t[..LastLead(t)], t[LastLead(t)..];
      CharsOfSum(s, front);
      CharsOfPiece(s + front, last);
      hide Chars, StartsWithLead, LastLead, HasLead, IsPiece;
      Regroup(s, front, last);
      Regroup(Chars(s), Chars(front), [last]);
    }
  }

  lemma WithoutLastIsInit(s: seq<byte>)
    requires StartsWithLead(s)
    ensures StartsWithLead(WithoutLastCharacter(s))
    ensures Chars(WithoutLastCharacter(s)) == Init(Chars(s))
    ensures s != [] ==> |WithoutLastCharacter(s)| < |s|
  {
    if s != [] {
      assert HasLead(s);
    }
  }

  function Init<T>(s: seq<T>): seq<T> {
    if s == [] then [] else s[..|s| - 1]
  }

  /** All of `a` is in `b`, in order. */
  predicate IsSubsequence(a: seq<seq<byte>>, b: seq<seq<byte>>)
    decreases |b|
  {
    || a == []
    || (b != [] && a[|a| - 1] == b[|b| - 1] && IsSubsequence(Init(a), Init(b)))
    || (b != [] && IsSubsequence(a, Init(b)))
  }

  lemma SubsequenceOfMore(a: seq<seq<byte>>, b: seq<seq<byte>>, x: seq<byte>)
    requires IsSubsequence(a, b)
    ensures IsSubsequence(a, b + [x]) && IsSubsequence(a + [x], b + [x])
  {
    assert Init(b + [x]) == b && Init(a + [x]) == a;
  }

  lemma {:induction false} SubsequenceOfSum(a: seq<seq<byte>>, b: seq<seq<byte>>, c: seq<seq<byte>>)
    requires IsSubsequence(a, b)
    ensures IsSubsequence(a, b + c)
    decreases |c|
  {
    if c == [] {
      assert b + c == b;
    } else {
      SubsequenceOfSum(a, b, Init(c));
      SubsequenceOfMore(a, b + Init(c), c[|c| - 1]);
      assert b + c == b + Init(c) + [c[|c| - 1]];
    }
  }

  lemma {:induction false} SubsequenceOfLess(a: seq<seq<byte>>, b: seq<seq<byte>>)
    requires IsSubsequence(a, b)
    ensures IsSubsequence(Init(a), b) && IsSubsequence(Init(a), Init(b))
    decreases |b|
  {
    if a != [] {
      assert b == Init(b) + [b[|b| - 1]];
      if a[|a| - 1] == b[|b| - 1] && IsSubsequence(Init(a), Init(b)) {
        SubsequenceOfMore(Init(a), Init(b), b[|b| - 1]);
      } else {
        SubsequenceOfLess(a, Init(b));
        SubsequenceOfMore(Init(a), Init(b), b[|b| - 1]);
      }
    }
  }

  lemma {:induction false} SubsequenceIsShorter(s: seq<byte>, t: seq<byte>)
    requires StartsWithLead(s) && StartsWithLead(t) && IsSubsequence(Chars(s), Chars(t))
    ensures |s| <= |t|
    decreases |t|
  {
    if s != [] && t != [] {
      assert HasLead(s) && HasLead(t);
      var i, j := LastLead(s), LastLead(t);
      assert Init(Chars(s)) == Chars(s[..i]) && Init(Chars(t)) == Chars(t[..j]);
      if Chars(s)[|Chars(s)| - 1] == Chars(t)[|Chars(t)| - 1] && IsSubsequence(Chars(s[..i]), Chars(t[..j])) {
        assert s[i..] == t[j..];
        SubsequenceIsShorter(s[..i], t[..j]);
      } else {
        SubsequenceIsShorter(s, t[..j]);
      }
    }
  }

  lemma {:induction false} SubsequenceIsNotLonger(a: seq<seq<byte>>, b: seq<seq<byte>>)
    requires IsSubsequence(a, b)
    ensures |a| <= |b|
    decreases |b|
  {
    if a != [] {
      if a[|a| - 1] == b[|b| - 1] && IsSubsequence(Init(a), Init(b)) {
        SubsequenceIsNotLonger(Init(a), Init(b));
      } else {
        SubsequenceIsNotLonger(a, Init(b));
      }
    }
  }

  // ----- erasing

  /** A string after `n` backspaces. */
  function Erased(s: seq<byte>, n: nat): seq<byte>
    decreases n
  {
    if n == 0 then s else Erased(WithoutLastCharacter(s), n - 1)
  }

  /** A string that begins inside a character keeps that beginning whatever is erased. */
  lemma StrayBytesStay(s: seq<byte>)
    requires !StartsWithLead(s)
    ensures !StartsWithLead(WithoutLastCharacter(s))
  {
  }

  /** `n` backspaces leave nothing exactly when the string begins with a character and has no more than `n` of them. */
  lemma {:induction false} ErasedIff(s: seq<byte>, n: nat)
    ensures Erased(s, n) == [] <==> StartsWithLead(s) && |Chars(s)| <= n
    decreases n
  {
    hide Chars, WithoutLastCharacter;
    if n > 0 {
      ErasedIff(WithoutLastCharacter(s), n - 1);
      if StartsWithLead(s) {
        WithoutLastIsInit(s);
      } else {
        StrayBytesStay(s);
      }
    } else if StartsWithLead(s) {
      assert Chars(s) == [] <==> s == [];
    }
  }

  /** process_line_erase ends exactly on a line that does not begin with a continuation byte. */
  lemma LineEraseEndsIff(line: seq<byte>)
    ensures (exists n: nat :: Erased(line, n) == []) <==> StartsWithLead(line)
  {
    if StartsWithLead(line) {
      ErasedIff(line, |Chars(line)|);
    }
    forall n: nat | Erased(line, n) == [] ensures StartsWithLead(line) {
      ErasedIff(line, n);
    }
  }

  // ----- what a key does

  /** A key that Keys can give. */
  predicate IsKey(input: Input) {
    && IsInput(input) && StartsWithLead(input.bytes[..input.size])
    && (input.size == 1 ==> 0 < input.bytes[0] < 0x80)
  }

  /** A key of a well-formed stream: one character, or an escape sequence. */
  predicate IsWhole(input: Input)
    requires IsKey(input)
  {
    input.bytes[0] != ESCAPE ==> IsPiece(input.bytes[..input.size])
  }

  function Repeated(e: Event, n: nat): seq<Event> {
    if n == 0 then [] else [e] + Repeated(e, n - 1)
  }

  predicate ErasesLine(input: Input)
    requires IsInput(input)
  {
    input.size == 1 && (input.bytes[0] == CTRL_U || input.bytes[0] == CTRL_W)
  }

  /**
   process_keyboard_input: the new line, and what the daemon is told; None when the
   line is erased for ever.  `decodes` says whether the locale decodes the character;
   `accepts`, whether the splash accepts it.
   */
  function Processed(line: seq<byte>, input: Input, decodes: bool, accepts: bool): Option<(seq<byte>, seq<Event>)>
    requires IsKey(input)
  {
    var character, typed := input.bytes[..input.size], [Type(input, accepts)];
    if input.bytes[0] == ESCAPE && input.size >= 2 then Some((Appended(line, character), typed))
    else if input.size == 1 then
      var key := input.bytes[0];
      if ErasesLine(input) then if StartsWithLead(line) then Some(([], Repeated(Backspace, |Chars(line)|))) else None
      else if key == CTRL_V || key == ESCAPE then Some((line, []))
      else if key == DELETE then Some((WithoutLastCharacter(line), [Backspace]))
      else if key == NEWLINE then Some(([], [Enter(line, accepts)]))
      else Some((Appended(line, character), typed))
    else Some((if decodes then Appended(line, character) else line, typed))
  }

  /** A keyboard's line and the desk it types at; `isHung` says that a line is being erased for ever. */
  datatype Typist = Typist(line: seq<byte>, desk: Desk, isHung: bool)

  datatype Step = Press(input: Input, decodes: bool, accepts: bool) | Meanwhile(event: Event)

  /** Other events come from clients. */
  predicate CanStep(t: Typist, step: Step) {
    && !t.isHung
    && match step
       case Press(input, _, _) => IsKey(input)
       case Meanwhile(e) => e.Ask? || e.WatchFor? || e.Ignore? || e.Cancel?
  }

  function Stepped(t: Typist, step: Step): Typist
    requires CanStep(t, step)
  {
    match step
    case Press(input, decodes, accepts) =>
      var outcome := Processed(t.line, input, decodes, accepts);
      if outcome.None? then t.(isHung := true)
      else
        ProcessedCanRun(t.line, input, decodes, accepts);
        Typist(outcome.value.0, Run(t.desk, outcome.value.1).0, false)
    case Meanwhile(e) => t.(desk := After(t.desk, e).0)
  }

  lemma {:induction false} RepeatedCanRun(e: Event, n: nat)
    requires CanHappen(e)
    ensures CanRun(Repeated(e, n)) && |Repeated(e, n)| == n && forall x <- Repeated(e, n) :: x == e
  {
    if n > 0 { RepeatedCanRun(e, n - 1); }
  }

  lemma ProcessedCanRun(line: seq<byte>, input: Input, decodes: bool, accepts: bool)
    requires IsKey(input) && Processed(line, input, decodes, accepts).Some?
    ensures CanRun(Processed(line, input, decodes, accepts).value.1)
  {
    if StartsWithLead(line) {
      RepeatedCanRun(Backspace, |Chars(line)|);
    }
  }

  /** Without a prompt there is no text. */
  predicate IsTidy(d: Desk) {
    d.prompts == [] ==> d.text == []
  }

  lemma {:induction false} BackspacesErase(d: Desk, n: nat)
    requires IsTidy(d)
    ensures CanRun(Repeated(Backspace, n))
    ensures Run(d, Repeated(Backspace, n)).0 == d.(text := Erased(d.text, n))
    decreases n
  {
    hide WithoutLastCharacter, Typed, CString, FirstMatch;
    RepeatedCanRun(Backspace, n);
    if n > 0 {
      NothingIsErased();
      BackspacesErase(After(d, Backspace).0, n - 1);
      assert Repeated(Backspace, n)[1..] == Repeated(Backspace, n - 1);
    }
  }

  lemma NothingIsErased()
    ensures WithoutLastCharacter([]) == []
  {
  }

  /**
   What Ctrl-U, or Ctrl-W, does: it ends exactly when the line does not begin inside
   a character.  Then the line is empty, no prompt is answered, the text has lost as
   many characters as the line had, and it is empty exactly when it begins with a
   character and had no more of them than the line.
   */
  lemma LineEraseEmptiesIff(t: Typist, key: byte, decodes: bool, accepts: bool)
    requires !t.isHung && IsTidy(t.desk) && (key == CTRL_U || key == CTRL_W)
    ensures var press := Press(Input([key], 1), decodes, accepts);
      && CanStep(t, press)
      && var after := Stepped(t, press);
         if StartsWithLead(t.line) then
           && Processed(t.line, press.input, decodes, accepts) == Some(([], Repeated(Backspace, |Chars(t.line)|)))
           && after == Typist([], t.desk.(text := Erased(t.desk.text, |Chars(t.line)|)), false)
           && (after.desk.text == [] <==> StartsWithLead(t.desk.text) && |Chars(t.desk.text)| <= |Chars(t.line)|)
         else after == t.(isHung := true)
  {
    hide Typed, Appended, CString, FirstMatch, Chars, After, WithoutLastCharacter, Erased;
    if StartsWithLead(t.line) {
      BackspacesErase(t.desk, |Chars(t.line)|);
      ErasedIff(t.desk.text, |Chars(t.line)|);
    }
  }

  /** The text is some of the line's characters, and without a prompt there is none. */
  predicate InStep(t: Typist) {
    && !t.isHung && IsTidy(t.desk)
    && StartsWithLead(t.line) && StartsWithLead(t.desk.text) && IsSubsequence(Chars(t.desk.text), Chars(t.line))
  }

  /** The locale decodes the character, the splash accepts the line, and it fits the buffer. */
  predicate IsPlain(t: Typist, step: Step)
    requires CanStep(t, step)
  {
    step.Press? ==>
      && IsWhole(step.input) && (step.input.size >= 2 ==> step.decodes)
      && (step.input.bytes[0] == NEWLINE ==> step.accepts)
      && |t.line| + step.input.size < CAPACITY
  }

  lemma RunOfOne(d: Desk, e: Event)
    requires CanHappen(e)
    ensures CanRun([e]) && Run(d, [e]).0 == After(d, e).0
  {
    hide After;
    assert [e][1..] == [];
    assert CanRun([e][1..]);
  }

  lemma BackspaceKeepsStep(t: Typist)
    requires InStep(t)
    ensures InStep(Typist(WithoutLastCharacter(t.line), After(t.desk, Backspace).0, false))
  {
    hide WithoutLastCharacter, IsSubsequence, Typed, CString, FirstMatch;
    WithoutLastIsInit(t.line);
    WithoutLastIsInit(t.desk.text);
    SubsequenceOfLess(Chars(t.desk.text), Chars(t.line));
    if t.desk.prompts == [] {
      NothingToRemove(t.line);
    }
  }

  lemma NothingToRemove(line: seq<byte>)
    requires StartsWithLead(line)
    ensures StartsWithLead(WithoutLastCharacter(line)) && Chars([]) == [] && IsSubsequence([], Chars(WithoutLastCharacter(line)))
  {
    WithoutLastIsInit(line);
  }

  /** Typing leaves the text, clears it, or appends a character to it. */
  lemma TypedText(d: Desk, input: Input, accepts: bool)
    requires IsKey(input) && IsWhole(input) && (d.prompts == [] ==> d.text == [])
    ensures var e := After(d, Type(input, accepts)).0;
      && (e.prompts == [] ==> e.text == [])
      && (e.text == d.text || e.text == [] || (IsPiece(input.bytes[..input.size]) && e.text == Appended(d.text, input.bytes[..input.size])))
  {
    hide Appended, CString, FirstMatch;
    if input.bytes[0] == ESCAPE && input.size == 1 {
      assert IsPiece(input.bytes[..1]);
    }
  }

  lemma TypingKeepsStep(t: Typist, input: Input, accepts: bool)
    requires InStep(t) && IsKey(input) && IsWhole(input) && |t.line| + input.size < CAPACITY
    ensures InStep(Typist(Appended(t.line, input.bytes[..input.size]), After(t.desk, Type(input, accepts)).0, false))
  {
    var c, text := input.bytes[..input.size], t.desk.text;
    TypedText(t.desk, input, accepts);
    CharsOfSum(t.line, c);
    SubsequenceIsShorter(text, t.line);
    AppendFits(t.line, c);
    AppendFits(text, c);
    SubsequenceOfSum(Chars(text), Chars(t.line), Chars(c));
    NothingIsSubsequence(Chars(t.line) + Chars(c));
    hide IsSubsequence, Appended, After, Chars, IsPiece, CAPACITY;
    if IsPiece(c) {
      CharsOfPiece(text, c);
      CharsOfPiece(t.line, c);
      SubsequenceOfMore(Chars(text), Chars(t.line), c);
    }
  }

  lemma NothingIsSubsequence(b: seq<seq<byte>>)
    ensures IsSubsequence([], b) && Chars([]) == []
  {
  }

  lemma InStepIsErased(t: Typist)
    requires InStep(t)
    ensures CanRun(Repeated(Backspace, |Chars(t.line)|))
    ensures Run(t.desk, Repeated(Backspace, |Chars(t.line)|)).0 == t.desk.(text := [])
  {
    hide Chars, IsSubsequence, Repeated, Erased;
    SubsequenceIsNotLonger(Chars(t.desk.text), Chars(t.line));
    BackspacesErase(t.desk, |Chars(t.line)|);
    ErasedIff(t.desk.text, |Chars(t.line)|);
  }

  lemma PressKeepsStep(t: Typist, step: Step)
    requires InStep(t) && step.Press? && CanStep(t, step) && IsPlain(t, step)
    ensures InStep(Stepped(t, step))
  {
    hide Chars, IsSubsequence, Appended, CString, FirstMatch, Typed, WithoutLastCharacter, Repeated;
    var Press(input, decodes, accepts) := step;
    RunOfOne(t.desk, Backspace);
    RunOfOne(t.desk, Enter(t.line, accepts));
    RunOfOne(t.desk, Type(input, accepts));
    NothingIsSubsequence([]);
    if ErasesLine(input) {
      InStepIsErased(t);
      EmptyLine();
    } else if input.size == 1 && input.bytes[0] == DELETE {
      BackspaceKeepsStep(t);
    } else if input.bytes[0] != NEWLINE || input.size > 1 {
      TypingKeepsStep(t, input, accepts);
    }
  }

  lemma MeanwhileKeepsStep(t: Typist, e: Event)
    requires InStep(t) && CanStep(t, Meanwhile(e))
    ensures InStep(Stepped(t, Meanwhile(e)))
  {
    hide FirstWithKeys, WatchesWithout, IsSubsequence, Processed, Typed, CString, FirstMatch;
    NothingIsSubsequence(Chars(t.line));
  }

  predicate IsRun(t: Typist, steps: seq<Step>)
    decreases steps
  {
    steps == [] || (CanStep(t, steps[0]) && IsRun(Stepped(t, steps[0]), steps[1..]))
  }

  function Ran(t: Typist, steps: seq<Step>): Typist
    requires IsRun(t, steps)
    decreases steps
  {
    if steps == [] then t else Ran(Stepped(t, steps[0]), steps[1..])
  }

  /** A run in which the locale decodes every character, every line is accepted, and the line fits. */
  predicate IsPlainRun(t: Typist, steps: seq<Step>)
    decreases steps
  {
    steps == [] || (CanStep(t, steps[0]) && IsPlain(t, steps[0]) && IsPlainRun(Stepped(t, steps[0]), steps[1..]))
  }

  const NEW_TYPIST := Typist([], Desk([], [], []), false)

  /** The text stays in step with the line, whatever is typed, asked, cancelled or watched for. */
  lemma {:induction false} PlainRunsKeepStep(t: Typist, steps: seq<Step>)
    requires InStep(t) && IsPlainRun(t, steps)
    ensures IsRun(t, steps) && InStep(Ran(t, steps))
    decreases steps
  {
    hide Stepped, InStep, CanStep, IsPlain;
    if steps != [] {
      if steps[0].Press? {
        PressKeepsStep(t, steps[0]);
      } else {
        MeanwhileKeepsStep(t, steps[0].event);
      }
      PlainRunsKeepStep(Stepped(t, steps[0]), steps[1..]);
    }
  }

  /**
   After any such run Ctrl-U, or Ctrl-W, empties both the line and the prompt's text,
   with one backspace for each character of the line, and answers no prompt.
   */
  lemma LineEraseEmptiesThePrompt(steps: seq<Step>, key: byte, decodes: bool, accepts: bool)
    requires key == CTRL_U || key == CTRL_W
    requires IsPlainRun(NEW_TYPIST, steps)
    ensures IsRun(NEW_TYPIST, steps)
    ensures var t := Ran(NEW_TYPIST, steps); var press := Press(Input([key], 1), decodes, accepts);
      && StartsWithLead(t.line) && CanStep(t, press)
      && Stepped(t, press) == Typist([], t.desk.(text := []), false)
      && Processed(t.line, press.input, decodes, accepts) == Some(([], Repeated(Backspace, |Chars(t.line)|)))
  {
    NothingIsSubsequence([]);
    PlainRunsKeepStep(NEW_TYPIST, steps);
    hide Ran, IsRun, Stepped, Processed, CanStep, IsSubsequence, Chars, Repeated, Erased;
    var t := Ran(NEW_TYPIST, steps);
    SubsequenceIsNotLonger(Chars(t.desk.text), Chars(t.line));
    LineEraseEmptiesIff(t, key, decodes, accepts);
  }

  /** A character the locale does not decode is not in the line, so erasing the line leaves it in the prompt. */
  lemma UndecodedCharactersStay(prompts: seq<Prompt>, input: Input)
    requires prompts != [] && IsKey(input) && input.size >= 2 && input.bytes[0] != ESCAPE
    ensures var t := Typist([], Desk(prompts, [], []), false);
      var press, erase := Press(input, false, true), Press(Input([CTRL_U], 1), true, true);
      && InStep(t) && CanStep(t, press) && CanStep(Stepped(t, press), erase)
      && Stepped(Stepped(t, press), erase) == Typist([], Desk(prompts, [], input.bytes[..input.size]), false)
  {
    hide Appended, Chars, Repeated, IsSubsequence, WithoutLastCharacter, CString, FirstMatch;
    var t, c := Typist([], Desk(prompts, [], []), false), input.bytes[..input.size];
    NothingIsSubsequence([]);
    EmptyLine();
    AppendFits([], c);
    assert [] + c == c;
    RunOfOne(t.desk, Type(input, true));
  }

  /** A key that is a character of text, and not one that edits. */
  predicate IsText(input: Input)
    requires IsKey(input)
  {
    IsPiece(input.bytes[..input.size]) && input.bytes[0] >= 0x20 && input.bytes[0] != DELETE
  }

  /** Enter clears the line even when the splash refuses the answer, so what was typed can no longer be erased as a line. */
  lemma RefusedAnswerStays(prompts: seq<Prompt>, input: Input)
    requires prompts != [] && IsKey(input) && IsText(input)
    ensures var t := Typist([], Desk(prompts, [], []), false);
      var press, enter, erase := Press(input, true, true), Press(Input([NEWLINE], 1), true, false), Press(Input([CTRL_U], 1), true, true);
      && IsRun(t, [press, enter, erase])
      && Ran(t, [press, enter, erase]) == Typist([], Desk(prompts, [], input.bytes[..input.size]), false)
  {
    hide Appended, Chars, Repeated, WithoutLastCharacter, CString, FirstMatch;
    var t, c := Typist([], Desk(prompts, [], []), false), input.bytes[..input.size];
    var press, enter, erase := Press(input, true, true), Press(Input([NEWLINE], 1), true, false), Press(Input([CTRL_U], 1), true, true);
    EmptyLine();
    AppendFits([], c);
    assert [] + c == c;
    RunOfOne(t.desk, Type(input, true));
    var typed := Typist(c, Desk(prompts, [], c), false);
    RunOfOne(typed.desk, Enter(c, false));
    assert Stepped(t, press) == typed;
    var refused := Typist([], Desk(prompts, [], c), false);
    assert Stepped(typed, enter) == refused && Stepped(refused, erase) == refused;
    hide Stepped, CanStep;
    assert [press, enter, erase][1..] == [enter, erase] && [enter, erase][1..] == [erase] && [erase][1..] == [];
    assert IsRun(refused, [erase]) && Ran(refused, [erase]) == refused;
    assert IsRun(typed, [enter, erase]) && Ran(typed, [enter, erase]) == refused;
  }

  // ----- a line that outgrows its buffer

  const LETTER: byte := 'a' as int

  /** A character of two bytes. */
  const PAIR: seq<byte> := [0xC3, 0xA9]

  function Pairs(n: nat): (s: seq<byte>)
    ensures |s| == 2 * n
  {
    if n == 0 then [] else PAIR + Pairs(n - 1)
  }

  lemma {:induction false} OneMorePair(n: nat)
    ensures Pairs(n) + PAIR == Pairs(n + 1)
  {
    if n > 0 {
      OneMorePair(n - 1);
      Regroup(PAIR, Pairs(n - 1), PAIR);
    }
  }

  /** With one letter, this many pairs fill the line's buffer. */
  const FULL: nat := (CAPACITY - 2) / 2

  /** A letter and `n` pairs, as the line's buffer remembers them: the oldest two bytes go to make room for a pair. */
  function Remembered(n: nat): seq<byte> {
    if n <= FULL then [LETTER] + Pairs(n) else [PAIR[1]] + Pairs(FULL)
  }

  lemma FirstPair(n: nat)
    requires n > 0
    ensures Pairs(n) == PAIR + Pairs(n - 1)
  {
  }

  lemma WithoutTwo(x: byte, rest: seq<byte>)
    ensures ([x] + (PAIR + rest))[2..] == [PAIR[1]] + rest
  {
  }

  lemma OneMoreIsRemembered(n: nat)
    ensures Appended(Remembered(n), PAIR) == Remembered(n + 1)
  {
    var line := Remembered(n);
    if n < FULL {
      AppendFits(line, PAIR);
      OneMorePair(n);
      Regroup([LETTER], Pairs(n), PAIR);
    } else {
      FullForgets(line, PAIR);
      hide Appended, Pairs;
      FirstPair(FULL);
      WithoutTwo(line[0], Pairs(FULL - 1));
      OneMorePair(FULL - 1);
      Regroup([PAIR[1]], Pairs(FULL - 1), PAIR);
    }
  }

  const PRESS_PAIR := Press(Input(PAIR, 2), true, true)

  function PressPairs(n: nat): seq<Step> {
    if n == 0 then [] else [PRESS_PAIR] + PressPairs(n - 1)
  }

  lemma PairIsTyped(t: Typist, k: nat)
    requires !t.isHung && t.line == Remembered(k)
    ensures CanStep(t, PRESS_PAIR) && Stepped(t, PRESS_PAIR).line == Remembered(k + 1) && !Stepped(t, PRESS_PAIR).isHung
  {
    hide Remembered, Appended, Run;
    OneMoreIsRemembered(k);
    assert PAIR[..2] == PAIR;
  }

  lemma {:induction false} RanOfSum(t: Typist, a: seq<Step>, b: seq<Step>)
    requires IsRun(t, a) && IsRun(Ran(t, a), b)
    ensures IsRun(t, a + b) && Ran(t, a + b) == Ran(Ran(t, a), b)
    decreases a
  {
    hide Stepped, CanStep;
    if a == [] {
      assert a + b == b;
    } else {
      assert (a + b)[1..] == a[1..] + b;
      RanOfSum(Stepped(t, a[0]), a[1..], b);
    }
  }

  lemma {:induction false} PairsAreTyped(t: Typist, k: nat, n: nat)
    requires !t.isHung && t.line == Remembered(k)
    ensures IsRun(t, PressPairs(n))
    ensures Ran(t, PressPairs(n)).line == Remembered(k + n) && !Ran(t, PressPairs(n)).isHung
    decreases n
  {
    hide Stepped, CanStep, Remembered;
    if n > 0 {
      PairIsTyped(t, k);
      PairsAreTyped(Stepped(t, PRESS_PAIR), k + 1, n - 1);
      assert PressPairs(n)[1..] == PressPairs(n - 1);
    }
  }

  /** Once the buffer has forgotten the first half of a character, Ctrl-U erases for ever. */
  lemma LongLineHangsIff(desk: Desk, n: nat)
    ensures var t := Typist([], desk, false);
      var steps := [Press(Input([LETTER], 1), true, true)] + PressPairs(n) + [Press(Input([CTRL_U], 1), true, true)];
      IsRun(t, steps) && (Ran(t, steps).isHung <==> n > 522239)
  {
    var t, letter, erase := Typist([], desk, false), Press(Input([LETTER], 1), true, true), Press(Input([CTRL_U], 1), true, true);
    AppendFits([], [LETTER]);
    assert [LETTER][..1] == [LETTER] && [] + [LETTER] == [LETTER] + Pairs(0);
    var first := Stepped(t, letter);
    assert first.line == Remembered(0);
    PairsAreTyped(first, 0, n);
    var last := Ran(first, PressPairs(n));
    assert StartsWithLead(last.line) <==> n <= FULL;
    assert CanStep(last, erase) && (Stepped(last, erase).isHung <==> n > FULL);
    hide Stepped, CanStep, Remembered;
    assert [letter][1..] == [] && [erase][1..] == [];
    assert IsRun(first, [letter][1..]) && Ran(first, [letter][1..]) == first;
    assert IsRun(Stepped(last, erase), [erase][1..]) && Ran(last, [erase]) == Stepped(last, erase);
    RanOfSum(t, [letter], PressPairs(n));
    RanOfSum(t, [letter] + PressPairs(n), [erase]);
  }

  // ----- the keyboard as the source has it

  function ProcessedAll(line: seq<byte>, keys: seq<Input>, decodes: Input -> bool, accepts: Input -> bool):
      Option<(seq<byte>, seq<Event>)>
    requires AreKeys(keys)
    decreases keys
  {
    if keys == [] then Some((line, []))
    else
      match Processed(line, keys[0], decodes(keys[0]), accepts(keys[0]))
      case None => None
      case Some(next) =>
        match ProcessedAll(next.0, keys[1..], decodes, accepts)
        case None => None
        case Some(last) => Some((last.0, next.1 + last.1))
  }

  predicate AreKeys(keys: seq<Input>) {
    forall k <- keys :: IsKey(k)
  }

  class Keyboard {
    var lineBuffer: seq<byte>
    ghost var told: seq<Event>

    constructor ()
      ensures lineBuffer == [] && told == []
    {
      lineBuffer := [];
      told := [];
    }

    ghost method Tell(e: Event)
      modifies `told
      ensures told == old(told) + [e]
    {
      told := told + [e];
    }

    method ProcessBackspace()
      modifies this
      ensures lineBuffer == WithoutLastCharacter(old(lineBuffer)) && told == old(told) + [Backspace]
    {
      lineBuffer := RemoveLastCharacter(lineBuffer);
      Tell(Backspace);
    }

    /** Tells whether the line could be erased.  A line that no backspace makes shorter is erased for ever. */
    method ProcessLineErase() returns (ended: bool)
      modifies this
      ensures ended == StartsWithLead(old(lineBuffer))
      ensures ended ==> lineBuffer == [] && told == old(told) + Repeated(Backspace, |Chars(old(lineBuffer))|)
      ensures !ended ==> lineBuffer != [] && WithoutLastCharacter(lineBuffer) == lineBuffer
    {
      hide WithoutLastCharacter, Chars;
      EmptyLine();
      while |lineBuffer| > 0
        invariant StartsWithLead(lineBuffer) <==> StartsWithLead(old(lineBuffer))
        invariant StartsWithLead(lineBuffer) ==>
                    told + Repeated(Backspace, |Chars(lineBuffer)|) == old(told) + Repeated(Backspace, |Chars(old(lineBuffer))|)
        decreases |lineBuffer|
      {
        var before := lineBuffer;
        if StartsWithLead(lineBuffer) {
          WithoutLastIsInit(lineBuffer);
          Regroup(told, [Backspace], Repeated(Backspace, |Chars(lineBuffer)| - 1));
        } else {
          StrayBytesStay(lineBuffer);
        }
        ProcessBackspace();
        if lineBuffer == before {
          return false;
        }
      }
      assert told + [] == told;
      return true;
    }

    method ProcessKeyboardInput(input: Input, decodes: bool, ghost accepts: bool) returns (ended: bool)
      requires IsKey(input)
      modifies this
      ensures var outcome := Processed(old(lineBuffer), input, decodes, accepts);
        && ended == outcome.Some?
        && (ended ==> lineBuffer == outcome.value.0 && told == old(told) + outcome.value.1)
    {
      hide Chars, Appended, WithoutLastCharacter, Repeated;
      ended := true;
      if input.bytes[0] == ESCAPE && input.size >= 2 {
        lineBuffer := Appended(lineBuffer, input.bytes[..input.size]);
      } else if input.size == 1 {
        var key := input.bytes[0];
        if key == CTRL_U || key == CTRL_W {
          ended := ProcessLineErase();
          return;
        } else if key == CTRL_V || key == ESCAPE {
          return;
        } else if key == DELETE {
          ProcessBackspace();
          return;
        } else if key == NEWLINE {
          Tell(Enter(lineBuffer, accepts));
          lineBuffer := [];
          return;
        }
        lineBuffer := Appended(lineBuffer, input.bytes[..input.size]);
      } else if decodes {
        lineBuffer := Appended(lineBuffer, input.bytes[..input.size]);
      }
      Tell(Type(input, accepts));
    }

    /** on_key_event: takes the keys off the buffer and gives back what stays in it, unless a line is erased for ever. */
    method OnKeyEvent(buffer: seq<byte>, decodes: Input -> bool, ghost accepts: Input -> bool) returns (rest: seq<byte>, ended: bool)
      requires |buffer| < CAPACITY
      modifies this
      ensures AreKeys(Keys(buffer).0)
      ensures var outcome := ProcessedAll(old(lineBuffer), Keys(buffer).0, decodes, accepts);
        && ended == outcome.Some?
        && (ended ==> rest == Keys(buffer).1 && lineBuffer == outcome.value.0 && told == old(told) + outcome.value.1)
    {
      hide First, Processed, IsKey;
      KeysFit(buffer);
      var i := 0;
      ghost var all := ProcessedAll(lineBuffer, Keys(buffer).0, decodes, accepts);
      while i < |buffer|
        invariant 0 <= i <= |buffer|
        invariant AreKeys(Keys(buffer[i..]).0) && Keys(buffer[i..]).1 == Keys(buffer).1
        invariant var outcome := ProcessedAll(lineBuffer, Keys(buffer[i..]).0, decodes, accepts);
          && outcome.Some? == all.Some?
          && (all.Some? ==> outcome.value.0 == all.value.0 && told + outcome.value.1 == old(told) + all.value.1)
      {
        FirstFits(buffer[i..]);
        var next := First(buffer[i..]);
        if next.Stop? {
          break;
        }
        assert buffer[i..][SizeOfNext(next)..] == buffer[i + SizeOfNext(next)..];
        if next.Key? {
          ghost var outcome := Processed(lineBuffer, next.input, decodes(next.input), accepts(next.input));
          ghost var last := if outcome.Some? then ProcessedAll(outcome.value.0, Keys(buffer[i..]).0[1..], decodes, accepts) else None;
          if outcome.Some? && last.Some? {
            Regroup(told, outcome.value.1, last.value.1);
          }
          var done := ProcessKeyboardInput(next.input, decodes(next.input), accepts(next.input));
          if !done {
            return buffer[i..], false;
          }
        }
        i := i + SizeOfNext(next);
      }
      return buffer[i..], true;
    }
  }

  lemma EmptyLine()
    ensures Chars([]) == [] && Repeated(Backspace, 0) == []
  {
  }

  /** The keys of a buffer are keys. */
  lemma {:induction false} KeysFit(s: seq<byte>)
    requires |s| < CAPACITY
    ensures AreKeys(Keys(s).0) && |Keys(s).1| <= |s|
    decreases |s|
  {
    if s != [] {
      FirstFits(s);
      FirstIsKey(s);
      hide First, IsKey;
      if !First(s).Stop? {
        KeysFit(s[SizeOfNext(First(s))..]);
      }
    }
  }

  lemma FirstIsKey(s: seq<byte>)
    requires s != [] && |s| < CAPACITY
    ensures First(s).Key? ==> IsKey(First(s).input)
  {
  }
}
