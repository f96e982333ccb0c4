/**
 Characters as section 3 of RFC 3629 encodes them, and what becomes of them when they
 are typed or printed (src/libply/ply-utils.c, src/libply-splash-core/ply-keyboard.c,
 src/libply-splash-core/ply-terminal-emulator.c).
 */
module Encoding {
  import opened Base
  import opened Buffers
  import opened Utf8
  import opened Interactions
  import opened Keyboards
  import opened LineEditing
  import RichText
  import Screen
  import ControlSequences
  import Attributes
  import Printing

  /** Scalar values but for NUL; surrogates are none. */
  predicate IsScalar(cp: nat) {
    1 <= cp < 0xD800 || 0xE000 <= cp < 0x11_0000
  }

  function Continuing(bits: nat): byte {
    0x80 + bits % 0x40
  }

  function Encoded(cp: nat): (s: seq<byte>)
    requires IsScalar(cp)
  {
    if cp < 0x80 then [cp]
    else if cp < 0x800 then [0xC0 + cp / 0x40, Continuing(cp)]
    else if cp < 0x1_0000 then [0xE0 + cp / 0x1000, Continuing(cp / 0x40), Continuing(cp)]
    else [0xF0 + cp / 0x4_0000, Continuing(cp / 0x1000), Continuing(cp / 0x40), Continuing(cp)]
  }

  predicate AreScalars(cps: seq<nat>) {
    forall cp <- cps :: IsScalar(cp)
  }

  function EncodedAll(cps: seq<nat>): seq<byte>
    requires AreScalars(cps)
  {
    if cps == [] then [] else Encoded(cps[0]) + EncodedAll(cps[1..])
  }

  lemma EncodedIsPiece(cp: nat)
    requires IsScalar(cp)
    ensures var s := Encoded(cp);
      && IsPiece(s) && s[0] != 0 && 0 !in s && 1 <= |s| <= 4
      && |s| == SizeOf(TypeOf(s[0])) && !TypeOf(s[0]).Continuation? && !TypeOf(s[0]).Invalid? && !TypeOf(s[0]).EndOfString?
      && (|s| == 1 <==> s == [cp]) && (|s| == 1 <==> cp < 0x80) && (|s| > 1 ==> s[0] >= 0xC0 && IsMultiByte(TypeOf(s[0])))
  {
  }

  // ----- typed

  /** Every character typed is one key, whatever follows. */
  lemma CharacterIsOneKey(cp: nat, rest: seq<byte>)
    requires IsScalar(cp) && cp != ESCAPE as nat
    ensures var s := Encoded(cp); Keys(s + rest) == ([Input(s, |s|)] + Keys(rest).0, Keys(rest).1)
  {
    hide Encoded;
    var s := Encoded(cp);
    EncodedIsPiece(cp);
    assert (s + rest)[0] == s[0] && (s + rest)[..|s|] == s && (s + rest)[|s|..] == rest;
    assert First(s + rest) == Key(Input(s, |s|));
    hide First;
    FirstFits(s + rest);
  }

  function Typing(cps: seq<nat>): seq<Input>
    requires AreScalars(cps)
  {
    if cps == [] then [] else [Input(Encoded(cps[0]), |Encoded(cps[0])|)] + Typing(cps[1..])
  }

  lemma {:induction false} TextIsKeys(cps: seq<nat>, rest: seq<byte>)
    requires AreScalars(cps) && ESCAPE as nat !in cps
    ensures Keys(EncodedAll(cps) + rest) == (Typing(cps) + Keys(rest).0, Keys(rest).1)
    decreases cps
  {
    hide Encoded, Keys;
    if cps == [] {
      assert [] + rest == rest && [] + Keys(rest).0 == Keys(rest).0;
    } else {
      var s := Encoded(cps[0]);
      Regroup(s, EncodedAll(cps[1..]), rest);
      CharacterIsOneKey(cps[0], EncodedAll(cps[1..]) + rest);
      TextIsKeys(cps[1..], rest);
      Regroup([Input(s, |s|)], Typing(cps[1..]), Keys(rest).0);
    }
  }

  lemma CharacterIsWellFormed(cp: nat)
    requires IsScalar(cp)
    ensures WellFormed(0, Encoded(cp)) && OwedAfter(0, Encoded(cp)) == 0
  {
    var s := Encoded(cp);
    EncodedIsPiece(cp);
    hide Encoded;
    Unfold(0, s);
    if |s| > 1 {
      Unfold(|s| - 1, s[1..]);
      if |s| > 2 {
        assert s[1..][1..] == s[2..];
        Unfold(|s| - 2, s[2..]);
        if |s| > 3 {
          assert s[2..][1..] == s[3..];
          Unfold(1, s[3..]);
        }
      }
    }
  }

  /** Encoded text is what the helpers call well formed. */
  lemma {:induction false} TextIsWellFormed(cps: seq<nat>)
    requires AreScalars(cps)
    ensures WellFormed(0, EncodedAll(cps)) && OwedAfter(0, EncodedAll(cps)) == 0
    decreases cps
  {
    hide Encoded;
    if cps != [] {
      CharacterIsWellFormed(cps[0]);
      TextIsWellFormed(cps[1..]);
      WellFormedConcat(0, Encoded(cps[0]), EncodedAll(cps[1..]));
    }
  }

  /** A backspace takes the last character, whole. */
  lemma BackspaceTakesOne(s: seq<byte>, cp: nat)
    requires IsScalar(cp)
    ensures WithoutLastCharacter(s + Encoded(cp)) == s
  {
    EncodedIsPiece(cp);
    RemovingUndoesAppending(s, Encoded(cp));
  }

  // ----- printed

  /** A character that is no control character is stored as it is encoded, in one slot. */
  lemma CharacterIsPrinted(r: Screen.Run, cp: nat)
    requires Attributes.Resting(r) && !r.broken && r.control.column < r.control.columns
    requires IsScalar(cp) && cp >= 32 && cp != 127
    ensures Printing.IsPrinted(ControlSequences.Steps(r, Encoded(cp)), r, Encoded(cp))
    ensures Attributes.Resting(ControlSequences.Steps(r, Encoded(cp)))
  {
    EncodedIsPiece(cp);
    hide Encoded;
    var s := Encoded(cp);
    forall i | 1 <= i < |s| ensures TypeOf(s[i]).Continuation? {
      assert IsContinuation(s[i]);
    }
    Printing.PrintedAt(r, s);
  }

  // ----- from the keyboard to the client

  /** What can be typed into a line: no control character. */
  predicate AreTypable(cps: seq<nat>) {
    forall cp <- cps :: IsScalar(cp) && cp >= 32 && cp != 127
  }

  function TypedEvents(cps: seq<nat>): seq<Event>
    requires AreTypable(cps)
  {
    if cps == [] then []
    else [Type(Input(Encoded(cps[0]), |Encoded(cps[0])|), true)] + TypedEvents(cps[1..])
  }

  lemma CharacterIsTyped(line: seq<byte>, cp: nat)
    requires IsScalar(cp) && cp >= 32 && cp != 127 && |line| + |Encoded(cp)| < CAPACITY
    ensures var input := Input(Encoded(cp), |Encoded(cp)|);
      IsKey(input) && Processed(line, input, true, true) == Some((line + Encoded(cp), [Type(input, true)]))
  {
    EncodedIsPiece(cp);
    hide Encoded, Appended;
    var s := Encoded(cp);
    assert s[..|s|] == s;
    AppendFits(line, s);
  }

  lemma NewlineIsEntered(line: seq<byte>, accepts: bool)
    ensures IsKey(Input([10], 1)) && Processed(line, Input([10], 1), true, accepts) == Some(([], [Enter(line, accepts)]))
  {
  }

  lemma {:induction false} TypingIsProcessed(line: seq<byte>, cps: seq<nat>)
    requires AreTypable(cps) && |line| + |EncodedAll(cps)| < CAPACITY
    ensures var keys := Typing(cps) + [Input([10], 1)];
      && AreKeys(keys)
      && ProcessedAll(line, keys, input => true, input => true) ==
         Some(([], TypedEvents(cps) + [Enter(line + EncodedAll(cps), true)]))
    decreases cps
  {
    hide Encoded, Processed, IsKey;
    var last := [Input([10], 1)];
    var keys := Typing(cps) + last;
    if cps == [] {
      NewlineIsEntered(line, true);
      assert keys == last && last[1..] == [];
      assert line + [] == line && [Enter(line, true)] + [] == [Enter(line, true)] && [] + [Enter(line, true)] == [Enter(line, true)];
    } else {
      assert cps[0] in cps;
      var s := Encoded(cps[0]);
      CharacterIsTyped(line, cps[0]);
      TypingIsProcessed(line + s, cps[1..]);
      assert keys[0] == Input(s, |s|) && keys[1..] == Typing(cps[1..]) + last;
      Regroup(line, s, EncodedAll(cps[1..]));
      Regroup([Type(Input(s, |s|), true)], TypedEvents(cps[1..]), [Enter(line + EncodedAll(cps), true)]);
    }
  }

  lemma CharacterGrowsText(d: Desk, cp: nat)
    requires d.prompts != [] && IsScalar(cp) && cp >= 32 && |d.text| + |Encoded(cp)| < CAPACITY
    ensures var e := Type(Input(Encoded(cp), |Encoded(cp)|), true);
      CanHappen(e) && After(d, e) == (d.(text := d.text + Encoded(cp)), [])
  {
    EncodedIsPiece(cp);
    hide Encoded, Appended;
    var s := Encoded(cp);
    assert s[..|s|] == s;
    AppendFits(d.text, s);
  }

  lemma {:induction false} EncodedHasNoNul(cps: seq<nat>)
    requires AreScalars(cps)
    ensures 0 !in EncodedAll(cps)
    decreases cps
  {
    hide Encoded;
    if cps != [] {
      EncodedIsPiece(cps[0]);
      EncodedHasNoNul(cps[1..]);
    }
  }

  lemma EnterAnswers(d: Desk, line: seq<byte>)
    requires d.prompts != [] && 0 !in d.text
    ensures CanRun([Enter(line, true)])
    ensures Run(d, [Enter(line, true)]) == (d.(prompts := d.prompts[1..], text := []), [Pull(d.prompts[0].trigger, Some(d.text))])
  {
    CStringOfNulFree(d.text);
    var next, pulls := d.(prompts := d.prompts[1..], text := []), [Pull(d.prompts[0].trigger, Some(d.text))];
    assert After(d, Enter(line, true)) == (next, pulls);
    hide After;
    assert [Enter(line, true)][1..] == [] && pulls + [] == pulls;
    assert CanRun([]) && Run(next, []) == (next, []);
    assert CanRun([Enter(line, true)][1..]);
  }

  lemma {:induction false} TypedTextIsAnswer(d: Desk, cps: seq<nat>, line: seq<byte>)
    requires d.prompts != [] && AreTypable(cps) && |d.text| + |EncodedAll(cps)| < CAPACITY && 0 !in d.text
    ensures var events := TypedEvents(cps) + [Enter(line, true)];
      && CanRun(events)
      && Run(d, events) == (d.(prompts := d.prompts[1..], text := []), [Pull(d.prompts[0].trigger, Some(d.text + EncodedAll(cps)))])
    decreases cps
  {
    hide Encoded;
    var enter := Enter(line, true);
    var events := TypedEvents(cps) + [enter];
    if cps == [] {
      assert events == [enter] && d.text + [] == d.text;
      EnterAnswers(d, line);
    } else {
      assert cps[0] in cps;
      var s := Encoded(cps[0]);
      var e := Type(Input(s, |s|), true);
      EncodedIsPiece(cps[0]);
      CharacterGrowsText(d, cps[0]);
      var next := d.(text := d.text + s);
      TypedTextIsAnswer(next, cps[1..], line);
      assert events[0] == e && events[1..] == TypedEvents(cps[1..]) + [enter];
      Regroup(d.text, s, EncodedAll(cps[1..]));
      hide After;
      assert [] + Run(next, events[1..]).1 == Run(next, events[1..]).1;
      assert forall x <- events :: x == e || x in events[1..];
    }
  }

  /**
   From the bytes of the keyboard to the client: the characters typed at a prompt, in
   UTF-8 and up to a line feed, are its answer, byte for byte, and the line entered is
   what was in the line before and these characters.
   */
  lemma TypedLineIsAnswered(d: Desk, line: seq<byte>, cps: seq<nat>)
    requires d.prompts != [] && d.text == [] && AreTypable(cps) && |line| + |EncodedAll(cps)| < CAPACITY
    ensures var (keys, rest) := Keys(EncodedAll(cps) + [10]);
      && rest == [] && AreKeys(keys)
      && var outcome := ProcessedAll(line, keys, input => true, input => true);
         && outcome == Some(([], TypedEvents(cps) + [Enter(line + EncodedAll(cps), true)]))
         && CanRun(outcome.value.1)
         && Run(d, outcome.value.1) == (d.(prompts := d.prompts[1..], text := []), [Pull(d.prompts[0].trigger, Some(EncodedAll(cps)))])
  {
    hide Keys, ProcessedAll, Run, Encoded, After;
    TextIsKeys(cps, [10]);
    KeyOfOneByte(10, []);
    assert [10] + [] == [10];
    TypingIsProcessed(line, cps);
    TypedTextIsAnswer(d, cps, line + EncodedAll(cps));
    assert [] + EncodedAll(cps) == EncodedAll(cps);
  }

  // ----- other bytes at the keyboard

  /** NULs are passed over; a byte that begins no character stays first, and nothing typed after it is ever a key. */
  lemma StrayBytesBlock(b: byte, rest: seq<byte>)
    requires b == 0 || 0x80 <= b < 0xC0 || b >= 0xF8
    ensures Keys([b] + rest) == if b == 0 then Keys(rest) else ([], [b] + rest)
  {
    var s := [b] + rest;
    assert s[1..] == rest;
    assert First(s) == if b == 0 then Skip else Stop;
    hide First;
    if b == 0 {
      assert Keys(s) == (Keys(s[1..]).0, Keys(s[1..]).1);
    }
  }

  /** Parameter and intermediate bytes of a control sequence (section 5.4 of ECMA-48). */
  predicate AreMiddle(s: seq<byte>) {
    forall b <- s :: 0x20 <= b < 0x40
  }

  lemma {:induction false} SizeOfSequence(s: seq<byte>, from: nat, end: nat)
    requires from <= end < |s| && (forall k :: from <= k < end ==> 0x20 <= s[k] < 0x40) && 0x40 <= s[end] <= 0x7E
    ensures ControlSequenceSize(s, from) == end + 1
    decreases end - from
  {
    if from < end {
      SizeOfSequence(s, from + 1, end);
    }
  }

  /** An escape sequence is one key: ESC [ and all up to its final byte, or ESC [ [ and one byte more; it comes with whatever was typed after it. */
  lemma EscapeSequenceIsOneKey(middle: seq<byte>, final: byte, rest: seq<byte>)
    requires if final == BRACKET && middle == [] then rest != [] else AreMiddle(middle) && 0x40 <= final <= 0x7E
    ensures var size := 3 + |middle| + if final == BRACKET && middle == [] then 1 else 0;
      var s := [ESCAPE, BRACKET] + middle + [final] + rest;
      size <= |s| && Keys(s) == ([Input(s, size)] + Keys(s[size..]).0, Keys(s[size..]).1)
  {
    var s := [ESCAPE, BRACKET] + middle + [final] + rest;
    var size := 3 + |middle| + if final == BRACKET && middle == [] then 1 else 0;
    assert s[2 + |middle|] == final;
    if final == BRACKET && middle == [] {
    } else {
      forall k | 2 <= k < 2 + |middle| ensures 0x20 <= s[k] < 0x40 {
        assert s[k] == middle[k - 2] && middle[k - 2] in middle;
      }
      SizeOfSequence(s, 2, 2 + |middle|);
    }
    assert First(s) == Key(Input(s, size));
    hide First;
  }

  /**
   The other keys: delete takes a character from the line and from the text, Ctrl-V
   and escape alone do nothing, an escape sequence is passed on and stays in the line,
   and so is a character that is not decoded, but that does not.
   */
  lemma OtherKeysDo(line: seq<byte>, input: Input, decodes: bool, accepts: bool)
    requires IsKey(input) && |line| + input.size < CAPACITY
    ensures input.size == 1 && input.bytes[0] == 127 ==>
              Processed(line, input, decodes, accepts) == Some((WithoutLastCharacter(line), [Backspace]))
    ensures input.size == 1 && (input.bytes[0] == 22 || input.bytes[0] == 27) ==> Processed(line, input, decodes, accepts) == Some((line, []))
    ensures input.size >= 2 ==>
              Processed(line, input, decodes, accepts) ==
              Some((if input.bytes[0] == 27 || decodes then line + input.bytes[..input.size] else line, [Type(input, accepts)]))
  {
    hide Appended, Chars, Repeated;
    AppendFits(line, input.bytes[..input.size]);
  }
}
