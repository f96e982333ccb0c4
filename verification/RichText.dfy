/**
 A line of styled characters (src/libply-splash-core/ply-rich-text.c).

 A line is the array of character pointers: `None` is a NULL slot.  Characters
 may only be changed inside the mutable span.
 */
module RichText {
  import opened Base

  datatype Style = Style(foreground: int, background: int, bold: bool, dim: bool, italic: bool, underline: bool, reverse: bool)

  const COLOR_DEFAULT := 9

  const DEFAULT_STYLE := Style(COLOR_DEFAULT, COLOR_DEFAULT, false, false, false, false, false)

  datatype Character = Character(bytes: seq<byte>, style: Style)

  type Line = seq<Option<Character>>

  datatype Span = Span(offset: nat, range: nat)

  predicate InSpan(span: Span, i: nat) {
    span.offset <= i < span.offset + span.range
  }

  /** What a reader finds in slot `i`; the array is followed by a NULL. */
  function At(line: Line, i: nat): Option<Character> {
    if i < |line| then line[i] else None
  }

  /** No NULL slot before `n`. */
  predicate Filled(line: Line, n: nat) {
    forall j: nat :: j < n ==> At(line, j).Some?
  }

  /** The index of the first NULL slot. */
  function Length(line: Line): (n: nat)
    ensures n <= |line| && Filled(line, n) && At(line, n).None?
  {
    LengthFrom(line, 0)
  }

  function LengthFrom(line: Line, i: nat): (n: nat)
    requires i <= |line| && Filled(line, i)
    ensures i <= n <= |line| && Filled(line, n) && At(line, n).None?
    decreases |line| - i
  {
    if i == |line| || line[i].None? then i else LengthFrom(line, i + 1)
  }

  lemma FilledIsLength(line: Line, n: nat)
    ensures Filled(line, n) <==> n <= Length(line)
  {
  }

  /** The array after NULL slots were appended until index `i` exists. */
  function Extended(line: Line, i: nat): Line
    decreases i + 1 - |line|
  {
    if |line| <= i then Extended(line + [None], i) else line
  }

  lemma {:induction false} ExtendedIsPadding(line: Line, i: nat)
    ensures |Extended(line, i)| == if |line| <= i then i + 1 else |line|
    ensures forall j: nat :: At(Extended(line, i), j) == At(line, j)
    decreases i + 1 - |line|
  {
    if |line| <= i {
      ExtendedIsPadding(line + [None], i);
      forall j: nat ensures At(Extended(line, i), j) == At(line, j) {
        assert At(line + [None], j) == At(line, j);
      }
    }
  }

  function SetCharacter(line: Line, span: Span, i: nat, c: Character): (r: Line) {
    var extended := Extended(line, i);
    ExtendedIsPadding(line, i);
    if InSpan(span, i) then extended[i := Some(c)] else extended
  }

  /** Only slot `i` changes, and only inside the span. */
  lemma SetCharacterAt(line: Line, span: Span, i: nat, c: Character)
    ensures var r := SetCharacter(line, span, i, c);
      && |r| == (if |line| <= i then i + 1 else |line|)
      && forall j: nat :: At(r, j) == if j == i && InSpan(span, i) then Some(c) else At(line, j)
  {
    ExtendedIsPadding(line, i);
  }

  function MoveCharacter(line: Line, span: Span, from: nat, to: nat): (r: Line)
    ensures |r| == |line|
  {
    if InSpan(span, from) && InSpan(span, to) && from < |line| && to < |line|
    then line[to := line[from]][from := None]
    else line
  }

  /** The destination receives the source slot, which is emptied. */
  lemma MoveCharacterAt(line: Line, span: Span, from: nat, to: nat)
    ensures var r := MoveCharacter(line, span, from, to);
      forall j: nat :: At(r, j) ==
        if InSpan(span, from) && InSpan(span, to) && from < |line| && to < |line|
        then if j == from then None else if j == to then At(line, from) else At(line, j)
        else At(line, j)
  {
  }

  function RemoveCharacter(line: Line, span: Span, i: nat): (r: Line)
    ensures |r| == |line|
    ensures forall j: nat :: At(r, j) == if j == i && InSpan(span, i) then None else At(line, j)
  {
    if InSpan(span, i) && i < |line| then line[i := None] else line
  }

  class RichTextLine {
    var characters: Line
    var span: Span

    constructor ()
      ensures characters == [] && span == Span(0, 0)
    {
      characters := [];
      span := Span(0, 0);
    }

    method SetMutableSpan(span: Span)
      modifies `span
      ensures this.span == span
    {
      this.span := span;
    }

    method RemoveCharacters()
      modifies `characters
      ensures characters == []
    {
      characters := [];
    }

    method GetLength() returns (length: nat)
      ensures length == Length(characters)
    {
      length := 0;
      while length < |characters| && characters[length].Some?
        invariant length <= |characters|
        invariant Filled(characters, length)
        invariant LengthFrom(characters, length) == Length(characters)
      {
        length := length + 1;
      }
    }

    method RemoveAt(index: nat)
      modifies `characters
      ensures characters == RemoveCharacter(old(characters), span, index)
    {
      if index < span.offset || index >= span.offset + span.range || index >= |characters| || characters[index].None? {
        assert characters == RemoveCharacter(characters, span, index);
        return;
      }
      characters := characters[index := None];
    }

    method Move(oldIndex: nat, newIndex: nat)
      modifies `characters
      ensures characters == MoveCharacter(old(characters), span, oldIndex, newIndex)
    {
      if oldIndex < span.offset || newIndex < span.offset {
        return;
      }
      if oldIndex >= span.offset + span.range || newIndex >= span.offset + span.range {
        return;
      }
      if oldIndex >= |characters| || newIndex >= |characters| {
        return;
      }
      characters := characters[newIndex := characters[oldIndex]];
      characters := characters[oldIndex := None];
    }

    method Set(style: Style, index: nat, bytes: seq<byte>)
      modifies `characters
      ensures characters == SetCharacter(old(characters), span, index, Character(bytes, style))
    {
      while |characters| <= index
        invariant Extended(characters, index) == Extended(old(characters), index)
      {
        characters := characters + [None];
      }
      if index < span.offset || index >= span.offset + span.range {
        return;
      }
      characters := characters[index := Some(Character(bytes, style))];
    }
  }
}
