/** From bytes to keys to edits (src/libply-splash-core/ply-keyboard.c, src/daemon/plymouthd-input.c). */
module Keyboards {
  import opened Base
  import opened Buffers
  import opened Utf8
  import opened Interactions

  // ----- cutting the bytes into keys

  const BRACKET: byte := '[' as int

  predicate StartsFunctionKey(s: seq<byte>) {
    |s| >= 4 && s[0] == ESCAPE && s[1] == BRACKET && s[2] == BRACKET
  }

  predicate StartsControlSequence(s: seq<byte>) {
    |s| >= 3 && s[0] == ESCAPE && s[1] == BRACKET
  }

  /** The size of the control sequence, or 0 when no final byte has come yet. */
  function ControlSequenceSize(s: seq<byte>, from: nat): (n: nat)
    requires from <= |s|
    ensures n == 0 || from < n <= |s|
    decreases |s| - from
  {
    if from == |s| then 0
    else if 0x40 <= s[from] <= 0x7E then from + 1
    else ControlSequenceSize(s, from + 1)
  }

  /** What comes first: a key of some size, a byte to skip, or nothing that can be taken yet. */
  datatype Next = Key(input: Input) | Skip | Stop

  function First(s: seq<byte>): Next
    requires s != []
  {
    if StartsFunctionKey(s) then Key(Input(s, 4))
    else if StartsControlSequence(s) then
      var size := ControlSequenceSize(s, 2);
      if size == 0 then Stop else Key(Input(s, size))
    else
      var kind := TypeOf(s[0]);
      if kind.Continuation? || kind.Invalid? then Stop
      else if kind.EndOfString? then Skip
      else if SizeOf(kind) > |s| then Stop
      else Key(Input(s[..SizeOf(kind)], SizeOf(kind)))
  }

  function SizeOfNext(next: Next): nat {
    match next
    case Key(input) => input.size
    case Skip => 1
    case Stop => 0
  }

  lemma FirstFits(s: seq<byte>)
    requires s != []
    ensures SizeOfNext(First(s)) <= |s|
    ensures !First(s).Stop? ==> SizeOfNext(First(s)) >= 1
    ensures First(s).Key? ==> First(s).input.size <= |First(s).input.bytes| && First(s).input.bytes <= s
  {
  }

  /** on_key_event: the keys, and the bytes that stay in the buffer. */
  function Keys(s: seq<byte>): (seq<Input>, seq<byte>) {
    if s == [] then ([], [])
    else
      FirstFits(s);
      var next := First(s);
      if next.Stop? then ([], s)
      else
        var (more, rest) := Keys(s[SizeOfNext(next)..]);
        (if next.Key? then [next.input] + more else more, rest)
  }

  /** The bytes of several reads. */
  function Concat(parts: seq<seq<byte>>): seq<byte> {
    if parts == [] then [] else parts[0] + Concat(parts[1..])
  }

  const MOST_READ: nat := 1024

  predicate AreReads(parts: seq<seq<byte>>) {
    forall r <- parts :: |r| <= MOST_READ
  }

  /** The keys of several reads, each appended to what stayed in the buffer. */
  function KeysOfReads(buffer: seq<byte>, parts: seq<seq<byte>>): (seq<Input>, seq<byte>)
    requires AreReads(parts)
    decreases parts
  {
    if parts == [] then ([], buffer)
    else
      var (keys, rest) := Keys(Appended(buffer, parts[0]));
      var (more, last) := KeysOfReads(rest, parts[1..]);
      (keys + more, last)
  }

  /** Without escapes, what comes first does not depend on what comes after it. */
  lemma FirstIsStable(s: seq<byte>, more: seq<byte>)
    requires s != [] && s[0] != ESCAPE && !First(s).Stop?
    ensures First(s + more) == First(s)
  {
    var n := SizeOf(TypeOf(s[0]));
    if !TypeOf(s[0]).EndOfString? {
      assert (s + more)[..n] == s[..n];
    }
  }

  /** Cutting an escape-free stream anywhere gives the same keys and leaves the same bytes. */
  lemma {:induction false} CutIsHarmless(a: seq<byte>, b: seq<byte>)
    requires ESCAPE !in a
    ensures var (keys, rest) := Keys(a);
      Keys(a + b) == (keys + Keys(rest + b).0, Keys(rest + b).1) && ESCAPE !in rest
    decreases |a|
  {
    hide First;
    if a == [] {
      assert a + b == b;
      assert Keys(a) == ([], []);
    } else {
      FirstFits(a);
      var next := First(a);
      if !next.Stop? {
        FirstIsStable(a, b);
        var n := SizeOfNext(next);
        assert (a + b)[n..] == a[n..] + b;
        CutIsHarmless(a[n..], b);
        FirstFits(a + b);
        var (more, rest) := Keys(a[n..]);
        if next.Key? {
          Regroup([next.input], more, Keys(rest + b).0);
        }
      } else {
        assert Keys(a) == ([], a);
        assert [] + Keys(a + b).0 == Keys(a + b).0;
      }
    }
  }

  /** What stays is the beginning of a character whose other bytes are still owed. */
  predicate IsResidue(rest: seq<byte>, owed: nat) {
    if rest == [] then owed == 0
    else IsMultiByte(TypeOf(rest[0])) && |rest| + owed == SizeOf(TypeOf(rest[0])) && owed > 0
  }

  lemma CharacterIsTaken(s: seq<byte>)
    requires s != [] && s[0] != ESCAPE && WellFormed(0, s)
    ensures var n := SizeOfNext(First(s));
      if First(s).Stop? then IsResidue(s, OwedAfter(0, s)) else n <= |s| && WellFormed(0, s[n..]) && OwedAfter(0, s) == OwedAfter(0, s[n..])
  {
    var n := SizeOf(TypeOf(s[0]));
    if |s| >= 2 {
      assert s[1..][1..] == s[2..];
      if |s| >= 3 {
        assert s[2..][1..] == s[3..];
        if |s| >= 4 {
          assert s[3..][1..] == s[4..];
        }
      }
    }
    if n >= 2 && |s| >= 2 {
      Unfold(n - 1, s[1..]);
      if n >= 3 && |s| >= 3 {
        Unfold(n - 2, s[2..]);
        if n >= 4 && |s| >= 4 {
          Unfold(n - 3, s[3..]);
        }
      }
    }
  }

  lemma Unfold(owed: nat, s: seq<byte>)
    requires s != []
    ensures WellFormed(owed, s) <==> Fits(owed, s[0]) && WellFormed(Owed(owed, s[0]), s[1..])
    ensures OwedAfter(owed, s) == OwedAfter(Owed(owed, s[0]), s[1..])
  {
  }

  /** Between reads of a well-formed stream the buffer holds exactly the incomplete last character. */
  lemma {:induction false} ResidueIsIncompleteCharacter(s: seq<byte>)
    requires ESCAPE !in s && WellFormed(0, s)
    ensures IsResidue(Keys(s).1, OwedAfter(0, s)) && |Keys(s).1| <= |s| && Keys(s).1 == s[|s| - |Keys(s).1|..]
    decreases |s|
  {
    hide First, WellFormed, OwedAfter, IsResidue;
    if s == [] {
      NothingIsOwed();
    } else {
      FirstFits(s);
      CharacterIsTaken(s);
      var n := SizeOfNext(First(s));
      if !First(s).Stop? {
        ResidueIsIncompleteCharacter(s[n..]);
      }
    }
  }

  lemma NothingIsOwed()
    ensures IsResidue([], OwedAfter(0, [])) && WellFormed(0, [])
  {
  }

  lemma ResidueIsSmall(rest: seq<byte>, owed: nat)
    requires IsResidue(rest, owed)
    ensures |rest| <= 3
  {
  }

  lemma {:induction false} ConcatWellFormed(done: seq<byte>, parts: seq<seq<byte>>)
    requires parts != [] && WellFormed(0, done + Concat(parts))
    ensures WellFormed(0, done + parts[0]) && done + Concat(parts) == done + parts[0] + Concat(parts[1..])
  {
    Regroup(done, parts[0], Concat(parts[1..]));
    WellFormedConcat(0, done + parts[0], Concat(parts[1..]));
  }

  /**
   Split invariance: any division of a well-formed, escape-free stream into reads
   gives the keys of the whole stream, character by character.
   */
  lemma {:induction false} ReadsDoNotMatter(done: seq<byte>, parts: seq<seq<byte>>)
    requires AreReads(parts) && ESCAPE !in done + Concat(parts) && WellFormed(0, done + Concat(parts))
    ensures Keys(done + Concat(parts)) == (Keys(done).0 + KeysOfReads(Keys(done).1, parts).0, KeysOfReads(Keys(done).1, parts).1)
    decreases parts
  {
    hide First, Keys, WellFormed, IsResidue, Appended;
    if parts == [] {
      assert done + Concat(parts) == done && Keys(done).0 + [] == Keys(done).0;
    } else {
      ConcatWellFormed(done, parts);
      WellFormedConcat(0, done, parts[0]);
      assert ESCAPE !in done && ESCAPE !in done + parts[0];
      var rest := Keys(done).1;
      CutIsHarmless(done, parts[0]);
      ResidueIsIncompleteCharacter(done);
      ResidueIsSmall(rest, OwedAfter(0, done));
      AppendFits(rest, parts[0]);
      ReadsDoNotMatter(done + parts[0], parts[1..]);
      Regroup(Keys(done).0, Keys(rest + parts[0]).0, KeysOfReads(Keys(rest + parts[0]).1, parts[1..]).0);
    }
  }

  /** From an empty buffer: the keys and the residue are those of the bytes read, however they were divided. */
  lemma DivisionDoesNotMatter(parts: seq<seq<byte>>)
    requires AreReads(parts) && ESCAPE !in Concat(parts) && WellFormed(0, Concat(parts))
    ensures KeysOfReads([], parts) == Keys(Concat(parts))
    ensures IsResidue(KeysOfReads([], parts).1, OwedAfter(0, Concat(parts)))
  {
    hide WellFormed, IsResidue, First, KeysOfReads, Concat;
    var keys := KeysOfReads([], parts).0;
    assert [] + Concat(parts) == Concat(parts) && [] + keys == keys;
    ReadsDoNotMatter([], parts);
    ResidueIsIncompleteCharacter(Concat(parts));
    assert Keys([]) == ([], []);
  }

  function WithoutNuls(s: seq<byte>): seq<byte> {
    if s == [] then [] else (if s[0] == 0 then [] else [s[0]]) + WithoutNuls(s[1..])
  }

  function Bytes(keys: seq<Input>): seq<byte> {
    if keys == [] then [] else keys[0].bytes + Bytes(keys[1..])
  }

  /** Whole characters. */
  predicate AreCharacters(keys: seq<Input>) {
    forall k <- keys :: IsPiece(k.bytes) && k.size == |k.bytes| == SizeOf(TypeOf(k.bytes[0]))
  }

  /** The keys are the characters of the stream, whole and in order; only NULs are skipped. */
  lemma {:induction false} KeysAreTheCharacters(s: seq<byte>)
    requires ESCAPE !in s && WellFormed(0, s)
    ensures AreCharacters(Keys(s).0) && Bytes(Keys(s).0) + Keys(s).1 == WithoutNuls(s)
    decreases |s|
  {
    hide WellFormed, OwedAfter;
    if s != [] {
      FirstFits(s);
      CharacterIsTaken(s);
      FirstIsCharacter(s);
      var next, n := First(s), SizeOfNext(First(s));
      hide First;
      if next.Stop? {
        assert Keys(s) == ([], s) && [] + s == s;
      } else {
        var (more, rest) := Keys(s[n..]);
        KeysAreTheCharacters(s[n..]);
        if next.Key? {
          assert ([next.input] + more)[1..] == more;
          Regroup(next.input.bytes, Bytes(more), rest);
        }
      }
    } else {
      assert Keys(s) == ([], []);
    }
  }

  lemma {:induction false} OwedBytesContinue(owed: nat, s: seq<byte>, k: nat)
    requires WellFormed(owed, s) && k < owed && k < |s|
    ensures IsContinuation(s[k])
  {
    if k > 0 {
      OwedBytesContinue(owed - 1, s[1..], k - 1);
    }
  }

  lemma {:induction false} WithoutNulsOfSum(a: seq<byte>, b: seq<byte>)
    requires 0 !in a
    ensures WithoutNuls(a + b) == a + WithoutNuls(b)
  {
    if a == [] {
      assert a + b == b;
    } else {
      assert (a + b)[1..] == a[1..] + b;
      WithoutNulsOfSum(a[1..], b);
      HeadAndTail(a);
    }
  }

  lemma FirstIsCharacter(s: seq<byte>)
    requires s != [] && s[0] != ESCAPE && WellFormed(0, s)
    ensures match First(s)
      case Stop => WithoutNuls(s) == s
      case Skip => WithoutNuls(s) == WithoutNuls(s[1..])
      case Key(input) => AreCharacters([input]) && WithoutNuls(s) == input.bytes + WithoutNuls(s[input.size..])
  {
    var n := SizeOf(TypeOf(s[0]));
    if !TypeOf(s[0]).EndOfString? {
      forall k | 1 <= k < n && k < |s| ensures IsContinuation(s[k]) {
        OwedBytesContinue(n - 1, s[1..], k - 1);
      }
      var c := if n <= |s| then s[..n] else s;
      hide WithoutNuls, WellFormed;
      assert s == c + s[|c|..];
      WithoutNulsOfSum(c, s[|c|..]);
      if n > |s| { NoNuls(); }
    }
  }

  lemma NoNuls()
    ensures WithoutNuls([]) == []
  {
  }

  lemma {:induction false} NoFinalByteBefore(s: seq<byte>, from: nat, k: nat)
    requires from <= k < |s| && ControlSequenceSize(s, from) == |s|
    ensures ControlSequenceSize(s[..k], from) == 0
    decreases |s| - from
  {
    if from < k {
      NoFinalByteBefore(s, from + 1, k);
    }
  }

  /** What a read that ends inside an escape sequence gives, and what the next read then gives. */
  function KeysOfTwoReads(s: seq<byte>, k: nat): (seq<Input>, seq<byte>)
    requires k <= |s|
  {
    var (keys, rest) := Keys(s[..k]);
    var (more, last) := Keys(rest + s[k..]);
    (keys + more, last)
  }

  /**
   An escape sequence may be cut between two reads exactly when the first read has
   more than its introducer, and it is no function key.
   */
  lemma EscapeCutIff(s: seq<byte>, k: nat)
    requires 0 < k < |s| && |s| >= 3 && s[0] == ESCAPE && First(s) == Key(Input(s, |s|))
    ensures KeysOfTwoReads(s, k) == Keys(s) <==> k >= 3 && s[2] != BRACKET
  {
    hide Keys;
    OneKey(s);
    if k >= 3 && s[2] != BRACKET {
      NoFinalByteBefore(s, 2, k);
      NothingYet(s[..k]);
      assert s[..k] + s[k..] == s && [] + Keys(s).0 == Keys(s).0;
    } else {
      FirstOfCut(s, k);
      FirstKeyIs(s[..k]);
      assert KeysOfTwoReads(s, k).0[0] == First(s[..k]).input;
    }
  }

  lemma FirstOfCut(s: seq<byte>, k: nat)
    requires 0 < k < |s| && |s| >= 3 && s[0] == ESCAPE && First(s) == Key(Input(s, |s|)) && !(k >= 3 && s[2] != BRACKET)
    ensures First(s[..k]).Key? && First(s[..k]).input.size < |s|
  {
  }

  lemma OneKey(s: seq<byte>)
    requires s != [] && First(s) == Key(Input(s, |s|))
    ensures Keys(s) == ([Input(s, |s|)], [])
  {
    hide First;
    FirstFits(s);
    assert s[|s|..] == [];
    assert Keys([]) == ([], []);
    assert [Input(s, |s|)] + [] == [Input(s, |s|)];
  }

  lemma NothingYet(s: seq<byte>)
    requires s != [] && First(s).Stop?
    ensures Keys(s) == ([], s)
  {
  }

  lemma FirstKeyIs(s: seq<byte>)
    requires s != [] && First(s).Key?
    ensures Keys(s).0 != [] && Keys(s).0[0] == First(s).input
  {
    hide First;
    FirstFits(s);
  }

  /** An escape sequence cut after its escape is taken apart: the escape is a key, and the rest is typed. */
  lemma EscapesCutApart()
    ensures Keys([ESCAPE, BRACKET, 'A' as int]) == ([Input([ESCAPE, BRACKET, 'A' as int], 3)], [])
    ensures Keys([ESCAPE]) == ([Input([ESCAPE], 1)], [])
    ensures Keys([BRACKET, 'A' as int]) == ([Input([BRACKET], 1), Input(['A' as int], 1)], [])
  {
    hide Keys, First;
    var c: seq<byte> := ['A' as int];
    ArrowIsOneKey([ESCAPE, BRACKET, 'A' as int]);
    KeyOfOneByte(ESCAPE, []);
    KeyOfOneByte(BRACKET, c);
    KeyOfOneByte('A' as int, []);
    assert [BRACKET] + c == [BRACKET, 'A' as int];
    assert [Input([BRACKET], 1)] + [Input(c, 1)] == [Input([BRACKET], 1), Input(c, 1)];
  }

  lemma ArrowIsOneKey(s: seq<byte>)
    requires s == [ESCAPE, BRACKET, 'A' as int]
    ensures Keys(s) == ([Input(s, 3)], [])
  {
    assert ControlSequenceSize(s, 2) == 3;
    assert First(s) == Key(Input(s, 3));
    hide First, ControlSequenceSize;
    assert s[3..] == [];
    assert Keys(s[3..]) == ([], []);
    assert [Input(s, 3)] + [] == [Input(s, 3)];
    assert SizeOfNext(First(s)) == 3;
  }

  lemma KeyOfOneByte(b: byte, s: seq<byte>)
    requires 0 < b < 0x80 && (b == ESCAPE ==> s == [])
    ensures Keys([b] + s) == ([Input([b], 1)] + Keys(s).0, Keys(s).1)
    ensures s == [] ==> Keys([b]) == ([Input([b], 1)], [])
  {
    assert ([b] + s)[1..] == s && ([b] + s)[..1] == [b];
    if s == [] {
      assert [b] + s == [b] && [Input([b], 1)] + [] == [Input([b], 1)];
    }
  }
}
