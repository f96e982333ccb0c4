/** Unescaping kernel messages in place (src/libply-splash-core/ply-kmsg-reader.c). */
module KernelMessages {
  import opened Base

  predicate IsHexDigit(b: byte) {
    '0' as int <= b <= '9' as int || 'a' as int <= b <= 'f' as int || 'A' as int <= b <= 'F' as int
  }

  function HexValue(b: byte): (v: nat)
    requires IsHexDigit(b)
    ensures v < 16
  {
    if b <= '9' as int then b - '0' as int
    else if b <= 'F' as int then b - 'A' as int + 10
    else b - 'a' as int + 10
  }

  function HexDigit(v: nat, upper: bool): (b: byte)
    requires v < 16
    ensures IsHexDigit(b) && HexValue(b) == v
  {
    if v < 10 then '0' as int + v else (if upper then 'A' as int else 'a' as int) + v - 10
  }

  const BACKSLASH: byte := '\\' as int

  /** The text starts with \xHH, and the budget reaches past it. */
  predicate StartsEscape(s: seq<byte>, budget: nat) {
    && |s| >= 4 && s[0] == BACKSLASH && budget > 3 && s[1] == 'x' as int && IsHexDigit(s[2]) && IsHexDigit(s[3])
  }

  /** The first byte of the text, unescaped, */
  function FirstByte(s: seq<byte>, budget: nat): byte
    requires s != []
  {
    if StartsEscape(s, budget) then HexValue(s[2]) * 16 + HexValue(s[3]) else s[0]
  }

  /** and how much of the text stands for it. */
  function FirstSize(s: seq<byte>, budget: nat): (n: nat)
    requires s != [] && budget > 0
    ensures 1 <= n <= |s| && n <= budget
  {
    if StartsEscape(s, budget) then 4 else 1
  }

  /** The text up to its NUL, or as much of it as the budget allows, unescaped. */
  function Decoded(s: seq<byte>, budget: nat): seq<byte>
    decreases s
  {
    if s == [] || s[0] == 0 || budget == 0 then []
    else [FirstByte(s, budget)] + Decoded(s[FirstSize(s, budget)..], budget - FirstSize(s, budget))
  }

  /** Each byte as it is or as \xHH. */
  function Escaped(s: seq<byte>, mustEscape: byte -> bool, upper: bool): seq<byte> {
    if s == [] then []
    else EscapedByte(s[0], mustEscape, upper) + Escaped(s[1..], mustEscape, upper)
  }

  function EscapedByte(b: byte, mustEscape: byte -> bool, upper: bool): seq<byte> {
    if mustEscape(b) then [BACKSLASH, 'x' as int, HexDigit(b / 16, upper), HexDigit(b % 16, upper)] else [b]
  }

  lemma EscapedByteIsRead(b: byte, mustEscape: byte -> bool, upper: bool, rest: seq<byte>, budget: nat)
    requires mustEscape(0) && mustEscape(BACKSLASH) && budget >= |EscapedByte(b, mustEscape, upper)|
    ensures var first := EscapedByte(b, mustEscape, upper);
      && (first + rest)[0] != 0 && FirstByte(first + rest, budget) == b && FirstSize(first + rest, budget) == |first|
      && (first + rest)[|first|..] == rest
  {
    var first := EscapedByte(b, mustEscape, upper);
    assert (first + rest)[..|first|] == first;
    assert b == b / 16 * 16 + b % 16;
  }

  /**
   Decoding undoes every encoding that escapes at least NUL and the backslash, in
   digits of either case, when the budget covers the encoded text.
   */
  lemma DecodingUndoesEscaping(s: seq<byte>, mustEscape: byte -> bool, upper: bool, rest: seq<byte>, budget: nat)
    requires mustEscape(0) && mustEscape(BACKSLASH)
    requires rest == [] || rest[0] == 0 || budget == |Escaped(s, mustEscape, upper)|
    requires budget >= |Escaped(s, mustEscape, upper)|
    ensures Decoded(Escaped(s, mustEscape, upper) + rest, budget) == s
  {
    DecodingPassesEscaped(s, mustEscape, upper, rest, budget);
    assert s + [] == s;
  }

  lemma EscapedByteIsNotEmpty(b: byte, mustEscape: byte -> bool, upper: bool)
    ensures EscapedByte(b, mustEscape, upper) != []
  {
  }

  /** Decoding goes through whole escapes one by one, and what is left of the budget is for the rest. */
  lemma {:induction false} DecodingPassesEscaped(p: seq<byte>, mustEscape: byte -> bool, upper: bool, rest: seq<byte>, budget: nat)
    requires mustEscape(0) && mustEscape(BACKSLASH) && budget >= |Escaped(p, mustEscape, upper)|
    ensures Decoded(Escaped(p, mustEscape, upper) + rest, budget) ==
            p + Decoded(rest, budget - |Escaped(p, mustEscape, upper)|)
    decreases p
  {
    hide EscapedByte, FirstByte, FirstSize, Decoded;
    if p != [] {
      var first, more := EscapedByte(p[0], mustEscape, upper), Escaped(p[1..], mustEscape, upper);
      Regroup(first, more, rest);
      EscapedByteIsRead(p[0], mustEscape, upper, more + rest, budget);
      EscapedByteIsNotEmpty(p[0], mustEscape, upper);
      DecodedStep(first + (more + rest), budget);
      DecodingPassesEscaped(p[1..], mustEscape, upper, rest, budget - |first|);
      HeadAndTail(p);
      Regroup([p[0]], p[1..], Decoded(rest, budget - |Escaped(p, mustEscape, upper)|));
    } else {
      assert Escaped(p, mustEscape, upper) + rest == rest && p + Decoded(rest, budget) == Decoded(rest, budget);
    }
  }

  lemma OneIsKept(s: seq<byte>, j: nat)
    requires s != [] && s[0] != 0 && 1 <= j <= 3
    ensures Decoded(s, j) == [s[0]] + Decoded(s[1..], j - 1)
  {
  }

  /** Fewer than the four characters of an escape are taken as they are. */
  lemma CutEscapeIsKept(e: seq<byte>, rest: seq<byte>, j: nat)
    requires |e| == 4 && 0 !in e && 1 <= j <= 3
    ensures Decoded(e + rest, j) == e[..j]
  {
    var s := e + rest;
    assert s[0] == e[0] && s[1..] == e[1..] + rest && s[1..][1..] == e[2..] + rest && s[1..][1..][1..] == e[3..] + rest;
    DecodedEnds(s[j..], 0);
    hide Decoded;
    assert s[1..][1..] == s[2..] && s[2..][1..] == s[3..];
    OneIsKept(s, j);
    if j >= 2 {
      OneIsKept(s[1..], j - 1);
    }
    if j >= 3 {
      OneIsKept(s[2..], j - 2);
    }
  }

  lemma EscapeHasNoNul(b: byte, mustEscape: byte -> bool, upper: bool)
    requires mustEscape(b)
    ensures var e := EscapedByte(b, mustEscape, upper); |e| == 4 && 0 !in e && e[0] == BACKSLASH
  {
  }

  /**
   A budget that ends inside the escape of `b` leaves the `j` characters before its
   end as they are.  That is still a beginning of the text exactly when `b` is a
   backslash and the text goes on as its escape does.
   */
  lemma ShortBudgetIff(p: seq<byte>, b: byte, more: seq<byte>, mustEscape: byte -> bool, upper: bool, j: nat)
    requires mustEscape(0) && mustEscape(BACKSLASH) && mustEscape(b) && 1 <= j <= 3
    ensures var text, escape := Escaped(p + [b] + more, mustEscape, upper), EscapedByte(b, mustEscape, upper);
      var decoded := Decoded(text, |Escaped(p, mustEscape, upper)| + j);
      && |escape| == 4 && decoded == p + escape[..j]
      && (decoded <= p + [b] + more <==> b == BACKSLASH && escape[1..j] <= more)
  {
    hide EscapedByte, Decoded;
    var escape := EscapedByte(b, mustEscape, upper);
    EscapedOfSum(p, [b] + more, mustEscape, upper);
    Regroup(p, [b], more);
    assert ([b] + more)[1..] == more;
    var rest := Escaped(more, mustEscape, upper);
    DecodingPassesEscaped(p, mustEscape, upper, escape + rest, |Escaped(p, mustEscape, upper)| + j);
    EscapeHasNoNul(b, mustEscape, upper);
    CutEscapeIsKept(escape, rest, j);
    assert escape[..j] == [BACKSLASH] + escape[1..j];
    AfterCommonPart(p, [BACKSLASH] + escape[1..j], [b] + more);
    AfterFirst(BACKSLASH, escape[1..j], b, more);
  }

  lemma {:induction false} EscapedOfSum(p: seq<byte>, q: seq<byte>, mustEscape: byte -> bool, upper: bool)
    ensures Escaped(p + q, mustEscape, upper) == Escaped(p, mustEscape, upper) + Escaped(q, mustEscape, upper)
    decreases p
  {
    hide EscapedByte;
    if p == [] {
      assert p + q == q;
    } else {
      assert (p + q)[1..] == p[1..] + q;
      EscapedOfSum(p[1..], q, mustEscape, upper);
      Regroup(EscapedByte(p[0], mustEscape, upper), Escaped(p[1..], mustEscape, upper), Escaped(q, mustEscape, upper));
    }
  }

  lemma AfterCommonPart(p: seq<byte>, a: seq<byte>, b: seq<byte>)
    ensures p + a <= p + b <==> a <= b
  {
    assert (p + b)[..|p|] == p && (p + b)[|p|..] == b && (p + a)[|p|..] == a;
    if p + a <= p + b {
      assert a == (p + a)[|p|..] == (p + b)[..|p + a|][|p|..] == b[..|a|];
    }
  }

  lemma AfterFirst(x: byte, a: seq<byte>, y: byte, b: seq<byte>)
    ensures [x] + a <= [y] + b <==> x == y && a <= b
  {
    assert ([x] + a)[0] == x && ([y] + b)[0] == y;
    if x == y {
      AfterCommonPart([x], a, b);
    }
  }

  lemma DecodedStep(s: seq<byte>, budget: nat)
    requires s != [] && s[0] != 0 && budget > 0
    ensures Decoded(s, budget) == [FirstByte(s, budget)] + Decoded(s[FirstSize(s, budget)..], budget - FirstSize(s, budget))
  {
  }

  lemma DecodedOneMore(was: seq<byte>, read: nat, budget: nat, done: seq<byte>)
    requires read < |was| && was[read] != 0 && budget > 0
    ensures var value, count := FirstByte(was[read..], budget), FirstSize(was[read..], budget);
      && read + count <= |was|
      && done + Decoded(was[read..], budget) == done + [value] + Decoded(was[read + count..], budget - count)
  {
    hide Decoded;
    var value, count := FirstByte(was[read..], budget), FirstSize(was[read..], budget);
    DecodedStep(was[read..], budget);
    assert was[read..][count..] == was[read + count..];
    Regroup(done, [value], Decoded(was[read + count..], budget - count));
  }

  /** A NUL further on keeps the reading of an escape inside the text. */
  lemma EscapeInArray(a: seq<byte>, i: nat, budget: nat)
    requires i < |a| && 0 in a[i..] && a[i] != 0
    ensures i + 1 < |a| && (a[i + 1] != 0 ==> i + 2 < |a|) && (i + 2 < |a| && a[i + 1] != 0 && a[i + 2] != 0 ==> i + 3 < |a|)
    ensures StartsEscape(a[i..], budget) <==>
            && a[i] == BACKSLASH && budget > 3 && a[i + 1] == 'x' as int
            && IsHexDigit(a[i + 2]) && i + 3 < |a| && IsHexDigit(a[i + 3])
    ensures 0 in a[i + 1..] && (StartsEscape(a[i..], budget) ==> i + 4 < |a| && 0 in a[i + 4..])
  {
    var j :| 0 <= j < |a[i..]| && a[i..][j] == 0;
    assert a[i + j] == 0;
    assert a[i + 1..][j - 1] == 0;
    if StartsEscape(a[i..], budget) {
      assert a[i..][2] == a[i + 2] && a[i..][3] == a[i + 3];
      assert a[i + 4..][j - 4] == 0;
    }
  }

  method ReadByte(buffer: array<byte>, read: nat, budget: nat) returns (value: byte, count: nat)
    requires read < buffer.Length && buffer[read] != 0 && HasNul(buffer[..][read..]) && budget > 0
    ensures value == FirstByte(buffer[..][read..], budget) && count == FirstSize(buffer[..][read..], budget)
    ensures read + count < buffer.Length && HasNul(buffer[..][read + count..])
  {
    EscapeInArray(buffer[..], read, budget);
    if buffer[read] == BACKSLASH && 3 < budget && buffer[read + 1] == 'x' as int &&
       IsHexDigit(buffer[read + 2]) && IsHexDigit(buffer[read + 3]) {
      return HexValue(buffer[read + 2]) * 16 + HexValue(buffer[read + 3]), 4;
    }
    return buffer[read], 1;
  }

  predicate HasNul(s: seq<byte>) {
    0 in s
  }

  lemma StartsInside(s: seq<byte>, start: nat)
    requires start <= |s| && HasNul(s[start..])
    ensures start < |s|
  {
  }

  lemma TailIsUntouched(now: seq<byte>, was: seq<byte>, start: nat, done: seq<byte>, read: nat)
    requires start + |done| <= read < |was| && now == Overwritten(was, start, done)
    ensures now[read..] == was[read..] && now[read] == was[read]
    ensures forall i :: read <= i <= |was| ==> now[i..] == was[i..]
  {
  }

  lemma DecodedEnds(s: seq<byte>, budget: nat)
    requires s == [] || s[0] == 0 || budget == 0
    ensures Decoded(s, budget) == []
  {
  }

  function Overwritten(was: seq<byte>, start: nat, done: seq<byte>): seq<byte>
    requires start + |done| <= |was|
  {
    was[..start] + done + was[start + |done|..]
  }

  lemma NothingOverwritten(was: seq<byte>, start: nat)
    requires start <= |was|
    ensures Overwritten(was, start, []) == was
  {
  }

  lemma OverwritingOneMore(was: seq<byte>, start: nat, done: seq<byte>, b: byte)
    requires start + |done| < |was|
    ensures Overwritten(was, start, done)[start + |done| := b] == Overwritten(was, start, done + [b])
  {
  }

  /**
   unhexmangle_to_buffer, run on its own input: the result is what the decoder
   makes of the original bytes, because writing never overtakes reading.
   `length` is a size_t, so that of an empty buffer wraps around.
   */
  method UnhexmangleInPlace(buffer: array<byte>, start: nat, length: nat) returns (size: nat)
    requires start <= buffer.Length && HasNul(buffer[..][start..]) && length < SIZE_SPAN
    modifies buffer
    ensures var decoded := Decoded(old(buffer[..])[start..], Wrapped(length - 1));
      && size == |decoded| + 1 && start + size <= buffer.Length
      && buffer[..] == Overwritten(old(buffer[..]), start, decoded + [0])
  {
    var limit := Wrapped(length - 1);
    hide Wrapped, Decoded, StartsEscape, FirstByte, FirstSize, Overwritten, HasNul;
    ghost var was, done := buffer[..], [];
    ghost var text := was[start..];
    NothingOverwritten(was, start);
    StartsInside(was, start);
    var read, write := start, start;
    while buffer[read] != 0 && read - start < limit
      invariant start <= write <= read < buffer.Length && read - start <= limit && HasNul(was[read..])
      invariant write == start + |done| && buffer[..] == Overwritten(was, start, done)
      invariant Decoded(text, limit) == done + Decoded(was[read..], limit - (read - start))
      decreases buffer.Length - read
    {
      ghost var budget := limit - (read - start);
      TailIsUntouched(buffer[..], was, start, done, read);
      DecodedOneMore(was, read, budget, done);
      var value, count := ReadByte(buffer, read, limit - (read - start));
      OverwritingOneMore(was, start, done, value);
      buffer[write] := value;
      write := write + 1;
      read := read + count;
      done := done + [value];
    }
    TailIsUntouched(buffer[..], was, start, done, read);
    DecodedEnds(was[read..], limit - (read - start));
    OverwritingOneMore(was, start, done, 0);
    buffer[write] := 0;
    size := write - start + 1;
    assert done + [] == done;
  }
}
