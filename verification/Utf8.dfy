/**
 The byte classes of UTF-8 (section 3 of RFC 3629) as the helpers in
 src/libply/ply-utils.c sort them, and the streams they call well formed.
 */
module Utf8 {
  import opened Base

  datatype ByteType = EndOfString | OneByte | TwoBytes | ThreeBytes | FourBytes | Continuation | Invalid

  function TypeOf(b: byte): ByteType {
    if b == 0 then EndOfString
    else if b < 0x80 then OneByte
    else if 0xC0 <= b < 0xE0 then TwoBytes
    else if 0xE0 <= b < 0xF0 then ThreeBytes
    else if 0xF0 <= b < 0xF8 then FourBytes
    else if 0x80 <= b < 0xC0 then Continuation
    else Invalid
  }

  predicate IsMultiByte(t: ByteType) {
    t.TwoBytes? || t.ThreeBytes? || t.FourBytes?
  }

  function SizeOf(t: ByteType): nat {
    match t
    case OneByte => 1
    case TwoBytes => 2
    case ThreeBytes => 3
    case FourBytes => 4
    case _ => 0
  }

  /** How many continuation bytes are still owed after one more byte. */
  function Owed(owed: nat, b: byte): nat {
    if owed > 0 then owed - 1
    else if IsMultiByte(TypeOf(b)) then SizeOf(TypeOf(b)) - 1
    else 0
  }

  /** The byte may come next in a stream that owes `owed` continuation bytes. */
  predicate Fits(owed: nat, b: byte) {
    if owed > 0 then TypeOf(b).Continuation?
    else !TypeOf(b).Continuation? && !TypeOf(b).Invalid?
  }

  /** The stream has no misplaced byte; its last character may be cut short. */
  predicate WellFormed(owed: nat, s: seq<byte>)
    decreases s
  {
    s == [] || (Fits(owed, s[0]) && WellFormed(Owed(owed, s[0]), s[1..]))
  }

  /** Continuation bytes owed once `s` has been read. */
  function OwedAfter(owed: nat, s: seq<byte>): nat
    decreases s
  {
    if s == [] then owed else OwedAfter(Owed(owed, s[0]), s[1..])
  }

  lemma {:induction false} WellFormedConcat(owed: nat, a: seq<byte>, b: seq<byte>)
    ensures WellFormed(owed, a + b) <==> WellFormed(owed, a) && WellFormed(OwedAfter(owed, a), b)
    ensures OwedAfter(owed, a + b) == OwedAfter(OwedAfter(owed, a), b)
    decreases a
  {
    if a == [] {
      assert a + b == b;
    } else {
      assert (a + b)[1..] == a[1..] + b;
      WellFormedConcat(Owed(owed, a[0]), a[1..], b);
    }
  }

  // ----- removing the last character

  predicate IsContinuation(b: byte) {
    TypeOf(b).Continuation?
  }

  /** The string up to its last byte that is no continuation byte; all of it when there is no such byte. */
  function WithoutLastCharacter(s: seq<byte>): (r: seq<byte>)
    ensures r <= s
  {
    if HasLead(s) then s[..LastLead(s)] else s
  }

  predicate HasLead(s: seq<byte>) {
    exists i :: 0 <= i < |s| && !IsContinuation(s[i])
  }

  function LastLead(s: seq<byte>): (i: nat)
    requires HasLead(s)
    ensures i < |s| && !IsContinuation(s[i]) && forall k :: i < k < |s| ==> IsContinuation(s[k])
  {
    if !IsContinuation(s[|s| - 1]) then |s| - 1
    else
      assert HasLead(s[..|s| - 1]) by {
        var i :| 0 <= i < |s| && !IsContinuation(s[i]);
        assert s[..|s| - 1][i] == s[i];
      }
      LastLead(s[..|s| - 1])
  }

  /** ply_utf8_string_remove_last_character */
  method RemoveLastCharacter(bytes: seq<byte>) returns (r: seq<byte>)
    ensures r == WithoutLastCharacter(bytes)
  {
    if |bytes| == 0 {
      return bytes;
    }
    var end := |bytes| - 1;
    while true
      invariant 0 <= end < |bytes| && forall k :: end < k < |bytes| ==> IsContinuation(bytes[k])
      decreases end
    {
      if !IsContinuation(bytes[end]) {
        return bytes[..end];
      }
      if end == 0 {
        return bytes;
      }
      end := end - 1;
    }
  }

  /** A lead byte and the continuation bytes after it, as a whole character or part of one. */
  predicate IsPiece(c: seq<byte>) {
    c != [] && !IsContinuation(c[0]) && forall k :: 1 <= k < |c| ==> IsContinuation(c[k])
  }

  /** Removing undoes appending a character. */
  lemma RemovingUndoesAppending(s: seq<byte>, c: seq<byte>)
    requires IsPiece(c)
    ensures WithoutLastCharacter(s + c) == s
  {
    var t := s + c;
    assert !IsContinuation(t[|s|]);
    assert LastLead(t) == |s| by {
      forall k | |s| < k < |t| ensures IsContinuation(t[k]) {
        assert t[k] == c[k - |s|];
      }
    }
  }
}
