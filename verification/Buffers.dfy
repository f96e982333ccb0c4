/** Growing byte buffers with a fixed limit (src/libply/ply-buffer.c). */
module Buffers {
  import opened Base

  /** A buffer holds fewer bytes than this; to make room it forgets the oldest. */
  const CAPACITY: nat := 255 * 4096

  /** remove_bytes */
  function WithoutFirst(b: seq<byte>, n: nat): (r: seq<byte>)
    ensures IsSuffix(r, b) && (n > 0 && b != [] ==> |r| < |b|)
  {
    if n >= |b| then [] else b[n..]
  }

  predicate IsSuffix(t: seq<byte>, s: seq<byte>) {
    |t| <= |s| && t == s[|s| - |t|..]
  }

  /** How many of `size` bytes are kept below `limit` when `n` more are wanted: `n` go at a time. */
  function KeptSize(size: nat, n: nat, limit: nat): (k: nat)
    requires 0 < n < limit
    ensures k + n < limit && k <= size
    ensures k == size <==> size + n < limit
  {
    if size + n < limit then size else KeptSize(if n >= size then 0 else size - n, n, limit)
  }

  /** What is kept of a buffer when `n` more bytes are wanted. */
  function Trimmed(b: seq<byte>, n: nat): (t: seq<byte>)
    requires 0 < n < CAPACITY
    ensures |t| + n < CAPACITY
  {
    b[|b| - KeptSize(|b|, n, CAPACITY)..]
  }

  lemma TrimmedIsSuffix(b: seq<byte>, n: nat)
    requires 0 < n < CAPACITY
    ensures IsSuffix(Trimmed(b, n), b) && (|Trimmed(b, n)| == |b| <==> |b| + n < CAPACITY)
  {
  }

  lemma TrimmedStep(b: seq<byte>, n: nat)
    requires 0 < n < CAPACITY
    ensures Trimmed(b, n) == if |b| + n < CAPACITY then b else Trimmed(WithoutFirst(b, n), n)
    ensures |b| + n >= CAPACITY ==> |WithoutFirst(b, n)| < |b|
  {
  }

  /** What an append takes: the end of input that is too long, but all of input that is as long as the limit. */
  function Kept(more: seq<byte>): (k: seq<byte>)
    ensures |k| <= CAPACITY && (|k| == CAPACITY <==> |more| == CAPACITY) && (more != [] ==> k != [])
  {
    if |more| > CAPACITY then more[|more| - (CAPACITY - 1)..] else more
  }

  lemma KeptIsSuffix(more: seq<byte>)
    requires |more| != CAPACITY
    ensures IsSuffix(Kept(more), more)
    ensures if |more| < CAPACITY then Kept(more) == more else |Kept(more)| < |more| && |Kept(more)| == CAPACITY - 1
  {
  }

  /** The outcome of an append that ends. */
  function Appended(b: seq<byte>, more: seq<byte>): seq<byte>
    requires |more| != CAPACITY
  {
    if more == [] then b else Trimmed(b, |Kept(more)|) + Kept(more)
  }

  /** append_bytes; None when its loop never ends. */
  function Append(b: seq<byte>, more: seq<byte>): Option<seq<byte>> {
    if |more| == CAPACITY then None else Some(Appended(b, more))
  }

  // ----- the loop of an append, turn by turn

  /** The bytes of a buffer and the size of the memory behind them. */
  datatype Room = Room(bytes: seq<byte>, capacity: nat)

  predicate IsRoom(r: Room) {
    |r.bytes| < r.capacity <= CAPACITY
  }

  /** The loop's guard is false. */
  predicate HasRoom(r: Room, n: nat) {
    |r.bytes| + n < r.capacity
  }

  /** One turn of the loop: the memory grows, or else the oldest bytes go. */
  function Turn(r: Room, n: nat): (t: Room)
    requires IsRoom(r)
    ensures IsRoom(t)
  {
    if r.capacity < CAPACITY then r.(capacity := Grown(r.capacity)) else r.(bytes := WithoutFirst(r.bytes, n))
  }

  function Turned(r: Room, n: nat, turns: nat): (t: Room)
    requires IsRoom(r)
    ensures IsRoom(t)
    decreases turns
  {
    if turns == 0 then r else Turned(Turn(r, n), n, turns - 1)
  }

  lemma {:induction false} EndsEventually(r: Room, n: nat) returns (turns: nat)
    requires IsRoom(r) && n < CAPACITY
    ensures HasRoom(Turned(r, n, turns), n)
    decreases CAPACITY - r.capacity, |r.bytes|
  {
    hide Grown, WithoutFirst;
    if HasRoom(r, n) {
      turns := 0;
    } else {
      turns := EndsEventually(Turn(r, n), n);
      turns := turns + 1;
    }
  }

  /** The loop of an append ends, for any buffer, exactly when the input is not as long as the limit. */
  lemma AppendEndsIff(r: Room, more: seq<byte>)
    requires IsRoom(r)
    ensures (exists turns: nat :: HasRoom(Turned(r, |Kept(more)|, turns), |Kept(more)|)) <==> |more| != 1044480
    ensures (exists turns: nat :: HasRoom(Turned(r, |Kept(more)|, turns), |Kept(more)|)) <==> Append(r.bytes, more).Some?
  {
    hide Turned, Kept;
    if |more| != CAPACITY {
      var turns := EndsEventually(r, |Kept(more)|);
    }
  }

  /** Appending drops the oldest bytes, and drops any exactly when the result would not fit. */
  lemma AppendedIsSuffix(b: seq<byte>, more: seq<byte>)
    requires |b| < CAPACITY
    ensures Append(b, more).Some? ==> |Append(b, more).value| < CAPACITY && IsSuffix(Append(b, more).value, b + more)
    ensures Append(b, more) == Some(b + more) <==> |b| + |more| < CAPACITY
  {
    hide Trimmed, Kept, IsSuffix;
    if |more| == CAPACITY {
    } else if more == [] {
      assert b + more == b;
      WholeIsSuffix(b);
    } else {
      KeptIsSuffix(more);
      TrimmedIsSuffix(b, |Kept(more)|);
      if |more| < CAPACITY {
        SuffixOfSum(Trimmed(b, |more|), b, more);
      } else {
        assert Trimmed(b, |Kept(more)|) == [];
        SuffixAfter(b, Kept(more), more);
      }
    }
  }

  lemma AppendFits(b: seq<byte>, more: seq<byte>)
    requires |b| + |more| < CAPACITY
    ensures Appended(b, more) == b + more
  {
    AppendedIsSuffix(b, more);
  }

  /** A buffer that has no room forgets as many bytes as it gets, if it has as many. */
  lemma FullForgets(b: seq<byte>, more: seq<byte>)
    requires more != [] && |more| <= |b| < CAPACITY <= |b| + |more|
    ensures Appended(b, more) == b[|more|..] + more
  {
    TrimmedStep(b, |more|);
    TrimmedStep(WithoutFirst(b, |more|), |more|);
  }

  lemma WholeIsSuffix(s: seq<byte>)
    ensures IsSuffix(s, s)
  {
  }

  lemma SuffixOfSum(t: seq<byte>, s: seq<byte>, more: seq<byte>)
    requires IsSuffix(t, s)
    ensures IsSuffix(t + more, s + more) && (t + more == s + more <==> |t| == |s|)
  {
    assert |t + more| == |t| + |more| && |s + more| == |s| + |more|;
  }

  lemma SuffixAfter(b: seq<byte>, t: seq<byte>, s: seq<byte>)
    requires IsSuffix(t, s)
    ensures IsSuffix(t, b + s) && [] + t == t
  {
  }

  /** increase_capacity */
  function Grown(capacity: nat): (g: nat)
    requires 0 < capacity < CAPACITY
    ensures capacity < g <= CAPACITY
  {
    if capacity * 2 < CAPACITY then capacity * 2 else CAPACITY
  }

  class ByteBuffer {
    var bytes: seq<byte>
    var capacity: nat

    ghost predicate Valid()
      reads this
    {
      |bytes| < capacity <= CAPACITY
    }

    constructor ()
      ensures Valid() && bytes == []
    {
      bytes := [];
      capacity := 4096;
    }

    /** Tells whether there is room in the end.  When nothing is left to grow or to forget the source goes round for ever. */
    method MakeRoom(n: nat) returns (ended: bool)
      requires Valid() && 0 < n <= CAPACITY
      modifies this
      ensures Valid() && ended == (n < CAPACITY)
      ensures ended ==> bytes == Trimmed(old(bytes), n) && |bytes| + n < capacity
      ensures !ended ==> Turn(Room(bytes, capacity), n) == Room(bytes, capacity)
    {
      hide Grown, Trimmed, WithoutFirst;
      while |bytes| + n >= capacity
        invariant Valid() && (n < CAPACITY ==> Trimmed(bytes, n) == Trimmed(old(bytes), n))
        decreases CAPACITY - capacity, |bytes|
      {
        if capacity >= CAPACITY {
          if |bytes| == 0 {
            assert WithoutFirst(bytes, n) == bytes;
            return false;
          }
          if n < CAPACITY {
            TrimmedStep(bytes, n);
          }
          bytes := WithoutFirst(bytes, n);
        } else {
          capacity := Grown(capacity);
        }
      }
      TrimmedStep(bytes, n);
      return true;
    }

    /** Tells whether the append ended. */
    method AppendBytes(more: seq<byte>) returns (ended: bool)
      requires Valid()
      modifies this
      ensures Valid() && Append(old(bytes), more) == if ended then Some(bytes) else None
    {
      if |more| == 0 {
        return true;
      }
      var kept := Kept(more);
      hide Kept;
      ended := MakeRoom(|kept|);
      if ended {
        bytes := bytes + kept;
      }
    }
  }
}
