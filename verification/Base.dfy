/** Small types shared by every component. */
module Base {

  datatype Option<+T> = None | Some(value: T)

  type byte = b: int | 0 <= b < 0x100

  type uint32 = n: int | 0 <= n < 0x1_0000_0000

  /** The number of values of the source's size_t. */
  const SIZE_SPAN: int := 0x1_0000_0000_0000_0000

  /** Arithmetic in size_t wraps around. */
  function Wrapped(n: int): (w: nat)
    ensures w < SIZE_SPAN
  {
    n % SIZE_SPAN
  }

  lemma Regroup<T>(a: seq<T>, b: seq<T>, c: seq<T>)
    ensures a + b + c == a + (b + c)
  {
  }

  lemma HeadAndTail<T>(s: seq<T>)
    requires s != []
    ensures s == [s[0]] + s[1..]
  {
  }

  /** A C string ends at its first NUL. */
  function CString(s: seq<byte>): seq<byte> {
    if s == [] || s[0] == 0 then [] else [s[0]] + CString(s[1..])
  }

  lemma {:induction false} CStringIsPrefix(s: seq<byte>)
    ensures CString(s) <= s && 0 !in CString(s)
    ensures CString(s) == s || s[|CString(s)|] == 0
  {
    if s != [] && s[0] != 0 {
      CStringIsPrefix(s[1..]);
    }
  }

  lemma {:induction false} CStringOfNulFree(s: seq<byte>)
    requires 0 !in s
    ensures CString(s) == s
  {
    if s != [] {
      assert 0 !in s[1..];
      CStringOfNulFree(s[1..]);
    }
  }
}
