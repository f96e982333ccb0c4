/**
 The boot protocol on the wire (src/client/ply-boot-client.c, src/ply-boot-server.c,
 src/ply-boot-protocol.h).
 */
module Protocol {
  import opened Base
  import opened Arithmetic
  import opened Buffers

  // ----- requests

  datatype Request = Request(command: byte, argument: Option<seq<byte>>)

  /** What the client's callers may ask for: an argument is a C string shorter than UCHAR_MAX. */
  predicate Sendable(r: Request) {
    r.argument.Some? ==> 0 !in r.argument.value && |r.argument.value| < 255
  }

  /** get_request_string */
  function Frame(r: Request): seq<byte>
    requires Sendable(r)
  {
    if r.argument.None? then [r.command, 0]
    else [r.command, 2, |r.argument.value| + 1] + r.argument.value + [0]
  }

  datatype Reading<T> = Got(value: T, rest: seq<byte>) | Bad

  /** read_request: a bad header, length or terminator, or a stream that ends, drops the connection. */
  function ReadRequest(s: seq<byte>): Reading<Request> {
    if |s| < 2 then Bad
    else if s[1] == 0 then Got(Request(s[0], None), s[2..])
    else if s[1] != 2 || |s| < 3 then Bad
    else
      var size: nat := s[2];
      if size == 0 || |s| < 3 + size || s[2 + size] != 0 then Bad
      else Got(Request(s[0], Some(CString(s[3..2 + size]))), s[3 + size..])
  }

  lemma FrameIsRead(r: Request, rest: seq<byte>)
    requires Sendable(r)
    ensures ReadRequest(Frame(r) + rest) == Got(r, rest)
  {
    var s := Frame(r) + rest;
    if r.argument.Some? {
      var text := r.argument.value;
      assert s[2] == |text| + 1 && s[3..] == text + [0] + rest;
      assert s[3..3 + |text|] == text && s[3 + |text|] == 0 && s[4 + |text|..] == rest;
      CStringOfNulFree(text);
    }
  }

  /** Whatever the server accepts is a frame, unless its argument hides a NUL. */
  lemma AcceptedIsFrame(s: seq<byte>)
    requires ReadRequest(s).Got?
    requires s[1] == 2 ==> 0 !in s[3..2 + s[2]]
    ensures var got := ReadRequest(s); Sendable(got.value) && s == Frame(got.value) + got.rest
  {
    if s[1] == 2 {
      CStringOfNulFree(s[3..2 + s[2]]);
    }
  }

  function Frames(rs: seq<Request>): seq<byte>
    requires forall r <- rs :: Sendable(r)
  {
    if rs == [] then [] else Frame(rs[0]) + Frames(rs[1..])
  }

  /** The requests the server reads until the stream ends or is bad. */
  function ReadRequests(s: seq<byte>): seq<Request> {
    if s == [] then []
    else
      match ReadRequest(s)
      case Bad => []
      case Got(r, rest) => [r] + ReadRequests(rest)
  }

  /** The server reads any sequence of requests back from its frames. */
  lemma {:induction false} FramesAreRead(rs: seq<Request>)
    requires forall r <- rs :: Sendable(r)
    ensures ReadRequests(Frames(rs)) == rs
  {
    hide Frame, ReadRequest;
    if rs != [] {
      FrameIsRead(rs[0], Frames(rs[1..]));
      FrameIsNotEmpty(rs[0]);
      FramesAreRead(rs[1..]);
      HeadAndTail(rs);
    }
  }

  lemma FrameIsNotEmpty(r: Request)
    requires Sendable(r)
    ensures |Frame(r)| >= 2
  {
  }

  lemma {:induction false} FramesOfSum(a: seq<Request>, b: seq<Request>)
    requires (forall r <- a :: Sendable(r)) && (forall r <- b :: Sendable(r))
    ensures forall r <- a + b :: Sendable(r)
    ensures Frames(a + b) == Frames(a) + Frames(b)
  {
    if a == [] {
      assert a + b == b;
    } else {
      assert (a + b)[1..] == a[1..] + b;
      FramesOfSum(a[1..], b);
      Regroup(Frame(a[0]), Frames(a[1..]), Frames(b));
    }
  }

  // ----- numbers

  const WORD: int := 0x1_0000_0000

  function Digit(n: nat, place: nat): byte
    requires place >= 1
  {
    n / place % 0x100
  }

  /** write_uint32, least significant byte first. */
  function Word(n: nat): (w: seq<byte>)
    ensures |w| == 4
  {
    [Digit(n, 1), Digit(n, 0x100), Digit(n, 0x1_0000), Digit(n, 0x100_0000)]
  }

  /** read_uint32 */
  function WordValue(w: seq<byte>): nat
    requires |w| == 4
  {
    w[0] as int + w[1] as int * 0x100 + w[2] as int * 0x1_0000 + w[3] as int * 0x100_0000
  }

  lemma WordIsRead(n: nat)
    requires n < WORD
    ensures WordValue(Word(n)) == n
  {
    NextDigit(n, 1);
    NextDigit(n, 0x100);
    NextDigit(n, 0x1_0000);
    hide Digit;
    assert n / 0x100_0000 == Digit(n, 0x100_0000) by { LastDigit(n); }
  }

  lemma NextDigit(n: nat, place: nat)
    requires place >= 1
    ensures n / place == n / (place * 0x100) * 0x100 + Digit(n, place)
  {
    var q := n / place;
    var high, low := q / 0x100, q % 0x100;
    assert n == (high * 0x100 + low) * place + n % place;
    Distributes(high * 0x100, low, place);
    assert high * 0x100 * place == high * (place * 0x100);
    Distributes(low, 1, place);
    MultipleIsLarge(0x100 - low - 1, place);
    Distributes(0x100 - low, 1, place);
    assert 0 <= low * place + n % place < place * 0x100 by {
      Distributes(0x100, low + 1, place);
      if low + 1 < 0x100 { MultipleIsLarge(0x100 - (low + 1), place); }
    }
    RemainderOf(place * 0x100, high, low * place + n % place);
  }

  lemma LastDigit(n: nat)
    requires n < WORD
    ensures n / 0x100_0000 == Digit(n, 0x100_0000)
  {
  }

  // ----- replies

  const ACK: byte := 0x06
  const NAK: byte := 0x15
  const ANSWER: byte := 0x02
  const MULTIPLE_ANSWERS: byte := 0x09
  const NO_ANSWER: byte := 0x05

  datatype Reply = Ack | Nak | NoAnswer | Answer(text: seq<byte>) | Answers(texts: seq<seq<byte>>)

  /** C strings. */
  predicate AreTexts(texts: seq<seq<byte>>) {
    forall t <- texts :: 0 !in t
  }

  /** A reply is made of C strings. */
  predicate IsReply(reply: Reply) {
    match reply
    case Answer(text) => 0 !in text && |text| < WORD
    case Answers(texts) => AreTexts(texts)
    case _ => true
  }

  /** The cached passwords, each with its NUL, in a buffer that forgets the oldest bytes; None when an append never ends. */
  function Gathered(buffer: seq<byte>, texts: seq<seq<byte>>): Option<seq<byte>>
    decreases texts
  {
    if texts == [] then Some(buffer)
    else
      match Append(buffer, texts[0] + [0])
      case None => None
      case Some(next) => Gathered(next, texts[1..])
  }

  /** No password is as long, with its NUL, as the limit of the buffer they are gathered in. */
  predicate CanBeGathered(texts: seq<seq<byte>>) {
    forall t <- texts :: |t| + 1 != CAPACITY
  }

  lemma {:induction false} GatheringEndsIff(buffer: seq<byte>, texts: seq<seq<byte>>)
    ensures Gathered(buffer, texts).Some? <==> CanBeGathered(texts)
    decreases texts
  {
    hide Appended;
    if texts != [] {
      if |texts[0]| + 1 != CAPACITY {
        GatheringEndsIff(Appended(buffer, texts[0] + [0]), texts[1..]);
        HeadAndTail(texts);
      }
    }
  }

  /** The server gets round to writing. */
  predicate CanBeWritten(reply: Reply) {
    reply.Answers? ==> CanBeGathered(reply.texts)
  }

  function Sized(kind: byte, payload: seq<byte>): seq<byte> {
    [kind] + Word(|payload|) + payload
  }

  /** What the server writes. */
  function ReplyBytes(reply: Reply): seq<byte>
    requires IsReply(reply) && CanBeWritten(reply)
  {
    match reply
    case Ack => [ACK]
    case Nak => [NAK]
    case NoAnswer => [NO_ANSWER]
    case Answer(text) => Sized(ANSWER, text)
    case Answers(texts) =>
      GatheringEndsIff([], texts);
      var payload := Gathered([], texts).value;
      if payload == [] then [NO_ANSWER] else Sized(MULTIPLE_ANSWERS, payload)
  }

  /** What the client calls back with. */
  datatype Result = Done | Text(text: seq<byte>) | NoText | Texts(texts: seq<seq<byte>>) | Failed

  const MOST_BYTES: nat := 1024 * 1024

  lemma CStringIsShorter(s: seq<byte>)
    requires s != [] && s[|s| - 1] == 0
    ensures |CString(s)| < |s| && s == CString(s) + [0] + s[|CString(s)| + 1..]
  {
    CStringIsPrefix(s);
    assert s[|s| - 1] in s;
  }

  /** NUL-terminated strings, one after another. */
  function Split(s: seq<byte>): seq<seq<byte>>
    requires s == [] || s[|s| - 1] == 0
  {
    if s == [] then []
    else
      CStringIsShorter(s);
      var text := CString(s);
      [text] + Split(s[|text| + 1..])
  }

  /** An array of pointers with its NULL has to fit a buffer; the oldest pointers go first. */
  const MOST_POINTERS: nat := CAPACITY / 8 - 2

  function Added<T>(array_: seq<T>, x: T): seq<T> {
    if |array_| < MOST_POINTERS then array_ + [x] else (array_ + [x])[1..]
  }

  function Latest<T>(s: seq<T>): seq<T> {
    if |s| <= MOST_POINTERS then s else s[|s| - MOST_POINTERS..]
  }

  lemma AddedToLatest<T>(s: seq<T>, x: T)
    ensures Added(Latest(s), x) == Latest(s + [x])
  {
  }

  /** process_incoming_replies, up to the callback.  A stream that ends early is read to its end. */
  function ReadReply(s: seq<byte>): (Result, seq<byte>) {
    if s == [] then (Failed, [])
    else if s[0] == ACK then (Done, s[1..])
    else if s[0] == NO_ANSWER then (NoText, s[1..])
    else if s[0] == ANSWER || s[0] == MULTIPLE_ANSWERS then
      if |s| < 5 then (Failed, []) else ReadPayload(s[0], WordValue(s[1..5]), s[5..])
    else (Failed, s[1..])
  }

  /** A payload that is refused for its size is not read. */
  function ReadPayload(kind: byte, size: nat, s: seq<byte>): (Result, seq<byte>)
    requires kind == ANSWER || kind == MULTIPLE_ANSWERS
  {
    if size > MOST_BYTES || (kind == MULTIPLE_ANSWERS && size == 0) then (Failed, s)
    else if |s| < size then (Failed, [])
    else if kind == ANSWER then (Text(CString(s[..size])), s[size..])
    else if s[size - 1] != 0 then (Failed, s[size..])
    else (Texts(Latest(Split(s[..size]))), s[size..])
  }

  function Joined(texts: seq<seq<byte>>): seq<byte> {
    if texts == [] then [] else texts[0] + [0] + Joined(texts[1..])
  }

  lemma CStringOfTerminated(text: seq<byte>, rest: seq<byte>)
    requires 0 !in text
    ensures CString(text + [0] + rest) == text
  {
    if text == [] {
      assert (text + [0] + rest)[0] == 0;
    } else {
      assert (text + [0] + rest)[1..] == text[1..] + [0] + rest;
      CStringOfTerminated(text[1..], rest);
      HeadAndTail(text);
    }
  }

  lemma {:induction false} JoinedEndsInNul(texts: seq<seq<byte>>)
    ensures texts == [] <==> Joined(texts) == []
    ensures texts != [] ==> Joined(texts)[|Joined(texts)| - 1] == 0
  {
    if texts != [] {
      JoinedEndsInNul(texts[1..]);
    }
  }

  /** Splitting and joining undo each other. */
  lemma {:induction false} JoinedIsSplit(texts: seq<seq<byte>>)
    requires forall t <- texts :: 0 !in t
    ensures Joined(texts) == [] || Joined(texts)[|Joined(texts)| - 1] == 0
    ensures Split(Joined(texts)) == texts
  {
    JoinedEndsInNul(texts);
    if texts != [] {
      JoinedIsSplit(texts[1..]);
      CStringOfTerminated(texts[0], Joined(texts[1..]));
      assert Joined(texts)[|texts[0]| + 1..] == Joined(texts[1..]);
      HeadAndTail(texts);
    }
  }

  lemma {:induction false} SplitIsJoined(s: seq<byte>)
    requires s == [] || s[|s| - 1] == 0
    ensures Joined(Split(s)) == s && (s == [] <==> Split(s) == [])
    decreases |s|
  {
    if s != [] {
      var text := CString(s);
      CStringIsShorter(s);
      SplitIsJoined(s[|text| + 1..]);
      assert Split(s)[0] == text && Split(s)[1..] == Split(s[|text| + 1..]);
    }
  }

  /** The buffer holds all the passwords exactly when they fit it. */
  lemma {:induction false} GatheredIff(buffer: seq<byte>, texts: seq<seq<byte>>)
    requires |buffer| < CAPACITY
    ensures var g := Gathered(buffer, texts);
      && (g.Some? ==> |g.value| < CAPACITY && IsSuffix(g.value, buffer + Joined(texts)))
      && (g == Some(buffer + Joined(texts)) <==> |buffer + Joined(texts)| < CAPACITY)
    decreases texts
  {
    hide IsSuffix, Append;
    if texts == [] {
      assert buffer + Joined(texts) == buffer;
      WholeIsSuffix(buffer);
    } else {
      var text, rest := texts[0] + [0], Joined(texts[1..]);
      AppendedIsSuffix(buffer, text);
      Regroup(buffer, text, rest);
      var next := Append(buffer, text);
      if next.Some? {
        GatheredIff(next.value, texts[1..]);
        var g := Gathered(next.value, texts[1..]);
        if g.Some? {
          SuffixThenMore(g.value, next.value, buffer + text, rest);
        }
      }
    }
  }

  lemma SuffixThenMore(g: seq<byte>, next: seq<byte>, before: seq<byte>, rest: seq<byte>)
    requires IsSuffix(g, next + rest) && IsSuffix(next, before)
    ensures IsSuffix(g, before + rest) && |g| <= |before + rest|
    ensures g == before + rest <==> g == next + rest && next == before
  {
    var k := |before| - |next|;
    assert before + rest == before[..k] + (next + rest);
    if g == before + rest {
      assert k == 0;
    }
  }

  lemma {:induction false} GatheredIsNotEmpty(buffer: seq<byte>, texts: seq<seq<byte>>)
    requires buffer != [] || texts != []
    ensures Gathered(buffer, texts) != Some([])
    decreases texts
  {
    if texts != [] && |texts[0]| + 1 != CAPACITY {
      GatheredIsNotEmpty(Appended(buffer, texts[0] + [0]), texts[1..]);
    }
  }

  /** What the client makes of a reply that arrives whole. */
  function ResultOf(reply: Reply): Result {
    match reply
    case Ack => Done
    case Nak => Failed
    case NoAnswer => NoText
    case Answer(text) => Text(text)
    case Answers(texts) => if texts == [] then NoText else Texts(texts)
  }

  /** Small enough to arrive whole. */
  predicate IsDeliverable(reply: Reply) {
    match reply
    case Answer(text) => |text| <= MOST_BYTES
    case Answers(texts) => |Joined(texts)| < CAPACITY && |texts| <= MOST_POINTERS
    case _ => true
  }

  lemma SizedIsRead(kind: byte, payload: seq<byte>, rest: seq<byte>)
    requires (kind == ANSWER || kind == MULTIPLE_ANSWERS) && |payload| < WORD
    ensures ReadReply(Sized(kind, payload) + rest) == ReadPayload(kind, |payload|, payload + rest)
  {
    hide ReadPayload, Word, WordValue;
    var s := Sized(kind, payload) + rest;
    WordIsRead(|payload|);
    assert s[1..5] == Word(|payload|) && s[5..] == payload + rest;
  }

  lemma PayloadIsRead(kind: byte, payload: seq<byte>, rest: seq<byte>)
    requires (kind == ANSWER && 0 !in payload) || (kind == MULTIPLE_ANSWERS && payload != [] && payload[|payload| - 1] == 0)
    ensures ReadPayload(kind, |payload|, payload + rest) ==
            if |payload| > MOST_BYTES then (Failed, payload + rest)
            else if kind == ANSWER then (Text(payload), rest)
            else (Texts(Latest(Split(payload))), rest)
  {
    var s := payload + rest;
    assert s[..|payload|] == payload && s[|payload|..] == rest;
    if kind == ANSWER {
      CStringOfNulFree(payload);
    }
  }

  lemma {:induction false} JoinedOfSuffix(texts: seq<seq<byte>>, k: nat)
    requires k <= |texts|
    ensures |Joined(texts[k..])| <= |Joined(texts)|
  {
    if k > 0 {
      JoinedOfSuffix(texts[1..], k - 1);
      assert texts[1..][k - 1..] == texts[k..];
    }
  }

  lemma LatestIsNotLonger(texts: seq<seq<byte>>)
    ensures |Joined(Latest(texts))| <= |Joined(texts)|
    ensures Latest(texts) == texts <==> |texts| <= MOST_POINTERS
  {
    if |texts| > MOST_POINTERS {
      JoinedOfSuffix(texts, |texts| - MOST_POINTERS);
    }
  }

  lemma SuffixEndsAlike(t: seq<byte>, s: seq<byte>)
    requires IsSuffix(t, s) && t != []
    ensures |t| <= |s| && t[|t| - 1] == s[|s| - 1]
  {
  }

  /** The cached passwords arrive exactly when they fit the server's buffer and the client's array. */
  lemma GatheredIsSplitIff(texts: seq<seq<byte>>)
    requires AreTexts(texts) && texts != []
    ensures var payload := Gathered([], texts);
      && (payload.Some? ==> 0 < |payload.value| < CAPACITY && payload.value[|payload.value| - 1] == 0)
      && (payload.Some? && Latest(Split(payload.value)) == texts <==> IsDeliverable(Answers(texts)))
  {
    hide Latest, Split, Gathered, Joined, IsSuffix;
    var payload, all := Gathered([], texts), Joined(texts);
    GatheredIsNotEmpty([], texts);
    GatheredIff([], texts);
    assert [] + all == all;
    if payload.Some? {
      JoinedEndsInNul(texts);
      SuffixEndsAlike(payload.value, all);
      JoinedIsSplit(texts);
      SplitIsJoined(payload.value);
      LatestIsNotLonger(texts);
      LatestIsNotLonger(Split(payload.value));
    }
  }

  /**
   Every reply the server writes, and nothing after it, is what the client calls
   back with, exactly when it is small enough; one kind of reply is never written.
   */
  lemma ReplyIsReadIff(reply: Reply, rest: seq<byte>)
    requires IsReply(reply)
    ensures CanBeWritten(reply) && ReadReply(ReplyBytes(reply) + rest) == (ResultOf(reply), rest) <==> IsDeliverable(reply)
  {
    hide ReadReply, ReadPayload, Sized, Gathered, Split, Latest, Joined, CanBeGathered;
    match reply {
      case Answer(text) =>
        SizedIsRead(ANSWER, text, rest);
        PayloadIsRead(ANSWER, text, rest);
      case Answers(texts) =>
        GatheringEndsIff([], texts);
        if texts == [] {
          SingleByteIsRead(NO_ANSWER, rest);
          NothingGathered();
        } else {
          GatheredIsSplitIff(texts);
          if CanBeGathered(texts) {
            var payload := Gathered([], texts).value;
            SizedIsRead(MULTIPLE_ANSWERS, payload, rest);
            PayloadIsRead(MULTIPLE_ANSWERS, payload, rest);
          }
        }
      case Ack => SingleByteIsRead(ACK, rest);
      case Nak => SingleByteIsRead(NAK, rest);
      case NoAnswer => SingleByteIsRead(NO_ANSWER, rest);
    }
  }

  lemma NothingGathered()
    ensures Gathered([], []) == Some([]) && Joined([]) == [] && CanBeGathered([])
  {
  }

  lemma SingleByteIsRead(kind: byte, rest: seq<byte>)
    requires kind == ACK || kind == NAK || kind == NO_ANSWER
    ensures ReadReply([kind] + rest) == (if kind == ACK then Done else if kind == NAK then Failed else NoText, rest)
  {
    assert ([kind] + rest)[1..] == rest;
  }

  // ----- the loops

  /** The server's loop over the cached passwords; None when it hangs in one of them. */
  method GatherPasswords(passwords: seq<seq<byte>>) returns (payload: Option<seq<byte>>)
    ensures payload == Gathered([], passwords)
  {
    hide Append;
    var buffer := new ByteBuffer();
    var i := 0;
    while i < |passwords|
      invariant 0 <= i <= |passwords| && buffer.Valid() && fresh(buffer)
      invariant Gathered(buffer.bytes, passwords[i..]) == Gathered([], passwords)
    {
      assert passwords[i..][0] == passwords[i] && passwords[i..][1..] == passwords[i + 1..];
      var ended := buffer.AppendBytes(passwords[i] + [0]);
      if !ended {
        return None;
      }
      i := i + 1;
    }
    return Some(buffer.bytes);
  }

  /** The client's loop over the payload. */
  method SplitAnswers(payload: seq<byte>) returns (answers: seq<seq<byte>>)
    requires payload != [] && payload[|payload| - 1] == 0
    ensures answers == Latest(Split(payload))
  {
    hide Latest, Added, Split, CString;
    answers := [];
    ghost var all := [];
    assert Latest<seq<byte>>([]) == [] by { LatestIsNotLonger([]); }
    var start, i := 0, 0;
    while i < |payload|
      invariant 0 <= start <= i <= |payload|
      invariant 0 !in payload[start..i] && (i == |payload| ==> start == i)
      invariant answers == Latest(all) && Split(payload) == all + Split(payload[start..])
    {
      if payload[i] == 0 {
        TerminatedPiece(payload, start, i);
        AddedToLatest(all, payload[start..i]);
        answers := Added(answers, CString(payload[start..]));
        Regroup(all, [payload[start..i]], Split(payload[i + 1..]));
        all := all + [payload[start..i]];
        start := i + 1;
      }
      i := i + 1;
    }
    SplitIsJoined([]);
    assert payload[start..] == [] && all + [] == all;
  }

  lemma TerminatedPiece(s: seq<byte>, start: nat, i: nat)
    requires start <= i < |s| && s[i] == 0 && 0 !in s[start..i] && s[|s| - 1] == 0
    ensures CString(s[start..]) == s[start..i] && Split(s[start..]) == [s[start..i]] + Split(s[i + 1..])
  {
    CStringOfTerminated(s[start..i], s[i + 1..]);
    assert s[start..] == s[start..i] + [0] + s[i + 1..];
    assert s[start..][|s[start..i]| + 1..] == s[i + 1..];
  }

  // ----- some bytes on the wire

  lemma ShortWord(n: nat)
    requires n < 256
    ensures Word(n) == [n, 0, 0, 0]
  {
  }

  /** One exchange of each kind, byte by byte. */
  lemma BytesOnTheWire()
    ensures Frame(Request('P' as int, None)) == [80, 0]
    ensures Frame(Request('*' as int, Some([97, 98]))) == [42, 2, 3, 97, 98, 0]
    ensures ReplyBytes(Ack) == [0x06] && ReplyBytes(Nak) == [0x15] && ReplyBytes(NoAnswer) == [0x05]
    ensures ReplyBytes(Answer([97, 98])) == [0x02, 2, 0, 0, 0, 97, 98]
    ensures ReadReply([0x06]) == (Done, []) && ReadReply([0x15]) == (Failed, []) && ReadReply([0x05]) == (NoText, [])
    ensures ReadReply([0x02, 2, 0, 0, 0, 97, 98]) == (Text([97, 98]), [])
    ensures ReadReply([0x09, 4, 0, 0, 0, 97, 0, 98, 0]) == (Texts([[97], [98]]), [])
  {
    hide Word, WordValue, ReadPayload;
    ShortWord(2);
    ShortWord(4);
    WordIsRead(2);
    WordIsRead(4);
    var text: seq<byte>, texts: seq<byte> := [97, 98], [97, 0, 98, 0];
    assert [0x02, 2, 0, 0, 0, 97, 98][1..5] == [2, 0, 0, 0] && [0x02, 2, 0, 0, 0, 97, 98][5..] == text;
    assert [0x09, 4, 0, 0, 0, 97, 0, 98, 0][1..5] == [4, 0, 0, 0] && [0x09, 4, 0, 0, 0, 97, 0, 98, 0][5..] == texts;
    var ack: seq<byte>, nak: seq<byte>, none: seq<byte> := [0x06], [0x15], [0x05];
    assert ack[1..] == [] && nak[1..] == [] && none[1..] == [];
    PayloadsAreRead();
  }

  lemma PayloadsAreRead()
    ensures ReadPayload(ANSWER, 2, [97, 98]) == (Text([97, 98]), [])
    ensures ReadPayload(MULTIPLE_ANSWERS, 4, [97, 0, 98, 0]) == (Texts([[97], [98]]), [])
  {
    var text: seq<byte>, texts: seq<byte>, list: seq<seq<byte>> := [97, 98], [97, 0, 98, 0], [[97], [98]];
    CStringOfNulFree(text);
    assert text[..2] == text && text[2..] == [] && texts[..4] == texts && texts[4..] == [];
    assert list[1..] == [[98]] && list[1..][1..] == [];
    assert Joined(list[1..]) == [98] + [0] + Joined([]) == [98, 0];
    assert Joined(list) == texts;
    SplitsBack(list);
  }

  lemma SplitsBack(list: seq<seq<byte>>)
    requires list == [[97], [98]]
    ensures Joined(list) == [97, 0, 98, 0] ==> Latest(Split([97, 0, 98, 0])) == list
  {
    JoinedIsSplit(list);
  }

  /** What arrives as it was meant, in numbers: an answer of up to 1 MiB, and up to 130558 cached passwords below 1044480 bytes in all. */
  lemma ReplyArrivesIff(reply: Reply)
    requires IsReply(reply)
    ensures match reply
      case Ack => ReadReply(ReplyBytes(reply)) == (Done, [])
      case Nak => ReadReply(ReplyBytes(reply)) == (Failed, [])
      case NoAnswer => ReadReply(ReplyBytes(reply)) == (NoText, [])
      case Answer(text) => ReadReply(ReplyBytes(reply)) == (Text(text), []) <==> |text| <= 1048576
      case Answers(texts) =>
        if texts == [] then CanBeWritten(reply) && ReadReply(ReplyBytes(reply)) == (NoText, [])
        else CanBeWritten(reply) && ReadReply(ReplyBytes(reply)) == (Texts(texts), []) <==> |Joined(texts)| < 1044480 && |texts| <= 130558
  {
    hide ReadReply, ReplyBytes, Joined, IsReply;
    ReplyIsReadIff(reply, []);
    if CanBeWritten(reply) {
      assert ReplyBytes(reply) + [] == ReplyBytes(reply);
    }
    NothingIsJoined();
  }

  lemma NothingIsJoined()
    ensures Joined([]) == []
  {
  }
}
