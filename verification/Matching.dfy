/**
 Replies end to end: a client and the server over two byte channels, in every
 interleaving of their steps (src/client/ply-boot-client.c, src/ply-boot-server.c).
 */
module Matching {
  import opened Base
  import opened Protocol
  import opened BootClients

  /** The server may reply to these later: deactivate, quit, password, question, keystroke. */
  predicate IsDeferred(r: Request) {
    r.command in ['D' as int, 'Q' as int, '*' as int, 'W' as int, 'K' as int]
  }

  datatype Written = Written(index: nat, reply: Reply)

  /**
   A client, the bytes on their way up and down, and what happened so far: the
   requests sent, the requests the server read, the reply it made for each, and the
   replies in the order it wrote them.
   */
  datatype System = System(
    client: Client,
    up: seq<byte>,
    down: seq<byte>,
    sent: seq<Pending>,
    requests: seq<Request>,
    replies: seq<Option<Reply>>,
    written: seq<Written>)

  datatype Step =
    | Ask(pending: Pending)
    | Transmit
    | Serve(now: Option<Reply>)
    | Answer(index: nat, later: Reply)
    | TakeReply

  /** A reply the server can write and the client can take whole. */
  predicate IsFit(reply: Reply) {
    IsReply(reply) && CanBeWritten(reply) && IsDeliverable(reply)
  }

  predicate CanStep(s: System, step: Step) {
    match step
    case Ask(p) => Sendable(p.request)
    case Transmit => s.client.toSend != [] && Sendable(s.client.toSend[0].request)
    case Serve(reply) =>
      && s.up != [] && ReadRequest(s.up).Got?
      && (if reply.Some? then IsFit(reply.value) else IsDeferred(ReadRequest(s.up).value))
    case Answer(index, reply) => index < |s.replies| && s.replies[index].None? && IsFit(reply)
    case TakeReply => s.down != [] && s.client.waiting != []
  }

  function After(s: System, step: Step): System
    requires CanStep(s, step)
  {
    match step
    case Ask(p) => s.(client := Queued(s.client, p))
    case Transmit =>
      var next := s.client.toSend[0];
      s.(client := Sent(s.client, true), up := s.up + Frame(next.request), sent := s.sent + [next])
    case Serve(reply) =>
      var got := ReadRequest(s.up);
      var served := s.(up := got.rest, requests := s.requests + [got.value], replies := s.replies + [reply]);
      if reply.Some? then WithReply(served, |s.requests|, reply.value) else served
    case Answer(index, reply) => WithReply(s.(replies := s.replies[index := Some(reply)]), index, reply)
    case TakeReply =>
      var (result, rest) := ReadReply(s.down);
      s.(client := Received(s.client, result), down := rest)
  }

  function WithReply(s: System, index: nat, reply: Reply): System
    requires IsReply(reply) && CanBeWritten(reply)
  {
    s.(down := s.down + ReplyBytes(reply), written := s.written + [Written(index, reply)])
  }

  /** Nothing is sent after a deferred request until its reply is read. */
  predicate IsDisciplined(s: System, step: Step) {
    step.Transmit? ==> forall p <- s.client.waiting :: !IsDeferred(p.request)
  }

  /** All a sender has to heed: nothing is sent after a deferred request until its reply is written. */
  predicate IsSafe(s: System, step: Step) {
    step.Transmit? ==> forall i :: |s.written| <= i < |s.sent| ==> !IsDeferred(s.sent[i].request)
  }

  predicate IsRun(s: System, steps: seq<Step>)
    decreases steps
  {
    steps == [] || (CanStep(s, steps[0]) && IsRun(After(s, steps[0]), steps[1..]))
  }

  predicate IsDisciplinedRun(s: System, steps: seq<Step>)
    decreases steps
  {
    steps == [] || (CanStep(s, steps[0]) && IsDisciplined(s, steps[0]) && IsDisciplinedRun(After(s, steps[0]), steps[1..]))
  }

  predicate IsSafeRun(s: System, steps: seq<Step>)
    decreases steps
  {
    steps == [] || (CanStep(s, steps[0]) && IsSafe(s, steps[0]) && IsSafeRun(After(s, steps[0]), steps[1..]))
  }

  function Run(s: System, steps: seq<Step>): System
    requires IsRun(s, steps)
    decreases steps
  {
    if steps == [] then s else Run(After(s, steps[0]), steps[1..])
  }

  function Start(): System {
    System(NEW_CLIENT, [], [], [], [], [], [])
  }

  // ----- the channels are queues

  function Bodies(requests: seq<Pending>): (r: seq<Request>)
    ensures |r| == |requests|
  {
    seq(|requests|, i requires 0 <= i < |requests| => requests[i].request)
  }

  predicate AreSendable(requests: seq<Request>) {
    forall r <- requests :: Sendable(r)
  }

  predicate AreFit(written: seq<Written>) {
    forall w <- written :: IsFit(w.reply)
  }

  function Encoded(written: seq<Written>): seq<byte>
    requires AreFit(written)
  {
    if written == [] then [] else ReplyBytes(written[0].reply) + Encoded(written[1..])
  }

  lemma {:induction false} EncodedOfSum(written: seq<Written>, w: Written)
    requires AreFit(written) && IsFit(w.reply)
    ensures AreFit(written + [w]) && Encoded(written + [w]) == Encoded(written) + ReplyBytes(w.reply)
  {
    hide ReplyBytes;
    if written == [] {
      assert [w][1..] == [] && written + [w] == [w];
      assert Encoded([w]) == ReplyBytes(w.reply) + Encoded([]);
    } else {
      assert (written + [w])[1..] == written[1..] + [w] && (written + [w])[0] == written[0];
      EncodedOfSum(written[1..], w);
      Regroup(ReplyBytes(written[0].reply), Encoded(written[1..]), ReplyBytes(w.reply));
    }
  }

  /** What is on its way up are the frames of the requests sent and not yet read. */
  predicate IsUp(s: System) {
    && |s.requests| <= |s.sent| && AreSendable(Bodies(s.sent)) && AreSendable(Bodies(s.client.toSend))
    && s.requests == Bodies(s.sent)[..|s.requests|]
    && s.up == Frames(Bodies(s.sent)[|s.requests|..])
  }

  /** What is on its way down are the replies written and not yet read; each callback got the next reply written. */
  predicate IsDown(s: System) {
    var taken := |s.client.calls|;
    && taken <= |s.written| && taken <= |s.sent| && AreFit(s.written)
    && s.client.isConnected && s.client.waiting == s.sent[taken..]
    && s.down == Encoded(s.written[taken..])
    && forall i :: 0 <= i < taken ==> s.client.calls[i] == Call(s.sent[i].id, ResultOf(s.written[i].reply))
  }

  /** The replies written are the replies made, each once. */
  predicate IsWritten(s: System) {
    && |s.replies| == |s.requests|
    && (forall i :: 0 <= i < |s.written| ==> s.written[i].index < |s.replies| && s.replies[s.written[i].index] == Some(s.written[i].reply))
    && (forall i, j :: 0 <= i < j < |s.written| ==> s.written[i].index != s.written[j].index)
  }

  predicate IsFifo(s: System) {
    IsUp(s) && IsDown(s) && IsWritten(s)
  }

  lemma UpIsKept(s: System, step: Step)
    requires IsUp(s) && CanStep(s, step) && s.client.isConnected
    ensures IsUp(After(s, step))
  {
    hide Frame, ReadRequest, Frames, ReplyBytes, ReadReply, Sendable, IsFit;
    var t := After(s, step);
    var left := Bodies(s.sent)[|s.requests|..];
    match step {
      case Transmit =>
        var next := s.client.toSend[0];
        assert Bodies(t.sent) == Bodies(s.sent) + [next.request];
        assert Bodies(t.client.toSend) == Bodies(s.client.toSend)[1..];
        assert Bodies(t.sent)[|s.requests|..] == left + [next.request];
        FramesOfSum(left, [next.request]);
        OneFrame(next.request);
      case Serve(reply) =>
        NoFrames();
        FramesHead(left);
        FrameIsRead(left[0], Frames(left[1..]));
      case Ask(p) =>
        assert Bodies(t.client.toSend) == Bodies(s.client.toSend) + [p.request];
      case TakeReply =>
      case Answer(index, reply) =>
    }
  }

  lemma OneFrame(r: Request)
    requires Sendable(r)
    ensures Frames([r]) == Frame(r)
  {
    assert [r][1..] == [];
  }

  lemma NoFrames()
    ensures Frames([]) == []
  {
  }

  lemma FramesHead(rs: seq<Request>)
    requires AreSendable(rs)
    ensures rs != [] ==> Frames(rs) == Frame(rs[0]) + Frames(rs[1..])
  {
  }

  lemma DownIsKept(s: System, step: Step)
    requires IsDown(s) && CanStep(s, step)
    ensures IsDown(After(s, step))
  {
    hide Frame, ReadRequest, ReplyBytes, ReadReply, Encoded, IsFit, ResultOf;
    var t := After(s, step);
    var taken := |s.client.calls|;
    match step {
      case Ask(p) =>
      case Transmit =>
      case Serve(reply) =>
        if reply.Some? {
          ReplyGoesDown(s.written, taken, Written(|s.requests|, reply.value));
        }
      case Answer(index, reply) =>
        ReplyGoesDown(s.written, taken, Written(index, reply));
      case TakeReply =>
        NothingEncoded();
        EncodedHead(s.written[taken..]);
        ReplyIsFit(s.written[taken].reply);
        ReplyIsReadIff(s.written[taken].reply, Encoded(s.written[taken + 1..]));
        assert s.written[taken..][1..] == s.written[taken + 1..];
        assert s.sent[taken..][1..] == s.sent[taken + 1..];
    }
  }

  lemma ReplyIsFit(reply: Reply)
    requires IsFit(reply)
    ensures IsReply(reply) && CanBeWritten(reply) && IsDeliverable(reply)
  {
  }

  lemma NothingEncoded()
    ensures Encoded([]) == []
  {
  }

  lemma EncodedHead(written: seq<Written>)
    requires AreFit(written)
    ensures written != [] ==>
              IsReply(written[0].reply) && CanBeWritten(written[0].reply) && Encoded(written) == ReplyBytes(written[0].reply) + Encoded(written[1..])
  {
  }

  lemma ReplyGoesDown(written: seq<Written>, taken: nat, w: Written)
    requires AreFit(written) && IsFit(w.reply) && taken <= |written|
    ensures AreFit(written + [w]) && Encoded((written + [w])[taken..]) == Encoded(written[taken..]) + ReplyBytes(w.reply)
  {
    assert (written + [w])[taken..] == written[taken..] + [w];
    EncodedOfSum(written[taken..], w);
  }

  lemma WrittenIsKept(s: System, step: Step)
    requires IsWritten(s) && CanStep(s, step)
    ensures IsWritten(After(s, step))
  {
    hide Frame, ReadRequest, ReplyBytes, ReadReply, IsFit;
  }

  /**
   In every interleaving, disciplined or not, the k-th callback is for the k-th
   request sent and gets the k-th reply written; and every reply written is the one
   reply made for some request that was sent.
   */
  lemma {:induction false} RepliesComeInOrder(s: System, steps: seq<Step>)
    requires IsFifo(s) && IsRun(s, steps)
    ensures IsFifo(Run(s, steps))
    decreases steps
  {
    hide After, CanStep, IsUp, IsDown, IsWritten;
    if steps != [] {
      ClientIsConnected(s);
      UpIsKept(s, steps[0]);
      DownIsKept(s, steps[0]);
      WrittenIsKept(s, steps[0]);
      RepliesComeInOrder(After(s, steps[0]), steps[1..]);
    }
  }

  lemma ClientIsConnected(s: System)
    requires IsDown(s)
    ensures s.client.isConnected
  {
  }

  // ----- safe sends, and each request gets its own reply

  /** Replies are written in the order of the requests; at most the last request has none yet. */
  predicate IsInOrder(s: System) {
    && |s.replies| == |s.requests|
    && (forall i :: 0 <= i < |s.written| ==> s.written[i].index == i)
    && |s.written| <= |s.requests| <= |s.written| + 1
    && (|s.written| < |s.requests| ==> s.replies[|s.written|].None? && IsDeferred(s.requests[|s.written|]) && |s.sent| == |s.requests|)
    && (forall i :: |s.written| <= i < |s.sent| - 1 ==> !IsDeferred(s.sent[i].request))
  }

  lemma OrderIsKept(s: System, step: Step)
    requires IsFifo(s) && IsInOrder(s) && CanStep(s, step) && IsSafe(s, step)
    ensures IsInOrder(After(s, step))
  {
    hide Frame, Frames, ReadRequest, ReplyBytes, ReadReply, Encoded, IsFit, IsDeferred;
    match step {
      case Transmit =>
        forall i | 0 <= i < |s.requests| ensures s.requests[i] == s.sent[i].request {
          assert s.requests[i] == Bodies(s.sent)[i];
        }
      case Serve(reply) =>
        NoFrames();
        var k := |s.requests|;
        var left := Bodies(s.sent)[k..];
        FramesHead(left);
        FrameIsRead(left[0], Frames(left[1..]));
        assert left[0] == s.sent[k].request;
      case Answer(index, reply) =>
        forall i | 0 <= i < |s.written| ensures s.replies[i].Some? {
          assert s.written[i].index == i;
        }
      case _ =>
    }
  }

  lemma {:induction false} SafeRunsKeepOrder(s: System, steps: seq<Step>)
    requires IsFifo(s) && IsInOrder(s) && IsSafeRun(s, steps)
    ensures IsRun(s, steps) && IsFifo(Run(s, steps)) && IsInOrder(Run(s, steps))
    decreases steps
  {
    hide After, CanStep, IsUp, IsDown, IsWritten, IsInOrder, IsSafe;
    if steps != [] {
      ClientIsConnected(s);
      UpIsKept(s, steps[0]);
      DownIsKept(s, steps[0]);
      WrittenIsKept(s, steps[0]);
      OrderIsKept(s, steps[0]);
      SafeRunsKeepOrder(After(s, steps[0]), steps[1..]);
    }
  }

  /** A reply that was read was written, so a disciplined client is safe. */
  lemma DisciplineIsSafe(s: System, step: Step)
    requires IsDown(s) && IsDisciplined(s, step)
    ensures IsSafe(s, step)
  {
    forall i | |s.written| <= i < |s.sent| ensures s.sent[i] in s.client.waiting {
      assert s.sent[i] == s.client.waiting[i - |s.client.calls|];
    }
  }

  lemma {:induction false} DisciplinedRunsAreSafe(s: System, steps: seq<Step>)
    requires IsFifo(s) && IsDisciplinedRun(s, steps)
    ensures IsSafeRun(s, steps)
    decreases steps
  {
    hide After, CanStep, IsUp, IsDown, IsWritten, IsDisciplined, IsSafe;
    if steps != [] {
      DisciplineIsSafe(s, steps[0]);
      ClientIsConnected(s);
      UpIsKept(s, steps[0]);
      DownIsKept(s, steps[0]);
      WrittenIsKept(s, steps[0]);
      DisciplinedRunsAreSafe(After(s, steps[0]), steps[1..]);
    }
  }

  /**
   End to end: when nothing is sent after a deferred request until its reply is
   written, every callback made is for its own request, in the order of sending,
   with the reply the server made for that very request.
   */
  lemma EveryCallbackGetsItsOwnReply(steps: seq<Step>, k: nat)
    requires IsSafeRun(Start(), steps)
    ensures IsRun(Start(), steps)
    ensures var s := Run(Start(), steps);
      k < |s.client.calls| ==>
        && k < |s.sent| && k < |s.requests| && k < |s.replies|
        && s.requests[k] == s.sent[k].request
        && s.replies[k].Some? && s.client.calls[k] == Call(s.sent[k].id, ResultOf(s.replies[k].value))
  {
    StartIsInOrder();
    SafeRunsKeepOrder(Start(), steps);
    hide Run, IsRun, Encoded, Frames, ResultOf;
    var s := Run(Start(), steps);
    if k < |s.client.calls| {
      assert s.written[k].index == k;
      assert s.requests[k] == Bodies(s.sent)[k];
    }
  }

  lemma StartIsInOrder()
    ensures IsFifo(Start()) && IsInOrder(Start())
  {
  }

  /** And once nothing is on its way and nothing is left to answer, every request sent has had its callback. */
  lemma QuietMeansAnswered(steps: seq<Step>)
    requires IsSafeRun(Start(), steps)
    ensures IsRun(Start(), steps)
    ensures var s := Run(Start(), steps);
      s.up == [] && s.down == [] && (forall r <- s.replies :: r.Some?) ==> |s.client.calls| == |s.sent| && s.client.waiting == []
  {
    StartIsInOrder();
    SafeRunsKeepOrder(Start(), steps);
    hide Run, IsRun, ReplyBytes, Frame, ResultOf, IsFit;
    var s := Run(Start(), steps);
    if s.up == [] && s.down == [] && forall r <- s.replies :: r.Some? {
      NoFramesNoRequests(Bodies(s.sent)[|s.requests|..]);
      NoBytesNoReplies(s.written[|s.client.calls|..]);
      forall i | 0 <= i < |s.replies| ensures s.replies[i].Some? {
        assert s.replies[i] in s.replies;
      }
    }
  }

  lemma NoFramesNoRequests(rs: seq<Request>)
    requires AreSendable(rs)
    ensures Frames(rs) == [] <==> rs == []
  {
    if rs != [] {
      FrameIsNotEmpty(rs[0]);
    }
  }

  lemma NoBytesNoReplies(written: seq<Written>)
    requires AreFit(written)
    ensures Encoded(written) == [] <==> written == []
  {
    if written != [] {
      EncodedHead(written);
      ReplyIsNotEmpty(written[0].reply);
    }
  }

  lemma ReplyIsNotEmpty(reply: Reply)
    requires IsReply(reply) && CanBeWritten(reply)
    ensures ReplyBytes(reply) != []
  {
  }

  // ----- with a server that may reply in any order, an unsafe send can go wrong, and no other

  /** Some callback got a reply that was made for another request. */
  predicate IsCrossed(s: System) {
    exists k :: 0 <= k < |s.client.calls| && k < |s.written| && s.written[k].index != k
  }

  predicate SendsNothing(steps: seq<Step>) {
    forall step <- steps :: !step.Transmit?
  }

  /** Request `k` is deferred and has no reply; one more request was sent after it; all is in order so far. */
  predicate IsAboutToCross(s: System, k: nat) {
    && IsFifo(s) && |s.sent| == k + 2 && IsDeferred(s.sent[k].request)
    && (forall i :: 0 <= i < |s.written| ==> s.written[i].index == i)
    && if |s.requests| <= k then |s.written| == |s.requests| else |s.requests| == k + 1 && |s.written| == k
  }

  /** The reply in place `k` is that of another request. */
  predicate HasCrossing(s: System, k: nat) {
    IsFifo(s) && k < |s.written| && k < |s.sent| && s.written[k].index != k
  }

  lemma StepStaysFifo(s: System, step: Step)
    requires IsFifo(s) && CanStep(s, step)
    ensures IsFifo(After(s, step))
  {
    hide After, CanStep, IsUp, IsDown, IsWritten;
    ClientIsConnected(s);
    UpIsKept(s, step);
    DownIsKept(s, step);
    WrittenIsKept(s, step);
  }

  /** The server can serve the next request sent, at once. */
  lemma NextCanBeServed(s: System, now: Option<Reply>)
    requires IsFifo(s) && |s.requests| < |s.sent|
    requires if now.Some? then IsFit(now.value) else IsDeferred(s.sent[|s.requests|].request)
    ensures CanStep(s, Serve(now))
    ensures var t := After(s, Serve(now));
      && IsFifo(t) && t.sent == s.sent && t.client == s.client && |t.requests| == |s.requests| + 1
      && t.written == s.written + if now.Some? then [Written(|s.requests|, now.value)] else []
  {
    hide Frame, Frames, ReadRequest, ReplyBytes, ReadReply, Encoded, IsFit, IsDeferred, IsDown, IsWritten;
    var left := Bodies(s.sent)[|s.requests|..];
    FramesHead(left);
    FrameIsRead(left[0], Frames(left[1..]));
    FrameIsNotEmpty(left[0]);
    assert left[0] == s.sent[|s.requests|].request;
    StepStaysFifo(s, Serve(now));
  }

  lemma AckIsFit()
    ensures IsFit(Ack)
  {
  }

  lemma OneMoreStep(s: System, step: Step, steps: seq<Step>)
    requires CanStep(s, step) && IsRun(After(s, step), steps) && !step.Transmit? && SendsNothing(steps)
    ensures IsRun(s, [step] + steps) && Run(s, [step] + steps) == Run(After(s, step), steps) && SendsNothing([step] + steps)
  {
    hide After, CanStep;
    assert ([step] + steps)[1..] == steps;
  }

  /** The server serves what is on its way, and the request after the deferred one first. */
  lemma {:induction false} ServeToCrossing(s: System, k: nat) returns (steps: seq<Step>)
    requires IsAboutToCross(s, k)
    ensures SendsNothing(steps) && IsRun(s, steps) && HasCrossing(Run(s, steps), k)
    decreases k + 2 - |s.requests|
  {
    hide After, CanStep, IsFifo, IsDeferred;
    AckIsFit();
    FifoBounds(s);
    var step := Serve(if |s.requests| == k then None else Some(Ack));
    NextCanBeServed(s, step.now);
    var t := After(s, step);
    if |s.requests| == k + 1 {
      assert t.written[k] == Written(k + 1, Ack);
      steps := [];
    } else {
      steps := ServeToCrossing(t, k);
    }
    OneMoreStep(s, step, steps);
    steps := [step] + steps;
  }

  lemma FifoBounds(s: System)
    requires IsFifo(s)
    ensures |s.client.calls| <= |s.written| && |s.client.calls| <= |s.sent| && |s.requests| <= |s.sent|
  {
  }

  lemma ReplyCanBeTaken(s: System)
    requires IsFifo(s) && |s.client.calls| < |s.written| && |s.client.calls| < |s.sent|
    ensures CanStep(s, TakeReply)
    ensures var t := After(s, TakeReply);
      IsFifo(t) && |t.client.calls| == |s.client.calls| + 1 && t.sent == s.sent && t.written == s.written
  {
    hide Frames, ReadRequest, ReplyBytes, ReadReply, Encoded, IsFit, IsUp, IsWritten;
    NoBytesNoReplies(s.written[|s.client.calls|..]);
    StepStaysFifo(s, TakeReply);
  }

  lemma {:induction false} TakeToCrossing(s: System, k: nat) returns (steps: seq<Step>)
    requires HasCrossing(s, k)
    ensures SendsNothing(steps) && IsRun(s, steps) && IsCrossed(Run(s, steps))
    decreases k + 1 - |s.client.calls|
  {
    hide After, CanStep, IsFifo;
    if k < |s.client.calls| {
      steps := [];
    } else {
      ReplyCanBeTaken(s);
      steps := TakeToCrossing(After(s, TakeReply), k);
      OneMoreStep(s, TakeReply, steps);
      steps := [TakeReply] + steps;
    }
  }

  lemma {:induction false} RunOfSum(s: System, a: seq<Step>, b: seq<Step>)
    requires IsRun(s, a) && IsRun(Run(s, a), b)
    ensures IsRun(s, a + b) && Run(s, a + b) == Run(Run(s, a), b)
    decreases a
  {
    hide After, CanStep;
    if a == [] {
      assert a + b == b;
    } else {
      assert (a + b)[1..] == a[1..] + b;
      RunOfSum(After(s, a[0]), a[1..], b);
    }
  }

  lemma {:induction false} SilentRunsAreSafe(s: System, steps: seq<Step>)
    requires IsRun(s, steps) && SendsNothing(steps)
    ensures IsSafeRun(s, steps)
    decreases steps
  {
    hide After, CanStep;
    if steps != [] {
      assert steps[0] in steps;
      SilentRunsAreSafe(After(s, steps[0]), steps[1..]);
    }
  }

  lemma OrderIsNotCrossed(s: System)
    requires IsInOrder(s)
    ensures !IsCrossed(s)
  {
  }

  lemma UnsafeSendIsAboutToCross(s: System)
    requires IsFifo(s) && IsInOrder(s) && CanStep(s, Transmit) && !IsSafe(s, Transmit)
    ensures |s.sent| >= 1 && IsAboutToCross(After(s, Transmit), |s.sent| - 1)
  {
    hide Frame, Frames, ReadRequest, ReplyBytes, ReadReply, Encoded, IsFit, IsDeferred, IsUp, IsDown, IsWritten;
    StepStaysFifo(s, Transmit);
    FifoBounds(s);
    var i :| |s.written| <= i < |s.sent| && IsDeferred(s.sent[i].request);
    assert i == |s.sent| - 1;
  }

  /** A send can be followed, with nothing else sent, by a callback with another request's reply. */
  ghost predicate CanCross(s: System)
    requires CanStep(s, Transmit)
  {
    exists steps :: SendsNothing(steps) && IsRun(After(s, Transmit), steps) && IsCrossed(Run(After(s, Transmit), steps))
  }

  /**
   For a server that may reply to any request when it likes: in every state that safe
   sends lead to, the next send can end in a crossing, without any further one,
   exactly when it is not safe.
   */
  lemma SendCanCrossIff(before: seq<Step>)
    requires IsSafeRun(Start(), before)
    ensures IsRun(Start(), before)
    ensures var s := Run(Start(), before);
      CanStep(s, Transmit) ==> (CanCross(s) <==> !IsSafe(s, Transmit))
  {
    StartIsInOrder();
    SafeRunsKeepOrder(Start(), before);
    hide CanStep, IsFifo, IsInOrder, IsSafe, Run, IsRun, CanCross, Start;
    var s := Run(Start(), before);
    if CanStep(s, Transmit) {
      if IsSafe(s, Transmit) {
        SafeSendCannotCross(s);
      } else {
        UnsafeSendCanCross(s);
      }
    }
  }

  lemma SafeSendCannotCross(s: System)
    requires IsFifo(s) && IsInOrder(s) && CanStep(s, Transmit) && IsSafe(s, Transmit)
    ensures !CanCross(s)
  {
    hide After, CanStep, IsFifo, IsInOrder, IsSafe, IsCrossed, Run, IsRun;
    var t := After(s, Transmit);
    StepStaysFifo(s, Transmit);
    OrderIsKept(s, Transmit);
    forall steps | SendsNothing(steps) && IsRun(t, steps) ensures !IsCrossed(Run(t, steps)) {
      SilentRunsAreSafe(t, steps);
      SafeRunsKeepOrder(t, steps);
      OrderIsNotCrossed(Run(t, steps));
    }
  }

  lemma UnsafeSendCanCross(s: System)
    requires IsFifo(s) && IsInOrder(s) && CanStep(s, Transmit) && !IsSafe(s, Transmit)
    ensures CanCross(s)
  {
    hide After, CanStep, IsFifo, IsInOrder, IsSafe, IsCrossed, Run, IsRun, IsAboutToCross, HasCrossing;
    var t := After(s, Transmit);
    UnsafeSendIsAboutToCross(s);
    var serving := ServeToCrossing(t, |s.sent| - 1);
    var taking := TakeToCrossing(Run(t, serving), |s.sent| - 1);
    RunOfSum(t, serving, taking);
    SilentSum(serving, taking);
  }

  lemma SilentSum(a: seq<Step>, b: seq<Step>)
    requires SendsNothing(a) && SendsNothing(b)
    ensures SendsNothing(a + b)
  {
  }

  /** Without the discipline a ping overtakes a password prompt, and the prompt's callback gets the ping's reply. */
  lemma UndisciplinedRepliesCross()
    ensures exists steps :: IsRun(Start(), steps) &&
              var s := Run(Start(), steps);
              |s.client.calls| > 0 && |s.replies| > 0 && s.client.calls[0] == Call(0, Done) && s.replies[0] == None
  {
    hide Frame, ReadRequest, ReadReply, ReplyBytes;
    var password, ping := Pending(0, Request('*' as int, None)), Pending(1, Request('P' as int, None));
    var first, second := Frame(password.request), Frame(ping.request);
    var s0 := Start();
    var s1 := After(s0, Ask(password));
    var s2 := After(s1, Ask(ping));
    var s3 := After(s2, Transmit);
    var s4 := After(s3, Transmit);
    FrameIsRead(password.request, second);
    FrameIsRead(ping.request, []);
    FrameIsNotEmpty(password.request);
    FrameIsNotEmpty(ping.request);
    assert [] + first == first && second + [] == second;
    assert s4.client.waiting == [password, ping] && s4.up == first + second;
    var s5 := After(s4, Serve(None));
    var s6 := After(s5, Serve(Some(Ack)));
    AckIsByte();
    SingleByteIsRead(ACK, []);
    assert s6.down == [ACK] + [];
    var s7 := After(s6, TakeReply);
    var steps := [Ask(password), Ask(ping), Transmit, Transmit, Serve(None), Serve(Some(Ack)), TakeReply];
    RunOfSeven(s0, steps, s1, s2, s3, s4, s5, s6, s7);
  }

  lemma AckIsByte()
    ensures ReplyBytes(Ack) == [ACK]
  {
  }

  lemma RunOfSeven(s0: System, steps: seq<Step>, s1: System, s2: System, s3: System, s4: System, s5: System, s6: System, s7: System)
    requires |steps| == 7
    requires CanStep(s0, steps[0]) && s1 == After(s0, steps[0])
    requires CanStep(s1, steps[1]) && s2 == After(s1, steps[1])
    requires CanStep(s2, steps[2]) && s3 == After(s2, steps[2])
    requires CanStep(s3, steps[3]) && s4 == After(s3, steps[3])
    requires CanStep(s4, steps[4]) && s5 == After(s4, steps[4])
    requires CanStep(s5, steps[5]) && s6 == After(s5, steps[5])
    requires CanStep(s6, steps[6]) && s7 == After(s6, steps[6])
    ensures IsRun(s0, steps) && Run(s0, steps) == s7
  {
    hide After, CanStep;
    assert steps[6..][1..] == [] && steps[5..][1..] == steps[6..] && steps[4..][1..] == steps[5..];
    assert steps[3..][1..] == steps[4..] && steps[2..][1..] == steps[3..] && steps[1..][1..] == steps[2..];
    assert IsRun(s6, steps[6..]) && Run(s6, steps[6..]) == s7;
    assert IsRun(s5, steps[5..]) && Run(s5, steps[5..]) == s7;
    assert IsRun(s4, steps[4..]) && Run(s4, steps[4..]) == s7;
    assert IsRun(s3, steps[3..]) && Run(s3, steps[3..]) == s7;
    assert IsRun(s2, steps[2..]) && Run(s2, steps[2..]) == s7;
    assert IsRun(s1, steps[1..]) && Run(s1, steps[1..]) == s7;
  }
}
