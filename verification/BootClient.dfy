/** The client's two queues of requests (src/client/ply-boot-client.c). */
module BootClients {
  import opened Base
  import opened Protocol

  /** A request and who asked for it. */
  datatype Pending = Pending(id: nat, request: Request)

  /** A callback: the handler, or the failure handler when the result is Failed. */
  datatype Call = Call(id: nat, result: Result)

  /**
   A client: its queues, its watches on the socket, and every callback made so far.
   `hasAborted` says that an assertion failed.
   */
  datatype Client = Client(
    toSend: seq<Pending>,
    waiting: seq<Pending>,
    calls: seq<Call>,
    canTakeWatch: bool,
    hasReplyWatch: bool,
    isConnected: bool,
    hasAborted: bool)

  const NEW_CLIENT := Client([], [], [], false, false, true, false)

  function Failures(requests: seq<Pending>): (f: seq<Call>)
    ensures |f| == |requests| && forall i :: 0 <= i < |f| ==> f[i] == Call(requests[i].id, Failed)
  {
    seq(|requests|, i requires 0 <= i < |requests| => Call(requests[i].id, Failed))
  }

  /** queue_request */
  function Queued(c: Client, p: Pending): Client {
    if c.isConnected then c.(toSend := c.toSend + [p], canTakeWatch := true)
    else c.(calls := c.calls + [Call(p.id, Failed)])
  }

  /** process_pending_requests; `written` says whether the write to the socket succeeded. */
  function Sent(c: Client, written: bool): Client
    requires c.toSend != []
  {
    var next := c.toSend[0];
    var d := if written then c.(toSend := c.toSend[1..], waiting := c.waiting + [next], hasReplyWatch := true)
             else c.(toSend := c.toSend[1..], calls := c.calls + [Call(next.id, Failed)]);
    if d.toSend == [] && d.hasReplyWatch then d.(canTakeWatch := false) else d
  }

  /** process_incoming_replies, once the reply is read; a reply nobody waits for is ignored. */
  function Received(c: Client, result: Result): Client {
    if c.waiting == [] then c
    else c.(waiting := c.waiting[1..], calls := c.calls + [Call(c.waiting[0].id, result)], hasReplyWatch := |c.waiting| > 1 && c.hasReplyWatch)
  }

  function UnsentCancelled(c: Client): Client {
    if c.toSend == [] then c else c.(toSend := [], calls := c.calls + Failures(c.toSend), canTakeWatch := false)
  }

  function WaitingCancelled(c: Client): Client {
    if c.waiting == [] then c else c.(waiting := [], calls := c.calls + Failures(c.waiting), hasReplyWatch := false)
  }

  /** on_hangup, and freeing the client: unsent requests fail first. */
  function HungUp(c: Client): Client {
    WaitingCancelled(UnsentCancelled(c))
  }

  /** disconnect: what is queued stays queued. */
  function Disconnected(c: Client): Client {
    c.(isConnected := false)
  }

  /** The watches the source's assertions count on. */
  predicate IsWatched(c: Client) {
    && (c.toSend != [] ==> c.canTakeWatch)
    && (c.hasReplyWatch <==> c.waiting != [])
  }

  datatype Event =
    | Queue(pending: Pending)
    | Send(written: bool)
    | Receive(result: Result)
    | HangUp
    | Disconnect

  /** The loop tells of a writable socket as long as it is watched for that. */
  predicate CanHappen(c: Client, e: Event) {
    !c.hasAborted && (e.Send? ==> c.canTakeWatch)
  }

  function After(c: Client, e: Event): Client
    requires CanHappen(c, e)
  {
    match e
    case Queue(p) => Queued(c, p)
    case Send(written) => if c.toSend == [] then c.(hasAborted := true) else Sent(c, written)
    case Receive(result) => Received(c, result)
    case HangUp => HungUp(c)
    case Disconnect => Disconnected(c)
  }

  predicate IsRun(c: Client, events: seq<Event>)
    decreases events
  {
    events == [] || (CanHappen(c, events[0]) && IsRun(After(c, events[0]), events[1..]))
  }

  function Run(c: Client, events: seq<Event>): Client
    requires IsRun(c, events)
    decreases events
  {
    if events == [] then c else Run(After(c, events[0]), events[1..])
  }

  lemma WatchesAreKept(c: Client, e: Event)
    requires IsWatched(c) && CanHappen(c, e)
    ensures IsWatched(After(c, e))
  {
  }

  // ----- the watch that is left behind

  /** Watched for writability with nothing to send, which the source asserts cannot be. */
  predicate IsIdle(c: Client) {
    c.canTakeWatch && c.toSend == []
  }

  /** The only request cannot be written, and no reply is being waited for. */
  predicate LeavesWatch(c: Client, e: Event) {
    e == Send(false) && |c.toSend| == 1 && c.waiting == []
  }

  /** The watch gets something to do again. */
  predicate UsesWatch(c: Client, e: Event) {
    e.Queue? && c.isConnected
  }

  lemma IdleWatchIff(c: Client, e: Event)
    requires IsWatched(c) && CanHappen(c, e)
    ensures IsIdle(After(c, e)) <==> LeavesWatch(c, e) || (IsIdle(c) && !UsesWatch(c, e))
    ensures After(c, e).hasAborted <==> e.Send? && IsIdle(c)
  {
  }

  lemma {:induction false} RunOfOneMore(c: Client, events: seq<Event>, e: Event)
    requires IsRun(c, events + [e])
    ensures IsRun(c, events) && CanHappen(Run(c, events), e) && Run(c, events + [e]) == After(Run(c, events), e)
    decreases events
  {
    hide After, CanHappen;
    if events == [] {
      assert events + [e] == [e] && [e][1..] == [];
    } else {
      assert (events + [e])[1..] == events[1..] + [e];
      RunOfOneMore(After(c, events[0]), events[1..], e);
    }
  }

  lemma {:induction false} PrefixesAreRuns(c: Client, events: seq<Event>, i: nat)
    requires IsRun(c, events) && i <= |events|
    ensures IsRun(c, events[..i]) && (IsWatched(c) ==> IsWatched(Run(c, events[..i])))
    decreases events
  {
    hide After, CanHappen, IsWatched;
    if i > 0 {
      if IsWatched(c) {
        WatchesAreKept(c, events[0]);
      }
      PrefixesAreRuns(After(c, events[0]), events[1..], i - 1);
      assert events[..i][1..] == events[1..][..i - 1];
    }
  }

  /** The state before the i-th event of a run. */
  function Before(c: Client, events: seq<Event>, i: nat): Client
    requires IsRun(c, events) && i <= |events|
  {
    PrefixesAreRuns(c, events, i);
    Run(c, events[..i])
  }

  /** The i-th event left the watch behind, and no later one made use of it. */
  predicate LeftAt(c: Client, events: seq<Event>, i: nat)
    requires IsRun(c, events) && i < |events|
  {
    LeavesWatch(Before(c, events, i), events[i])
    && forall j :: i < j < |events| ==> !UsesWatch(Before(c, events, j), events[j])
  }

  lemma BeforeInFront(c: Client, front: seq<Event>, e: Event)
    requires IsRun(c, front + [e]) && IsRun(c, front)
    ensures forall j :: 0 <= j <= |front| ==> Before(c, front + [e], j) == Before(c, front, j)
    ensures Before(c, front + [e], |front|) == Run(c, front)
  {
    forall j | 0 <= j <= |front| ensures Before(c, front + [e], j) == Before(c, front, j) {
      assert (front + [e])[..j] == front[..j];
    }
    assert front[..|front|] == front;
  }

  /**
   Over a whole run, the client is watching with nothing to do exactly when some
   request failed to be written, with no other to send and none to wait for, and
   nothing was asked for since.
   */
  lemma {:induction false} IsIdleIff(events: seq<Event>)
    requires IsRun(NEW_CLIENT, events)
    ensures IsIdle(Run(NEW_CLIENT, events)) <==> exists i :: 0 <= i < |events| && LeftAt(NEW_CLIENT, events, i)
    decreases |events|
  {
    hide After, CanHappen, LeavesWatch, UsesWatch, Run, IsRun;
    if events == [] {
      NewClientIsNotIdle();
    } else {
      var n := |events| - 1;
      var front, e := events[..n], events[n];
      assert events == front + [e];
      RunOfOneMore(NEW_CLIENT, front, e);
      PrefixesAreRuns(NEW_CLIENT, front, n);
      assert front[..n] == front;
      BeforeInFront(NEW_CLIENT, front, e);
      IsIdleIff(front);
      var c := Run(NEW_CLIENT, front);
      IdleWatchIff(c, e);
      LastEventLeaves(events);
      if IsIdle(Run(NEW_CLIENT, events)) && !LeavesWatch(c, e) {
        var i :| 0 <= i < n && LeftAt(NEW_CLIENT, front, i);
        assert LeftAt(NEW_CLIENT, events, i);
      }
      forall i | 0 <= i < n && LeftAt(NEW_CLIENT, events, i) ensures LeftAt(NEW_CLIENT, front, i) && !UsesWatch(c, e) {
        assert !UsesWatch(Before(NEW_CLIENT, events, n), events[n]);
      }
    }
  }

  lemma NewClientIsNotIdle()
    ensures IsRun(NEW_CLIENT, []) && !IsIdle(Run(NEW_CLIENT, [])) && IsWatched(NEW_CLIENT)
  {
  }

  lemma LastEventLeaves(events: seq<Event>)
    requires IsRun(NEW_CLIENT, events) && events != []
    ensures var n := |events| - 1; LeftAt(NEW_CLIENT, events, n) <==> LeavesWatch(Before(NEW_CLIENT, events, n), events[n])
    ensures IsWatched(NEW_CLIENT)
  {
  }

  /** The assertion fails exactly when such a client is told that the socket is writable. */
  lemma AbortsIff(events: seq<Event>, e: Event)
    requires IsRun(NEW_CLIENT, events + [e])
    ensures IsRun(NEW_CLIENT, events)
    ensures Run(NEW_CLIENT, events + [e]).hasAborted <==>
            e.Send? && exists i :: 0 <= i < |events| && LeftAt(NEW_CLIENT, events, i)
  {
    hide After, CanHappen, Run, IsRun, LeftAt;
    RunOfOneMore(NEW_CLIENT, events, e);
    NewClientIsNotIdle();
    PrefixesAreRuns(NEW_CLIENT, events, |events|);
    assert events[..|events|] == events;
    IsIdleIff(events);
    IdleWatchIff(Run(NEW_CLIENT, events), e);
  }

  // ----- every callback once

  function CalledIds(calls: seq<Call>): seq<nat> {
    seq(|calls|, i requires 0 <= i < |calls| => calls[i].id)
  }

  function PendingIds(requests: seq<Pending>): seq<nat> {
    seq(|requests|, i requires 0 <= i < |requests| => requests[i].id)
  }

  /** Everything asked for so far. */
  function Accounted(c: Client): multiset<nat> {
    multiset(CalledIds(c.calls)) + multiset(PendingIds(c.waiting)) + multiset(PendingIds(c.toSend))
  }

  function Asked(events: seq<Event>): multiset<nat> {
    if events == [] then multiset{}
    else (if events[0].Queue? then multiset{events[0].pending.id} else multiset{}) + Asked(events[1..])
  }

  lemma PendingIdsOfSum(a: seq<Pending>, b: seq<Pending>)
    ensures PendingIds(a + b) == PendingIds(a) + PendingIds(b)
  {
  }

  lemma CalledIdsOfSum(a: seq<Call>, b: seq<Call>)
    ensures CalledIds(a + b) == CalledIds(a) + CalledIds(b)
  {
  }

  lemma FirstPendingId(requests: seq<Pending>)
    requires requests != []
    ensures PendingIds(requests) == [requests[0].id] + PendingIds(requests[1..])
  {
  }

  lemma FailuresIds(requests: seq<Pending>)
    ensures CalledIds(Failures(requests)) == PendingIds(requests)
  {
  }

  lemma QueuingAccounts(c: Client, p: Pending)
    ensures Accounted(Queued(c, p)) == Accounted(c) + multiset{p.id}
  {
    hide PendingIds, CalledIds;
    PendingIdsOfSum(c.toSend, [p]);
    OnePendingId(p);
    CalledIdsOfSum(c.calls, [Call(p.id, Failed)]);
    FirstCalledId(Call(p.id, Failed));
  }

  lemma SendingAccounts(c: Client, written: bool)
    requires c.toSend != []
    ensures Accounted(Sent(c, written)) == Accounted(c)
  {
    var next := c.toSend[0];
    FirstPendingId(c.toSend);
    PendingIdsOfSum(c.waiting, [next]);
    OnePendingId(next);
    CalledIdsOfSum(c.calls, [Call(next.id, Failed)]);
    FirstCalledId(Call(next.id, Failed));
    hide PendingIds, CalledIds;
    OneMoves(CalledIds(c.calls), PendingIds(c.waiting), next.id, PendingIds(c.toSend[1..]));
  }

  /** The first to be sent comes to wait, or is called back. */
  lemma OneMoves(calls: seq<nat>, waiting: seq<nat>, x: nat, rest: seq<nat>)
    ensures multiset(calls) + multiset(waiting + [x]) + multiset(rest) == multiset(calls) + multiset(waiting) + multiset([x] + rest)
    ensures multiset(calls + [x]) + multiset(waiting) + multiset(rest) == multiset(calls) + multiset(waiting) + multiset([x] + rest)
  {
    assert multiset(waiting + [x]) == multiset(waiting) + multiset{x};
    assert multiset(calls + [x]) == multiset(calls) + multiset{x};
    assert multiset([x] + rest) == multiset{x} + multiset(rest);
  }

  lemma ReceivingAccounts(c: Client, result: Result)
    ensures Accounted(Received(c, result)) == Accounted(c)
  {
    hide PendingIds, CalledIds;
    if c.waiting != [] {
      var next := c.waiting[0];
      FirstPendingId(c.waiting);
      CalledIdsOfSum(c.calls, [Call(next.id, result)]);
      FirstCalledId(Call(next.id, result));
    }
  }

  lemma HangingUpAccounts(c: Client)
    ensures Accounted(HungUp(c)) == Accounted(c)
  {
    hide PendingIds, CalledIds, Failures;
    NoIds();
    var d := UnsentCancelled(c);
    FailuresIds(c.toSend);
    CalledIdsOfSum(c.calls, Failures(c.toSend));
    FailuresIds(d.waiting);
    CalledIdsOfSum(d.calls, Failures(d.waiting));
  }

  lemma EventAccounts(c: Client, e: Event)
    requires CanHappen(c, e)
    ensures Accounted(After(c, e)) == Accounted(c) + if e.Queue? then multiset{e.pending.id} else multiset{}
  {
    hide Queued, Sent, Received, HungUp;
    match e {
      case Queue(p) => QueuingAccounts(c, p);
      case Send(written) => if c.toSend != [] { SendingAccounts(c, written); }
      case Receive(result) => ReceivingAccounts(c, result);
      case HangUp => HangingUpAccounts(c);
      case Disconnect =>
    }
  }

  lemma OnePendingId(p: Pending)
    ensures PendingIds([p]) == [p.id]
  {
  }

  lemma FirstCalledId(call: Call)
    ensures CalledIds([call]) == [call.id]
  {
  }

  /**
   Over every run, each request asked for is in exactly one place: still to be sent,
   waiting for its reply, or called back, once.
   */
  lemma {:induction false} EveryRequestIsAccountedFor(c: Client, events: seq<Event>)
    requires IsRun(c, events)
    ensures Accounted(Run(c, events)) == Accounted(c) + Asked(events)
    decreases events
  {
    hide After, Accounted;
    if events != [] {
      EventAccounts(c, events[0]);
      EveryRequestIsAccountedFor(After(c, events[0]), events[1..]);
    }
  }

  /** After a hangup nothing is outstanding: every request asked for was called back. */
  lemma HangUpLeavesNothing(c: Client, events: seq<Event>)
    requires IsRun(c, events) && c.calls == [] && c.waiting == [] && c.toSend == []
    ensures multiset(CalledIds(HungUp(Run(c, events)).calls)) == Asked(events)
  {
    hide Asked, Failures, CalledIds, PendingIds, Run;
    var d := Run(c, events);
    EveryRequestIsAccountedFor(c, events);
    HangingUpAccounts(d);
    NoIds();
    assert Accounted(c) == multiset{};
    assert Accounted(HungUp(d)) == multiset(CalledIds(HungUp(d).calls));
  }

  lemma NoIds()
    ensures PendingIds([]) == [] && CalledIds([]) == []
  {
  }

  // ----- the client as the source has it

  class BootClient {
    var requestsToSend: seq<Pending>
    var requestsWaitingForReplies: seq<Pending>
    var daemonCanTakeRequestWatch: bool
    var daemonHasReplyWatch: bool
    var isConnected: bool
    var hasAborted: bool
    ghost var calls: seq<Call>

    ghost function Snapshot(): Client
      reads this
    {
      Client(requestsToSend, requestsWaitingForReplies, calls, daemonCanTakeRequestWatch, daemonHasReplyWatch, isConnected, hasAborted)
    }

    constructor ()
      ensures Snapshot() == NEW_CLIENT
    {
      requestsToSend := [];
      requestsWaitingForReplies := [];
      daemonCanTakeRequestWatch := false;
      daemonHasReplyWatch := false;
      isConnected := true;
      hasAborted := false;
      calls := [];
    }

    ghost method CallBack(id: nat, result: Result)
      modifies `calls
      ensures calls == old(calls) + [Call(id, result)]
    {
      calls := calls + [Call(id, result)];
    }

    method QueueRequest(p: Pending)
      requires IsWatched(Snapshot()) && Sendable(p.request)
      modifies this
      ensures IsWatched(Snapshot()) && Snapshot() == Queued(old(Snapshot()), p)
    {
      if !daemonCanTakeRequestWatch && isConnected {
        assert requestsToSend == [];
        daemonCanTakeRequestWatch := true;
      }
      if !isConnected {
        CallBack(p.id, Failed);
      } else {
        requestsToSend := requestsToSend + [p];
      }
    }

    /** Gives the bytes to write; `written` is the outcome of writing them.  The source asserts that there is a request. */
    method ProcessPendingRequests(written: bool) returns (bytes: seq<byte>)
      requires IsWatched(Snapshot()) && CanHappen(Snapshot(), Send(written))
      requires requestsToSend != [] ==> Sendable(requestsToSend[0].request)
      modifies this
      ensures IsWatched(Snapshot()) && Snapshot() == After(old(Snapshot()), Send(written))
      ensures bytes == if old(requestsToSend) == [] then [] else Frame(old(requestsToSend)[0].request)
    {
      if |requestsToSend| == 0 {
        hasAborted := true;
        return [];
      }
      var request := requestsToSend[0];
      requestsToSend := requestsToSend[1..];
      bytes := Frame(request.request);
      if written {
        if !daemonHasReplyWatch {
          assert requestsWaitingForReplies == [];
          daemonHasReplyWatch := true;
        }
        requestsWaitingForReplies := requestsWaitingForReplies + [request];
      } else {
        CallBack(request.id, Failed);
      }
      if |requestsToSend| == 0 && daemonHasReplyWatch {
        daemonCanTakeRequestWatch := false;
      }
    }

    /** Reads one reply from what has arrived, and gives back the rest. */
    method ProcessIncomingReplies(arrived: seq<byte>) returns (rest: seq<byte>)
      requires IsWatched(Snapshot())
      modifies this
      ensures IsWatched(Snapshot())
      ensures var (result, unread) := ReadReply(arrived);
        && Snapshot() == Received(old(Snapshot()), result)
        && rest == if old(requestsWaitingForReplies) == [] then arrived else unread
    {
      hide ReadReply;
      if |requestsWaitingForReplies| == 0 {
        return arrived;
      }
      var request := requestsWaitingForReplies[0];
      var reading := ReadReply(arrived);
      CallBack(request.id, reading.0);
      requestsWaitingForReplies := requestsWaitingForReplies[1..];
      if |requestsWaitingForReplies| == 0 && daemonHasReplyWatch {
        daemonHasReplyWatch := false;
      }
      return reading.1;
    }

    method CancelUnsentRequests()
      requires IsWatched(Snapshot())
      modifies this
      ensures IsWatched(Snapshot()) && Snapshot() == UnsentCancelled(old(Snapshot()))
    {
      if |requestsToSend| == 0 {
        return;
      }
      ghost var all, before := requestsToSend, calls;
      while |requestsToSend| > 0
        modifies `requestsToSend, `calls
        invariant |requestsToSend| <= |all| && requestsToSend == all[|all| - |requestsToSend|..]
        invariant calls == before + Failures(all[..|all| - |requestsToSend|])
      {
        ghost var done := all[..|all| - |requestsToSend|];
        CallBack(requestsToSend[0].id, Failed);
        OneMoreFailure(before, done, requestsToSend[0]);
        assert done + [requestsToSend[0]] == all[..|done| + 1];
        requestsToSend := requestsToSend[1..];
      }
      assert all[..|all|] == all;
      daemonCanTakeRequestWatch := false;
    }

    method CancelRequestsWaitingForReplies()
      requires IsWatched(Snapshot())
      modifies this
      ensures IsWatched(Snapshot()) && Snapshot() == WaitingCancelled(old(Snapshot()))
    {
      if |requestsWaitingForReplies| == 0 {
        return;
      }
      ghost var all, before := requestsWaitingForReplies, calls;
      while |requestsWaitingForReplies| > 0
        modifies `requestsWaitingForReplies, `calls
        invariant |requestsWaitingForReplies| <= |all|
        invariant requestsWaitingForReplies == all[|all| - |requestsWaitingForReplies|..]
        invariant calls == before + Failures(all[..|all| - |requestsWaitingForReplies|])
      {
        ghost var done := all[..|all| - |requestsWaitingForReplies|];
        CallBack(requestsWaitingForReplies[0].id, Failed);
        OneMoreFailure(before, done, requestsWaitingForReplies[0]);
        assert done + [requestsWaitingForReplies[0]] == all[..|done| + 1];
        requestsWaitingForReplies := requestsWaitingForReplies[1..];
      }
      assert all[..|all|] == all;
      daemonHasReplyWatch := false;
    }

    method OnHangup()
      requires IsWatched(Snapshot())
      modifies this
      ensures IsWatched(Snapshot()) && Snapshot() == HungUp(old(Snapshot()))
    {
      CancelUnsentRequests();
      CancelRequestsWaitingForReplies();
    }

    method Disconnect()
      modifies this
      ensures Snapshot() == Disconnected(old(Snapshot()))
    {
      isConnected := false;
    }
  }

  lemma OneMoreFailure(before: seq<Call>, done: seq<Pending>, next: Pending)
    ensures before + Failures(done) + [Call(next.id, Failed)] == before + Failures(done + [next])
  {
    assert Failures(done) + [Call(next.id, Failed)] == Failures(done + [next]);
  }
}
