/**
 What the daemon says to one connection is what the server of the end-to-end model
 says: one reply at once to a request that is not deferred, and at most one later to
 one that is (src/ply-boot-server.c).
 */
module Conversations {
  import opened Base
  import opened Protocol
  import opened Interactions
  import opened Daemons
  import opened References
  import opened DaemonRuns
  import opened DaemonAnswers
  import Matching
  import BootClients

  type System = Matching.System

  // ----- both sides of a conversation

  /** The replies written to a connection, in order. */
  function RepliesTo(log: seq<Wrote>, c: nat): seq<Reply> {
    if log == [] then []
    else RepliesTo(log[..|log| - 1], c) + if log[|log| - 1].connection == c then [log[|log| - 1].reply] else []
  }

  lemma OneMoreReply(log: seq<Wrote>, w: Wrote, c: nat)
    ensures RepliesTo(log + [w], c) == RepliesTo(log, c) + if w.connection == c then [w.reply] else []
  {
    assert (log + [w])[..|log|] == log;
  }

  function RepliesIn(written: seq<Matching.Written>): seq<Reply> {
    seq(|written|, i requires 0 <= i < |written| => written[i].reply)
  }

  /** The requests read from a connection, in order. */
  function RequestsFrom(steps: seq<Daemons.Step>, c: nat): seq<Protocol.Request> {
    if steps == [] then []
    else
      (if steps[0].Request? && steps[0].connection == c && steps[0].request.Some? then [steps[0].request.value] else [])
      + RequestsFrom(steps[1..], c)
  }

  /** Every reply to the connection is small enough to arrive whole. */
  predicate AllFit(log: seq<Wrote>, c: nat) {
    forall w <- log :: w.connection == c ==> Matching.IsFit(w.reply)
  }

  /** The other model has steps from `s` to `u`. */
  ghost predicate Reaches(s: System, u: System) {
    exists steps :: Matching.IsRun(s, steps) && Matching.Run(s, steps) == u
  }

  lemma ReachesFurther(s: System, t: System, u: System)
    requires Reaches(s, t) && Reaches(t, u)
    ensures Reaches(s, u)
  {
    var a :| Matching.IsRun(s, a) && Matching.Run(s, a) == t;
    var b :| Matching.IsRun(t, b) && Matching.Run(t, b) == u;
    Matching.RunOfSum(s, a, b);
  }

  lemma StayingReaches(s: System)
    ensures Reaches(s, s)
  {
    assert Matching.IsRun(s, []) && Matching.Run(s, []) == s;
  }

  lemma SteppingReaches(s: System, step: Matching.Step)
    requires Matching.CanStep(s, step)
    ensures Reaches(s, Matching.After(s, step))
  {
    hide Matching.CanStep, Matching.After;
    assert [step][1..] == [];
    assert Matching.IsRun(Matching.After(s, step), [step][1..]);
    assert Matching.IsRun(s, [step]) && Matching.Run(s, [step]) == Matching.After(s, step);
  }

  /** Nothing is on its way to the server. */
  predicate IsQuiet(s: System) {
    s.up == [] && s.client.toSend == [] && s.client.isConnected && |s.replies| == |s.requests|
  }

  /** Each of the triggers that is the connection's stands for a request of its own without a reply; `m` says which. */
  ghost predicate AreOwed(ts: multiset<Trigger>, c: nat, s: System, m: map<nat, nat>) {
    && (forall t :: t in ts && t.owner == Some(c) ==>
          t.serial in m && m[t.serial] < |s.replies| && s.replies[m[t.serial]].None?)
    && (forall t, u :: t in ts && t.owner == Some(c) && u in ts && u.owner == Some(c) && t.serial != u.serial ==>
          t.serial in m && u.serial in m && m[t.serial] != m[u.serial])
  }

  /** No trigger is there twice. */
  ghost predicate AreDistinct(ts: multiset<Trigger>) {
    && (forall t :: t in ts ==> ts[t] == 1)
    && (forall t, u :: t in ts && u in ts && t.serial == u.serial ==> t == u)
  }

  /** The daemon, with some triggers in hand, and the other model have said the same to the connection. */
  ghost predicate Agree(d: Daemon, inHand: seq<Trigger>, c: nat, s: System, m: map<nat, nat>) {
    && IsQuiet(s)
    && RepliesIn(s.written) == RepliesTo(d.server.log, c)
    && AreOwed(multiset(inHand) + multiset(Held(d)), c, s, m)
  }

  // ----- a trigger is pulled

  lemma OneMoreWritten(written: seq<Matching.Written>, w: Matching.Written)
    ensures RepliesIn(written + [w]) == RepliesIn(written) + [w.reply]
  {
  }

  lemma ReplyIsAnswer(s: System, index: nat, reply: Reply)
    requires IsQuiet(s) && index < |s.replies| && s.replies[index].None? && Matching.IsFit(reply)
    ensures Matching.CanStep(s, Matching.Answer(index, reply))
    ensures var u := Matching.After(s, Matching.Answer(index, reply));
      && IsQuiet(u) && u.requests == s.requests && u.replies == s.replies[index := Some(reply)]
      && RepliesIn(u.written) == RepliesIn(s.written) + [reply]
  {
    hide ReplyBytes, IsReply, IsDeliverable, CanBeWritten, RepliesIn;
    OneMoreWritten(s.written, Matching.Written(index, reply));
  }

  lemma PullAnswers(v: Server, p: Pull, rest: multiset<Trigger>, c: nat, s: System, m: map<nat, nat>) returns (u: System)
    requires IsQuiet(s) && RepliesIn(s.written) == RepliesTo(v.log, c)
    requires AreOwed(multiset{p.trigger} + rest, c, s, m) && AreDistinct(multiset{p.trigger} + rest)
    requires AllFit(Pulled(v, p).log, c)
    ensures Reaches(s, u) && IsQuiet(u) && u.requests == s.requests
    ensures RepliesIn(u.written) == RepliesTo(Pulled(v, p).log, c) && AreOwed(rest, c, u, m) && AreDistinct(rest)
  {
    hide RepliesTo, RepliesIn, IsQuiet, Reaches, DropReference, ReplyTo, Matching.IsFit, Matching.After, Matching.CanStep;
    var t := p.trigger;
    assert t in multiset{t} + rest;
    assert forall x :: x in rest ==> x in multiset{t} + rest;
    assert (multiset{t} + rest)[t] == 1 + rest[t];
    assert t !in rest;
    forall x | x in rest ensures x.serial != t.serial && rest[x] == 1 {
      assert (multiset{t} + rest)[x] == rest[x] + if x == t then 1 else 0;
    }
    DropKeepsLog(v, p);
    if t.owner == Some(c) && c in v.connections && !v.connections[c].disconnected {
      var w := Wrote(c, Some(t), ReplyTo(p));
      OneMoreReply(v.log, w, c);
      assert Pulled(v, p).log[|v.log|] == w;
      assert w in Pulled(v, p).log;
      ReplyIsAnswer(s, m[t.serial], ReplyTo(p));
      u := Matching.After(s, Matching.Answer(m[t.serial], ReplyTo(p)));
      SteppingReaches(s, Matching.Answer(m[t.serial], ReplyTo(p)));
      OwedButOne(t, rest, c, s, u, m);
    } else {
      u := s;
      StayingReaches(s);
      if t.owner.Some? {
        OneMoreReply(v.log, Wrote(t.owner.value, Some(t), ReplyTo(p)), c);
      }
    }
  }

  lemma OwedButOne(t: Trigger, rest: multiset<Trigger>, c: nat, s: System, u: System, m: map<nat, nat>)
    requires AreOwed(multiset{t} + rest, c, s, m) && t.owner == Some(c) && forall x :: x in rest ==> x.serial != t.serial
    requires t.serial in m && m[t.serial] < |s.replies| && exists reply :: u.replies == s.replies[m[t.serial] := Some(reply)]
    ensures AreOwed(rest, c, u, m)
  {
    assert t in multiset{t} + rest;
    assert forall x :: x in rest ==> x in multiset{t} + rest;
  }

  lemma DropKeepsLog(v: Server, p: Pull)
    ensures Pulled(v, p).log ==
            if p.trigger.owner.Some? && p.trigger.owner.value in v.connections && !v.connections[p.trigger.owner.value].disconnected
            then v.log + [Wrote(p.trigger.owner.value, Some(p.trigger), ReplyTo(p))] else v.log
  {
    hide ReplyTo;
  }

  lemma {:induction false} PullsGrowLog(v: Server, pulls: seq<Pull>)
    ensures v.log <= PulledAll(v, pulls).log
    decreases pulls
  {
    hide Pulled, ReplyTo;
    if pulls != [] {
      DropKeepsLog(v, pulls[0]);
      PullsGrowLog(Pulled(v, pulls[0]), pulls[1..]);
    }
  }

  lemma EarlierFits(log: seq<Wrote>, later: seq<Wrote>, c: nat)
    requires log <= later && AllFit(later, c)
    ensures AllFit(log, c)
  {
    forall w | w in log ensures w in later {
      var i :| 0 <= i < |log| && log[i] == w;
      assert later[i] == w;
    }
  }

  lemma {:induction false} PullsAnswer(v: Server, pulls: seq<Pull>, rest: multiset<Trigger>, c: nat, s: System, m: map<nat, nat>)
      returns (u: System)
    requires IsQuiet(s) && RepliesIn(s.written) == RepliesTo(v.log, c)
    requires AreOwed(multiset(Triggers(pulls)) + rest, c, s, m) && AreDistinct(multiset(Triggers(pulls)) + rest)
    requires AllFit(PulledAll(v, pulls).log, c)
    ensures Reaches(s, u) && IsQuiet(u) && u.requests == s.requests
    ensures RepliesIn(u.written) == RepliesTo(PulledAll(v, pulls).log, c) && AreOwed(rest, c, u, m)
    decreases pulls
  {
    hide RepliesTo, RepliesIn, IsQuiet, Reaches, Pulled, AreOwed, AreDistinct, AllFit;
    if pulls == [] {
      assert multiset(Triggers(pulls)) + rest == rest;
      u := s;
      StayingReaches(s);
    } else {
      var first, others := pulls[0], multiset(Triggers(pulls[1..])) + rest;
      assert Triggers(pulls) == [first.trigger] + Triggers(pulls[1..]);
      assert multiset(Triggers(pulls)) + rest == multiset{first.trigger} + others;
      PullsGrowLog(Pulled(v, first), pulls[1..]);
      EarlierFits(Pulled(v, first).log, PulledAll(v, pulls).log, c);
      var t := PullAnswers(v, first, others, c, s, m);
      u := PullsAnswer(Pulled(v, first), pulls[1..], rest, c, t, m);
      ReachesFurther(s, t, u);
    }
  }

  // ----- what steps are made of

  lemma TriggersAreDistinct(d: Daemon, inHand: seq<Trigger>)
    requires InOrderBut(d, inHand)
    ensures AreDistinct(multiset(inHand) + multiset(Held(d)))
    ensures forall t :: t in multiset(inHand) + multiset(Held(d)) ==> t.serial < |d.made|
  {
    hide AllCount, Held;
    var ts := multiset(inHand) + multiset(Held(d));
    forall t | t in ts ensures ts[t] == 1 && t.serial < |d.made| && d.made[t.serial] == t {
      MadeOnce(d.made, t);
      assert t in multiset(d.made);
      assert t in d.made;
    }
  }

  lemma SameAgree(d: Daemon, inHand: seq<Trigger>, e: Daemon, inHand': seq<Trigger>, c: nat, s: System, m: map<nat, nat>)
    requires Agree(d, inHand, c, s, m) && d.server.log == e.server.log
    requires multiset(inHand) + multiset(Held(d)) == multiset(inHand') + multiset(Held(e))
    ensures Agree(e, inHand', c, s, m)
  {
  }

  /** Pulling triggers in hand. */
  lemma WithPullsAnswers(d: Daemon, pulls: seq<Pull>, c: nat, s: System, m: map<nat, nat>) returns (u: System)
    requires InOrderBut(d, Triggers(pulls)) && Agree(d, Triggers(pulls), c, s, m)
    requires AllFit(WithPulls(d, pulls).server.log, c)
    ensures Reaches(s, u) && u.requests == s.requests && Agree(WithPulls(d, pulls), [], c, u, m)
  {
    hide RepliesTo, RepliesIn, IsQuiet, Reaches, AreOwed, AreDistinct, AllFit, InOrderBut, PulledAll;
    TriggersAreDistinct(d, Triggers(pulls));
    u := PullsAnswer(d.server, pulls, multiset(Held(d)), c, s, m);
    assert Held(WithPulls(d, pulls)) == Held(d);
    assert multiset([]) + multiset(Held(d)) == multiset(Held(d));
  }

  lemma CompletedAllAnswers(d: Daemon, c: nat, s: System, m: map<nat, nat>) returns (u: System)
    requires Invariant(d) && Agree(d, [], c, s, m) && AllFit(CompletedAll(d).server.log, c)
    ensures Reaches(s, u) && u.requests == s.requests && Agree(CompletedAll(d), [], c, u, m)
  {
    hide WithPulls, AllCount, IsSettled, Triggers, Bare, DeskTriggers, Agree, Reaches;
    var cleared := d.(transition := d.transition.(deactivate := [], quit := []), hasExited := true);
    var pulls := Bare(d.transition.deactivate) + Bare(d.transition.quit);
    BareTriggers(d.transition.deactivate, d.transition.quit);
    Rearranged(d, [], cleared, Triggers(pulls));
    SameAgree(d, [], cleared, Triggers(pulls), c, s, m);
    u := WithPullsAnswers(cleared, pulls, c, s, m);
  }

  lemma DeactivatedSplashAnswers(d: Daemon, c: nat, s: System, m: map<nat, nat>) returns (u: System)
    requires Invariant(d) && !d.transition.isInactive && Agree(d, [], c, s, m) && AllFit(DeactivatedSplash(d).server.log, c)
    ensures Reaches(s, u) && u.requests == s.requests && Agree(DeactivatedSplash(d), [], c, u, m)
  {
    hide WithPulls, AllCount, IsSettled, Triggers, Bare, DeskTriggers, Agree, Reaches;
    var cleared := d.(transition := d.transition.(deactivate := [], isInactive := true));
    BareTriggers(d.transition.deactivate, []);
    Rearranged(d, [], cleared, Triggers(Bare(d.transition.deactivate)));
    SameAgree(d, [], cleared, Triggers(Bare(d.transition.deactivate)), c, s, m);
    u := WithPullsAnswers(cleared, Bare(d.transition.deactivate), c, s, m);
  }

  lemma QueuedDeactivationAgrees(d: Daemon, t: Trigger, e: Daemon, c: nat, s: System, m: map<nat, nat>)
    requires InOrderBut(d, [t]) && Agree(d, [t], c, s, m) && e.server == d.server && e.desk == d.desk
    requires e.transition.deactivate == d.transition.deactivate + [t] && e.transition.quit == d.transition.quit
    requires e.made == d.made && e.pulled == d.pulled
    ensures Agree(e, [], c, s, m) && InOrderBut(e, [])
  {
    hide Agree, DeskTriggers, AllCount;
    Rearranged(d, [t], e, []);
    SameAgree(d, [t], e, [], c, s, m);
  }

  lemma DeactivatedAnswers(d: Daemon, t: Trigger, hasSplash: bool, c: nat, s: System, m: map<nat, nat>) returns (u: System)
    requires InOrderBut(d, [t]) && IsSettled(d) && Agree(d, [t], c, s, m)
    requires AllFit(Deactivated(d, t, hasSplash).server.log, c)
    ensures Reaches(s, u) && u.requests == s.requests && Agree(Deactivated(d, t, hasSplash), [], c, u, m)
  {
    hide WithPulls, AllCount, DeskTriggers, DeactivatedSplash, AreOwned, AreListed, Agree, Reaches;
    var tr := d.transition;
    if tr.isInactive {
      assert Triggers([Pull(t, None)]) == [t];
      u := WithPullsAnswers(d, [Pull(t, None)], c, s, m);
    } else {
      var queued := d.(transition := tr.(deactivate := tr.deactivate + [t]));
      assert [] + [t] == [t];
      QueuedDeactivationAgrees(d, t, queued, c, s, m);
      QueuedDeactivationAgrees(d, t, queued.(transition := queued.transition.(becomingIdle := true)), c, s, m);
      u := s;
      StayingReaches(s);
      if tr.deactivate == [] && !hasSplash {
        u := DeactivatedSplashAnswers(queued, c, s, m);
      }
    }
  }

  lemma QueuedQuitAgrees(d: Daemon, t: Trigger, e: Daemon, c: nat, s: System, m: map<nat, nat>)
    requires Agree(d, [t], c, s, m) && e.server == d.server && e.desk == d.desk
    requires e.transition.deactivate == d.transition.deactivate && e.transition.quit == d.transition.quit + [t]
    ensures Agree(e, [], c, s, m)
  {
    hide Agree, DeskTriggers;
    assert Held(e) == Held(d) + [t];
    SameAgree(d, [t], e, [], c, s, m);
  }

  lemma QuitAnswers(d: Daemon, t: Trigger, retain: bool, hasSplash: bool, c: nat, s: System, m: map<nat, nat>) returns (u: System)
    requires InOrderBut(d, [t]) && IsSettled(d) && Agree(d, [t], c, s, m)
    requires AllFit(Quit(d, t, retain, hasSplash).server.log, c)
    ensures Reaches(s, u) && u.requests == s.requests && Agree(Quit(d, t, retain, hasSplash), [], c, u, m)
  {
    hide InOrderBut, IsSettled, CompletedAll, Agree, Reaches, DeskTriggers;
    var tr := d.transition;
    u := s;
    StayingReaches(s);
    if tr.quit != [] {
      QueuedQuitAgrees(d, t, Quit(d, t, retain, hasSplash), c, s, m);
    } else {
      assert tr.quit + [t] == [t];
      var queued := d.(transition := tr.(quit := [t], retainSplash := retain));
      QueuedQuitAgrees(d, t, queued, c, s, m);
      QueuedQuitAgrees(d, t, queued.(transition := queued.transition.(becomingIdle := true)), c, s, m);
      if !(!(tr.isInactive && !retain) && hasSplash) {
        QueuingQuitKeeps(d, t, queued);
        u := CompletedAllAnswers(queued, c, s, m);
      }
    }
  }

  lemma BecameIdleAnswers(d: Daemon, c: nat, s: System, m: map<nat, nat>) returns (u: System)
    requires Invariant(d) && Agree(d, [], c, s, m) && AllFit(BecameIdle(d).server.log, c)
    ensures Reaches(s, u) && u.requests == s.requests && Agree(BecameIdle(d), [], c, u, m)
  {
    hide CompletedAll, DeactivatedSplash, Agree, Reaches, AllCount, AreOwned, AreListed, DeskTriggers;
    u := s;
    StayingReaches(s);
    var e := d;
    if d.transition.quit != [] {
      e := CompletedAll(d);
      u := CompletedAllAnswers(d, c, s, m);
    } else if d.transition.deactivate != [] {
      e := DeactivatedSplash(d);
      u := DeactivatedSplashAnswers(d, c, s, m);
    }
    SameAgree(e, [], BecameIdle(d), [], c, u, m);
  }

  lemma DeskEventAnswers(d: Daemon, e: Event, c: nat, s: System, m: map<nat, nat>) returns (u: System)
    requires CanHappen(e) && InOrderBut(d, AddedBy(e)) && Agree(d, AddedBy(e), c, s, m)
    requires AllFit(DeskEvent(d, e).server.log, c)
    ensures Reaches(s, u) && u.requests == s.requests && Agree(DeskEvent(d, e), [], c, u, m)
  {
    hide WithPulls, InOrderBut, DeskTriggers, After, AddedBy, Held, Agree, Reaches;
    var (desk, pulls) := After(d.desk, e);
    DeskIsExchanged(d, e);
    ExchangedInHand(d, AddedBy(e), d.(desk := desk), Triggers(pulls));
    SameAgree(d, AddedBy(e), d.(desk := desk), Triggers(pulls), c, s, m);
    u := WithPullsAnswers(d.(desk := desk), pulls, c, s, m);
  }

  lemma GoneAnswers(d: Daemon, gone: nat, c: nat, s: System, m: map<nat, nat>) returns (u: System)
    requires Invariant(d) && gone in d.server.listed && Agree(d, [], c, s, m) && AllFit(Gone(d, gone).server.log, c)
    ensures Reaches(s, u) && u.requests == s.requests && Agree(Gone(d, gone), [], c, u, m)
  {
    hide PulledAll, Cancelled, AllCount, Held, Triggers, Unlisted, Agree, Reaches, AllFit;
    ListedIsAllocated(d.server, [] + Held(d), gone);
    MarkingKeepsCount(d, gone);
    var marked := d.(server := MarkedDisconnected(d.server, gone));
    SameHeld(d, marked);
    SameAgree(d, [], marked, [], c, s, m);
    var (desk, pulls) := Cancelled(d.desk, gone);
    var next := marked.(desk := desk);
    CancelIsEvent(d.desk, gone);
    DeskIsExchanged(marked, Cancel(gone));
    Rearranged(marked, [], next, Triggers(pulls));
    SameAgree(marked, [], next, Triggers(pulls), c, s, m);
    var cancelled := WithPulls(next, pulls);
    UnlistingKeepsLog(cancelled, gone);
    u := WithPullsAnswers(next, pulls, c, s, m);
    SameHeld(cancelled, Gone(d, gone));
    SameAgree(cancelled, [], Gone(d, gone), [], c, u, m);
  }

  lemma CancelIsEvent(desk: Desk, c: nat)
    ensures After(desk, Cancel(c)) == Cancelled(desk, c) && AddedBy(Cancel(c)) == []
  {
  }

  lemma UnlistingKeepsLog(d: Daemon, gone: nat)
    ensures var v := d.server; DropReference(v.(listed := Unlisted(v.listed, gone)), gone).log == v.log
  {
  }

  // ----- requests

  /** A request arrives and is served. */
  lemma RequestIsServed(s: System, r: Protocol.Request, now: Option<Reply>) returns (u: System)
    requires IsQuiet(s) && Sendable(r)
    requires if now.Some? then Matching.IsFit(now.value) else Matching.IsDeferred(r)
    ensures Reaches(s, u) && IsQuiet(u) && u.requests == s.requests + [r] && u.replies == s.replies + [now]
    ensures RepliesIn(u.written) == RepliesIn(s.written) + if now.Some? then [now.value] else []
  {
    hide Frame, ReadRequest, ReplyBytes, Matching.IsFit, Matching.IsDeferred, Reaches, RepliesIn, Sendable;
    var p := BootClients.Pending(|s.requests|, r);
    var a := Matching.After(s, Matching.Ask(p));
    assert [] + [p] == [p];
    assert a.client.toSend == [p];
    var b := Matching.After(a, Matching.Transmit);
    FrameIsRead(r, []);
    FrameIsNotEmpty(r);
    assert [] + Frame(r) == Frame(r) && Frame(r) + [] == Frame(r);
    assert b.up == Frame(r) && b.client.toSend == [];
    SteppingReaches(s, Matching.Ask(p));
    SteppingReaches(a, Matching.Transmit);
    ReachesFurther(s, a, b);
    var serve := Matching.Serve(now);
    FitIsReply(now);
    assert Matching.CanStep(b, serve);
    SteppingReaches(b, serve);
    u := Matching.After(b, serve);
    ReachesFurther(s, b, u);
    if now.Some? {
      OneMoreWritten(s.written, Matching.Written(|s.requests|, now.value));
    }
  }

  lemma FitIsReply(now: Option<Reply>)
    ensures now.Some? && Matching.IsFit(now.value) ==> IsReply(now.value) && CanBeWritten(now.value)
  {
  }

  /** The request is answered at once. */
  lemma RepliedAnswers(d: Daemon, r: Protocol.Request, c: nat, reply: Reply, s: System, m: map<nat, nat>) returns (u: System)
    requires c in d.server.connections && Agree(d, [], c, s, m) && Sendable(r) && Matching.IsFit(reply)
    ensures Reaches(s, u) && u.requests == s.requests + [r] && Agree(Replied(d, c, reply), [], c, u, m)
  {
    hide RepliesIn, RepliesTo, Reaches, Held, Sendable, Matching.IsFit;
    u := RequestIsServed(s, r, Some(reply));
    OneMoreReply(d.server.log, Wrote(c, None, reply), c);
    SameHeld(d, Replied(d, c, reply));
  }

  lemma RepliedToAnother(d: Daemon, other: nat, reply: Reply, c: nat, s: System, m: map<nat, nat>)
    requires other in d.server.connections && other != c && Agree(d, [], c, s, m)
    ensures Agree(Replied(d, other, reply), [], c, s, m)
  {
    hide RepliesIn, RepliesTo, Held, AreOwed;
    OneMoreReply(d.server.log, Wrote(other, None, reply), c);
    SameHeld(d, Replied(d, other, reply));
  }

  /** The request is deferred: its new trigger stands for it. */
  lemma MadeAnswers(d: Daemon, r: Protocol.Request, kind: Kind, c: nat, s: System, m: map<nat, nat>)
      returns (u: System, n: map<nat, nat>)
    requires InOrderBut(d, []) && c in d.server.connections && Agree(d, [], c, s, m) && Sendable(r) && Matching.IsDeferred(r)
    ensures Reaches(s, u) && u.requests == s.requests + [r]
    ensures Agree(WithTrigger(d, kind, Some(c)), [NextTrigger(d, kind, Some(c))], c, u, n)
  {
    hide RepliesIn, RepliesTo, Reaches, Held, Sendable, Matching.IsDeferred, AllCount;
    u := RequestIsServed(s, r, None);
    n := m[|d.made| := |s.requests|];
    var e, t := WithTrigger(d, kind, Some(c)), NextTrigger(d, kind, Some(c));
    SameHeld(d, e);
    TriggersAreDistinct(d, []);
    var before, after := multiset(Held(d)), multiset([t]) + multiset(Held(d));
    assert multiset([]) + before == before;
    forall x | x in after && x != t ensures x in before && x.serial < |d.made| {
      assert x in multiset([]) + before;
    }
  }

  lemma MadeForAnother(d: Daemon, kind: Kind, owner: Option<nat>, c: nat, s: System, m: map<nat, nat>)
    requires owner != Some(c) && Agree(d, [], c, s, m) && (owner.Some? ==> owner.value in d.server.connections)
    ensures Agree(WithTrigger(d, kind, owner), [NextTrigger(d, kind, owner)], c, s, m)
  {
    hide RepliesIn, RepliesTo, Held;
    var e, t := WithTrigger(d, kind, owner), NextTrigger(d, kind, owner);
    SameHeld(d, e);
    forall x | x in multiset([t]) + multiset(Held(d)) && x.owner == Some(c) ensures x in multiset([]) + multiset(Held(d)) {
    }
  }

  /** Reads the request for the connection, or leaves another's alone. */
  lemma TriggerComes(d: Daemon, from: nat, r: Protocol.Request, kind: Kind, c: nat, s: System, m: map<nat, nat>)
      returns (u: System, n: map<nat, nat>)
    requires Invariant(d) && from in d.server.listed && Agree(d, [], c, s, m) && (from == c ==> Sendable(r)) && Matching.IsDeferred(r)
    ensures Reaches(s, u) && u.requests == s.requests + if from == c then [r] else []
    ensures Agree(WithTrigger(d, kind, Some(from)), [NextTrigger(d, kind, Some(from))], c, u, n)
  {
    hide Agree, Reaches, AllCount, IsSettled, WithTrigger;
    ListedIsThere(d, from);
    if from == c {
      u, n := MadeAnswers(d, r, kind, c, s, m);
    } else {
      u, n := s, m;
      StayingReaches(s);
      MadeForAnother(d, kind, Some(from), c, s, m);
    }
  }

  /** Replies to the request for the connection, or to another's. */
  lemma ReplyComes(d: Daemon, from: nat, r: Protocol.Request, reply: Reply, c: nat, s: System, m: map<nat, nat>) returns (u: System)
    requires from in d.server.connections && Agree(d, [], c, s, m) && (from == c ==> Sendable(r)) && AllFit(Replied(d, from, reply).server.log, c)
    ensures Reaches(s, u) && u.requests == s.requests + if from == c then [r] else []
    ensures Agree(Replied(d, from, reply), [], c, u, m)
  {
    hide Agree, Reaches, Matching.IsFit;
    if from == c {
      assert Replied(d, from, reply).server.log[|d.server.log|] == Wrote(c, None, reply);
      assert Wrote(c, None, reply) in Replied(d, from, reply).server.log;
      u := RepliedAnswers(d, r, c, reply, s, m);
    } else {
      u := s;
      StayingReaches(s);
      RepliedToAnother(d, from, reply, c, s, m);
    }
  }

  lemma ReplyGrowsLog(d: Daemon, from: nat, reply: Reply)
    ensures d.server.log <= Replied(d, from, reply).server.log
  {
  }

  lemma IgnoredAnswers(d: Daemon, from: nat, r: Protocol.Request, c: nat, s: System, m: map<nat, nat>) returns (u: System)
    requires Invariant(d) && from in d.server.listed && Agree(d, [], c, s, m) && (from == c ==> Sendable(r))
    requires AllFit(Replied(DeskEvent(d, Ignore(r.argument)), from, Ack).server.log, c)
    ensures Reaches(s, u) && u.requests == s.requests + if from == c then [r] else []
    ensures Agree(Replied(DeskEvent(d, Ignore(r.argument)), from, Ack), [], c, u, m)
  {
    hide Agree, Reaches, AllFit, PulledAll, AllCount, Held, AreOwned, AreListed, After, Replied, Sendable;
    var e := DeskEvent(d, Ignore(r.argument));
    ReplyGrowsLog(e, from, Ack);
    EarlierFits(e.server.log, Replied(e, from, Ack).server.log, c);
    var t := DeskEventAnswers(d, Ignore(r.argument), c, s, m);
    DeskEventKeeps(d, Ignore(r.argument));
    PullsKeepList(d.server, After(d.desk, Ignore(r.argument)).1);
    ListedIsThere(e, from);
    u := ReplyComes(e, from, r, Ack, c, t, m);
    ReachesFurther(s, t, u);
  }

  lemma RestartedAnswers(d: Daemon, from: nat, r: Protocol.Request, hasSplash: bool, c: nat, s: System, m: map<nat, nat>)
      returns (u: System)
    requires Invariant(d) && from in d.server.listed && Agree(d, [], c, s, m) && (from == c ==> Sendable(r))
    requires var e := Quit(WithTrigger(d, Quitting, None), NextTrigger(d, Quitting, None), false, hasSplash);
      AllFit(Replied(e, from, Ack).server.log, c)
    ensures Reaches(s, u) && u.requests == s.requests + if from == c then [r] else []
    ensures var e := Quit(WithTrigger(d, Quitting, None), NextTrigger(d, Quitting, None), false, hasSplash);
      Agree(Replied(e, from, Ack), [], c, u, m)
  {
    hide Agree, Reaches, AllFit, AllCount, Held, AreOwned, AreListed, Quit, Replied, Sendable;
    var made, t := WithTrigger(d, Quitting, None), NextTrigger(d, Quitting, None);
    var e := Quit(made, t, false, hasSplash);
    MadeForAnother(d, Quitting, None, c, s, m);
    TriggerIsMade(d, Quitting, None);
    TriggerStaysSettled(d, Quitting, None);
    ReplyGrowsLog(e, from, Ack);
    EarlierFits(e.server.log, Replied(e, from, Ack).server.log, c);
    var v := QuitAnswers(made, t, false, hasSplash, c, s, m);
    QuitKeeps(made, t, false, hasSplash);
    QuitKeepsList(made, t, false, hasSplash);
    ListedIsThere(e, from);
    u := ReplyComes(e, from, r, Ack, c, v, m);
    ReachesFurther(s, v, u);
  }

  lemma DeferredAnswers(d: Daemon, from: nat, r: Protocol.Request, around: Surroundings, c: nat, s: System, m: map<nat, nat>)
      returns (u: System, n: map<nat, nat>)
    requires Invariant(d) && from in d.server.listed && Agree(d, [], c, s, m) && (from == c ==> Sendable(r))
    requires around.isRoot && Matching.IsDeferred(r) && AllFit(Requested(d, from, r, around).server.log, c)
    ensures Reaches(s, u) && u.requests == s.requests + if from == c then [r] else []
    ensures Agree(Requested(d, from, r, around), [], c, u, n)
  {
    hide Agree, Reaches, AllFit, Deactivated, Quit, DeskEvent, WithTrigger, WithPulls, Retains, InOrderBut, IsSettled, Sendable;
    var kind := if r.command as char == 'D' then Deactivation
      else if r.command as char == 'Q' then Quitting
      else if r.command as char == '*' then Password
      else if r.command as char == 'W' then Question
      else Keystroke;
    var t := NextTrigger(d, kind, Some(from));
    var made := WithTrigger(d, kind, Some(from));
    OwnersTriggerIsMade(d, kind, from);
    var v;
    v, n := TriggerComes(d, from, r, kind, c, s, m);
    if r.command as char == 'D' {
      u := DeactivatedAnswers(made, t, around.hasSplash, c, v, n);
    } else if r.command as char == 'Q' {
      u := QuitAnswers(made, t, Retains(r), around.hasSplash, c, v, n);
    } else if r.command as char == '*' {
      if !around.hasSplash && !around.isShown {
        assert Triggers([Pull(t, None)]) == [t];
        u := WithPullsAnswers(made, [Pull(t, None)], c, v, n);
      } else {
        u := DeskEventAnswers(made, Ask(Prompt(t, from, true)), c, v, n);
      }
    } else if r.command as char == 'W' {
      u := DeskEventAnswers(made, Ask(Prompt(t, from, false)), c, v, n);
    } else {
      u := DeskEventAnswers(made, WatchFor(Watch(t, from, r.argument)), c, v, n);
    }
    ReachesFurther(s, v, u);
  }

  lemma FlagsAgree(d: Daemon, c: nat, s: System, m: map<nat, nat>)
    requires Agree(d, [], c, s, m)
    ensures Agree(Reactivated(d), [], c, s, m) && Agree(Retaining(d), [], c, s, m)
    ensures Reactivated(d).server == d.server && Retaining(d).server == d.server
  {
    hide AreOwed, RepliesIn, RepliesTo, IsQuiet, DeskTriggers;
    assert Held(Reactivated(d)) == Held(d) && Held(Retaining(d)) == Held(d);
  }

  /** Every request is answered at once, or deferred. */
  lemma RequestAnswers(d: Daemon, from: nat, r: Protocol.Request, around: Surroundings, c: nat, s: System, m: map<nat, nat>)
      returns (u: System, n: map<nat, nat>)
    requires Invariant(d) && from in d.server.listed && Agree(d, [], c, s, m) && (from == c ==> Sendable(r))
    requires !Requested(d, from, r, around).isHung && !d.isHung && AllFit(Requested(d, from, r, around).server.log, c)
    ensures Reaches(s, u) && u.requests == s.requests + if from == c then [r] else []
    ensures Agree(Requested(d, from, r, around), [], c, u, n)
  {
    hide Agree, Reaches, AllFit, Deactivated, Quit, DeskEvent, WithTrigger, Replied, Retains, InOrderBut, IsSettled, Sendable,
      Reactivated, Retaining, WithPulls;
    n := m;
    ListedIsThere(d, from);
    FlagsAgree(d, c, s, m);
    var command := r.command as char;
    if !around.isRoot {
      u := ReplyComes(d, from, r, Nak, c, s, m);
    } else if command == 'D' || command == 'Q' || command == '*' || command == 'W' || command == 'K' {
      u, n := DeferredAnswers(d, from, r, around, c, s, m);
    } else if command == 'c' {
      u := ReplyComes(d, from, r, Reply.Answers(d.server.passwords), c, s, m);
    } else if command == 'L' {
      u := IgnoredAnswers(d, from, r, c, s, m);
    } else if command == 'R' && around.initIsShell {
      u := RestartedAnswers(d, from, r, around.hasSplash, c, s, m);
    } else if command == 'r' {
      u := ReplyComes(Reactivated(d), from, r, Ack, c, s, m);
    } else if Requested(d, from, r, around) == Replied(d, from, Ack) {
      u := ReplyComes(d, from, r, Ack, c, s, m);
    } else if Requested(d, from, r, around) == Replied(Retaining(d), from, Ack) {
      u := ReplyComes(Retaining(d), from, r, Ack, c, s, m);
    } else {
      u := ReplyComes(d, from, r, Nak, c, s, m);
    }
  }

  // ----- what was written stays written

  /** What was written stays written. */
  predicate GrowsLog(d: Daemon, e: Daemon) {
    d.server.log <= e.server.log
  }

  lemma CompletedAllGrowsLog(d: Daemon)
    ensures GrowsLog(d, CompletedAll(d))
  {
    hide PulledAll;
    PullsGrowLog(d.server, Bare(d.transition.deactivate) + Bare(d.transition.quit));
  }

  lemma DeactivatedSplashGrowsLog(d: Daemon)
    ensures GrowsLog(d, DeactivatedSplash(d))
  {
    hide PulledAll;
    PullsGrowLog(d.server, Bare(d.transition.deactivate));
  }

  lemma DeactivatedGrowsLog(d: Daemon, t: Trigger, hasSplash: bool)
    ensures GrowsLog(d, Deactivated(d, t, hasSplash))
  {
    hide PulledAll, DeactivatedSplash;
    PullsGrowLog(d.server, [Pull(t, None)]);
    DeactivatedSplashGrowsLog(d.(transition := d.transition.(deactivate := [t])));
  }

  lemma QuitGrowsLog(d: Daemon, t: Trigger, retain: bool, hasSplash: bool)
    ensures GrowsLog(d, Quit(d, t, retain, hasSplash))
  {
    hide CompletedAll;
    CompletedAllGrowsLog(d.(transition := d.transition.(quit := [t], retainSplash := retain)));
  }

  lemma DeskEventGrowsLog(d: Daemon, e: Event)
    requires CanHappen(e)
    ensures GrowsLog(d, DeskEvent(d, e))
  {
    hide PulledAll, After;
    PullsGrowLog(d.server, After(d.desk, e).1);
  }

  lemma MadeKeepsLog(d: Daemon, kind: Kind, owner: Option<nat>)
    ensures WithTrigger(d, kind, owner).server.log == d.server.log
  {
  }

  lemma GoneGrowsLog(d: Daemon, gone: nat)
    ensures GrowsLog(d, Gone(d, gone))
  {
    hide PulledAll, Cancelled, Unlisted;
    PullsGrowLog(MarkedDisconnected(d.server, gone), Cancelled(d.desk, gone).1);
  }

  lemma WithPullsGrowsLog(d: Daemon, pulls: seq<Pull>)
    ensures GrowsLog(d, WithPulls(d, pulls))
  {
    PullsGrowLog(d.server, pulls);
  }

  lemma DeferredGrowsLog(d: Daemon, from: nat, r: Protocol.Request, around: Surroundings)
    requires around.isRoot && Matching.IsDeferred(r)
    ensures GrowsLog(d, Requested(d, from, r, around))
  {
    hide Deactivated, Quit, DeskEvent, WithTrigger, WithPulls, Retains;
    var kind := if r.command as char == 'D' then Deactivation
      else if r.command as char == 'Q' then Quitting
      else if r.command as char == '*' then Password
      else if r.command as char == 'W' then Question
      else Keystroke;
    var t := NextTrigger(d, kind, Some(from));
    var made := WithTrigger(d, kind, Some(from));
    MadeKeepsLog(d, kind, Some(from));
    match r.command as char {
      case 'D' => DeactivatedGrowsLog(made, t, around.hasSplash);
      case 'Q' => QuitGrowsLog(made, t, Retains(r), around.hasSplash);
      case '*' =>
        WithPullsGrowsLog(made, [Pull(t, None)]);
        DeskEventGrowsLog(made, Ask(Prompt(t, from, true)));
      case 'W' => DeskEventGrowsLog(made, Ask(Prompt(t, from, false)));
      case _ => DeskEventGrowsLog(made, WatchFor(Watch(t, from, r.argument)));
    }
  }

  lemma RequestGrowsLog(d: Daemon, from: nat, r: Protocol.Request, around: Surroundings)
    ensures GrowsLog(d, Requested(d, from, r, around))
  {
    hide Deactivated, Quit, DeskEvent, WithTrigger, WithPulls, Retains, Replied, Reactivated, Retaining;
    if around.isRoot && Matching.IsDeferred(r) {
      DeferredGrowsLog(d, from, r, around);
    } else if around.isRoot && r.command as char == 'L' {
      DeskEventGrowsLog(d, Ignore(r.argument));
      ReplyGrowsLog(DeskEvent(d, Ignore(r.argument)), from, Ack);
    } else if around.isRoot && r.command as char == 'R' && around.initIsShell {
      var restart := WithTrigger(d, Quitting, None);
      MadeKeepsLog(d, Quitting, None);
      QuitGrowsLog(restart, NextTrigger(d, Quitting, None), false, around.hasSplash);
      ReplyGrowsLog(Quit(restart, NextTrigger(d, Quitting, None), false, around.hasSplash), from, Ack);
    } else {
      hide GrowsLog;
      RepliesGrowLog(d, from);
      SameLogGrows(d, d.(isHung := true));
    }
  }

  lemma SameLogGrows(d: Daemon, e: Daemon)
    requires d.server.log == e.server.log
    ensures GrowsLog(d, e)
  {
  }

  lemma RepliesGrowLog(d: Daemon, from: nat)
    ensures forall reply :: GrowsLog(d, Replied(d, from, reply))
    ensures GrowsLog(d, Replied(Reactivated(d), from, Ack))
    ensures GrowsLog(d, Replied(Retaining(d), from, Ack))
  {
  }

  lemma StepGrowsLog(d: Daemon, step: Daemons.Step)
    requires Daemons.CanStep(d, step)
    ensures GrowsLog(d, Daemons.Stepped(d, step))
  {
    hide Requested, Gone, DeskEvent, CompletedAll, DeactivatedSplash;
    match step {
      case Connect =>
      case Request(c, request, around) =>
        GoneGrowsLog(d, c);
        if request.Some? { RequestGrowsLog(d, c, request.value, around); }
      case Hangup(c) => GoneGrowsLog(d, c);
      case Keyboard(e) => DeskEventGrowsLog(d, e);
      case Idle =>
        CompletedAllGrowsLog(d);
        DeactivatedSplashGrowsLog(d);
    }
  }

  lemma {:induction false} RunGrowsLog(d: Daemon, steps: seq<Daemons.Step>)
    requires Daemons.IsRun(d, steps)
    ensures GrowsLog(d, Daemons.Run(d, steps))
    decreases steps
  {
    hide Daemons.Stepped, Daemons.CanStep;
    if steps != [] {
      StepGrowsLog(d, steps[0]);
      RunGrowsLog(Daemons.Stepped(d, steps[0]), steps[1..]);
    }
  }

  // ----- steps and runs

  /** Requests from the connection are what its client may send. */
  predicate AreSendableFrom(steps: seq<Daemons.Step>, c: nat) {
    forall r <- RequestsFrom(steps, c) :: Sendable(r)
  }

  /** Every request that can be read off a connection is one. */
  lemma ReadIsSendable(s: seq<byte>)
    requires ReadRequest(s).Got?
    ensures Sendable(ReadRequest(s).value)
  {
    if s[1] != 0 {
      CStringIsPrefix(s[3..2 + s[2]]);
    }
  }

  lemma ConnectedAgree(d: Daemon, c: nat, s: System, m: map<nat, nat>)
    requires Agree(d, [], c, s, m)
    ensures Agree(Connected(d), [], c, s, m)
  {
    SameAgree(d, [], Connected(d), [], c, s, m);
  }

  lemma OneRequest(step: Daemons.Step, c: nat)
    ensures RequestsFrom([step], c) ==
            if step.Request? && step.connection == c && step.request.Some? then [step.request.value] else []
  {
    assert [step][1..] == [];
  }

  lemma StepAnswers(d: Daemon, step: Daemons.Step, c: nat, s: System, m: map<nat, nat>) returns (u: System, n: map<nat, nat>)
    requires Invariant(d) && Daemons.CanStep(d, step) && Agree(d, [], c, s, m) && AreSendableFrom([step], c)
    requires !Daemons.Stepped(d, step).isHung && AllFit(Daemons.Stepped(d, step).server.log, c)
    ensures Reaches(s, u) && u.requests == s.requests + RequestsFrom([step], c)
    ensures Agree(Daemons.Stepped(d, step), [], c, u, n)
  {
    hide Agree, Reaches, AllFit, Requested, Gone, DeskEvent, BecameIdle, Connected, RequestsFrom, AllCount, IsSettled, Held, Sendable;
    OneRequest(step, c);
    n := m;
    match step {
      case Connect =>
        u := s;
        StayingReaches(s);
        ConnectedAgree(d, c, s, m);
      case Request(from, request, around) =>
        if request.None? {
          u := GoneAnswers(d, from, c, s, m);
        } else {
          u, n := RequestAnswers(d, from, request.value, around, c, s, m);
        }
      case Hangup(gone) => u := GoneAnswers(d, gone, c, s, m);
      case Keyboard(e) => u := DeskEventAnswers(d, e, c, s, m);
      case Idle => u := BecameIdleAnswers(d, c, s, m);
    }
  }

  lemma FirstRequests(steps: seq<Daemons.Step>, c: nat)
    requires steps != []
    ensures RequestsFrom(steps, c) == RequestsFrom([steps[0]], c) + RequestsFrom(steps[1..], c)
  {
    OneRequest(steps[0], c);
  }

  lemma {:induction false} RunAnswers(d: Daemon, steps: seq<Daemons.Step>, c: nat, s: System, m: map<nat, nat>)
      returns (u: System, n: map<nat, nat>)
    requires Invariant(d) && !d.isHung && Daemons.IsRun(d, steps) && Agree(d, [], c, s, m) && AreSendableFrom(steps, c)
    requires !Daemons.Run(d, steps).isHung && AllFit(Daemons.Run(d, steps).server.log, c)
    ensures Reaches(s, u) && u.requests == s.requests + RequestsFrom(steps, c)
    ensures Agree(Daemons.Run(d, steps), [], c, u, n)
    decreases steps
  {
    hide Agree, Reaches, AllFit, Daemons.Stepped, Invariant, RequestsFrom, Sendable;
    if steps == [] {
      u, n := s, m;
      StayingReaches(s);
      NoRequests(c);
    } else {
      var e := Daemons.Stepped(d, steps[0]);
      NotHungYet(e, steps[1..]);
      FirstRequests(steps, c);
      StepKeepsInvariant(d, steps[0]);
      RunGrowsLog(e, steps[1..]);
      EarlierFits(e.server.log, Daemons.Run(d, steps).server.log, c);
      var t, k := StepAnswers(d, steps[0], c, s, m);
      u, n := RunAnswers(e, steps[1..], c, t, k);
      ReachesFurther(s, t, u);
    }
  }

  lemma NoRequests(c: nat)
    ensures RequestsFrom([], c) == []
  {
  }

  /** A hung daemon takes no further step. */
  lemma NotHungYet(d: Daemon, steps: seq<Daemons.Step>)
    requires Daemons.IsRun(d, steps) && !Daemons.Run(d, steps).isHung
    ensures !d.isHung
  {
  }

  lemma BootedAgrees(c: nat)
    ensures Agree(Booted(), [], c, Matching.Start(), map[])
  {
    assert Held(Booted()) == [];
  }

  /**
   Over every run of the daemon that does not hang, what it reads from a connection
   and writes to it is what the server of the end-to-end model reads and writes in
   one of its runs, as long as every reply arrives whole.
   */
  lemma ConversationIsMatchingRun(steps: seq<Daemons.Step>, c: nat)
    requires Daemons.IsRun(Booted(), steps) && !Daemons.Run(Booted(), steps).isHung && AreSendableFrom(steps, c)
    requires AllFit(Daemons.Run(Booted(), steps).server.log, c)
    ensures exists matching :: Matching.IsRun(Matching.Start(), matching) &&
              var s := Matching.Run(Matching.Start(), matching);
              s.requests == RequestsFrom(steps, c) && RepliesIn(s.written) == RepliesTo(Daemons.Run(Booted(), steps).server.log, c)
  {
    hide Daemons.Run, Daemons.IsRun, Matching.Run, Matching.IsRun, RequestsFrom, RepliesTo, RepliesIn, AllFit;
    BootedIsInOrder();
    BootedAgrees(c);
    var u, n := RunAnswers(Booted(), steps, c, Matching.Start(), map[]);
    assert [] + RequestsFrom(steps, c) == RequestsFrom(steps, c);
    var matching :| Matching.IsRun(Matching.Start(), matching) && Matching.Run(Matching.Start(), matching) == u;
  }
}
