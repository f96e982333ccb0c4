/**
 Which request can be answered before another that waits, exactly
 (src/ply-boot-server.c, src/daemon/plymouthd-interaction.c,
 src/daemon/plymouthd-transition.c, src/daemon/plymouthd-control.c).
 */
module Overtaking {
  import opened Base
  import opened Protocol
  import opened Interactions
  import opened Daemons
  import opened References
  import opened DaemonRuns
  import opened DaemonAnswers
  import opened Conversations
  import opened Turns
  import Matching

  /** What the reply to a request is written for: the trigger it makes, or nothing. */
  function MarkOf(d: Daemon, c: nat, r: Protocol.Request, around: Surroundings): Option<Trigger> {
    if around.isRoot && Matching.IsDeferred(r) then Some(NextTrigger(d, KindOf(r), Some(c))) else None
  }

  /**
   A request that cannot be answered before `t` is: prompts queue up behind a prompt,
   deactivations behind a deactivation and quits behind both, a watch behind one for
   the same keys.  Three more answer `t` themselves first, or answer nothing: ignoring
   the keys `t` is the first watch for, a new root that makes the daemon quit at once,
   and a request for cached passwords that cannot be gathered.
   */
  predicate IsPlacedBehind(d: Daemon, t: Trigger, r: Protocol.Request, around: Surroundings) {
    && around.isRoot
    && match r.command as char
       case 'D' => t in d.transition.deactivate
       case 'Q' => t in d.transition.deactivate + d.transition.quit
       case '*' => (around.hasSplash || around.isShown) && t in PromptTriggers(d.desk.prompts)
       case 'W' => t in PromptTriggers(d.desk.prompts)
       case 'K' => IsWatched(d.desk.watches, t, r.argument)
       case 'L' => IsFirstWatch(d.desk.watches, t, r.argument)
       case 'R' => around.initIsShell && !around.hasSplash && d.transition.quit == [] && t in d.transition.deactivate
       case 'c' => !CanBeGathered(d.server.passwords)
       case _ => false
  }

  predicate IsWatched(ws: seq<Watch>, t: Trigger, keys: Option<seq<byte>>) {
    exists w :: w in ws && w.trigger == t && w.keys == keys
  }

  predicate IsFirstWatch(ws: seq<Watch>, t: Trigger, keys: Option<seq<byte>>) {
    FirstWithKeys(ws, keys) < |ws| && ws[FirstWithKeys(ws, keys)].trigger == t
  }

  /** A state in which `t` waits for the connection. */
  ghost predicate IsWaiting(d: Daemon, c: nat, t: Trigger) {
    && Invariant(d) && AreOfPulled(d) && c in d.server.listed
    && t in Held(d) && t.owner == Some(c)
  }

  lemma HeldIsOld(d: Daemon, t: Trigger)
    requires Invariant(d) && t in Held(d)
    ensures t.serial < |d.made|
  {
    hide AllCount, Held, IsSettled;
    TriggersAreDistinct(d, []);
    assert t in multiset([]) + multiset(Held(d));
  }

  /** A new trigger is not held yet. */
  lemma NewIsNotHeld(d: Daemon, kind: Kind, owner: Option<nat>)
    requires Invariant(d)
    ensures NextTrigger(d, kind, owner) !in Held(d)
  {
    hide Invariant, Held;
    if NextTrigger(d, kind, owner) in Held(d) {
      HeldIsOld(d, NextTrigger(d, kind, owner));
    }
  }

  // ----- requests that keep their turn

  lemma QueuedBehind(ts: seq<Trigger>, us: seq<Trigger>, t: Trigger, u: Trigger)
    requires t in ts && u !in ts
    ensures Leads(ts + us, t, u)
  {
    LeadsAlone(ts, t, u);
    LeadsOfSum(ts, us, t, u);
  }

  lemma WaitingStarts(d: Daemon, e: Daemon, c: nat, t: Trigger, u: Trigger)
    requires e.server.log == d.server.log && AreMade(e, c, t, u) && Waits(e, t, u)
    ensures InTurn(e, |d.server.log|, c, t, Some(u))
  {
    hide Waits;
  }

  lemma DeactivationKeepsTurn(d: Daemon, c: nat, t: Trigger, hasSplash: bool)
    requires IsWaiting(d, c, t) && t in d.transition.deactivate
    ensures var u := NextTrigger(d, Deactivation, Some(c));
      InTurn(Deactivated(WithTrigger(d, Deactivation, Some(c)), u, hasSplash), |d.server.log|, c, t, Some(u))
  {
    hide AllCount, AreOwned, AreListed, InTurn, Leads;
    var u, made := NextTrigger(d, Deactivation, Some(c)), WithTrigger(d, Deactivation, Some(c));
    HeldIsOld(d, t);
    NewIsNotHeld(d, Deactivation, Some(c));
    MadeKeepsLog(d, Deactivation, Some(c));
    var queued := made.(transition := made.transition.(deactivate := made.transition.deactivate + [u]));
    assert Deactivated(made, u, hasSplash) == queued;
    QueuedBehind(d.transition.deactivate, [u] + d.transition.quit, t, u);
    Regroup(d.transition.deactivate, [u], d.transition.quit);
    WaitingStarts(d, queued, c, t, u);
  }

  lemma QuitKeepsTurn(d: Daemon, c: nat, t: Trigger, retain: bool, hasSplash: bool)
    requires IsWaiting(d, c, t) && t in d.transition.deactivate + d.transition.quit
    ensures var u := NextTrigger(d, Quitting, Some(c));
      InTurn(Quit(WithTrigger(d, Quitting, Some(c)), u, retain, hasSplash), |d.server.log|, c, t, Some(u))
  {
    hide AllCount, AreOwned, AreListed, InTurn, Leads, CompletedAll;
    var u, made := NextTrigger(d, Quitting, Some(c)), WithTrigger(d, Quitting, Some(c));
    var tr := d.transition;
    HeldIsOld(d, t);
    NewIsNotHeld(d, Quitting, Some(c));
    MadeKeepsLog(d, Quitting, Some(c));
    QueuedBehind(tr.deactivate + tr.quit, [u], t, u);
    Regroup(tr.deactivate, tr.quit, [u]);
    if tr.quit != [] {
      WaitingStarts(d, Quit(made, u, retain, hasSplash), c, t, u);
    } else {
      assert tr.quit + [u] == [u];
      var queued := made.(transition := tr.(quit := [u], retainSplash := retain));
      WaitingStarts(d, queued, c, t, u);
      WaitingStarts(d, queued.(transition := queued.transition.(becomingIdle := true)), c, t, u);
      CompletedAllInTurn(queued, |d.server.log|, c, t, Some(u));
    }
  }

  lemma NothingPulled(d: Daemon)
    ensures WithPulls(d, []) == d
  {
    assert Triggers([]) == [] && d.pulled + [] == d.pulled;
  }

  lemma PromptKeepsTurn(d: Daemon, c: nat, t: Trigger, kind: Kind, isPassword: bool)
    requires IsWaiting(d, c, t) && t in PromptTriggers(d.desk.prompts)
    ensures var u := NextTrigger(d, kind, Some(c));
      InTurn(DeskEvent(WithTrigger(d, kind, Some(c)), Ask(Prompt(u, c, isPassword))), |d.server.log|, c, t, Some(u))
  {
    hide AllCount, AreOwned, AreListed, InTurn, Leads, PromptTriggers, WatchTriggers;
    var u, made := NextTrigger(d, kind, Some(c)), WithTrigger(d, kind, Some(c));
    HeldIsOld(d, t);
    NewIsNotHeld(d, kind, Some(c));
    MadeKeepsLog(d, kind, Some(c));
    var next := made.(desk := d.desk.(prompts := d.desk.prompts + [Prompt(u, c, isPassword)]));
    NothingPulled(next);
    PromptTriggersOfSum([Prompt(u, c, isPassword)], []);
    PromptTriggersOfSum(d.desk.prompts, [Prompt(u, c, isPassword)]);
    QueuedBehind(PromptTriggers(d.desk.prompts), [u], t, u);
    WaitingStarts(d, next, c, t, u);
  }

  lemma WatchKeepsTurn(d: Daemon, c: nat, t: Trigger, keys: Option<seq<byte>>)
    requires IsWaiting(d, c, t) && IsWatched(d.desk.watches, t, keys)
    ensures var u := NextTrigger(d, Keystroke, Some(c));
      InTurn(DeskEvent(WithTrigger(d, Keystroke, Some(c)), WatchFor(Watch(u, c, keys))), |d.server.log|, c, t, Some(u))
  {
    hide AllCount, AreOwned, AreListed, InTurn, Leads;
    var u, made := NextTrigger(d, Keystroke, Some(c)), WithTrigger(d, Keystroke, Some(c));
    var ws := d.desk.watches;
    HeldIsOld(d, t);
    NewIsNotHeld(d, Keystroke, Some(c));
    MadeKeepsLog(d, Keystroke, Some(c));
    var next := made.(desk := d.desk.(watches := ws + [Watch(u, c, keys)]));
    NothingPulled(next);
    WatchedLeads(ws, t, u, c, keys);
    WaitingStarts(d, next, c, t, u);
  }

  lemma WatchedLeads(ws: seq<Watch>, t: Trigger, u: Trigger, c: nat, keys: Option<seq<byte>>)
    requires IsWatched(ws, t, keys) && u !in WatchTriggers(ws)
    ensures WatchLeads(ws + [Watch(u, c, keys)], t, u)
  {
    var w :| w in ws && w.trigger == t && w.keys == keys;
    var i :| 0 <= i < |ws| && ws[i] == w;
    var more := ws + [Watch(u, c, keys)];
    assert forall k :: 0 <= k < |ws| ==> WatchTriggers(ws)[k] == ws[k].trigger;
    assert IsFollowed(more, i, u);
  }

  /** When `t` is pulled before anything is said at once, that comes after the reply for `t`. */
  lemma {:induction false} PullsComeFirst(v: Server, pulls: seq<Pull>, start: nat, c: nat, t: Trigger)
    requires start <= |v.log| && Untold(v.log, start, c, None) && t.owner == Some(c) && t in Triggers(pulls)
    ensures IsSure(PulledAll(v, pulls), start, c, t, None)
    decreases pulls
  {
    hide IsSure, Pulled, ReplyTo;
    var first, rest := pulls[0], Triggers(pulls[1..]);
    assert Triggers(pulls) == [first.trigger] + rest;
    if first.trigger == t {
      PullMakesSure(v, first, start, c, None);
      SureStaysPulled(Pulled(v, first), pulls[1..], start, c, t, None);
    } else {
      DropKeepsLog(v, first);
      PullsComeFirst(Pulled(v, first), pulls[1..], start, c, t);
    }
  }

  lemma IgnoringKeepsTurn(d: Daemon, c: nat, t: Trigger, keys: Option<seq<byte>>)
    requires IsWaiting(d, c, t) && IsFirstWatch(d.desk.watches, t, keys)
    ensures InTurn(Replied(DeskEvent(d, Ignore(keys)), c, Ack), |d.server.log|, c, t, None)
  {
    hide IsSure, PulledAll, AllCount, Held, AreOwned, AreListed, Replied;
    var e := DeskEvent(d, Ignore(keys));
    var pulls := [Pull(t, None)];
    assert Triggers(pulls) == [t];
    assert After(d.desk, Ignore(keys)).1 == pulls;
    PullsComeFirst(d.server, pulls, |d.server.log|, c, t);
    DeskEventKeeps(d, Ignore(keys));
    PullsKeepList(d.server, pulls);
    ListedIsThere(e, c);
    ListedIsNotGone(e, c);
    ReplyInTurn(e, c, Ack, |d.server.log|, c, t, None);
  }

  lemma RestartingKeepsTurn(d: Daemon, c: nat, t: Trigger)
    requires IsWaiting(d, c, t) && d.transition.quit == [] && t in d.transition.deactivate
    ensures InTurn(Replied(Quit(WithTrigger(d, Quitting, None), NextTrigger(d, Quitting, None), false, false), c, Ack), |d.server.log|,
                   c, t, None)
  {
    hide IsSure, PulledAll, AllCount, DeskTriggers, AreOwned, AreListed, Replied, Triggers, Bare;
    var made, x := WithTrigger(d, Quitting, None), NextTrigger(d, Quitting, None);
    var e := Quit(made, x, false, false);
    BareTriggers(d.transition.deactivate, [x]);
    PullsComeFirst(made.server, Bare(d.transition.deactivate) + Bare([x]), |d.server.log|, c, t);
    TriggerIsMade(d, Quitting, None);
    TriggerStaysSettled(d, Quitting, None);
    QuitKeeps(made, x, false, false);
    QuitKeepsList(made, x, false, false);
    ListedIsThere(e, c);
    ListedIsNotGone(e, c);
    ReplyInTurn(e, c, Ack, |d.server.log|, c, t, None);
  }

  lemma StartsInTurn(d: Daemon, c: nat, t: Trigger, r: Protocol.Request, around: Surroundings)
    requires IsWaiting(d, c, t) && IsPlacedBehind(d, t, r, around) && r.command as char != 'c'
    ensures InTurn(Requested(d, c, r, around), |d.server.log|, c, t, MarkOf(d, c, r, around))
  {
    hide InTurn, Deactivated, Quit, DeskEvent, WithTrigger, WithPulls, Retains, Replied, IsWatched, IsFirstWatch, IsWaiting, PromptTriggers;
    match r.command as char {
      case 'D' => DeactivationKeepsTurn(d, c, t, around.hasSplash);
      case 'Q' => QuitKeepsTurn(d, c, t, Retains(r), around.hasSplash);
      case '*' => PromptKeepsTurn(d, c, t, Password, true);
      case 'W' => PromptKeepsTurn(d, c, t, Question, false);
      case 'K' => WatchKeepsTurn(d, c, t, r.argument);
      case 'L' => IgnoringKeepsTurn(d, c, t, r.argument);
      case 'R' => RestartingKeepsTurn(d, c, t);
    }
  }

  /** Once the request is read, `e` is reached with its reply written and none for `t` before it. */
  ghost predicate IsOvertaken(d: Daemon, e: Daemon, c: nat, t: Trigger, r: Protocol.Request, around: Surroundings) {
    !AreTold(e.server.log, |d.server.log|, c, t, MarkOf(d, c, r, around))
  }

  lemma TurnsAreKept(d: Daemon, c: nat, t: Trigger, r: Protocol.Request, around: Surroundings, steps: seq<Daemons.Step>)
    requires IsWaiting(d, c, t) && IsPlacedBehind(d, t, r, around)
    requires Daemons.IsRun(Requested(d, c, r, around), steps)
    ensures !IsOvertaken(d, Daemons.Run(Requested(d, c, r, around), steps), c, t, r, around)
  {
    hide InTurn, Requested, Daemons.Run, Daemons.IsRun, IsPlacedBehind;
    if r.command as char == 'c' {
      HungSaysNothing(d, c, t, r, around, steps);
    } else {
      hide Invariant;
      var e, mark := Requested(d, c, r, around), MarkOf(d, c, r, around);
      StartsInTurn(d, c, t, r, around);
      RequestedKeeps(d, c, r, around);
      MarkIsOld(d, c, r, around);
      ListedIsNumbered(d, c);
      RequestContinues(d, c, r, around, c);
      RunInTurn(e, steps, |d.server.log|, c, t, mark);
      InTurnIsTold(Daemons.Run(e, steps), |d.server.log|, c, t, mark);
    }
  }

  lemma ListedIsNumbered(d: Daemon, c: nat)
    requires Invariant(d) && c in d.server.listed
    ensures c < d.server.nextConnection
  {
  }

  lemma HungSaysNothing(d: Daemon, c: nat, t: Trigger, r: Protocol.Request, around: Surroundings, steps: seq<Daemons.Step>)
    requires IsPlacedBehind(d, t, r, around) && r.command as char == 'c'
    requires Daemons.IsRun(Requested(d, c, r, around), steps)
    ensures !IsOvertaken(d, Daemons.Run(Requested(d, c, r, around), steps), c, t, r, around)
  {
    hide Daemons.Stepped, CanBeGathered;
    assert Requested(d, c, r, around) == d.(isHung := true);
    assert steps == [];
  }

  lemma MarkIsOld(d: Daemon, c: nat, r: Protocol.Request, around: Surroundings)
    ensures IsOld(Requested(d, c, r, around), MarkOf(d, c, r, around))
  {
    hide PulledAll, After;
  }

  // ----- what may follow

  /** No request of the connection's is read. */
  predicate ReadsNothing(steps: seq<Daemons.Step>, c: nat) {
    forall step <- steps :: !(step.Request? && step.connection == c && step.request.Some?)
  }

  /** The daemon gets from `d` to `e` without reading anything more from the connection. */
  ghost predicate Follows(d: Daemon, e: Daemon, c: nat) {
    exists steps :: Daemons.IsRun(d, steps) && ReadsNothing(steps, c) && Daemons.Run(d, steps) == e
  }

  lemma FollowsItself(d: Daemon, c: nat)
    ensures Follows(d, d, c)
  {
    assert Daemons.IsRun(d, []) && ReadsNothing([], c) && Daemons.Run(d, []) == d;
  }

  lemma FollowsAtOnce(d: Daemon, step: Daemons.Step, c: nat)
    requires Daemons.CanStep(d, step) && !(step.Request? && step.connection == c && step.request.Some?)
    ensures Follows(d, Daemons.Stepped(d, step), c)
  {
    hide Daemons.CanStep, Daemons.Stepped;
    OneStep(d, step);
    assert ReadsNothing([step], c);
  }

  lemma FollowsFurther(d: Daemon, e: Daemon, f: Daemon, c: nat)
    requires Follows(d, e, c) && Follows(e, f, c)
    ensures Follows(d, f, c)
  {
    hide Daemons.IsRun, Daemons.Run;
    var a :| Daemons.IsRun(d, a) && ReadsNothing(a, c) && Daemons.Run(d, a) == e;
    var b :| Daemons.IsRun(e, b) && ReadsNothing(b, c) && Daemons.Run(e, b) == f;
    RunOfSum(d, a, b);
    assert ReadsNothing(a + b, c);
  }

  // ----- a reply while `t` waits

  lemma {:induction false} EntryIsAnswer(log: seq<Wrote>, i: nat)
    requires i < |log| && log[i].trigger.Some?
    ensures log[i].trigger.value in DaemonAnswers.Answers(log)
    decreases |log|
  {
    var n := |log| - 1;
    AnswersOfMore(log[..n], log[n]);
    assert log == log[..n] + [log[n]];
    if i < n {
      EntryIsAnswer(log[..n], i);
    }
  }

  lemma HeldIsNotPulled(d: Daemon, t: Trigger)
    requires Invariant(d) && t in Held(d)
    ensures t !in d.pulled && t in d.made
  {
    hide AllCount, Held, IsSettled;
    assert multiset([]) + multiset(Held(d)) + multiset(d.pulled) == multiset(d.made);
    assert t in multiset(Held(d));
    assert t in multiset(d.made);
    MadeOnce(d.made, t);
    assert t in d.pulled ==> multiset(d.pulled)[t] >= 1;
  }

  lemma NotPulledIsHeld(d: Daemon, t: Trigger)
    requires Invariant(d) && t in d.made && t !in d.pulled
    ensures t in Held(d)
  {
    hide AllCount, Held, IsSettled;
    assert multiset([]) + multiset(Held(d)) + multiset(d.pulled) == multiset(d.made);
    assert t in multiset(d.made);
  }

  lemma NotInPart(a: seq<Trigger>, b: seq<Trigger>, t: Trigger)
    requires multiset(a) <= multiset(b) && t !in b
    ensures t !in a
  {
    assert t in a ==> multiset(a)[t] >= 1;
  }

  lemma HeldIsNotAnswered(d: Daemon, t: Trigger)
    requires Invariant(d) && AreOfPulled(d) && t in Held(d)
    ensures forall i :: 0 <= i < |d.server.log| ==> d.server.log[i].trigger != Some(t)
  {
    HeldIsNotPulled(d, t);
    hide Invariant, Held, DaemonAnswers.Answers;
    assert multiset(DaemonAnswers.Answers(d.server.log)) <= multiset(d.pulled);
    NotInPart(DaemonAnswers.Answers(d.server.log), d.pulled, t);
    forall i | 0 <= i < |d.server.log| ensures d.server.log[i].trigger != Some(t) {
      if d.server.log[i].trigger == Some(t) {
        EntryIsAnswer(d.server.log, i);
      }
    }
  }

  /** From `start` on a reply was written, and `t` still waits. */
  ghost predicate IsPassed(e: Daemon, start: nat, c: nat, t: Trigger, mark: Option<Trigger>) {
    && Invariant(e) && AreOfPulled(e) && t in Held(e)
    && HasReply(e.server.log, start, c, mark)
  }

  ghost predicate HasReply(log: seq<Wrote>, start: nat, c: nat, mark: Option<Trigger>) {
    exists i :: start <= i < |log| && IsReplyFor(log[i], c, mark)
  }

  lemma PassedIsOvertaken(d: Daemon, e: Daemon, c: nat, t: Trigger, r: Protocol.Request, around: Surroundings)
    requires IsPassed(e, |d.server.log|, c, t, MarkOf(d, c, r, around))
    ensures IsOvertaken(d, e, c, t, r, around) && IsNotLost(e, |d.server.log|, c, t)
  {
    hide Held, Invariant, AreOfPulled, MarkOf;
    HeldIsNotAnswered(e, t);
  }

  lemma HasReplyLater(log: seq<Wrote>, more: seq<Wrote>, start: nat, c: nat, mark: Option<Trigger>)
    requires HasReply(log, start, c, mark) && log <= more
    ensures HasReply(more, start, c, mark)
  {
    var i :| start <= i < |log| && IsReplyFor(log[i], c, mark);
    assert more[i] == log[i];
  }

  // ----- pulling writes

  lemma {:induction false} PullsReply(v: Server, pulls: seq<Pull>, rest: seq<Trigger>, c: nat, u: Trigger)
    requires AllCount(v, Triggers(pulls) + rest) && c in v.listed && (c in v.connections ==> !v.connections[c].disconnected)
    requires u in Triggers(pulls) && u.owner == Some(c)
    ensures HasReply(PulledAll(v, pulls).log, |v.log|, c, Some(u))
    decreases pulls
  {
    hide AllCount, ReplyTo, DropReference;
    var first, others := pulls[0], Triggers(pulls[1..]);
    assert Triggers(pulls) == [first.trigger] + others;
    assert Triggers(pulls) + rest == [first.trigger] + (others + rest);
    ListedIsAllocated(v, Triggers(pulls) + rest, c);
    PullKeepsCount(v, first, others + rest);
    DropKeepsLog(v, first);
    PullsGrowLog(Pulled(v, first), pulls[1..]);
    if first.trigger == u {
      assert IsReplyFor(Pulled(v, first).log[|v.log|], c, Some(u));
      HasReplyLater(Pulled(v, first).log, PulledAll(v, pulls).log, |v.log|, c, Some(u));
    } else {
      PullKeepsConnected(v, first, c);
      hide Pulled, PulledAll;
      PullsReply(Pulled(v, first), pulls[1..], rest, c, u);
      LaterReply(PulledAll(Pulled(v, first), pulls[1..]).log, |v.log|, |Pulled(v, first).log|, c, u);
      PulledAllStep(v, pulls);
    }
  }

  lemma PulledAllStep(v: Server, pulls: seq<Pull>)
    requires pulls != []
    ensures PulledAll(v, pulls) == PulledAll(Pulled(v, pulls[0]), pulls[1..])
  {
  }

  lemma LaterReply(log: seq<Wrote>, start: nat, later: nat, c: nat, u: Trigger)
    requires start <= later && HasReply(log, later, c, Some(u))
    ensures HasReply(log, start, c, Some(u))
  {
  }

  lemma PullKeepsConnected(v: Server, p: Pull, c: nat)
    requires c in v.connections ==> !v.connections[c].disconnected
    ensures var w := Pulled(v, p); w.listed == v.listed && (c in w.connections ==> !w.connections[c].disconnected)
  {
  }

  lemma WithPullsReplies(d: Daemon, pulls: seq<Pull>, c: nat, u: Trigger)
    requires InOrderBut(d, Triggers(pulls)) && AreListed(d.server) && c in d.server.listed
    requires u in Triggers(pulls) && u.owner == Some(c)
    ensures HasReply(WithPulls(d, pulls).server.log, |d.server.log|, c, Some(u))
  {
    hide AllCount, PulledAll, Held;
    PullsReply(d.server, pulls, Held(d), c, u);
  }

  // ----- answering the prompts

  /** A running daemon in which both wait, and nothing is said about `u` yet. */
  ghost predicate IsReady(d: Daemon, c: nat, t: Trigger, u: Trigger) {
    && Invariant(d) && AreOfPulled(d) && !d.isHung && !d.hasExited && c in d.server.listed
    && t in Held(d) && u.owner == Some(c)
  }

  const PRESS := Keyboard(Type(Input([CTRL_C], 1), true))

  lemma PressAnswers(d: Daemon)
    requires !d.isHung && !d.hasExited && d.desk.prompts != []
    ensures Daemons.CanStep(d, PRESS)
    ensures var pulls := [Pull(d.desk.prompts[0].trigger, Some([CTRL_C]))];
      && Daemons.Stepped(d, PRESS) == WithPulls(d.(desk := d.desk.(prompts := d.desk.prompts[1..], text := [])), pulls)
      && After(d.desk, PRESS.event) == (d.desk.(prompts := d.desk.prompts[1..], text := []), pulls)
  {
    hide WithPulls;
  }

  lemma StepIsReady(d: Daemon, step: Daemons.Step, c: nat, t: Trigger, u: Trigger)
    requires IsReady(d, c, t, u) && Daemons.CanStep(d, step)
    requires var e := Daemons.Stepped(d, step); !e.isHung && !e.hasExited && c in e.server.listed && t in Held(e)
    ensures IsReady(Daemons.Stepped(d, step), c, t, u)
  {
    hide Invariant, AreOfPulled, Daemons.Stepped, Daemons.CanStep, Held;
    StepKeepsInvariant(d, step);
    StepKeepsAnswers(d, step);
  }

  /** Ctrl-C is pressed for each prompt until that of `u`; what waits elsewhere goes on waiting. */
  lemma {:induction false} PromptIsReached(d: Daemon, c: nat, t: Trigger, u: Trigger) returns (e: Daemon)
    requires IsReady(d, c, t, u) && t !in PromptTriggers(d.desk.prompts) && u in PromptTriggers(d.desk.prompts)
    ensures Follows(d, e, c) && IsPassed(e, |d.server.log|, c, t, Some(u))
    decreases |d.desk.prompts|
  {
    hide AllCount, AreOwned, AreListed, PromptTriggers, WatchTriggers, Follows, HasReply, AreOfPulled, PulledAll, InOrderBut, IsSettled;
    var ps := d.desk.prompts;
    SomePrompt(ps, u);
    var first := ps[0].trigger;
    var pulls := [Pull(first, Some([CTRL_C]))];
    var next := d.(desk := d.desk.(prompts := ps[1..], text := []));
    FirstPromptTrigger(ps);
    PressAnswers(d);
    var f := Daemons.Stepped(d, PRESS);
    DeskIsExchanged(d, PRESS.event);
    ExchangedInHand(d, [], next, Triggers(pulls));
    PullingKeepsListed(next, pulls);
    assert t in Held(f);
    FollowsAtOnce(d, PRESS, c);
    StepIsReady(d, PRESS, c, t, u);
    WithPullsGrowsLog(next, pulls);
    if first == u {
      InvariantIsListed(d);
      WithPullsReplies(next, pulls, c, u);
      e := f;
    } else {
      e := PromptIsReached(f, c, t, u);
      FollowsFurther(d, f, e, c);
      PassedEarlier(e, |d.server.log|, |f.server.log|, c, t, Some(u));
    }
  }

  lemma SomePrompt(ps: seq<Prompt>, u: Trigger)
    requires u in PromptTriggers(ps)
    ensures ps != []
  {
  }

  lemma FirstPromptTrigger(ps: seq<Prompt>)
    requires ps != []
    ensures PromptTriggers(ps) == [ps[0].trigger] + PromptTriggers(ps[1..])
    ensures Triggers([Pull(ps[0].trigger, Some([CTRL_C]))]) == [ps[0].trigger]
  {
  }

  lemma InvariantIsListed(d: Daemon)
    requires Invariant(d)
    ensures AreListed(d.server)
  {
  }

  lemma PassedEarlier(e: Daemon, start: nat, later: nat, c: nat, t: Trigger, mark: Option<Trigger>)
    requires start <= later && IsPassed(e, later, c, t, mark)
    ensures IsPassed(e, start, c, t, mark)
  {
    hide Invariant, AreOfPulled, Held;
  }

  // ----- ignoring the watches

  const ROOT := Surroundings(true, false, false, false, false, false)

  function IgnoreFrom(x: nat, keys: Option<seq<byte>>): Daemons.Step {
    Daemons.Step.Request(x, Some(Protocol.Request.Request('L' as int, keys)), ROOT)
  }

  lemma IgnoringPulls(d: Daemon, x: nat, keys: Option<seq<byte>>)
    requires !d.isHung && !d.hasExited && x in d.server.listed && FirstWithKeys(d.desk.watches, keys) < |d.desk.watches|
    ensures Daemons.CanStep(d, IgnoreFrom(x, keys))
    ensures var i := FirstWithKeys(d.desk.watches, keys);
      var pulls := [Pull(d.desk.watches[i].trigger, None)];
      && Daemons.Stepped(d, IgnoreFrom(x, keys)) ==
         Replied(WithPulls(d.(desk := d.desk.(watches := Without(d.desk.watches, i))), pulls), x, Ack)
      && After(d.desk, Ignore(keys)) == (d.desk.(watches := Without(d.desk.watches, i)), pulls)
  {
    hide WithPulls, Replied;
  }

  /** Another connection ignores the keys until `u` is found; a watch for other keys, and what waits elsewhere, goes on waiting. */
  lemma {:induction false} WatchIsReached(d: Daemon, x: nat, keys: Option<seq<byte>>, c: nat, t: Trigger, u: Trigger) returns (e: Daemon)
    requires IsReady(d, c, t, u) && x in d.server.listed && x != c
    requires !IsWatched(d.desk.watches, t, keys) && IsWatched(d.desk.watches, u, keys)
    ensures Follows(d, e, c) && IsPassed(e, |d.server.log|, c, t, Some(u))
    decreases |d.desk.watches|
  {
    hide AllCount, AreOwned, AreListed, PromptTriggers, WatchTriggers, Follows, HasReply, AreOfPulled, PulledAll, InOrderBut, IsSettled,
      Replied, IsWatched;
    var ws := d.desk.watches;
    WatchIsFound(ws, t, u, keys);
    var i := FirstWithKeys(ws, keys);
    var pulls, step := [Pull(ws[i].trigger, None)], IgnoreFrom(x, keys);
    var next := d.(desk := d.desk.(watches := Without(ws, i)));
    IgnoringPulls(d, x, keys);
    var g, f := WithPulls(next, pulls), Daemons.Stepped(d, step);
    WatchIsTaken(ws, i, t);
    DeskIsExchanged(d, Ignore(keys));
    ExchangedInHand(d, [], next, Triggers(pulls));
    PullingKeepsListed(next, pulls);
    ReplyKeepsRest(g, x, Ack);
    assert t in Held(f);
    FollowsAtOnce(d, step, c);
    StepIsReady(d, step, c, t, u);
    WithPullsGrowsLog(next, pulls);
    if ws[i].trigger == u {
      InvariantIsListed(d);
      WithPullsReplies(next, pulls, c, u);
      HasReplyLater(g.server.log, f.server.log, |d.server.log|, c, Some(u));
      e := f;
    } else {
      OtherWatchesLeft(ws, i, t, u, keys);
      e := WatchIsReached(f, x, keys, c, t, u);
      FollowsFurther(d, f, e, c);
      PassedEarlier(e, |d.server.log|, |f.server.log|, c, t, Some(u));
    }
  }

  lemma ReplyKeepsRest(d: Daemon, x: nat, reply: Reply)
    ensures var e := Replied(d, x, reply);
      && e.desk == d.desk && e.transition == d.transition && e.server.listed == d.server.listed && Held(e) == Held(d)
      && e.isHung == d.isHung && e.hasExited == d.hasExited && d.server.log <= e.server.log
  {
  }

  lemma WatchIsFound(ws: seq<Watch>, t: Trigger, u: Trigger, keys: Option<seq<byte>>)
    requires IsWatched(ws, u, keys) && !IsWatched(ws, t, keys)
    ensures var i := FirstWithKeys(ws, keys); i < |ws| && ws[i].trigger != t
  {
    var w :| w in ws && w.trigger == u && w.keys == keys;
    var k :| 0 <= k < |ws| && ws[k] == w;
  }

  lemma WatchIsTaken(ws: seq<Watch>, i: nat, t: Trigger)
    requires i < |ws|
    ensures ws[i].trigger != t && t in WatchTriggers(ws) ==> t in WatchTriggers(Without(ws, i))
    ensures Triggers([Pull(ws[i].trigger, None)]) == [ws[i].trigger]
  {
    if ws[i].trigger != t && t in WatchTriggers(ws) {
      var k :| 0 <= k < |ws| && WatchTriggers(ws)[k] == t;
      assert WatchTriggers(Without(ws, i))[if k < i then k else k - 1] == t;
    }
  }

  lemma OtherWatchesLeft(ws: seq<Watch>, i: nat, t: Trigger, u: Trigger, keys: Option<seq<byte>>)
    requires i < |ws| && ws[i].trigger != u && IsWatched(ws, u, keys) && !IsWatched(ws, t, keys)
    ensures IsWatched(Without(ws, i), u, keys) && !IsWatched(Without(ws, i), t, keys)
  {
    var w :| w in ws && w.trigger == u && w.keys == keys;
    var k :| 0 <= k < |ws| && ws[k] == w;
    assert Without(ws, i)[if k < i then k else k - 1] == w;
    forall x | x in Without(ws, i) ensures x in ws {
      var n :| 0 <= n < |Without(ws, i)| && Without(ws, i)[n] == x;
      assert x == ws[if n < i then n else n + 1];
    }
  }

  // ----- becoming idle

  /** Whatever is pending waits for the splash to become idle. */
  predicate IsIdling(d: Daemon) {
    d.transition.deactivate + d.transition.quit != [] ==> d.transition.becomingIdle
  }

  lemma DeactivatedIsIdling(d: Daemon, t: Trigger, hasSplash: bool)
    requires IsIdling(d)
    ensures IsIdling(Deactivated(d, t, hasSplash))
  {
    hide PulledAll, Triggers, Bare;
  }

  lemma QuitIsIdling(d: Daemon, t: Trigger, retain: bool, hasSplash: bool)
    requires IsIdling(d)
    ensures IsIdling(Quit(d, t, retain, hasSplash))
  {
    hide PulledAll, Triggers, Bare;
  }

  lemma RequestKeepsIdling(d: Daemon, from: nat, r: Protocol.Request, around: Surroundings)
    requires IsIdling(d)
    ensures IsIdling(Requested(d, from, r, around))
  {
    hide PulledAll, Triggers, After, Deactivated, Quit, Retains, CanBeGathered;
    forall owner, kind, hasSplash ensures IsIdling(Deactivated(WithTrigger(d, kind, owner), NextTrigger(d, kind, owner), hasSplash)) {
      DeactivatedIsIdling(WithTrigger(d, kind, owner), NextTrigger(d, kind, owner), hasSplash);
    }
    forall owner, kind, retain, hasSplash
      ensures IsIdling(Quit(WithTrigger(d, kind, owner), NextTrigger(d, kind, owner), retain, hasSplash))
    {
      QuitIsIdling(WithTrigger(d, kind, owner), NextTrigger(d, kind, owner), retain, hasSplash);
    }
  }

  lemma StepKeepsIdling(d: Daemon, step: Daemons.Step)
    requires Invariant(d) && IsIdling(d) && Daemons.CanStep(d, step)
    ensures IsIdling(Daemons.Stepped(d, step))
  {
    hide PulledAll, Triggers, After, Cancelled, Unlisted, Requested, BecameIdle, Invariant;
    if step.Request? && step.request.Some? {
      hide IsIdling;
      RequestKeepsIdling(d, step.connection, step.request.value, step.around);
    } else if step.Idle? {
      IdleLeavesNothing(d);
    }
  }

  lemma IdleLeavesNothing(d: Daemon)
    requires Invariant(d)
    ensures BecameIdle(d).transition.deactivate + BecameIdle(d).transition.quit == []
  {
    hide PulledAll, Triggers, Bare, Invariant;
    if d.transition.deactivate != [] {
      InvariantIsActive(d);
    }
  }

  lemma {:induction false} RunKeepsIdling(d: Daemon, steps: seq<Daemons.Step>)
    requires Invariant(d) && IsIdling(d) && Daemons.IsRun(d, steps)
    ensures IsIdling(Daemons.Run(d, steps))
    decreases steps
  {
    hide Invariant, IsIdling, Daemons.Stepped, Daemons.CanStep;
    if steps != [] {
      StepKeepsIdling(d, steps[0]);
      StepKeepsInvariant(d, steps[0]);
      RunKeepsIdling(Daemons.Stepped(d, steps[0]), steps[1..]);
    }
  }

  lemma CompletedAllReplies(d: Daemon, c: nat, u: Trigger)
    requires Invariant(d) && c in d.server.listed && u in d.transition.deactivate + d.transition.quit && u.owner == Some(c)
    ensures HasReply(CompletedAll(d).server.log, |d.server.log|, c, Some(u)) && CompletedAll(d).desk == d.desk
  {
    hide AllCount, AreOwned, AreListed, DeskTriggers, Triggers, Bare, WithPulls, HasReply;
    var tr := d.transition;
    var cleared, pulls := d.(transition := tr.(deactivate := [], quit := []), hasExited := true), Bare(tr.deactivate) + Bare(tr.quit);
    BareTriggers(tr.deactivate, tr.quit);
    Rearranged(d, [], cleared, Triggers(pulls));
    WithPullsReplies(cleared, pulls, c, u);
    PullingLeavesDesk(cleared, pulls);
  }

  lemma PullingLeavesDesk(d: Daemon, pulls: seq<Pull>)
    ensures WithPulls(d, pulls).desk == d.desk && WithPulls(d, pulls).transition == d.transition
  {
  }

  lemma DeactivatedSplashReplies(d: Daemon, c: nat, u: Trigger)
    requires Invariant(d) && c in d.server.listed && u in d.transition.deactivate && u.owner == Some(c)
    ensures var e := DeactivatedSplash(d);
      && HasReply(e.server.log, |d.server.log|, c, Some(u)) && e.desk == d.desk && e.transition.quit == d.transition.quit
  {
    hide AllCount, AreOwned, AreListed, DeskTriggers, Triggers, Bare, WithPulls, HasReply;
    var tr := d.transition;
    InvariantIsActive(d);
    var cleared, pulls := d.(transition := tr.(deactivate := [], isInactive := true)), Bare(tr.deactivate);
    BareTriggers(tr.deactivate, []);
    Rearranged(d, [], cleared, Triggers(pulls));
    WithPullsReplies(cleared, pulls, c, u);
    PullingLeavesDesk(cleared, pulls);
  }

  lemma InvariantIsActive(d: Daemon)
    requires Invariant(d) && d.transition.deactivate != []
    ensures !d.transition.isInactive
  {
  }

  /** When the splash is idle, whatever is pending is answered. */
  lemma IdleReplies(d: Daemon, c: nat, u: Trigger)
    requires Invariant(d) && c in d.server.listed && u.owner == Some(c)
    requires u in d.transition.deactivate + d.transition.quit
    ensures HasReply(BecameIdle(d).server.log, |d.server.log|, c, Some(u)) && BecameIdle(d).desk == d.desk
  {
    hide Invariant, CompletedAll, DeactivatedSplash, HasReply;
    CompletedAllReplies(d, c, u);
    if d.transition.quit == [] {
      DeactivatedSplashReplies(d, c, u);
    }
  }

  // ----- requests that overtake

  /** The request is read from the connection. */
  function Read(c: nat, r: Protocol.Request, around: Surroundings): Daemons.Step {
    Daemons.Step.Request(c, Some(r), around)
  }

  /** A running daemon in which `t` waits for the connection. */
  ghost predicate CanRead(d: Daemon, c: nat, t: Trigger) {
    IsWaiting(d, c, t) && !d.isHung && !d.hasExited && IsIdling(d)
  }

  lemma ReadKeeps(d: Daemon, c: nat, t: Trigger, r: Protocol.Request, around: Surroundings)
    requires CanRead(d, c, t)
    ensures var e := Requested(d, c, r, around);
      Invariant(e) && AreOfPulled(e) && IsIdling(e) && d.server.log <= e.server.log && |d.made| <= |e.made|
  {
    hide Requested, Invariant, AreOfPulled, IsIdling, Held;
    RequestedKeeps(d, c, r, around);
    StepKeepsAnswers(d, Read(c, r, around));
    RequestKeepsIdling(d, c, r, around);
    RequestGrowsLog(d, c, r, around);
    RequestAges(d, c, r, around);
  }

  /** Answered at once, while `t` goes on waiting. */
  lemma AtOnce(d: Daemon, c: nat, t: Trigger, r: Protocol.Request, around: Surroundings)
    requires CanRead(d, c, t)
    requires var e := Requested(d, c, r, around); t in Held(e) && HasReply(e.server.log, |d.server.log|, c, MarkOf(d, c, r, around))
    ensures Overtakes(d, c, t, r, around)
  {
    hide Requested, Invariant, AreOfPulled, IsIdling, Held, HasReply, MarkOf, Follows, IsOvertaken;
    var e := Requested(d, c, r, around);
    ReadKeeps(d, c, t, r, around);
    PassedIsOvertaken(d, e, c, t, r, around);
    FollowsItself(e, c);
  }

  /** Something that may follow, with nothing more read from the connection, answers the request before `t`. */
  ghost predicate Overtakes(d: Daemon, c: nat, t: Trigger, r: Protocol.Request, around: Surroundings) {
    exists e ::
      Follows(Requested(d, c, r, around), e, c) && IsOvertaken(d, e, c, t, r, around) && IsNotLost(e, |d.server.log|, c, t)
  }

  /** The trigger waits, or a reply to it was written. */
  ghost predicate IsNotLost(e: Daemon, start: nat, c: nat, t: Trigger) {
    t in Held(e) || HasReply(e.server.log, start, c, Some(t))
  }

  lemma Later(d: Daemon, e: Daemon, c: nat, t: Trigger, r: Protocol.Request, around: Surroundings)
    requires CanRead(d, c, t) && Follows(Requested(d, c, r, around), e, c)
    requires IsPassed(e, |Requested(d, c, r, around).server.log|, c, t, MarkOf(d, c, r, around))
    ensures Overtakes(d, c, t, r, around)
  {
    hide Requested, Invariant, AreOfPulled, IsIdling, Held, HasReply, MarkOf, Follows, IsOvertaken, IsPassed;
    var f := Requested(d, c, r, around);
    ReadKeeps(d, c, t, r, around);
    PassedEarlier(e, |d.server.log|, |f.server.log|, c, t, MarkOf(d, c, r, around));
    PassedIsOvertaken(d, e, c, t, r, around);
  }

  /** A reply is written, and nothing else happens to what waits. */
  lemma ReplyOvertakes(d: Daemon, f: Daemon, c: nat, t: Trigger, r: Protocol.Request, around: Surroundings, reply: Reply)
    requires CanRead(d, c, t) && MarkOf(d, c, r, around).None? && Requested(d, c, r, around) == Replied(f, c, reply)
    requires c in f.server.connections && t in Held(f) && d.server.log <= f.server.log
    ensures Overtakes(d, c, t, r, around)
  {
    hide Requested, CanRead, MarkOf, Held, Overtakes;
    var e := Replied(f, c, reply);
    ReplyKeepsRest(f, c, reply);
    assert IsReplyFor(e.server.log[|f.server.log|], c, None);
    AtOnce(d, c, t, r, around);
  }

  lemma WaitingIsThere(d: Daemon, c: nat, t: Trigger)
    requires CanRead(d, c, t)
    ensures c in d.server.connections
  {
    hide AllCount, Held, IsSettled;
    ListedIsThere(d, c);
  }

  /** The new trigger alone is pulled, and what waited goes on waiting. */
  lemma PulledAtOnce(d: Daemon, f: Daemon, pulls: seq<Pull>, c: nat, t: Trigger, r: Protocol.Request, around: Surroundings)
    requires CanRead(d, c, t) && around.isRoot && Matching.IsDeferred(r)
    requires var made := WithTrigger(d, KindOf(r), Some(c));
      f.server == made.server && f.made == made.made && f.pulled == d.pulled && Held(f) == Held(d)
    requires Triggers(pulls) == [NextTrigger(d, KindOf(r), Some(c))] && Requested(d, c, r, around) == WithPulls(f, pulls)
    ensures Overtakes(d, c, t, r, around)
  {
    hide AllCount, AreOwned, AreListed, Held, Triggers, Requested, WithPulls, HasReply, Overtakes, CanRead, KindOf;
    var u, made := NextTrigger(d, KindOf(r), Some(c)), WithTrigger(d, KindOf(r), Some(c));
    ReadableIsInOrder(d, c, t);
    OwnersTriggerIsMade(d, KindOf(r), c);
    SameHeldAs(d, made);
    Rearranged(made, [u], f, Triggers(pulls));
    WithPullsReplies(f, pulls, c, u);
    PullingLeavesDesk(f, pulls);
    SameHeldAs(f, WithPulls(f, pulls));
    AtOnce(d, c, t, r, around);
  }

  lemma ReadableIsInOrder(d: Daemon, c: nat, t: Trigger)
    requires CanRead(d, c, t)
    ensures Invariant(d) && c in d.server.listed && AreListed(d.server) && t in Held(d)
  {
  }

  lemma SameHeldAs(d: Daemon, e: Daemon)
    requires d.desk == e.desk && d.transition == e.transition
    ensures Held(d) == Held(e)
  {
  }

  /** The splash becomes idle, and `t` goes on waiting at the desk. */
  lemma IdleOvertakes(d: Daemon, c: nat, t: Trigger, r: Protocol.Request, around: Surroundings)
    requires CanRead(d, c, t) && t in DeskTriggers(d.desk) && around.isRoot && Matching.IsDeferred(r)
    requires var e, u := Requested(d, c, r, around), NextTrigger(d, KindOf(r), Some(c));
      && e.desk == d.desk && c in e.server.listed && u in e.transition.deactivate + e.transition.quit && !e.isHung && !e.hasExited
    ensures Overtakes(d, c, t, r, around)
  {
    hide Requested, DeskTriggers, HasReply, Overtakes, CanRead, KindOf, Invariant, BecameIdle, AreOfPulled, Follows;
    var e, u := Requested(d, c, r, around), NextTrigger(d, KindOf(r), Some(c));
    ReadKeeps(d, c, t, r, around);
    FollowsAtOnce(e, Idle, c);
    StepKeepsInvariant(e, Idle);
    StepKeepsAnswers(e, Idle);
    IdleReplies(e, c, u);
    Later(d, BecameIdle(e), c, t, r, around);
  }

  lemma {:induction false} PulledAllOfSum(v: Server, a: seq<Pull>, b: seq<Pull>)
    ensures PulledAll(v, a + b) == PulledAll(PulledAll(v, a), b)
    decreases a
  {
    hide Pulled;
    if a == [] {
      assert a + b == b;
    } else {
      assert (a + b)[1..] == a[1..] + b;
      PulledAllOfSum(Pulled(v, a[0]), a[1..], b);
    }
  }

  /** Quitting pulls the deactivations first. */
  lemma QuitsComeLast(d: Daemon, start: nat, c: nat, t: Trigger, u: Trigger)
    requires Invariant(d) && start <= |d.server.log| && Untold(d.server.log, start, c, Some(t))
    requires c in d.server.listed && u.owner == Some(c) && u in d.transition.deactivate && t !in d.transition.deactivate
    ensures !AreTold(CompletedAll(d).server.log, start, c, t, Some(u))
  {
    hide AllCount, DeskTriggers, Triggers, Bare, HasReply, PulledAll;
    var tr := d.transition;
    var first, all := Bare(tr.deactivate), Bare(tr.deactivate) + Bare(tr.quit);
    BareTriggers(tr.deactivate, tr.quit);
    PulledAllOfSum(d.server, first, Bare(tr.quit));
    var mid := PulledAll(d.server, first);
    PullsGrowLog(mid, Bare(tr.quit));
    var apart := d.(transition := tr.(deactivate := []));
    Rearranged(d, [], apart, Triggers(first));
    WithPullsReplies(apart, first, c, u);
    PullsLeaveUntold(d.server, first, start, c, Some(t));
    NotTold(mid.log, PulledAll(d.server, all).log, start, |d.server.log|, c, t, u);
  }

  lemma NotTold(log: seq<Wrote>, more: seq<Wrote>, start: nat, later: nat, c: nat, t: Trigger, u: Trigger)
    requires start <= later && log <= more && HasReply(log, later, c, Some(u)) && Untold(log, start, c, Some(t))
    ensures !AreTold(more, start, c, t, Some(u))
  {
    var i :| later <= i < |log| && IsReplyFor(log[i], c, Some(u));
    assert IsReplyFor(more[i], c, Some(u));
    assert !AnsweredIn(more, start, i, c, t);
  }

  // ----- case by case

  lemma DeactivationOvertakes(d: Daemon, c: nat, t: Trigger, r: Protocol.Request, around: Surroundings)
    requires CanRead(d, c, t) && around.isRoot && r.command as char == 'D' && t !in d.transition.deactivate
    ensures Overtakes(d, c, t, r, around)
  {
    hide CanRead, WithPulls, Triggers, Overtakes, WithTrigger, DeskTriggers;
    var made, u := WithTrigger(d, Deactivation, Some(c)), NextTrigger(d, Deactivation, Some(c));
    var tr := d.transition;
    MadeIsOf(d, Deactivation, Some(c));
    OnePull(u);
    if tr.isInactive {
      PulledAtOnce(d, made, [Pull(u, None)], c, t, r, around);
    } else if tr.deactivate == [] && !around.hasSplash {
      BareTriggers([u], []);
      PulledAtOnce(d, made.(transition := tr.(deactivate := [], isInactive := true)), Bare([u]), c, t, r, around);
    } else {
      QueuedDeactivationOvertakes(d, c, t, r, around);
    }
  }

  lemma MadeIsOf(d: Daemon, kind: Kind, owner: Option<nat>)
    ensures var made := WithTrigger(d, kind, owner);
      && made.transition == d.transition && made.desk == d.desk && made.pulled == d.pulled && made.server.log == d.server.log
      && made.isHung == d.isHung && made.hasExited == d.hasExited && made.server.listed == d.server.listed
  {
  }

  lemma OnePull(u: Trigger)
    ensures Triggers([Pull(u, None)]) == [u]
  {
  }

  lemma QueuedDeactivationOvertakes(d: Daemon, c: nat, t: Trigger, r: Protocol.Request, around: Surroundings)
    requires CanRead(d, c, t) && around.isRoot && r.command as char == 'D' && t !in d.transition.deactivate
    requires !d.transition.isInactive && (d.transition.deactivate != [] || around.hasSplash)
    ensures Overtakes(d, c, t, r, around)
  {
    hide WithPulls, Overtakes, WithTrigger, DeskTriggers, Invariant, AreOfPulled, CompletedAll, DeactivatedSplash, AreTold, Untold;
    var u, e := NextTrigger(d, Deactivation, Some(c)), Requested(d, c, r, around);
    MadeIsOf(d, Deactivation, Some(c));
    assert e.transition.deactivate == d.transition.deactivate + [u];
    if t in DeskTriggers(d.desk) {
      IdleOvertakes(d, c, t, r, around);
    } else {
      ReadKeeps(d, c, t, r, around);
      FollowsAtOnce(e, Idle, c);
      HeldIsNotAnswered(d, t);
      HeldIsOld(d, t);
      NothingYet(d.server.log, c, Some(t));
      QuitsComeLast(e, |d.server.log|, c, t, u);
      CompletedAllReplies(e, c, t);
      assert BecameIdle(e).server == CompletedAll(e).server;
      WasOvertaken(d, BecameIdle(e), c, t, r, around);
    }
  }

  lemma NothingYet(log: seq<Wrote>, c: nat, mark: Option<Trigger>)
    ensures Untold(log, |log|, c, mark)
  {
  }

  lemma WasOvertaken(d: Daemon, e: Daemon, c: nat, t: Trigger, r: Protocol.Request, around: Surroundings)
    requires Follows(Requested(d, c, r, around), e, c) && !AreTold(e.server.log, |d.server.log|, c, t, MarkOf(d, c, r, around))
    requires HasReply(e.server.log, |d.server.log|, c, Some(t))
    ensures Overtakes(d, c, t, r, around)
  {
  }

  lemma QuitOvertakes(d: Daemon, c: nat, t: Trigger, r: Protocol.Request, around: Surroundings)
    requires CanRead(d, c, t) && around.isRoot && r.command as char == 'Q' && t !in d.transition.deactivate + d.transition.quit
    ensures Overtakes(d, c, t, r, around)
  {
    hide CanRead, WithPulls, Triggers, Overtakes, WithTrigger, DeskTriggers, CompletedAll, AllCount, AreOwned, AreListed;
    var made, u := WithTrigger(d, Quitting, Some(c)), NextTrigger(d, Quitting, Some(c));
    var tr, retain := d.transition, Retains(r);
    ReadableIsInOrder(d, c, t);
    CanReadIsIdling(d, c, t);
    MadeIsOf(d, Quitting, Some(c));
    if tr.quit != [] || (!(tr.isInactive && !retain) && around.hasSplash) {
      IdleOvertakes(d, c, t, r, around);
    } else {
      OwnersTriggerIsMade(d, Quitting, c);
      var queued := made.(transition := tr.(quit := [u], retainSplash := retain));
      QueuingQuitKeeps(made, u, queued);
      CompletedAllReplies(queued, c, u);
      AtDesk(d, CompletedAll(queued), t);
      AtOnce(d, c, t, r, around);
    }
  }

  lemma CanReadIsIdling(d: Daemon, c: nat, t: Trigger)
    requires CanRead(d, c, t)
    ensures IsIdling(d) && !d.isHung && !d.hasExited && t.owner == Some(c)
  {
  }

  lemma AtDesk(d: Daemon, e: Daemon, t: Trigger)
    requires t in DeskTriggers(d.desk) && d.desk == e.desk
    ensures t in Held(e)
  {
  }

  lemma PasswordOvertakes(d: Daemon, c: nat, t: Trigger, r: Protocol.Request, around: Surroundings)
    requires CanRead(d, c, t) && around.isRoot && r.command as char == '*' && !around.hasSplash && !around.isShown
    ensures Overtakes(d, c, t, r, around)
  {
    hide CanRead, WithPulls, Triggers, Overtakes, WithTrigger, DeskTriggers;
    var u := NextTrigger(d, Password, Some(c));
    MadeIsOf(d, Password, Some(c));
    OnePull(u);
    PulledAtOnce(d, WithTrigger(d, Password, Some(c)), [Pull(u, None)], c, t, r, around);
  }

  /** The prompt is shown, and those before it are answered. */
  lemma PromptOvertakes(d: Daemon, c: nat, t: Trigger, r: Protocol.Request, around: Surroundings, isPassword: bool)
    requires CanRead(d, c, t) && around.isRoot && Matching.IsDeferred(r) && t !in PromptTriggers(d.desk.prompts)
    requires var u := NextTrigger(d, KindOf(r), Some(c));
      Requested(d, c, r, around) == DeskEvent(WithTrigger(d, KindOf(r), Some(c)), Ask(Prompt(u, c, isPassword)))
    ensures Overtakes(d, c, t, r, around)
  {
    hide Requested, CanRead, Overtakes, WithTrigger, PromptTriggers, WatchTriggers, AllCount, AreOwned, AreListed, KindOf, WithPulls, Follows, IsPassed,
      AreOfPulled;
    var u, made := NextTrigger(d, KindOf(r), Some(c)), WithTrigger(d, KindOf(r), Some(c));
    var p := Prompt(u, c, isPassword);
    ReadableIsInOrder(d, c, t);
    CanReadIsIdling(d, c, t);
    HeldIsOld(d, t);
    ReadKeeps(d, c, t, r, around);
    MadeIsOf(d, KindOf(r), Some(c));
    var next := made.(desk := d.desk.(prompts := d.desk.prompts + [p]));
    NothingPulled(next);
    PromptTriggersOfSum([p], []);
    PromptTriggersOfSum(d.desk.prompts, [p]);
    var e := PromptIsReached(next, c, t, u);
    Later(d, e, c, t, r, around);
  }

  /** Another connection comes, which ignores the keys. */
  lemma WatchOvertakes(d: Daemon, c: nat, t: Trigger, r: Protocol.Request, around: Surroundings)
    requires CanRead(d, c, t) && around.isRoot && r.command as char == 'K' && !IsWatched(d.desk.watches, t, r.argument)
    ensures Overtakes(d, c, t, r, around)
  {
    hide CanRead, Overtakes, WithTrigger, PromptTriggers, WatchTriggers, AllCount, AreOwned, AreListed, WithPulls, Follows, IsPassed,
      AreOfPulled, IsWatched;
    var u, made := NextTrigger(d, Keystroke, Some(c)), WithTrigger(d, Keystroke, Some(c));
    var w, ws := Watch(u, c, r.argument), d.desk.watches;
    ReadableIsInOrder(d, c, t);
    CanReadIsIdling(d, c, t);
    HeldIsOld(d, t);
    ReadKeeps(d, c, t, r, around);
    MadeIsOf(d, Keystroke, Some(c));
    var next := made.(desk := d.desk.(watches := ws + [w]));
    NothingPulled(next);
    WatchTriggersOfSum(ws, [w]);
    MoreIsWatched(ws, w, t, r.argument);
    FollowsAtOnce(next, Connect, c);
    var f, x := Connected(next), next.server.nextConnection;
    StepKeepsInvariant(next, Connect);
    StepKeepsAnswers(next, Connect);
    ListedIsNumbered(next, c);
    var e := WatchIsReached(f, x, r.argument, c, t, u);
    FollowsFurther(next, f, e, c);
    Later(d, e, c, t, r, around);
  }

  lemma MoreIsWatched(ws: seq<Watch>, w: Watch, t: Trigger, keys: Option<seq<byte>>)
    requires w.trigger != t && w.keys == keys && !IsWatched(ws, t, keys)
    ensures IsWatched(ws + [w], w.trigger, keys) && !IsWatched(ws + [w], t, keys)
  {
    assert (ws + [w])[|ws|] == w;
  }

  lemma IgnoringOvertakes(d: Daemon, c: nat, t: Trigger, r: Protocol.Request, around: Surroundings)
    requires CanRead(d, c, t) && around.isRoot && r.command as char == 'L' && !IsFirstWatch(d.desk.watches, t, r.argument)
    ensures Overtakes(d, c, t, r, around)
  {
    hide CanRead, Overtakes, AllCount, AreOwned, AreListed, PulledAll, PromptTriggers, WatchTriggers;
    var ws := d.desk.watches;
    var i := FirstWithKeys(ws, r.argument);
    var f := DeskEvent(d, Ignore(r.argument));
    ReadableIsInOrder(d, c, t);
    DeskEventKeeps(d, Ignore(r.argument));
    PullsKeepList(d.server, After(d.desk, Ignore(r.argument)).1);
    PullsGrowLog(d.server, After(d.desk, Ignore(r.argument)).1);
    ListedIsThere(f, c);
    if i < |ws| {
      WatchIsTaken(ws, i, t);
    }
    ReplyOvertakes(d, f, c, t, r, around, Ack);
  }

  lemma RestartKeepsHeld(d: Daemon, t: Trigger, hasSplash: bool)
    requires Invariant(d) && t in Held(d) && (hasSplash || d.transition.quit != [] || t !in d.transition.deactivate)
    ensures t in Held(Quit(WithTrigger(d, Quitting, None), NextTrigger(d, Quitting, None), false, hasSplash))
  {
    hide PulledAll, DeskTriggers, Triggers, Bare, InOrderBut, AreOwned, AreListed;
  }

  lemma RestartingOvertakes(d: Daemon, c: nat, t: Trigger, r: Protocol.Request, around: Surroundings)
    requires CanRead(d, c, t) && around.isRoot && r.command as char == 'R' && around.initIsShell && !IsPlacedBehind(d, t, r, around)
    ensures Overtakes(d, c, t, r, around)
  {
    hide CanRead, Overtakes, AllCount, AreOwned, AreListed, Held, Quit, WithTrigger;
    var made, x := WithTrigger(d, Quitting, None), NextTrigger(d, Quitting, None);
    var f := Quit(made, x, false, around.hasSplash);
    ReadableIsInOrder(d, c, t);
    MadeIsOf(d, Quitting, None);
    TriggerIsMade(d, Quitting, None);
    TriggerStaysSettled(d, Quitting, None);
    QuitKeeps(made, x, false, around.hasSplash);
    QuitKeepsList(made, x, false, around.hasSplash);
    QuitGrowsLog(made, x, false, around.hasSplash);
    ListedIsThere(f, c);
    RestartKeepsHeld(d, t, around.hasSplash);
    ReplyOvertakes(d, f, c, t, r, around, Ack);
  }

  lemma PlainOvertakes(d: Daemon, c: nat, t: Trigger, r: Protocol.Request, around: Surroundings)
    requires CanRead(d, c, t) && !IsPlacedBehind(d, t, r, around)
    requires around.isRoot ==> !Matching.IsDeferred(r) && r.command as char != 'L' && !(r.command as char == 'R' && around.initIsShell)
    ensures Overtakes(d, c, t, r, around)
  {
    hide CanRead, Overtakes, Requested, Held, CanBeGathered, Replied;
    ReadableIsInOrder(d, c, t);
    WaitingIsThere(d, c, t);
    var f, reply := PlainAnswers(d, c, r, around);
    ReplyOvertakes(d, f, c, t, r, around, reply);
  }

  lemma ReadOvertakes(d: Daemon, c: nat, t: Trigger, r: Protocol.Request, around: Surroundings)
    requires CanRead(d, c, t) && !IsPlacedBehind(d, t, r, around)
    ensures Overtakes(d, c, t, r, around)
  {
    hide CanRead, Overtakes, IsWatched, IsFirstWatch, PromptTriggers;
    if !around.isRoot {
      PlainOvertakes(d, c, t, r, around);
    } else {
      match r.command as char {
        case 'D' => DeactivationOvertakes(d, c, t, r, around);
        case 'Q' => QuitOvertakes(d, c, t, r, around);
        case '*' =>
          if !around.hasSplash && !around.isShown {
            PasswordOvertakes(d, c, t, r, around);
          } else {
            PromptOvertakes(d, c, t, r, around, true);
          }
        case 'W' => PromptOvertakes(d, c, t, r, around, false);
        case 'K' => WatchOvertakes(d, c, t, r, around);
        case 'L' => IgnoringOvertakes(d, c, t, r, around);
        case 'R' =>
          if around.initIsShell {
            RestartingOvertakes(d, c, t, r, around);
          } else {
            PlainOvertakes(d, c, t, r, around);
          }
        case _ => PlainOvertakes(d, c, t, r, around);
      }
    }
  }
}
