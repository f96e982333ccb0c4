/** The invariant of the daemon, step by step, and what follows for whole runs. */
module DaemonRuns {
  import opened Base
  import opened Protocol
  import opened Interactions
  import opened Daemons
  import opened References

  predicate IsListedOnce(listed: seq<nat>) {
    forall i, j :: 0 <= i < j < |listed| ==> listed[i] != listed[j]
  }

  /** Prompts and watches belong to listed connections. */
  predicate AreOwned(desk: Desk, listed: seq<nat>) {
    && (forall p <- desk.prompts :: p.connection in listed && p.trigger.owner == Some(p.connection))
    && (forall w <- desk.watches :: w.connection in listed && w.trigger.owner == Some(w.connection))
  }

  predicate AreListed(s: Server) {
    && IsListedOnce(s.listed)
    && (forall c <- s.connections :: c < s.nextConnection && (s.connections[c].disconnected <==> c !in s.listed))
    && (forall c <- s.listed :: c < s.nextConnection)
  }

  predicate IsSettled(d: Daemon) {
    && AreListed(d.server) && AreOwned(d.desk, d.server.listed)
    && (d.transition.isInactive ==> d.transition.deactivate == [])
  }

  /**
   The invariant: nothing failed; every reference is accounted for; every trigger
   made is held or pulled; connections are disconnected exactly when they are no
   longer listed; prompts and watches belong to listed connections; and no
   deactivation is pending while the daemon is inactive.
   */
  ghost predicate Invariant(d: Daemon) {
    InOrderBut(d, []) && IsSettled(d)
  }

  lemma ListedIsAllocated(s: Server, held: seq<Trigger>, c: nat)
    requires AllCount(s, held) && c in s.listed
    ensures c in s.connections
  {
    assert Counts(s, held, c);
  }

  lemma ListedIsThere(d: Daemon, c: nat)
    requires Invariant(d) && c in d.server.listed
    ensures c in d.server.connections
  {
    ListedIsAllocated(d.server, [] + Held(d), c);
  }

  // ----- what pulling triggers leaves alone

  lemma {:induction false} PullsKeepList(s: Server, pulls: seq<Pull>)
    ensures var t := PulledAll(s, pulls);
      && t.listed == s.listed && t.nextConnection == s.nextConnection
      && forall c <- t.connections :: c in s.connections && t.connections[c].disconnected == s.connections[c].disconnected
    decreases pulls
  {
    if pulls != [] {
      PullsKeepList(Pulled(s, pulls[0]), pulls[1..]);
    }
  }

  lemma PullsStaySettled(d: Daemon, pulls: seq<Pull>)
    requires IsSettled(d)
    ensures IsSettled(WithPulls(d, pulls))
  {
    PullsKeepList(d.server, pulls);
    hide PulledAll;
  }

  // ----- the transition

  lemma BareTriggers(ts: seq<Trigger>, us: seq<Trigger>)
    ensures Triggers(Bare(ts)) == ts && Triggers(Bare(ts) + Bare(us)) == ts + us
  {
  }

  lemma CompletedAllKeeps(d: Daemon)
    requires Invariant(d)
    ensures Invariant(CompletedAll(d))
  {
    hide WithPulls, AllCount, IsSettled, Triggers, Bare, DeskTriggers;
    var tr := d.transition;
    var cleared := d.(transition := tr.(deactivate := [], quit := []), hasExited := true);
    var pulls := Bare(tr.deactivate) + Bare(tr.quit);
    BareTriggers(tr.deactivate, tr.quit);
    Rearranged(d, [], cleared, Triggers(pulls));
    PullsSettle(cleared, pulls);
    SettledAfterTransition(d, cleared);
    PullsStaySettled(cleared, pulls);
  }

  lemma SettledAfterTransition(d: Daemon, e: Daemon)
    requires IsSettled(d) && e.server == d.server && e.desk == d.desk
    requires e.transition.isInactive ==> e.transition.deactivate == []
    ensures IsSettled(e)
  {
  }

  lemma DeactivatedSplashKeeps(d: Daemon)
    requires Invariant(d) && !d.transition.isInactive
    ensures Invariant(DeactivatedSplash(d))
  {
    hide WithPulls, AllCount, IsSettled, Triggers, Bare, DeskTriggers;
    var tr := d.transition;
    var cleared := d.(transition := tr.(deactivate := [], isInactive := true));
    BareTriggers(tr.deactivate, []);
    Rearranged(d, [], cleared, Triggers(Bare(tr.deactivate)));
    PullsSettle(cleared, Bare(tr.deactivate));
    SettledAfterTransition(d, cleared);
    PullsStaySettled(cleared, Bare(tr.deactivate));
  }

  lemma DeactivatedKeeps(d: Daemon, t: Trigger, hasSplash: bool)
    requires InOrderBut(d, [t]) && IsSettled(d)
    ensures Invariant(Deactivated(d, t, hasSplash))
  {
    hide WithPulls, AllCount, DeskTriggers, DeactivatedSplash, AreOwned, AreListed;
    var tr := d.transition;
    if tr.isInactive {
      assert Triggers([Pull(t, None)]) == [t];
      PullsSettle(d, [Pull(t, None)]);
      PullsStaySettled(d, [Pull(t, None)]);
    } else {
      var queued := d.(transition := tr.(deactivate := tr.deactivate + [t]));
      assert [] + [t] == [t];
      Rearranged(d, [t], queued, []);
      Rearranged(queued, [], queued.(transition := queued.transition.(becomingIdle := true)), []);
      if tr.deactivate == [] && !hasSplash {
        DeactivatedSplashKeeps(queued);
      }
    }
  }

  lemma QueuingQuitKeeps(d: Daemon, t: Trigger, e: Daemon)
    requires InOrderBut(d, [t]) && IsSettled(d)
    requires e.server == d.server && e.desk == d.desk && e.made == d.made && e.pulled == d.pulled
    requires e.transition.deactivate == d.transition.deactivate && e.transition.quit == d.transition.quit + [t]
    requires e.transition.isInactive == d.transition.isInactive
    ensures Invariant(e)
  {
    hide AllCount, DeskTriggers, AreOwned, AreListed;
    var tr := d.transition;
    assert Held(e) == Held(d) + [t];
    Rearranged(d, [t], e, []);
  }

  lemma QuitKeeps(d: Daemon, t: Trigger, retain: bool, hasSplash: bool)
    requires InOrderBut(d, [t]) && IsSettled(d)
    ensures Invariant(Quit(d, t, retain, hasSplash))
  {
    hide InOrderBut, IsSettled, CompletedAll;
    var tr := d.transition;
    if tr.quit != [] {
      QueuingQuitKeeps(d, t, Quit(d, t, retain, hasSplash));
    } else {
      assert tr.quit + [t] == [t];
      var queued := d.(transition := tr.(quit := [t], retainSplash := retain));
      QueuingQuitKeeps(d, t, queued);
      QueuingQuitKeeps(d, t, queued.(transition := queued.transition.(becomingIdle := true)));
      CompletedAllKeeps(queued);
    }
  }

  lemma BecameIdleKeeps(d: Daemon)
    requires Invariant(d)
    ensures Invariant(BecameIdle(d))
  {
    hide WithPulls, AllCount, DeskTriggers, CompletedAll, DeactivatedSplash, AreOwned, AreListed;
    CompletedAllKeeps(d);
    if d.transition.deactivate != [] {
      DeactivatedSplashKeeps(d);
    }
    var e := if d.transition.quit != [] then CompletedAll(d)
             else if d.transition.deactivate != [] then DeactivatedSplash(d)
             else d;
    Rearranged(e, [], BecameIdle(d), []);
  }

  // ----- the desk

  lemma DeskEventKeeps(d: Daemon, e: Event)
    requires CanHappen(e) && InOrderBut(d, AddedBy(e)) && IsSettled(d)
    requires e.Ask? ==> e.prompt.connection in d.server.listed && e.prompt.trigger.owner == Some(e.prompt.connection)
    requires e.WatchFor? ==> e.watch.connection in d.server.listed && e.watch.trigger.owner == Some(e.watch.connection)
    ensures Invariant(DeskEvent(d, e))
  {
    hide WithPulls, InOrderBut, DeskTriggers, After, IsSettled, AddedBy, Held, AreOwned;
    var (desk, pulls) := After(d.desk, e);
    var next := d.(desk := desk);
    DeskIsExchanged(d, e);
    DeskStaysSettled(d, e);
    ExchangedInHand(d, AddedBy(e), next, Triggers(pulls));
    PullsSettle(next, pulls);
    PullsStaySettled(next, pulls);
  }

  lemma ExchangedInHand(d: Daemon, inHand: seq<Trigger>, e: Daemon, inHand': seq<Trigger>)
    requires InOrderBut(d, inHand) && d.server == e.server && d.made == e.made && d.pulled == e.pulled
    requires multiset(inHand) + multiset(Held(d)) == multiset(inHand') + multiset(Held(e))
    ensures InOrderBut(e, inHand')
  {
    Rearranged(d, inHand, e, inHand');
  }

  lemma DeskIsExchanged(d: Daemon, e: Event)
    requires CanHappen(e)
    ensures var (desk, pulls) := After(d.desk, e);
      multiset(AddedBy(e)) + multiset(Held(d)) == multiset(Triggers(pulls)) + multiset(Held(d.(desk := desk)))
  {
    hide DeskTriggers, After, Triggers, AddedBy;
    DeskConserves(d.desk, e);
    var others := d.transition.deactivate + d.transition.quit;
    var next := d.(desk := After(d.desk, e).0);
    var before, after := multiset(DeskTriggers(d.desk)), multiset(DeskTriggers(next.desk));
    var added, pulled := multiset(AddedBy(e)), multiset(Triggers(After(d.desk, e).1));
    assert added + (before + multiset(others)) == (before + added) + multiset(others);
    assert pulled + (after + multiset(others)) == (after + pulled) + multiset(others);
  }

  lemma DeskStaysSettled(d: Daemon, e: Event)
    requires CanHappen(e) && IsSettled(d)
    requires e.Ask? ==> e.prompt.connection in d.server.listed && e.prompt.trigger.owner == Some(e.prompt.connection)
    requires e.WatchFor? ==> e.watch.connection in d.server.listed && e.watch.trigger.owner == Some(e.watch.connection)
    ensures IsSettled(d.(desk := After(d.desk, e).0))
  {
    hide AreOwned, After;
    DeskStaysOwned(d.desk, e, d.server.listed);
  }

  lemma {:induction false} CancelledStay(desk: Desk, c: nat)
    ensures forall p <- PromptsWithout(desk.prompts, c) :: p in desk.prompts && p.connection != c
    ensures forall w <- WatchesWithout(desk.watches, c) :: w in desk.watches && w.connection != c
    decreases |desk.prompts|, |desk.watches|
  {
    if desk.prompts != [] {
      CancelledStay(desk.(prompts := desk.prompts[1..]), c);
    } else if desk.watches != [] {
      CancelledStay(desk.(watches := desk.watches[1..]), c);
    }
  }

  lemma DeskStaysOwned(desk: Desk, e: Event, listed: seq<nat>)
    requires CanHappen(e) && AreOwned(desk, listed)
    requires e.Ask? ==> e.prompt.connection in listed && e.prompt.trigger.owner == Some(e.prompt.connection)
    requires e.WatchFor? ==> e.watch.connection in listed && e.watch.trigger.owner == Some(e.watch.connection)
    ensures AreOwned(After(desk, e).0, listed)
  {
    hide FirstMatch, FirstWithKeys, CString, Typed, Cancels, PromptsWithout, WatchesWithout;
    if e.Cancel? {
      CancelledStay(desk, e.connection);
    }
  }

  // ----- connections

  lemma ConnectedKeeps(d: Daemon)
    requires Invariant(d)
    ensures Invariant(Connected(d))
  {
    hide Held, Owned, AreOwned;
    var e := Connected(d);
    SameHeld(d, e);
    forall c: nat ensures Counts(e.server, [] + Held(e), c) {
      assert Counts(d.server, [] + Held(d), c);
    }
    MoreAreOwned(d.desk, d.server.listed, d.server.nextConnection);
    MoreAreListed(d.server.listed, d.server.nextConnection);
  }

  lemma MoreAreOwned(desk: Desk, listed: seq<nat>, c: nat)
    requires AreOwned(desk, listed)
    ensures AreOwned(desk, listed + [c])
  {
  }

  lemma MoreAreListed(listed: seq<nat>, c: nat)
    requires IsListedOnce(listed) && forall x <- listed :: x < c
    ensures IsListedOnce(listed + [c]) && forall x <- listed + [c] :: x <= c
  {
    forall i | 0 <= i < |listed| ensures listed[i] != c {
      assert listed[i] in listed;
    }
  }

  lemma SameHeld(d: Daemon, e: Daemon)
    requires d.desk == e.desk && d.transition == e.transition
    ensures Held(d) == Held(e)
  {
  }

  lemma {:induction false} UnlistedIsRemoved(listed: seq<nat>, c: nat)
    requires IsListedOnce(listed)
    ensures IsListedOnce(Unlisted(listed, c)) && forall x :: x in Unlisted(listed, c) <==> x in listed && x != c
  {
    if listed != [] {
      UnlistedIsRemoved(listed[1..], c);
      HeadAndTail(listed);
      if listed[0] != c {
        var rest := Unlisted(listed[1..], c);
        forall i, j | 0 <= i < j < |rest| + 1 ensures ([listed[0]] + rest)[i] != ([listed[0]] + rest)[j] {
          assert rest[j - 1] in listed[1..];
        }
      }
    }
  }

  lemma MarkingKeepsCount(d: Daemon, c: nat)
    requires InOrderBut(d, []) && c in d.server.connections
    ensures InOrderBut(d.(server := MarkedDisconnected(d.server, c)), [])
  {
    hide Held, Owned;
    var e := d.(server := MarkedDisconnected(d.server, c));
    SameHeld(d, e);
    forall x: nat ensures Counts(e.server, [] + Held(e), x) {
      assert Counts(d.server, [] + Held(d), x);
    }
  }

  lemma UnlistingDropsCount(d: Daemon, c: nat)
    requires InOrderBut(d, []) && c in d.server.listed && IsListedOnce(d.server.listed)
    ensures var s := d.server;
      InOrderBut(d.(server := DropReference(s.(listed := Unlisted(s.listed, c)), c)), [])
  {
    hide Held, Owned, Unlisted;
    var s := d.server;
    var e := d.(server := DropReference(s.(listed := Unlisted(s.listed, c)), c));
    SameHeld(d, e);
    UnlistedIsRemoved(s.listed, c);
    assert Counts(s, [] + Held(d), c);
    forall x: nat ensures Counts(e.server, [] + Held(e), x) {
      assert Counts(s, [] + Held(d), x);
    }
  }

  lemma GoneKeeps(d: Daemon, c: nat)
    requires Invariant(d) && c in d.server.listed
    ensures Invariant(Gone(d, c)) && c !in Gone(d, c).server.listed
  {
    hide PulledAll, Cancelled, AllCount, Held, Triggers, Unlisted;
    ListedIsAllocated(d.server, [] + Held(d), c);
    MarkingKeepsCount(d, c);
    var marked := d.(server := MarkedDisconnected(d.server, c));
    var (desk, pulls) := Cancelled(d.desk, c);
    DeskIsCancelled(d.desk, c, d.server.listed);
    DeskIsExchanged(marked, Cancel(c));
    Rearranged(marked, [], marked.(desk := desk), Triggers(pulls));
    var cancelled := WithPulls(marked.(desk := desk), pulls);
    PullsSettle(marked.(desk := desk), pulls);
    PullsKeepList(marked.server, pulls);
    UnlistedIsRemoved(d.server.listed, c);
    UnlistingDropsCount(cancelled, c);
  }

  lemma DeskIsCancelled(desk: Desk, c: nat, listed: seq<nat>)
    requires AreOwned(desk, listed) && IsListedOnce(listed)
    ensures AreOwned(Cancelled(desk, c).0, Unlisted(listed, c)) && After(desk, Cancel(c)) == Cancelled(desk, c)
  {
    hide PromptsWithout, WatchesWithout, Unlisted;
    CancelledStay(desk, c);
    UnlistedIsRemoved(listed, c);
  }

  lemma RepliedKeeps(d: Daemon, c: nat, reply: Reply)
    requires Invariant(d) && c in d.server.listed
    ensures Invariant(Replied(d, c, reply))
  {
    hide Held, Owned;
    var e := Replied(d, c, reply);
    SameHeld(d, e);
    ListedIsAllocated(d.server, [] + Held(d), c);
    forall x: nat ensures Counts(e.server, [] + Held(e), x) {
      assert Counts(d.server, [] + Held(d), x);
    }
  }

  // ----- requests

  lemma TriggerStaysSettled(d: Daemon, kind: Kind, owner: Option<nat>)
    requires IsSettled(d) && (owner.Some? ==> owner.value in d.server.connections)
    ensures IsSettled(WithTrigger(d, kind, owner)) && WithTrigger(d, kind, owner).server.listed == d.server.listed
  {
  }

  lemma OwnersTriggerIsMade(d: Daemon, kind: Kind, c: nat)
    requires Invariant(d) && c in d.server.listed
    ensures InOrderBut(WithTrigger(d, kind, Some(c)), [NextTrigger(d, kind, Some(c))])
    ensures IsSettled(WithTrigger(d, kind, Some(c))) && WithTrigger(d, kind, Some(c)).server.listed == d.server.listed
  {
    ListedIsAllocated(d.server, [] + Held(d), c);
    TriggerIsMade(d, kind, Some(c));
    TriggerStaysSettled(d, kind, Some(c));
  }

  lemma FlagsKeep(d: Daemon, retain: bool)
    requires Invariant(d)
    ensures Invariant(Reactivated(d)) && Invariant(d.(transition := d.transition.(retainSplash := retain)))
  {
    hide AllCount, AreOwned, AreListed, DeskTriggers;
    Rearranged(d, [], Reactivated(d), []);
    Rearranged(d, [], d.(transition := d.transition.(retainSplash := retain)), []);
  }

  lemma QuitKeepsList(d: Daemon, t: Trigger, retain: bool, hasSplash: bool)
    ensures Quit(d, t, retain, hasSplash).server.listed == d.server.listed
  {
    hide PulledAll;
    var queued := d.(transition := d.transition.(quit := [t], retainSplash := retain));
    PullsKeepList(d.server, Bare(queued.transition.deactivate) + Bare(queued.transition.quit));
  }

  lemma IgnoringKeeps(d: Daemon, c: nat, keys: Option<seq<byte>>)
    requires Invariant(d) && c in d.server.listed
    ensures Invariant(Replied(DeskEvent(d, Ignore(keys)), c, Ack))
  {
    hide PulledAll, AllCount, Held, AreOwned, AreListed, After, Replied;
    DeskEventKeeps(d, Ignore(keys));
    PullsKeepList(d.server, After(d.desk, Ignore(keys)).1);
    RepliedKeeps(DeskEvent(d, Ignore(keys)), c, Ack);
  }

  lemma RestartingKeeps(d: Daemon, c: nat, hasSplash: bool)
    requires Invariant(d) && c in d.server.listed
    ensures var e := Quit(WithTrigger(d, Quitting, None), NextTrigger(d, Quitting, None), false, hasSplash);
      Invariant(Replied(e, c, Ack))
  {
    hide AllCount, Held, AreOwned, AreListed, Quit, Replied;
    var t := NextTrigger(d, Quitting, None);
    TriggerIsMade(d, Quitting, None);
    TriggerStaysSettled(d, Quitting, None);
    QuitKeeps(WithTrigger(d, Quitting, None), t, false, hasSplash);
    QuitKeepsList(WithTrigger(d, Quitting, None), t, false, hasSplash);
    RepliedKeeps(Quit(WithTrigger(d, Quitting, None), t, false, hasSplash), c, Ack);
  }

  /** A password nobody can be asked for is answered at once. */
  lemma RefusingKeeps(d: Daemon, c: nat)
    requires Invariant(d) && c in d.server.listed
    ensures Invariant(WithPulls(WithTrigger(d, Password, Some(c)), [Pull(NextTrigger(d, Password, Some(c)), None)]))
  {
    hide AllCount, Held, AreOwned, AreListed, WithPulls;
    var t := NextTrigger(d, Password, Some(c));
    OwnersTriggerIsMade(d, Password, c);
    assert Triggers([Pull(t, None)]) == [t];
    PullsSettle(WithTrigger(d, Password, Some(c)), [Pull(t, None)]);
    PullsStaySettled(WithTrigger(d, Password, Some(c)), [Pull(t, None)]);
  }

  lemma RequestedKeeps(d: Daemon, c: nat, r: Protocol.Request, around: Surroundings)
    requires Invariant(d) && c in d.server.listed
    ensures Invariant(Requested(d, c, r, around))
  {
    hide Invariant, Deactivated, Quit, DeskEvent, Replied, WithTrigger, WithPulls, Reactivated, Retains, InOrderBut, IsSettled, Retaining;
    RepliedKeeps(d, c, Nak);
    var kind := if r.command as char == 'D' then Deactivation
      else if r.command as char == 'Q' then Quitting
      else if r.command as char == '*' then Password
      else if r.command as char == 'W' then Question
      else Keystroke;
    var t := NextTrigger(d, kind, Some(c));
    var made := WithTrigger(d, kind, Some(c));
    OwnersTriggerIsMade(d, kind, c);
    match r.command as char {
      case 'D' => DeactivatedKeeps(made, t, around.hasSplash);
      case 'Q' => QuitKeeps(made, t, Retains(r), around.hasSplash);
      case '*' =>
        RefusingKeeps(d, c);
        DeskEventKeeps(made, Ask(Prompt(t, c, true)));
      case 'W' => DeskEventKeeps(made, Ask(Prompt(t, c, false)));
      case 'K' => DeskEventKeeps(made, WatchFor(Watch(t, c, r.argument)));
      case 'L' => IgnoringKeeps(d, c, r.argument);
      case 'R' =>
        RestartingKeeps(d, c, around.hasSplash);
        RepliedKeeps(d, c, Ack);
      case 'r' => FlagsKeepReplying(d, c);
      case '$' => FlagsKeepReplying(d, c);
      case 'H' => FlagsKeepReplying(d, c);
      case 'c' =>
        RepliedKeeps(d, c, Answers(d.server.passwords));
        HangingKeeps(d);
      case _ => RepliedKeeps(d, c, Ack);
    }
  }

  lemma HangingKeeps(d: Daemon)
    requires Invariant(d)
    ensures Invariant(d.(isHung := true))
  {
    hide AllCount, AreOwned, AreListed, DeskTriggers;
    Rearranged(d, [], d.(isHung := true), []);
  }

  lemma FlagsKeepReplying(d: Daemon, c: nat)
    requires Invariant(d) && c in d.server.listed
    ensures Invariant(Replied(d, c, Ack)) && Invariant(Replied(Reactivated(d), c, Ack)) && Invariant(Replied(Retaining(d), c, Ack))
  {
    hide Invariant, Replied;
    FlagsKeep(d, true);
    RepliedKeeps(d, c, Ack);
    RepliedKeeps(Reactivated(d), c, Ack);
    RepliedKeeps(Retaining(d), c, Ack);
  }

  lemma StepKeepsInvariant(d: Daemon, step: Step)
    requires Invariant(d) && CanStep(d, step)
    ensures Invariant(Stepped(d, step))
  {
    hide Invariant, Connected, Requested, Gone, DeskEvent, BecameIdle;
    match step {
      case Connect => ConnectedKeeps(d);
      case Request(c, request, around) =>
        if request.None? {
          GoneKeeps(d, c);
        } else {
          RequestedKeeps(d, c, request.value, around);
        }
      case Hangup(c) => GoneKeeps(d, c);
      case Keyboard(e) => KeyboardKeeps(d, e);
      case Idle => BecameIdleKeeps(d);
    }
  }

  lemma KeyboardKeeps(d: Daemon, e: Event)
    requires Invariant(d) && (e.Type? || e.Backspace? || e.Enter?) && CanHappen(e)
    ensures Invariant(DeskEvent(d, e))
  {
    hide AllCount, Held, AreOwned, AreListed, After;
    DeskEventKeeps(d, e);
  }

  lemma BootedIsInOrder()
    ensures Invariant(Booted())
  {
    assert Held(Booted()) == [];
  }

  // ----- over whole runs

  /**
   In every reachable state no freed memory was used and no assertion failed; a
   connection's reference count is one if it is listed plus the number of its
   triggers not yet pulled; it is freed exactly when that is zero; and every trigger
   made is held or pulled, once.
   */
  lemma {:induction false} EveryRunKeepsInvariant(d: Daemon, steps: seq<Step>)
    requires Invariant(d) && Daemons.IsRun(d, steps)
    ensures Invariant(Daemons.Run(d, steps))
    decreases steps
  {
    hide Invariant, Stepped, CanStep;
    if steps != [] {
      StepKeepsInvariant(d, steps[0]);
      EveryRunKeepsInvariant(Stepped(d, steps[0]), steps[1..]);
    }
  }

  lemma ReferenceCountIsExact(steps: seq<Step>, c: nat)
    requires Daemons.IsRun(Booted(), steps)
    ensures var d := Daemons.Run(Booted(), steps); var s := d.server; var count := (if c in s.listed then 1 else 0) + Owned(Held(d), c);
      && !s.failed
      && (c in s.connections <==> count > 0)
      && (c in s.connections ==> s.connections[c].referenceCount == count)
  {
    BootedIsInOrder();
    EveryRunKeepsInvariant(Booted(), steps);
    hide Daemons.Run, Daemons.IsRun, Owned, Held;
    var d := Daemons.Run(Booted(), steps);
    assert [] + Held(d) == Held(d);
    assert Counts(d.server, Held(d), c);
  }
}
