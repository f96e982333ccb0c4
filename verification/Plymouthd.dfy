/**
 The daemon as the source has it: objects updated in place.  Every method is proved
 against its meaning on values in Daemons, and touches only connections that are
 still in memory.
 */
module Plymouthd {
  import opened Base
  import opened Protocol
  import opened Interactions
  import opened Daemons
  import opened References
  import opened DaemonRuns

  /** plymouthd_transition_t; a trigger and those chained to it are kept in a list. */
  class TransitionState {
    var deactivateTriggers: seq<Trigger>
    var quitTriggers: seq<Trigger>
    var retainSplash: bool
    var becomingIdle: bool
    var isInactive: bool

    ghost function Snapshot(): Transition
      reads this
    {
      Transition(deactivateTriggers, quitTriggers, retainSplash, becomingIdle, isInactive)
    }

    constructor ()
      ensures Snapshot() == Transition([], [], false, false, false)
    {
      deactivateTriggers, quitTriggers := [], [];
      retainSplash, becomingIdle, isInactive := false, false, false;
    }

    /** Tells whether the trigger is the first, and not chained to another. */
    method QueueDeactivate(t: Trigger) returns (first: bool)
      modifies this
      ensures first == (old(deactivateTriggers) == [])
      ensures Snapshot() == old(Snapshot()).(deactivate := old(deactivateTriggers) + [t])
    {
      first := |deactivateTriggers| == 0;
      deactivateTriggers := deactivateTriggers + [t];
    }

    method QueueQuit(retain: bool, t: Trigger) returns (first: bool)
      modifies this
      ensures first == (old(quitTriggers) == [])
      ensures Snapshot() == if first then old(Snapshot()).(quit := [t], retainSplash := retain)
                            else old(Snapshot()).(quit := old(quitTriggers) + [t])
    {
      first := |quitTriggers| == 0;
      quitTriggers := quitTriggers + [t];
      if first {
        retainSplash := retain;
      }
    }

    method BeginIdle() returns (begun: bool)
      modifies this
      ensures begun == !old(becomingIdle) && Snapshot() == old(Snapshot()).(becomingIdle := true)
    {
      begun := !becomingIdle;
      becomingIdle := true;
    }

    method EndIdle()
      modifies this
      ensures Snapshot() == old(Snapshot()).(becomingIdle := false)
    {
      becomingIdle := false;
    }

    method Activate()
      modifies this
      ensures Snapshot() == old(Snapshot()).(isInactive := false)
    {
      isInactive := false;
    }

    method SetRetainSplash(retain: bool)
      modifies this
      ensures Snapshot() == old(Snapshot()).(retainSplash := retain)
    {
      retainSplash := retain;
    }

    /** Gives the triggers to pull. */
    method CompleteDeactivate() returns (pulls: seq<Pull>)
      modifies this
      ensures Snapshot() == old(Snapshot()).(deactivate := [], isInactive := true) && pulls == Bare(old(deactivateTriggers))
    {
      isInactive := true;
      pulls := Bare(deactivateTriggers);
      deactivateTriggers := [];
    }

    method CompleteAll() returns (pulls: seq<Pull>)
      modifies this
      ensures Snapshot() == old(Snapshot()).(deactivate := [], quit := [])
      ensures pulls == Bare(old(deactivateTriggers)) + Bare(old(quitTriggers))
    {
      pulls := Bare(deactivateTriggers) + Bare(quitTriggers);
      deactivateTriggers, quitTriggers := [], [];
    }
  }

  class Plymouthd {
    const interaction: Interaction
    const transition: TransitionState
    var connections: map<nat, Connection>
    var listed: seq<nat>
    var nextConnection: nat
    var cachedPasswords: seq<seq<byte>>
    var triggersMade: nat
    var isHung: bool
    var hasExited: bool
    ghost var log: seq<Wrote>
    ghost var made: seq<Trigger>
    ghost var pulled: seq<Trigger>

    ghost function ServerNow(): Server
      reads this
    {
      Server(connections, listed, nextConnection, cachedPasswords, log, false)
    }

    ghost function Snapshot(): Daemon
      reads this, interaction, transition
    {
      Daemon(ServerNow(), interaction.Snapshot(), transition.Snapshot(), made, pulled, isHung, hasExited)
    }

    ghost predicate Valid()
      reads this, interaction, transition
    {
      triggersMade == |made|
    }

    constructor ()
      ensures Valid() && Snapshot() == Booted() && Invariant(Snapshot())
      ensures fresh(interaction) && fresh(transition)
    {
      interaction := new Interaction();
      transition := new TransitionState();
      connections := map[];
      listed, nextConnection, cachedPasswords, triggersMade, isHung, hasExited := [], 0, [], 0, false, false;
      log, made, pulled := [], [], [];
      new;
      BootedIsInOrder();
    }

    // ----- references and replies

    method TakeReference(c: nat)
      requires c in connections
      modifies `connections
      ensures ServerNow() == Daemons.TakeReference(old(ServerNow()), c)
    {
      connections := connections[c := connections[c].(referenceCount := connections[c].referenceCount + 1)];
    }

    method DropReference(c: nat)
      requires c in connections && connections[c].referenceCount >= 1
      modifies `connections
      ensures ServerNow() == Daemons.DropReference(old(ServerNow()), c)
    {
      var count := connections[c].referenceCount - 1;
      if count == 0 {
        connections := connections - {c};
      } else {
        connections := connections[c := connections[c].(referenceCount := count)];
      }
    }

    ghost method Write(c: nat, t: Option<Trigger>, reply: Reply)
      requires c in connections
      modifies `log
      ensures ServerNow() == Daemons.Write(old(ServerNow()), c, t, reply)
    {
      log := log + [Wrote(c, t, reply)];
    }

    /** Pulling a trigger calls the connection back. */
    method PullTrigger(p: Pull)
      requires p.trigger.owner.Some? ==>
                 p.trigger.owner.value in connections && connections[p.trigger.owner.value].referenceCount >= 1
      modifies `connections, `cachedPasswords, `log
      ensures ServerNow() == Pulled(old(ServerNow()), p)
    {
      if p.trigger.owner.None? {
        return;
      }
      var c := p.trigger.owner.value;
      if !connections[c].disconnected {
        Write(c, Some(p.trigger), ReplyTo(p));
      }
      if p.trigger.kind.Password? && p.answer.Some? {
        cachedPasswords := cachedPasswords + [p.answer.value];
      }
      DropReference(c);
    }

    /** Pulls triggers in order.  Their connections are in memory because each still holds its reference. */
    method PullAll(pulls: seq<Pull>)
      requires InOrderBut(Snapshot(), Triggers(pulls))
      modifies `connections, `cachedPasswords, `log, `pulled
      ensures Snapshot() == WithPulls(old(Snapshot()), pulls)
    {
      hide Pulled, AllCount;
      ghost var held := Held(Snapshot());
      ghost var before := pulled;
      var i := 0;
      while i < |pulls|
        modifies `connections, `cachedPasswords, `log
        invariant 0 <= i <= |pulls| && AllCount(ServerNow(), Triggers(pulls[i..]) + held)
        invariant PulledAll(ServerNow(), pulls[i..]) == PulledAll(old(ServerNow()), pulls)
        invariant listed == old(listed) && nextConnection == old(nextConnection)
      {
        var p, rest := pulls[i], pulls[i + 1..];
        assert pulls[i..][1..] == rest;
        assert Triggers(pulls[i..]) + held == [p.trigger] + (Triggers(rest) + held);
        OwnerIsThere(ServerNow(), p.trigger, Triggers(rest) + held);
        PullKeepsCount(ServerNow(), p, Triggers(rest) + held);
        PullTrigger(p);
        i := i + 1;
      }
      pulled := before + Triggers(pulls);
    }

    // ----- transitions

    method CompleteAll()
      requires Invariant(Snapshot())
      modifies this, transition
      ensures Snapshot() == CompletedAll(old(Snapshot())) && triggersMade == old(triggersMade)
    {
      hide PulledAll, AllCount, DeskTriggers, IsSettled, Triggers, Bare;
      ghost var d := Snapshot();
      hasExited := true;
      var pulls := transition.CompleteAll();
      BareTriggers(d.transition.deactivate, d.transition.quit);
      Rearranged(d, [], Snapshot(), Triggers(pulls));
      PullAll(pulls);
    }

    method DeactivateSplash()
      requires Invariant(Snapshot()) && !transition.isInactive
      modifies this, transition
      ensures Snapshot() == DeactivatedSplash(old(Snapshot())) && triggersMade == old(triggersMade)
    {
      hide PulledAll, AllCount, DeskTriggers, IsSettled, Triggers, Bare;
      ghost var d := Snapshot();
      var pulls := transition.CompleteDeactivate();
      BareTriggers(d.transition.deactivate, []);
      Rearranged(d, [], Snapshot(), Triggers(pulls));
      PullAll(pulls);
    }

    method HandleDeactivate(t: Trigger, hasSplash: bool)
      requires InOrderBut(Snapshot(), [t]) && IsSettled(Snapshot())
      modifies this, transition
      ensures Snapshot() == Deactivated(old(Snapshot()), t, hasSplash) && triggersMade == old(triggersMade)
    {
      hide WithPulls, AllCount, DeskTriggers, AreOwned, AreListed, DeactivatedSplash;
      ghost var d := Snapshot();
      if transition.isInactive {
        assert Triggers([Pull(t, None)]) == [t];
        PullAll([Pull(t, None)]);
        return;
      }
      var first := transition.QueueDeactivate(t);
      assert [] + [t] == [t];
      if !first {
        return;
      }
      if hasSplash {
        var begun := transition.BeginIdle();
      } else {
        Rearranged(d, [t], Snapshot(), []);
        DeactivateSplash();
      }
    }

    method HandleQuit(retain: bool, t: Trigger, hasSplash: bool)
      requires InOrderBut(Snapshot(), [t]) && IsSettled(Snapshot())
      modifies this, transition
      ensures Snapshot() == Quit(old(Snapshot()), t, retain, hasSplash) && triggersMade == old(triggersMade)
    {
      hide WithPulls, AllCount, DeskTriggers, AreOwned, AreListed, CompletedAll;
      ghost var d := Snapshot();
      var first := transition.QueueQuit(retain, t);
      assert [] + [t] == [t];
      if !first {
        return;
      }
      Rearranged(d, [t], Snapshot(), []);
      if transition.isInactive && !retain {
        CompleteAll();
      } else if hasSplash {
        var begun := transition.BeginIdle();
      } else {
        CompleteAll();
      }
    }

    method OnBootSplashIdle()
      requires Invariant(Snapshot()) && Valid()
      modifies this, transition
      ensures Snapshot() == BecameIdle(old(Snapshot())) && Invariant(Snapshot()) && Valid()
    {
      hide WithPulls, AllCount, DeskTriggers, AreOwned, AreListed, CompletedAll, DeactivatedSplash;
      BecameIdleKeeps(Snapshot());
      MadeStays(Snapshot());
      if |transition.quitTriggers| > 0 {
        CompleteAll();
      } else if |transition.deactivateTriggers| > 0 {
        DeactivateSplash();
      }
      transition.EndIdle();
    }

    // ----- the desk

    /** Takes over what the prompts and watches did, and pulls the triggers they answered. */
    method Settle(e: Event, pulls: seq<Pull>, ghost was: Daemon)
      requires CanHappen(e) && InOrderBut(was, AddedBy(e)) && IsSettled(was)
      requires (interaction.Snapshot(), pulls) == After(was.desk, e) && Snapshot() == was.(desk := interaction.Snapshot())
      modifies this
      ensures Snapshot() == DeskEvent(was, e) && triggersMade == old(triggersMade)
    {
      hide PulledAll, AllCount, Held, AreOwned, AreListed, After, AddedBy, Triggers;
      DeskIsExchanged(was, e);
      ExchangedInHand(was, AddedBy(e), Snapshot(), Triggers(pulls));
      PullAll(pulls);
    }

    method OnKeyboardInput(input: Input, accepts: bool)
      requires Invariant(Snapshot()) && IsInput(input)
      modifies this, interaction
      ensures Snapshot() == DeskEvent(old(Snapshot()), Type(input, accepts)) && Invariant(Snapshot())
    {
      hide PulledAll, AllCount, Held, AreOwned, AreListed, After;
      ghost var was := Snapshot();
      KeyboardKeeps(was, Type(input, accepts));
      var pulls := interaction.HandleInput(input, accepts);
      Settle(Type(input, accepts), pulls, was);
    }

    method OnBackspace()
      requires Invariant(Snapshot())
      modifies this, interaction
      ensures Snapshot() == DeskEvent(old(Snapshot()), Backspace) && Invariant(Snapshot())
    {
      hide PulledAll, AllCount, Held, AreOwned, AreListed, After;
      ghost var was := Snapshot();
      KeyboardKeeps(was, Backspace);
      interaction.HandleBackspace();
      Settle(Backspace, [], was);
    }

    method OnEnter(line: seq<byte>, accepts: bool)
      requires Invariant(Snapshot())
      modifies this, interaction
      ensures Snapshot() == DeskEvent(old(Snapshot()), Enter(line, accepts)) && Invariant(Snapshot())
    {
      hide PulledAll, AllCount, Held, AreOwned, AreListed, After;
      ghost var was := Snapshot();
      KeyboardKeeps(was, Enter(line, accepts));
      var pulls := interaction.HandleEnter(line, accepts);
      Settle(Enter(line, accepts), pulls, was);
    }

    // ----- connections

    method OnNewConnection()
      requires Invariant(Snapshot())
      modifies this
      ensures Snapshot() == Connected(old(Snapshot())) && Invariant(Snapshot()) && triggersMade == old(triggersMade)
    {
      ConnectedKeeps(Snapshot());
      hide InOrderBut, IsSettled;
      var c := nextConnection;
      connections := connections[c := Connection(1, false)];
      listed := listed + [c];
      nextConnection := c + 1;
    }

    /** disconnect, after a request that could not be read, and on_hangup. */
    method OnHangup(c: nat)
      requires Invariant(Snapshot()) && c in listed
      modifies this, interaction
      ensures Snapshot() == Gone(old(Snapshot()), c) && Invariant(Snapshot()) && triggersMade == old(triggersMade)
    {
      hide PulledAll, Cancelled, AllCount, Held, AreOwned, AreListed, Triggers, Unlisted;
      ghost var d := Snapshot();
      GoneKeeps(d, c);
      ListedIsAllocated(ServerNow(), [] + Held(d), c);
      MarkingKeepsCount(d, c);
      connections := connections[c := connections[c].(disconnected := true)];
      ghost var marked := Snapshot();
      var pulls := interaction.CancelConnection(c);
      DeskIsExchanged(marked, Cancel(c));
      ExchangedInHand(marked, [], Snapshot(), Triggers(pulls));
      PullsKeepList(ServerNow(), pulls);
      PullsSettle(Snapshot(), pulls);
      PullAll(pulls);
      ListedIsAllocated(ServerNow(), [] + Held(Snapshot()), c);
      CountIsPositive(ServerNow(), [] + Held(Snapshot()), c);
      listed := Unlisted(listed, c);
      DropReference(c);
    }

    // ----- requests

    method MakeTrigger(kind: Kind, owner: Option<nat>) returns (t: Trigger)
      requires Valid() && (owner.Some? ==> owner.value in connections)
      modifies this
      ensures Valid() && t == NextTrigger(old(Snapshot()), kind, owner) && Snapshot() == WithTrigger(old(Snapshot()), kind, owner)
    {
      t := Trigger(triggersMade, kind, owner);
      triggersMade := triggersMade + 1;
      made := made + [t];
      if owner.Some? {
        TakeReference(owner.value);
      }
    }

    ghost method WriteReply(c: nat, reply: Reply)
      requires c in connections
      modifies `log
      ensures Snapshot() == Replied(old(Snapshot()), c, reply)
    {
      Write(c, None, reply);
    }

    method OnDeactivateRequest(c: nat, around: Surroundings)
      requires Invariant(Snapshot()) && Valid() && c in listed
      modifies this, interaction, transition
      ensures Valid() && Snapshot() == Deactivated(WithTrigger(old(Snapshot()), Deactivation, Some(c)),
                                                    NextTrigger(old(Snapshot()), Deactivation, Some(c)), around.hasSplash)
    {
      hide Deactivated, InOrderBut, IsSettled, WithTrigger;
      ghost var d := Snapshot();
      ListedIsThere(d, c);
      OwnersTriggerIsMade(d, Deactivation, c);
      var t := MakeTrigger(Deactivation, Some(c));
      HandleDeactivate(t, around.hasSplash);
      MadeStaysDeactivated(WithTrigger(d, Deactivation, Some(c)), t, around.hasSplash);
    }

    method OnQuitRequest(owner: Option<nat>, retain: bool, around: Surroundings)
      requires Invariant(Snapshot()) && Valid() && (owner.Some? ==> owner.value in listed)
      modifies this, interaction, transition
      ensures Valid() && Snapshot() == Quit(WithTrigger(old(Snapshot()), Quitting, owner),
                                            NextTrigger(old(Snapshot()), Quitting, owner), retain, around.hasSplash)
    {
      hide Quit, InOrderBut, IsSettled, WithTrigger;
      ghost var d := Snapshot();
      if owner.Some? {
        ListedIsThere(d, owner.value);
        OwnersTriggerIsMade(d, Quitting, owner.value);
      } else {
        TriggerIsMade(d, Quitting, None);
        TriggerStaysSettled(d, Quitting, None);
      }
      var t := MakeTrigger(Quitting, owner);
      HandleQuit(retain, t, around.hasSplash);
      MadeStaysQuit(WithTrigger(d, Quitting, owner), t, retain, around.hasSplash);
    }

    method OnPasswordRequest(c: nat, around: Surroundings)
      requires Invariant(Snapshot()) && Valid() && c in listed
      modifies this, interaction, transition
      ensures Valid()
      ensures var d := old(Snapshot()); var t := NextTrigger(d, Password, Some(c)); var withTrigger := WithTrigger(d, Password, Some(c));
        Snapshot() == if !around.hasSplash && !around.isShown then WithPulls(withTrigger, [Pull(t, None)])
                      else DeskEvent(withTrigger, Ask(Prompt(t, c, true)))
    {
      hide WithPulls, DeskEvent, AllCount, Held, AreOwned, AreListed, WithTrigger, After;
      ghost var d := Snapshot();
      ListedIsThere(d, c);
      OwnersTriggerIsMade(d, Password, c);
      var t := MakeTrigger(Password, Some(c));
      ghost var was := Snapshot();
      MadeStaysPulled(was, [Pull(t, None)]);
      MadeStaysAtDesk(was, Ask(Prompt(t, c, true)));
      if !around.hasSplash && !around.isShown {
        assert Triggers([Pull(t, None)]) == [t];
        PullAll([Pull(t, None)]);
      } else {
        interaction.QueueEntry(Prompt(t, c, true));
        Settle(Ask(Prompt(t, c, true)), [], was);
      }
    }

    method OnQuestionRequest(c: nat)
      requires Invariant(Snapshot()) && Valid() && c in listed
      modifies this, interaction, transition
      ensures Valid() && Snapshot() == DeskEvent(WithTrigger(old(Snapshot()), Question, Some(c)),
                                                 Ask(Prompt(NextTrigger(old(Snapshot()), Question, Some(c)), c, false)))
    {
      hide DeskEvent, AllCount, Held, AreOwned, AreListed, WithTrigger, After;
      ghost var d := Snapshot();
      ListedIsThere(d, c);
      OwnersTriggerIsMade(d, Question, c);
      var t := MakeTrigger(Question, Some(c));
      ghost var was := Snapshot();
      MadeStaysAtDesk(was, Ask(Prompt(t, c, false)));
      interaction.QueueEntry(Prompt(t, c, false));
      Settle(Ask(Prompt(t, c, false)), [], was);
    }

    method OnKeystrokeRequest(c: nat, keys: Option<seq<byte>>)
      requires Invariant(Snapshot()) && Valid() && c in listed
      modifies this, interaction, transition
      ensures Valid() && Snapshot() == DeskEvent(WithTrigger(old(Snapshot()), Keystroke, Some(c)),
                                                 WatchFor(Watch(NextTrigger(old(Snapshot()), Keystroke, Some(c)), c, keys)))
    {
      hide DeskEvent, AllCount, Held, AreOwned, AreListed, WithTrigger, After;
      ghost var d := Snapshot();
      ListedIsThere(d, c);
      OwnersTriggerIsMade(d, Keystroke, c);
      var t := MakeTrigger(Keystroke, Some(c));
      ghost var was := Snapshot();
      MadeStaysAtDesk(was, WatchFor(Watch(t, c, keys)));
      interaction.WatchKeystroke(Watch(t, c, keys));
      Settle(WatchFor(Watch(t, c, keys)), [], was);
    }

    method OnIgnoreRequest(c: nat, keys: Option<seq<byte>>)
      requires Invariant(Snapshot()) && Valid() && c in listed
      modifies this, interaction, transition
      ensures Valid() && Snapshot() == DeskEvent(old(Snapshot()), Ignore(keys)) && listed == old(listed)
    {
      hide PulledAll, AllCount, Held, AreOwned, AreListed, After;
      ghost var was := Snapshot();
      MadeStaysAtDesk(was, Ignore(keys));
      var pulls := interaction.IgnoreKeystroke(keys);
      Settle(Ignore(keys), pulls, was);
      PullsKeepList(was.server, pulls);
    }

    /** Gathers the passwords before anything is written, which may never end. */
    method OnCachedPasswordRequest(c: nat)
      requires c in connections
      modifies `log, `isHung
      ensures var d := old(Snapshot());
        Snapshot() == if CanBeGathered(d.server.passwords) then Replied(d, c, Protocol.Reply.Answers(d.server.passwords))
                      else d.(isHung := true)
    {
      GatheringEndsIff([], cachedPasswords);
      var payload := GatherPasswords(cachedPasswords);
      if payload.None? {
        isHung := true;
      } else {
        WriteReply(c, Protocol.Reply.Answers(cachedPasswords));
      }
    }

    /** on_request, once the request is read from a listed connection. */
    method OnRequest(c: nat, r: Protocol.Request, around: Surroundings)
      requires Invariant(Snapshot()) && Valid() && c in listed
      modifies this, interaction, transition
      ensures Valid() && Snapshot() == Requested(old(Snapshot()), c, r, around) && Invariant(Snapshot())
    {
      hide Deactivated, Quit, DeskEvent, WithTrigger, WithPulls, InOrderBut, IsSettled, Replied, Retaining, Reactivated;
      ghost var d := Snapshot();
      RequestedKeeps(d, c, r, around);
      ListedIsThere(d, c);
      var command := r.command as char;
      if !around.isRoot {
        WriteReply(c, Nak);
      } else if command == 'D' {
        OnDeactivateRequest(c, around);
      } else if command == 'Q' {
        OnQuitRequest(Some(c), r.argument.Some? && |r.argument.value| > 0, around);
      } else if command == '*' {
        OnPasswordRequest(c, around);
      } else if command == 'W' {
        OnQuestionRequest(c);
      } else if command == 'K' {
        OnKeystrokeRequest(c, r.argument);
      } else if command == 'c' {
        OnCachedPasswordRequest(c);
      } else if command == 'L' {
        DeskIgnores(d, c, r.argument);
        OnIgnoreRequest(c, r.argument);
        WriteReply(c, Ack);
      } else if command == 'V' {
        WriteReply(c, if around.hasActiveVt then Ack else Nak);
      } else if command == 'R' && around.initIsShell {
        QuitLeavesListed(d, c, around.hasSplash);
        OnQuitRequest(None, false, around);
        WriteReply(c, Ack);
      } else if command == 'r' {
        transition.Activate();
        ReactivatedIs(d);
        WriteReply(c, Ack);
      } else if command == '$' {
        RetainingIs(d);
        if !around.isShown && !transition.isInactive && around.ignoresShow {
          transition.SetRetainSplash(true);
        }
        WriteReply(c, Ack);
      } else if command == 'H' {
        RetainingIs(d);
        if !transition.isInactive && around.hasSplash {
          transition.SetRetainSplash(true);
        }
        WriteReply(c, Ack);
      } else if command in "UCuS!RlMmAaP" {
        WriteReply(c, Ack);
      } else {
        WriteReply(c, Nak);
      }
    }

    /** What the socket has for a connection: a request is read off it, or the connection is dropped. */
    method OnData(c: nat, arrived: seq<byte>, around: Surroundings) returns (rest: seq<byte>)
      requires Invariant(Snapshot()) && Valid() && c in listed
      modifies this, interaction, transition
      ensures Valid() && Invariant(Snapshot())
      ensures match ReadRequest(arrived)
        case Bad => Snapshot() == Gone(old(Snapshot()), c) && rest == []
        case Got(r, unread) => Snapshot() == Requested(old(Snapshot()), c, r, around) && rest == unread
    {
      hide Invariant, Gone, Requested, ReadRequest;
      var reading := ReadRequest(arrived);
      if reading.Bad? {
        GoneKeepsMade(Snapshot(), c);
        OnHangup(c);
        return [];
      }
      OnRequest(c, reading.value, around);
      return reading.rest;
    }
  }

  lemma GoneKeepsMade(d: Daemon, c: nat)
    ensures Gone(d, c).made == d.made
  {
  }

  lemma ReactivatedIs(d: Daemon)
    ensures Reactivated(d) == d.(transition := d.transition.(isInactive := false))
  {
  }

  lemma RetainingIs(d: Daemon)
    ensures Retaining(d) == d.(transition := d.transition.(retainSplash := true))
  {
  }

  lemma CountIsPositive(s: Server, held: seq<Trigger>, c: nat)
    requires AllCount(s, held) && c in s.connections
    ensures s.connections[c].referenceCount >= 1
  {
    assert Counts(s, held, c);
  }

  lemma DeskIgnores(d: Daemon, c: nat, keys: Option<seq<byte>>)
    requires Invariant(d) && c in d.server.listed
    ensures c in DeskEvent(d, Ignore(keys)).server.connections
  {
    hide PulledAll, AllCount, Held, AreOwned, AreListed, After;
    DeskEventKeeps(d, Ignore(keys));
    PullsKeepList(d.server, After(d.desk, Ignore(keys)).1);
    ListedIsAllocated(DeskEvent(d, Ignore(keys)).server, [] + Held(DeskEvent(d, Ignore(keys))), c);
  }

  lemma QuitLeavesListed(d: Daemon, c: nat, hasSplash: bool)
    requires Invariant(d) && c in d.server.listed
    ensures c in Quit(WithTrigger(d, Quitting, None), NextTrigger(d, Quitting, None), false, hasSplash).server.connections
  {
    hide AllCount, Held, AreOwned, AreListed, Quit;
    var made, t := WithTrigger(d, Quitting, None), NextTrigger(d, Quitting, None);
    TriggerIsMade(d, Quitting, None);
    TriggerStaysSettled(d, Quitting, None);
    QuitKeeps(made, t, false, hasSplash);
    QuitKeepsList(made, t, false, hasSplash);
    ListedIsThere(Quit(made, t, false, hasSplash), c);
  }

  lemma MadeStaysDeactivated(d: Daemon, t: Trigger, hasSplash: bool)
    ensures Deactivated(d, t, hasSplash).made == d.made
  {
  }

  lemma MadeStaysQuit(d: Daemon, t: Trigger, retain: bool, hasSplash: bool)
    ensures Quit(d, t, retain, hasSplash).made == d.made
  {
  }

  lemma MadeStaysPulled(d: Daemon, pulls: seq<Pull>)
    ensures WithPulls(d, pulls).made == d.made
  {
  }

  lemma MadeStaysAtDesk(d: Daemon, e: Event)
    requires CanHappen(e)
    ensures DeskEvent(d, e).made == d.made
  {
  }

  lemma OwnerIsThere(s: Server, t: Trigger, rest: seq<Trigger>)
    requires AllCount(s, [t] + rest)
    ensures t.owner.Some? ==> t.owner.value in s.connections && s.connections[t.owner.value].referenceCount >= 1
  {
    if t.owner.Some? {
      OwnedOfFirst(t, rest, t.owner.value);
      assert Counts(s, [t] + rest, t.owner.value);
    }
  }

  lemma MadeStays(d: Daemon)
    ensures BecameIdle(d).made == d.made
  {
  }
}
