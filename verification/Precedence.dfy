/**
 Whether a request can be answered before one that waits, from what the waiting one
 asked for and what the next one asks for; and that its reply then goes to an earlier
 request (src/ply-boot-server.c, src/daemon/plymouthd-interaction.c,
 src/daemon/plymouthd-transition.c, src/daemon/plymouthd-control.c).
 */
module Precedence {
  import opened Base
  import opened Protocol
  import opened Interactions
  import opened Daemons
  import opened References
  import opened DaemonRuns
  import opened DaemonAnswers
  import opened Conversations
  import opened Turns
  import opened Overtaking
  import Matching

  // ----- where a trigger waits

  predicate IsPrompting(k: Kind) {
    k.Password? || k.Question?
  }

  /** Every trigger waits where its kind says. */
  predicate AreInPlace(desk: Desk, transition: Transition) {
    && (forall p <- desk.prompts :: IsPrompting(p.trigger.kind))
    && (forall w <- desk.watches :: w.trigger.kind.Keystroke?)
    && (forall t <- transition.deactivate :: t.kind.Deactivation?)
    && (forall t <- transition.quit :: t.kind.Quitting?)
  }

  lemma DeskStaysInPlace(desk: Desk, e: Event, tr: Transition)
    requires CanHappen(e) && AreInPlace(desk, tr)
    requires e.Ask? ==> IsPrompting(e.prompt.trigger.kind)
    requires e.WatchFor? ==> e.watch.trigger.kind.Keystroke?
    ensures AreInPlace(After(desk, e).0, tr)
  {
    hide FirstMatch, FirstWithKeys, CString, Typed, Cancels, PromptsWithout, WatchesWithout;
    if e.Cancel? {
      CancelledStay(desk, e.connection);
    }
  }

  lemma GoneStaysInPlace(d: Daemon, c: nat)
    requires AreInPlace(d.desk, d.transition)
    ensures AreInPlace(Gone(d, c).desk, Gone(d, c).transition)
  {
    hide PulledAll, PromptsWithout, WatchesWithout, Unlisted, MarkedDisconnected, DropReference, Triggers;
    CancelledStay(d.desk, c);
  }

  lemma DeactivatedStaysInPlace(d: Daemon, t: Trigger, hasSplash: bool)
    requires AreInPlace(d.desk, d.transition) && t.kind.Deactivation?
    ensures AreInPlace(Deactivated(d, t, hasSplash).desk, Deactivated(d, t, hasSplash).transition)
  {
    hide PulledAll, Triggers, Bare;
  }

  lemma QuitStaysInPlace(d: Daemon, t: Trigger, retain: bool, hasSplash: bool)
    requires AreInPlace(d.desk, d.transition) && t.kind.Quitting?
    ensures AreInPlace(Quit(d, t, retain, hasSplash).desk, Quit(d, t, retain, hasSplash).transition)
  {
    hide PulledAll, Triggers, Bare;
  }

  lemma IdleStaysInPlace(d: Daemon)
    requires AreInPlace(d.desk, d.transition)
    ensures AreInPlace(BecameIdle(d).desk, BecameIdle(d).transition)
  {
    hide PulledAll, Triggers, Bare;
  }

  lemma EventStaysInPlace(d: Daemon, e: Event)
    requires CanHappen(e) && AreInPlace(d.desk, d.transition)
    requires e.Ask? ==> IsPrompting(e.prompt.trigger.kind)
    requires e.WatchFor? ==> e.watch.trigger.kind.Keystroke?
    ensures AreInPlace(DeskEvent(d, e).desk, DeskEvent(d, e).transition)
  {
    hide PulledAll, Triggers, After;
    DeskStaysInPlace(d.desk, e, d.transition);
  }

  lemma RequestStaysInPlace(d: Daemon, c: nat, r: Protocol.Request, around: Surroundings)
    requires AreInPlace(d.desk, d.transition)
    ensures AreInPlace(Requested(d, c, r, around).desk, Requested(d, c, r, around).transition)
  {
    hide Deactivated, Quit, DeskEvent, AreInPlace, Retains, CanBeGathered, PulledAll, Triggers;
    var made, u := WithTrigger(d, KindOf(r), Some(c)), NextTrigger(d, KindOf(r), Some(c));
    if around.isRoot {
      match r.command as char {
        case 'D' => DeactivatedStaysInPlace(made, u, around.hasSplash);
        case 'Q' => QuitStaysInPlace(made, u, Retains(r), around.hasSplash);
        case '*' => EventStaysInPlace(made, Ask(Prompt(u, c, true)));
        case 'W' => EventStaysInPlace(made, Ask(Prompt(u, c, false)));
        case 'K' => EventStaysInPlace(made, WatchFor(Watch(u, c, r.argument)));
        case 'L' => EventStaysInPlace(d, Ignore(r.argument));
        case 'R' =>
          QuitStaysInPlace(WithTrigger(d, Quitting, None), NextTrigger(d, Quitting, None), false, around.hasSplash);
        case _ =>
      }
    }
    FlagsStayInPlace(d);
  }

  lemma FlagsStayInPlace(d: Daemon)
    requires AreInPlace(d.desk, d.transition)
    ensures AreInPlace(d.desk, Reactivated(d).transition) && AreInPlace(d.desk, Retaining(d).transition)
  {
  }

  lemma {:induction false} RunStaysInPlace(d: Daemon, steps: seq<Daemons.Step>)
    requires AreInPlace(d.desk, d.transition) && Daemons.IsRun(d, steps)
    ensures AreInPlace(Daemons.Run(d, steps).desk, Daemons.Run(d, steps).transition)
    decreases steps
  {
    hide AreInPlace, Requested, Gone, DeskEvent, BecameIdle;
    if steps != [] {
      match steps[0] {
        case Connect =>
        case Request(c, request, around) =>
          if request.None? {
            GoneStaysInPlace(d, c);
          } else {
            RequestStaysInPlace(d, c, request.value, around);
          }
        case Hangup(c) => GoneStaysInPlace(d, c);
        case Keyboard(e) => EventStaysInPlace(d, e);
        case Idle => IdleStaysInPlace(d);
      }
      RunStaysInPlace(Daemons.Stepped(d, steps[0]), steps[1..]);
    }
  }

  // ----- the exact condition

  /**
   What `t` waits for, the next request and what the daemon finds around it decide.
   A prompt is answered after a prompt, a deactivation after a deactivation, a quit
   after both, and a keystroke after one for the same keys.  Ignoring the keys of `t`
   answers `t` first, and so does a new root that makes the daemon quit at once when
   a deactivation waits; cached passwords that cannot be gathered are never answered.
   */
  predicate KeepsItsTurn(d: Daemon, t: Trigger, r: Protocol.Request, around: Surroundings) {
    && around.isRoot
    && match r.command as char
       case 'D' => t.kind.Deactivation?
       case 'Q' => t.kind.Deactivation? || t.kind.Quitting?
       case '*' => (around.hasSplash || around.isShown) && IsPrompting(t.kind)
       case 'W' => IsPrompting(t.kind)
       case 'K' => t.kind.Keystroke? && IsWatched(d.desk.watches, t, r.argument)
       case 'L' => t.kind.Keystroke? && IsFirstWatch(d.desk.watches, t, r.argument)
       case 'R' => around.initIsShell && !around.hasSplash && d.transition.quit == [] && t.kind.Deactivation?
       case 'c' => !CanBeGathered(d.server.passwords)
       case _ => false
  }

  lemma KindTellsPlace(d: Daemon, t: Trigger)
    requires AreInPlace(d.desk, d.transition) && t in Held(d)
    ensures t in PromptTriggers(d.desk.prompts) <==> IsPrompting(t.kind)
    ensures t in WatchTriggers(d.desk.watches) <==> t.kind.Keystroke?
    ensures t in d.transition.deactivate <==> t.kind.Deactivation?
    ensures t in d.transition.quit <==> t.kind.Quitting?
  {
    forall p | p in PromptTriggers(d.desk.prompts) ensures IsPrompting(p.kind) {
      var i :| 0 <= i < |d.desk.prompts| && PromptTriggers(d.desk.prompts)[i] == p;
    }
    forall w | w in WatchTriggers(d.desk.watches) ensures w.kind.Keystroke? {
      var i :| 0 <= i < |d.desk.watches| && WatchTriggers(d.desk.watches)[i] == w;
    }
  }

  lemma WatchedIsWatch(ws: seq<Watch>, t: Trigger, keys: Option<seq<byte>>)
    ensures IsWatched(ws, t, keys) || IsFirstWatch(ws, t, keys) ==> t in WatchTriggers(ws)
  {
    forall i | 0 <= i < |ws| ensures ws[i].trigger in WatchTriggers(ws) {
      assert WatchTriggers(ws)[i] == ws[i].trigger;
    }
  }

  lemma KeepsIsPlacedBehind(d: Daemon, t: Trigger, r: Protocol.Request, around: Surroundings)
    requires AreInPlace(d.desk, d.transition) && t in Held(d)
    ensures KeepsItsTurn(d, t, r, around) <==> IsPlacedBehind(d, t, r, around)
  {
    hide Held, AreInPlace, PromptTriggers, WatchTriggers, IsWatched, IsFirstWatch, CanBeGathered;
    KindTellsPlace(d, t);
    WatchedIsWatch(d.desk.watches, t, r.argument);
  }

  /**
   In every state the daemon can get to, let a request of the connection's wait, and
   let the daemon read its next one.  The next one can be answered first, without
   anything more from the connection, exactly when it does not keep its turn; when it
   keeps it, nothing at all that may follow answers it first.
   */
  lemma OvertakesIff(before: seq<Daemons.Step>, c: nat, t: Trigger, r: Protocol.Request, around: Surroundings)
    requires Daemons.IsRun(Booted(), before)
    requires var d := Daemons.Run(Booted(), before);
      Daemons.CanStep(d, Read(c, r, around)) && t in d.made && t !in d.pulled && t.owner == Some(c)
    ensures var d := Daemons.Run(Booted(), before);
      && (Overtakes(d, c, t, r, around) <==> !KeepsItsTurn(d, t, r, around))
      && (KeepsItsTurn(d, t, r, around) ==>
            forall steps :: Daemons.IsRun(Requested(d, c, r, around), steps) ==>
              !IsOvertaken(d, Daemons.Run(Requested(d, c, r, around), steps), c, t, r, around))
  {
    hide Daemons.IsRun, Daemons.Run, AreInPlace, Invariant, AreOfPulled, IsIdling, Held, KeepsItsTurn, IsOvertaken, IsPlacedBehind, Requested,
      ReadsNothing;
    var d := Daemons.Run(Booted(), before);
    BootedIsReadable();
    RunKeepsIdling(Booted(), before);
    RunStaysInPlace(Booted(), before);
    EveryAnswerIsPulled(Booted(), before);
    NotPulledIsHeld(d, t);
    KeepsIsPlacedBehind(d, t, r, around);
    if KeepsItsTurn(d, t, r, around) {
      forall steps | Daemons.IsRun(Requested(d, c, r, around), steps)
        ensures !IsOvertaken(d, Daemons.Run(Requested(d, c, r, around), steps), c, t, r, around)
      {
        TurnsAreKept(d, c, t, r, around, steps);
      }
    } else {
      ReadOvertakes(d, c, t, r, around);
    }
  }

  lemma BootedIsReadable()
    ensures Invariant(Booted()) && AreOfPulled(Booted()) && IsIdling(Booted()) && AreInPlace(Booted().desk, Booted().transition)
  {
    BootedIsInOrder();
  }

  // ----- a reply that is written too early goes to an earlier request

  lemma {:induction false} DistinctAreFew(ix: seq<nat>, n: nat)
    requires forall i :: 0 <= i < |ix| ==> ix[i] < n
    requires forall i, j :: 0 <= i < j < |ix| ==> ix[i] != ix[j]
    ensures |ix| <= n && (|ix| == n ==> forall k: nat :: k < n ==> k in ix)
    decreases n
  {
    assert ix == [] || ix[0] < n;
    if n > 0 {
      if n - 1 in ix {
        var i :| 0 <= i < |ix| && ix[i] == n - 1;
        var rest := ix[..i] + ix[i + 1..];
        assert forall j :: 0 <= j < |rest| ==> rest[j] == ix[if j < i then j else j + 1] < n;
        assert forall j :: 0 <= j < |rest| ==> rest[j] != n - 1;
        DistinctAreFew(rest, n - 1);
        assert forall x <- rest :: x in ix;
      } else {
        DistinctAreFew(ix, n - 1);
      }
    }
  }

  /** Replies written are no more than requests read, and fewer while one waits. */
  lemma RepliesAreFew(steps: seq<Daemons.Step>, c: nat)
    requires Daemons.IsRun(Booted(), steps) && !Daemons.Run(Booted(), steps).isHung && AreSendableFrom(steps, c)
    requires AllFit(Daemons.Run(Booted(), steps).server.log, c)
    ensures var d := Daemons.Run(Booted(), steps);
      && |RepliesTo(d.server.log, c)| <= |RequestsFrom(steps, c)|
      && forall t :: t in Held(d) && t.owner == Some(c) ==> |RepliesTo(d.server.log, c)| < |RequestsFrom(steps, c)|
  {
    hide Daemons.Run, Daemons.IsRun, Matching.Run, Matching.IsRun, RequestsFrom, RepliesTo, AllFit, Held, Matching.IsUp, Matching.IsDown;
    BootedIsInOrder();
    BootedAgrees(c);
    var d := Daemons.Run(Booted(), steps);
    var s, m := RunAnswers(Booted(), steps, c, Matching.Start(), map[]);
    assert [] + RequestsFrom(steps, c) == RequestsFrom(steps, c);
    var matching :| Matching.IsRun(Matching.Start(), matching) && Matching.Run(Matching.Start(), matching) == s;
    Matching.StartIsInOrder();
    Matching.RepliesComeInOrder(Matching.Start(), matching);
    var ix := seq(|s.written|, i requires 0 <= i < |s.written| => s.written[i].index);
    DistinctAreFew(ix, |s.replies|);
    assert |RepliesTo(d.server.log, c)| == |ix|;
    forall t | t in Held(d) && t.owner == Some(c) ensures |ix| < |s.replies| {
      assert t in multiset([]) + multiset(Held(d));
      assert m[t.serial] !in ix;
    }
  }

  lemma {:induction false} RequestsOfSum(a: seq<Daemons.Step>, b: seq<Daemons.Step>, c: nat)
    ensures RequestsFrom(a + b, c) == RequestsFrom(a, c) + RequestsFrom(b, c)
    decreases a
  {
    if a == [] {
      assert a + b == b;
    } else {
      assert (a + b)[1..] == a[1..] + b;
      RequestsOfSum(a[1..], b, c);
    }
  }

  lemma {:induction false} NothingRead(steps: seq<Daemons.Step>, c: nat)
    requires ReadsNothing(steps, c)
    ensures RequestsFrom(steps, c) == []
    decreases steps
  {
    if steps != [] {
      assert steps[0] in steps;
      NothingRead(steps[1..], c);
    }
  }

  lemma {:induction false} EarlierRepliesAreFewer(log: seq<Wrote>, i: nat, c: nat)
    requires i < |log| && log[i].connection == c
    ensures |RepliesTo(log[..i], c)| < |RepliesTo(log, c)|
    decreases |log|
  {
    var rest := log[..|log| - 1];
    if i < |rest| {
      assert rest[..i] == log[..i];
      EarlierRepliesAreFewer(rest, i, c);
    }
  }

  lemma PlacesOfTwo(log: seq<Wrote>, i: nat, k: nat, c: nat)
    requires i < k < |log| && log[i].connection == c && log[k].connection == c
    ensures |RepliesTo(log[..i], c)| + 2 <= |RepliesTo(log, c)|
  {
    EarlierRepliesAreFewer(log, k, c);
    EarlierRepliesAreFewer(log[..k], i, c);
    assert log[..k][..i] == log[..i];
  }

  /**
   The reply that comes too early has the place of a request read before: clients,
   which take replies in the order of their requests, take it for another's.
   */
  lemma OvertakenIsMisplaced(before: seq<Daemons.Step>, more: seq<Daemons.Step>, c: nat, t: Trigger, r: Protocol.Request,
                             around: Surroundings) returns (i: nat)
    requires Daemons.IsRun(Booted(), before + [Read(c, r, around)] + more) && ReadsNothing(more, c) && Daemons.IsRun(Booted(), before)
    requires AreSendableFrom(before + [Read(c, r, around)] + more, c)
    requires var d, e := Daemons.Run(Booted(), before), Daemons.Run(Booted(), before + [Read(c, r, around)] + more);
      && t in Held(d) && t.owner == Some(c) && IsOvertaken(d, e, c, t, r, around) && IsNotLost(e, |d.server.log|, c, t)
      && !e.isHung && AllFit(e.server.log, c)
    ensures var d, e := Daemons.Run(Booted(), before), Daemons.Run(Booted(), before + [Read(c, r, around)] + more);
      && |d.server.log| <= i < |e.server.log| && IsReplyFor(e.server.log[i], c, MarkOf(d, c, r, around))
      && |RepliesTo(e.server.log[..i], c)| < |RequestsFrom(before, c)|
  {
    hide Daemons.Run, Daemons.IsRun, RequestsFrom, RepliesTo, AllFit, Held, Invariant, AreSendableFrom, ReadsNothing, HasReply;
    var steps := before + [Read(c, r, around)] + more;
    var d, e := Daemons.Run(Booted(), before), Daemons.Run(Booted(), steps);
    BootedIsInOrder();
    EveryRunKeepsInvariant(Booted(), before);
    HeldIsOld(d, t);
    RepliesAreFew(steps, c);
    RequestsOfSum(before + [Read(c, r, around)], more, c);
    RequestsOfSum(before, [Read(c, r, around)], c);
    OneRequest(Read(c, r, around), c);
    NothingRead(more, c);
    var log, start := e.server.log, |d.server.log|;
    i :| start <= i < |log| && IsReplyFor(log[i], c, MarkOf(d, c, r, around)) && !AnsweredIn(log, start, i, c, t);
    EarlierRepliesAreFewer(log, i, c);
    if t !in Held(e) {
      AnsweredLater(log, start, i, c, t, MarkOf(d, c, r, around));
    }
  }

  lemma AnsweredLater(log: seq<Wrote>, start: nat, i: nat, c: nat, t: Trigger, mark: Option<Trigger>)
    requires start <= i < |log| && IsReplyFor(log[i], c, mark) && mark != Some(t)
    requires !AnsweredIn(log, start, i, c, t) && HasReply(log, start, c, Some(t))
    ensures |RepliesTo(log[..i], c)| + 2 <= |RepliesTo(log, c)|
  {
    hide RepliesTo;
    var k :| start <= k < |log| && IsReplyFor(log[k], c, Some(t));
    PlacesOfTwo(log, i, k, c);
  }
}
