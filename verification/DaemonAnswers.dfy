/** What connections are told: nothing after they are gone, and at most one answer to each deferred request. */
module DaemonAnswers {
  import opened Base
  import opened Protocol
  import opened Interactions
  import opened Daemons
  import opened References
  import opened DaemonRuns

  /** The connection is freed or marked disconnected. */
  predicate IsGone(s: Server, c: nat) {
    c in s.connections ==> s.connections[c].disconnected
  }

  /** The log grew, but not by anything written to the connection. */
  predicate IsSilent(before: seq<Wrote>, after: seq<Wrote>, c: nat) {
    before <= after && forall i :: |before| <= i < |after| ==> after[i].connection != c
  }

  /** The triggers that replies were written for. */
  function Answers(log: seq<Wrote>): seq<Trigger> {
    if log == [] then []
    else Answers(log[..|log| - 1]) + if log[|log| - 1].trigger.Some? then [log[|log| - 1].trigger.value] else []
  }

  lemma AnswersOfMore(log: seq<Wrote>, w: Wrote)
    ensures Answers(log + [w]) == Answers(log) + if w.trigger.Some? then [w.trigger.value] else []
  {
    assert (log + [w])[..|log|] == log;
  }

  /** Replies to deferred requests are written only when their triggers are pulled. */
  predicate AreOfPulled(d: Daemon) {
    multiset(Answers(d.server.log)) <= multiset(d.pulled)
  }

  /** What every part of a step keeps, for a connection `c`. */
  predicate Continues(d: Daemon, e: Daemon, c: nat) {
    && (AreOfPulled(d) ==> AreOfPulled(e))
    && (IsGone(d.server, c) ==> IsGone(e.server, c) && IsSilent(d.server.log, e.server.log, c))
    && (c < d.server.nextConnection && c !in d.server.listed ==> c !in e.server.listed)
    && d.server.nextConnection <= e.server.nextConnection
  }

  lemma ContinuesFurther(d: Daemon, e: Daemon, f: Daemon, c: nat)
    requires Continues(d, e, c) && Continues(e, f, c)
    ensures Continues(d, f, c)
  {
  }

  lemma SameContinues(d: Daemon, e: Daemon, c: nat)
    requires d.server == e.server && d.pulled == e.pulled
    ensures Continues(d, e, c)
  {
  }

  lemma PullIsSilent(s: Server, p: Pull, c: nat)
    ensures IsGone(s, c) ==> IsGone(Pulled(s, p), c) && IsSilent(s.log, Pulled(s, p).log, c)
  {
    hide ReplyTo;
  }

  lemma PullIsLogged(s: Server, p: Pull)
    ensures multiset(Answers(Pulled(s, p).log)) <= multiset(Answers(s.log)) + multiset{p.trigger}
  {
    hide Answers, ReplyTo;
    if p.trigger.owner.Some? {
      AnswersOfMore(s.log, Wrote(p.trigger.owner.value, Some(p.trigger), ReplyTo(p)));
    }
  }

  lemma {:induction false} PullsAreSilent(s: Server, pulls: seq<Pull>, c: nat)
    ensures var t := PulledAll(s, pulls);
      && (IsGone(s, c) ==> IsGone(t, c) && IsSilent(s.log, t.log, c))
      && multiset(Answers(t.log)) <= multiset(Answers(s.log)) + multiset(Triggers(pulls))
    decreases pulls
  {
    hide Answers, Pulled, IsGone;
    if pulls != [] {
      PullIsSilent(s, pulls[0], c);
      PullIsLogged(s, pulls[0]);
      PullsAreSilent(Pulled(s, pulls[0]), pulls[1..], c);
      assert Triggers(pulls) == [pulls[0].trigger] + Triggers(pulls[1..]);
    }
  }

  lemma PullingContinues(d: Daemon, pulls: seq<Pull>, c: nat)
    ensures Continues(d, WithPulls(d, pulls), c)
  {
    hide Answers, PulledAll, IsGone, Triggers;
    PullsAreSilent(d.server, pulls, c);
    PullsKeepList(d.server, pulls);
  }

  lemma CompletingContinues(d: Daemon, c: nat)
    ensures Continues(d, CompletedAll(d), c)
  {
    hide Continues, WithPulls;
    var cleared := d.(transition := d.transition.(deactivate := [], quit := []), hasExited := true);
    SameContinues(d, cleared, c);
    PullingContinues(cleared, Bare(d.transition.deactivate) + Bare(d.transition.quit), c);
    ContinuesFurther(d, cleared, CompletedAll(d), c);
  }

  lemma DeactivatingSplashContinues(d: Daemon, c: nat)
    ensures Continues(d, DeactivatedSplash(d), c)
  {
    if !d.transition.isInactive {
      hide Continues, WithPulls;
      var cleared := d.(transition := d.transition.(deactivate := [], isInactive := true));
      SameContinues(d, cleared, c);
      PullingContinues(cleared, Bare(d.transition.deactivate), c);
      ContinuesFurther(d, cleared, DeactivatedSplash(d), c);
    }
  }

  lemma DeactivatingContinues(d: Daemon, t: Trigger, hasSplash: bool, c: nat)
    ensures Continues(d, Deactivated(d, t, hasSplash), c)
  {
    hide Continues, WithPulls, DeactivatedSplash;
    var tr := d.transition;
    var e := Deactivated(d, t, hasSplash);
    if tr.isInactive {
      PullingContinues(d, [Pull(t, None)], c);
    } else if tr.deactivate == [] && !hasSplash {
      var queued := d.(transition := tr.(deactivate := [t]));
      SameContinues(d, queued, c);
      DeactivatingSplashContinues(queued, c);
      ContinuesFurther(d, queued, e, c);
    } else {
      SameContinues(d, e, c);
    }
  }

  lemma QuittingContinues(d: Daemon, t: Trigger, retain: bool, hasSplash: bool, c: nat)
    ensures Continues(d, Quit(d, t, retain, hasSplash), c)
  {
    hide Continues, CompletedAll;
    var tr := d.transition;
    var e := Quit(d, t, retain, hasSplash);
    var queued := d.(transition := tr.(quit := [t], retainSplash := retain));
    SameContinues(d, queued, c);
    CompletingContinues(queued, c);
    ContinuesFurther(d, queued, CompletedAll(queued), c);
    if e.server == d.server && e.pulled == d.pulled {
      SameContinues(d, e, c);
    }
  }

  lemma BecomingIdleContinues(d: Daemon, c: nat)
    ensures Continues(d, BecameIdle(d), c)
  {
    hide Continues, CompletedAll, DeactivatedSplash;
    var e := if d.transition.quit != [] then CompletedAll(d)
             else if d.transition.deactivate != [] then DeactivatedSplash(d)
             else d;
    CompletingContinues(d, c);
    DeactivatingSplashContinues(d, c);
    SameContinues(d, d, c);
    SameContinues(e, BecameIdle(d), c);
    ContinuesFurther(d, e, BecameIdle(d), c);
  }

  lemma DeskContinues(d: Daemon, e: Event, c: nat)
    requires CanHappen(e)
    ensures Continues(d, DeskEvent(d, e), c)
  {
    hide Continues, WithPulls, After;
    var (desk, pulls) := After(d.desk, e);
    SameContinues(d, d.(desk := desk), c);
    PullingContinues(d.(desk := desk), pulls, c);
    ContinuesFurther(d, d.(desk := desk), DeskEvent(d, e), c);
  }

  lemma MakingContinues(d: Daemon, kind: Kind, owner: Option<nat>, c: nat)
    ensures Continues(d, WithTrigger(d, kind, owner), c)
  {
  }

  lemma ReplyingContinues(d: Daemon, to: nat, reply: Reply, c: nat)
    requires !IsGone(d.server, to)
    ensures Continues(d, Replied(d, to, reply), c)
  {
    hide Answers;
    AnswersOfMore(d.server.log, Wrote(to, None, reply));
  }

  lemma ListedIsNotGone(d: Daemon, c: nat)
    requires Invariant(d) && c in d.server.listed
    ensures !IsGone(d.server, c)
  {
    hide Held;
    ListedIsAllocated(d.server, [] + Held(d), c);
  }

  lemma ConnectingContinues(d: Daemon, c: nat)
    requires c < d.server.nextConnection
    ensures Continues(d, Connected(d), c)
  {
  }

  lemma GoingContinues(d: Daemon, gone: nat, c: nat)
    requires Invariant(d) && gone in d.server.listed
    ensures Continues(d, Gone(d, gone), c)
    ensures c == gone ==> IsSilent(d.server.log, Gone(d, gone).server.log, c) && IsGone(Gone(d, gone).server, c)
  {
    hide Invariant, WithPulls, Cancelled, Unlisted, AreOfPulled;
    ListedOnceIn(d);
    UnlistedIsRemoved(d.server.listed, gone);
    ListedIsThere(d, gone);
    var marked := d.(server := MarkedDisconnected(d.server, gone));
    var (desk, pulls) := Cancelled(marked.desk, gone);
    var next := marked.(desk := desk);
    MarkingContinues(d, gone, c);
    SameContinues(marked, next, c);
    PullingContinues(next, pulls, c);
    PullingKeepsListed(next, pulls);
    var cancelled := WithPulls(next, pulls);
    UnlistingContinues(cancelled, gone, c);
    hide Continues, IsGone, IsSilent;
    ContinuesFurther(d, marked, next, c);
    ContinuesFurther(d, next, cancelled, c);
    ContinuesFurther(d, cancelled, Gone(d, gone), c);
    if c == gone {
      ContinuesFurther(marked, next, cancelled, c);
      ContinuesFurther(marked, cancelled, Gone(d, gone), c);
      ContinuesSilently(marked, Gone(d, gone), c);
    }
  }

  lemma ContinuesSilently(d: Daemon, e: Daemon, c: nat)
    requires Continues(d, e, c) && IsGone(d.server, c)
    ensures IsGone(e.server, c) && IsSilent(d.server.log, e.server.log, c)
  {
  }

  lemma PullingKeepsListed(d: Daemon, pulls: seq<Pull>)
    ensures WithPulls(d, pulls).server.listed == d.server.listed
  {
    PullsKeepList(d.server, pulls);
  }

  lemma ListedOnceIn(d: Daemon)
    requires Invariant(d)
    ensures IsListedOnce(d.server.listed)
  {
  }

  lemma MarkingContinues(d: Daemon, gone: nat, c: nat)
    requires gone in d.server.connections
    ensures var e := d.(server := MarkedDisconnected(d.server, gone)); Continues(d, e, c) && IsGone(e.server, gone)
    ensures d.server.log == MarkedDisconnected(d.server, gone).log
  {
  }

  lemma UnlistingContinues(d: Daemon, gone: nat, c: nat)
    requires IsListedOnce(d.server.listed)
    ensures var s := d.server; Continues(d, d.(server := DropReference(s.(listed := Unlisted(s.listed, gone)), gone)), c)
  {
    UnlistedIsRemoved(d.server.listed, gone);
  }

  lemma RequestContinues(d: Daemon, from: nat, r: Protocol.Request, around: Surroundings, c: nat)
    requires Invariant(d) && from in d.server.listed
    ensures Continues(d, Requested(d, from, r, around), c)
  {
    hide Invariant, Continues, Deactivated, Quit, DeskEvent, Replied, WithTrigger, WithPulls, IsGone, AreOfPulled, IsSilent;
    ListedIsNotGone(d, from);
    ReplyingContinues(d, from, Nak, c);
    ReplyingContinues(d, from, Ack, c);
    ReplyingContinues(d, from, Reply.Answers(d.server.passwords), c);
    var kind := if r.command as char == 'D' then Deactivation
      else if r.command as char == 'Q' then Quitting
      else if r.command as char == '*' then Password
      else if r.command as char == 'W' then Question
      else Keystroke;
    var t := NextTrigger(d, kind, Some(from));
    var made := WithTrigger(d, kind, Some(from));
    var last := Requested(d, from, r, around);
    MakingContinues(d, kind, Some(from), c);
    match r.command as char {
      case 'D' => DeactivatingContinues(made, t, around.hasSplash, c); if around.isRoot { ContinuesFurther(d, made, last, c); }
      case 'Q' => QuittingContinues(made, t, Retains(r), around.hasSplash, c); if around.isRoot { ContinuesFurther(d, made, last, c); }
      case '*' =>
        PullingContinues(made, [Pull(t, None)], c);
        DeskContinues(made, Ask(Prompt(t, from, true)), c);
        if around.isRoot { ContinuesFurther(d, made, last, c); }
      case 'W' => DeskContinues(made, Ask(Prompt(t, from, false)), c); if around.isRoot { ContinuesFurther(d, made, last, c); }
      case 'K' => DeskContinues(made, WatchFor(Watch(t, from, r.argument)), c); if around.isRoot { ContinuesFurther(d, made, last, c); }
      case 'L' => IgnoringContinues(d, from, r.argument, c);
      case 'R' => RestartingContinues(d, from, around.hasSplash, c);
      case 'r' => FlaggingContinues(d, Reactivated(d), from, c);
      case '$' => FlaggingContinues(d, Retaining(d), from, c);
      case 'H' => FlaggingContinues(d, Retaining(d), from, c);
      case 'c' => SameContinues(d, d.(isHung := true), c);
      case _ =>
    }
  }

  lemma IgnoringContinues(d: Daemon, from: nat, keys: Option<seq<byte>>, c: nat)
    requires Invariant(d) && from in d.server.listed
    ensures Continues(d, Replied(DeskEvent(d, Ignore(keys)), from, Ack), c)
  {
    hide Continues, Replied, IsGone, After, Held, AllCount, AreOwned, AreListed, PulledAll;
    var e := DeskEvent(d, Ignore(keys));
    DeskContinues(d, Ignore(keys), c);
    DeskEventKeeps(d, Ignore(keys));
    PullsKeepList(d.server, After(d.desk, Ignore(keys)).1);
    ListedIsNotGone(e, from);
    ReplyingContinues(e, from, Ack, c);
    ContinuesFurther(d, e, Replied(e, from, Ack), c);
  }

  lemma RestartingContinues(d: Daemon, from: nat, hasSplash: bool, c: nat)
    requires Invariant(d) && from in d.server.listed
    ensures Continues(d, Replied(Quit(WithTrigger(d, Quitting, None), NextTrigger(d, Quitting, None), false, hasSplash), from, Ack), c)
  {
    hide Continues, Replied, IsGone, Held, AllCount, AreOwned, AreListed, Quit;
    var t := NextTrigger(d, Quitting, None);
    var made := WithTrigger(d, Quitting, None);
    var e := Quit(made, t, false, hasSplash);
    MakingContinues(d, Quitting, None, c);
    QuittingContinues(made, t, false, hasSplash, c);
    ContinuesFurther(d, made, e, c);
    TriggerIsMade(d, Quitting, None);
    TriggerStaysSettled(d, Quitting, None);
    QuitKeeps(made, t, false, hasSplash);
    QuitKeepsList(made, t, false, hasSplash);
    ListedIsNotGone(e, from);
    ReplyingContinues(e, from, Ack, c);
    ContinuesFurther(d, e, Replied(e, from, Ack), c);
  }

  lemma FlaggingContinues(d: Daemon, e: Daemon, from: nat, c: nat)
    requires Invariant(d) && from in d.server.listed && e.server == d.server && e.pulled == d.pulled
    ensures Continues(d, Replied(e, from, Ack), c) && Continues(d, Replied(d, from, Ack), c)
  {
    hide Continues, Replied, Invariant;
    ListedIsNotGone(d, from);
    SameContinues(d, e, c);
    ReplyingContinues(d, from, Ack, c);
    ReplyingContinues(e, from, Ack, c);
    ContinuesFurther(d, e, Replied(e, from, Ack), c);
  }

  lemma StepContinues(d: Daemon, step: Step, c: nat)
    requires Invariant(d) && CanStep(d, step) && c < d.server.nextConnection
    ensures Continues(d, Stepped(d, step), c)
  {
    hide Invariant, Continues, Connected, Requested, Gone, DeskEvent, BecameIdle;
    match step {
      case Connect => ConnectingContinues(d, c);
      case Request(from, request, around) =>
        if request.None? {
          GoingContinues(d, from, c);
        } else {
          RequestContinues(d, from, request.value, around, c);
        }
      case Hangup(gone) => GoingContinues(d, gone, c);
      case Keyboard(e) => DeskContinues(d, e, c);
      case Idle => BecomingIdleContinues(d, c);
    }
  }

  lemma {:induction false} RunContinues(d: Daemon, steps: seq<Step>, c: nat)
    requires Invariant(d) && Daemons.IsRun(d, steps) && c < d.server.nextConnection
    ensures Continues(d, Daemons.Run(d, steps), c) && Invariant(Daemons.Run(d, steps))
    decreases steps
  {
    hide Invariant, Stepped, CanStep, AreOfPulled, IsGone, IsSilent;
    if steps == [] {
      SameContinues(d, d, c);
    } else {
      StepContinues(d, steps[0], c);
      StepKeepsInvariant(d, steps[0]);
      RunContinues(Stepped(d, steps[0]), steps[1..], c);
      ContinuesFurther(d, Stepped(d, steps[0]), Daemons.Run(d, steps), c);
    }
  }

  /** From the step in which it hangs up, or is dropped for a bad request, a connection is never written to again. */
  lemma NothingIsWrittenAfterHangup(d: Daemon, c: nat, steps: seq<Step>)
    requires Invariant(d) && c in d.server.listed && Daemons.IsRun(Gone(d, c), steps)
    ensures IsSilent(d.server.log, Daemons.Run(Gone(d, c), steps).server.log, c)
  {
    GoneKeeps(d, c);
    GoingContinues(d, c, c);
    NumbersGrow(d, c);
    hide Invariant, Gone, Daemons.Run, Daemons.IsRun;
    var e := Gone(d, c);
    RunContinues(e, steps, c);
  }

  lemma NumbersGrow(d: Daemon, c: nat)
    requires Invariant(d) && c in d.server.listed
    ensures c < Gone(d, c).server.nextConnection
  {
    GoingContinues(d, c, c);
  }

  // ----- at most one answer

  lemma {:induction false} MadeOnce(made: seq<Trigger>, t: Trigger)
    requires forall i :: 0 <= i < |made| ==> made[i].serial == i
    ensures multiset(made)[t] <= 1 && (multiset(made)[t] == 1 ==> t.serial < |made|)
  {
    if made != [] {
      var n := |made| - 1;
      MadeOnce(made[..n], t);
      assert made == made[..n] + [made[n]];
    }
  }

  lemma TwiceInMultiset(s: seq<Trigger>, i: nat, j: nat)
    requires i < j < |s| && s[i] == s[j]
    ensures multiset(s)[s[i]] >= 2
  {
    assert s == s[..j] + [s[j]] + s[j + 1..];
    assert s[..j] == s[..i] + [s[i]] + s[i + 1..j];
  }

  /** In every run each deferred request is answered at most once: no trigger has two replies in the log. */
  lemma EachRequestIsAnsweredAtMostOnce(steps: seq<Step>, i: nat, j: nat)
    requires Daemons.IsRun(Booted(), steps)
    ensures var answers := Answers(Daemons.Run(Booted(), steps).server.log);
      i < j < |answers| ==> answers[i] != answers[j]
  {
    BootedIsInOrder();
    EveryAnswerIsPulled(Booted(), steps);
    hide Daemons.Run, Daemons.IsRun, Answers, Held, AllCount, IsSettled;
    var d := Daemons.Run(Booted(), steps);
    var answers := Answers(d.server.log);
    if i < j < |answers| {
      MadeOnce(d.made, answers[i]);
      assert multiset(answers)[answers[i]] <= multiset(d.pulled)[answers[i]] <= multiset(d.made)[answers[i]];
      if answers[i] == answers[j] {
        TwiceInMultiset(answers, i, j);
      }
    }
  }

  lemma {:induction false} EveryAnswerIsPulled(d: Daemon, steps: seq<Step>)
    requires Invariant(d) && AreOfPulled(d) && Daemons.IsRun(d, steps)
    ensures AreOfPulled(Daemons.Run(d, steps)) && Invariant(Daemons.Run(d, steps))
    decreases steps
  {
    hide Invariant, Stepped, CanStep, AreOfPulled, IsGone, IsSilent;
    if steps != [] {
      StepKeepsInvariant(d, steps[0]);
      StepKeepsAnswers(d, steps[0]);
      EveryAnswerIsPulled(Stepped(d, steps[0]), steps[1..]);
    }
  }

  lemma StepKeepsAnswers(d: Daemon, step: Step)
    requires Invariant(d) && CanStep(d, step) && AreOfPulled(d)
    ensures AreOfPulled(Stepped(d, step))
  {
    hide Invariant, Requested, Gone, DeskEvent, BecameIdle, IsGone, IsSilent;
    if step.Connect? {
    } else if d.server.nextConnection > 0 {
      StepContinues(d, step, 0);
    } else {
      NobodyIsListed(d);
      match step {
        case Keyboard(e) => DeskContinues(d, e, 0);
        case Idle => BecomingIdleContinues(d, 0);
        case _ =>
      }
    }
  }

  lemma NobodyIsListed(d: Daemon)
    requires Invariant(d) && d.server.nextConnection == 0
    ensures forall c :: c !in d.server.listed
  {
  }

  /** A trigger pulled while its connection is there is answered, with the answer it was pulled with. */
  lemma PulledIsAnswered(s: Server, p: Pull, c: nat)
    requires p.trigger.owner == Some(c) && c in s.connections && !s.connections[c].disconnected
    ensures Pulled(s, p).log == s.log + [Wrote(c, Some(p.trigger), ReplyTo(p))]
  {
  }
}
