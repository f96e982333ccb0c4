/**
 Whose answers are kept, who is answered by a key, and what each request is told at
 once (src/ply-boot-server.c, src/daemon/plymouthd-interaction.c,
 src/daemon/plymouthd-control.c).
 */
module Answering {
  import opened Base
  import opened Buffers
  import opened Protocol
  import opened Utf8
  import opened Interactions
  import opened Daemons
  import opened References
  import opened DaemonRuns
  import opened Turns
  import Matching

  // ----- the passwords that are kept

  /** The answers among some pulls that are answers to passwords. */
  function PasswordAnswers(pulls: seq<Pull>): seq<seq<byte>> {
    if pulls == [] then []
    else
      (if pulls[0].trigger.kind.Password? && pulls[0].answer.Some? then [pulls[0].answer.value] else [])
      + PasswordAnswers(pulls[1..])
  }

  /** What was answered to passwords at the keyboard, over a run and in order. */
  function PasswordsTyped(d: Daemon, steps: seq<Step>): seq<seq<byte>>
    requires IsRun(d, steps)
    decreases steps
  {
    if steps == [] then []
    else
      (if steps[0].Keyboard? then PasswordAnswers(After(d.desk, steps[0].event).1) else [])
      + PasswordsTyped(Stepped(d, steps[0]), steps[1..])
  }

  /** Without an answer nothing is kept. */
  predicate AreUnanswered(pulls: seq<Pull>) {
    forall p <- pulls :: p.answer.None?
  }

  lemma {:induction false} UnansweredAreNotKept(v: Server, pulls: seq<Pull>)
    requires AreUnanswered(pulls)
    ensures PulledAll(v, pulls).passwords == v.passwords
    decreases pulls
  {
    hide ReplyTo;
    if pulls != [] {
      assert pulls[0] in pulls;
      assert AreUnanswered(pulls[1..]);
      UnansweredAreNotKept(Pulled(v, pulls[0]), pulls[1..]);
    }
  }

  /** Answers are for connections. */
  predicate HaveOwners(pulls: seq<Pull>) {
    forall p <- pulls :: p.answer.Some? ==> p.trigger.owner.Some?
  }

  lemma OneAnswerIsKept(v: Server, p: Pull, rest: seq<Trigger>)
    requires AllCount(v, [p.trigger] + rest) && (p.answer.Some? ==> p.trigger.owner.Some?)
    ensures Pulled(v, p).passwords == v.passwords + PasswordAnswers([p])
  {
    hide ReplyTo, Owned;
    assert [p][1..] == [];
    if p.trigger.owner.Some? {
      assert Counts(v, [p.trigger] + rest, p.trigger.owner.value);
      OwnedOfFirst(p.trigger, rest, p.trigger.owner.value);
    }
  }

  lemma {:induction false} AnswersAreKept(v: Server, pulls: seq<Pull>, rest: seq<Trigger>)
    requires AllCount(v, Triggers(pulls) + rest) && HaveOwners(pulls)
    ensures PulledAll(v, pulls).passwords == v.passwords + PasswordAnswers(pulls)
    decreases pulls
  {
    hide AllCount, Pulled, PasswordAnswers, Triggers, HaveOwners;
    PullsApart(pulls, rest);
    if pulls == [] {
      assert v.passwords + [] == v.passwords;
    } else {
      var first, others := pulls[0], Triggers(pulls[1..]);
      OneAnswerIsKept(v, first, others + rest);
      PullKeepsCount(v, first, others + rest);
      AnswersAreKept(Pulled(v, first), pulls[1..], rest);
      Regroup(v.passwords, PasswordAnswers([first]), PasswordAnswers(pulls[1..]));
    }
  }

  lemma PullsApart(pulls: seq<Pull>, rest: seq<Trigger>)
    requires HaveOwners(pulls)
    ensures if pulls == [] then PasswordAnswers(pulls) == []
            else && Triggers(pulls) + rest == [pulls[0].trigger] + (Triggers(pulls[1..]) + rest)
                 && (pulls[0].answer.Some? ==> pulls[0].trigger.owner.Some?) && HaveOwners(pulls[1..])
                 && PasswordAnswers(pulls) == PasswordAnswers([pulls[0]]) + PasswordAnswers(pulls[1..])
  {
    if pulls != [] {
      assert pulls[0] in pulls;
      assert [pulls[0]][1..] == [];
    }
  }

  lemma WithPullsKeepsNothing(d: Daemon, pulls: seq<Pull>)
    requires AreUnanswered(pulls)
    ensures WithPulls(d, pulls).server.passwords == d.server.passwords
  {
    UnansweredAreNotKept(d.server, pulls);
  }

  lemma BareAreUnanswered(ts: seq<Trigger>, us: seq<Trigger>)
    ensures AreUnanswered(Bare(ts)) && AreUnanswered(Bare(ts) + Bare(us))
  {
  }

  lemma TransitionKeepsNothing(d: Daemon, t: Trigger, retain: bool, hasSplash: bool)
    ensures CompletedAll(d).server.passwords == d.server.passwords && DeactivatedSplash(d).server.passwords == d.server.passwords
    ensures Deactivated(d, t, hasSplash).server.passwords == d.server.passwords
    ensures Quit(d, t, retain, hasSplash).server.passwords == d.server.passwords
    ensures BecameIdle(d).server.passwords == d.server.passwords
  {
    hide Bare, AreUnanswered, PulledAll, Triggers;
    forall e: Daemon, ts: seq<Trigger>, us: seq<Trigger>
      ensures PulledAll(e.server, Bare(ts)).passwords == e.server.passwords
      ensures PulledAll(e.server, Bare(ts) + Bare(us)).passwords == e.server.passwords
    {
      BareAreUnanswered(ts, us);
      UnansweredAreNotKept(e.server, Bare(ts));
      UnansweredAreNotKept(e.server, Bare(ts) + Bare(us));
    }
    OneIsUnanswered(d, t);
  }

  lemma OneIsUnanswered(d: Daemon, t: Trigger)
    ensures PulledAll(d.server, [Pull(t, None)]).passwords == d.server.passwords
  {
    UnansweredAreNotKept(d.server, [Pull(t, None)]);
  }

  /** Whatever is not typed pulls without an answer. */
  lemma {:induction false} CancellingIsUnanswered(prompts: seq<Prompt>, watches: seq<Watch>, c: nat)
    ensures AreUnanswered(PullsOf(prompts, c)) && AreUnanswered(WatchPullsOf(watches, c))
    decreases |prompts|, |watches|
  {
    if prompts != [] {
      CancellingIsUnanswered(prompts[1..], watches, c);
    } else if watches != [] {
      CancellingIsUnanswered(prompts, watches[1..], c);
    }
  }

  lemma ClientEventKeepsNothing(d: Daemon, e: Event)
    requires CanHappen(e) && (e.Ask? || e.WatchFor? || e.Ignore?)
    ensures DeskEvent(d, e).server.passwords == d.server.passwords
  {
    hide PulledAll, FirstWithKeys;
    WithPullsKeepsNothing(d.(desk := After(d.desk, e).0), After(d.desk, e).1);
  }

  lemma GoneKeepsNothing(d: Daemon, c: nat)
    ensures Gone(d, c).server.passwords == d.server.passwords
  {
    hide PulledAll, PullsOf, WatchPullsOf, PromptsWithout, WatchesWithout, Unlisted, AreUnanswered;
    if c in d.server.listed {
      var marked := d.(server := MarkedDisconnected(d.server, c));
      var (desk, pulls) := Cancelled(marked.desk, c);
      CancellingIsUnanswered(d.desk.prompts, d.desk.watches, c);
      SumIsUnanswered(PullsOf(d.desk.prompts, c), WatchPullsOf(d.desk.watches, c));
      WithPullsKeepsNothing(marked.(desk := desk), pulls);
    }
  }

  lemma SumIsUnanswered(a: seq<Pull>, b: seq<Pull>)
    requires AreUnanswered(a) && AreUnanswered(b)
    ensures AreUnanswered(a + b)
  {
  }

  lemma DeferredKeepsNothing(d: Daemon, c: nat, r: Protocol.Request, around: Surroundings)
    requires around.isRoot && Matching.IsDeferred(r)
    ensures Requested(d, c, r, around).server.passwords == d.server.passwords
  {
    hide Deactivated, Quit, DeskEvent, WithPulls, Retains;
    var made, u := WithTrigger(d, KindOf(r), Some(c)), NextTrigger(d, KindOf(r), Some(c));
    match r.command as char {
      case 'D' => TransitionKeepsNothing(made, u, false, around.hasSplash);
      case 'Q' => TransitionKeepsNothing(made, u, Retains(r), around.hasSplash);
      case '*' =>
        WithPullsKeepsNothing(made, [Pull(u, None)]);
        ClientEventKeepsNothing(made, Ask(Prompt(u, c, true)));
      case 'W' => ClientEventKeepsNothing(made, Ask(Prompt(u, c, false)));
      case 'K' => ClientEventKeepsNothing(made, WatchFor(Watch(u, c, r.argument)));
    }
  }

  lemma RequestKeepsNothing(d: Daemon, c: nat, r: Protocol.Request, around: Surroundings)
    ensures Requested(d, c, r, around).server.passwords == d.server.passwords
  {
    hide Deactivated, Quit, DeskEvent, WithPulls, Retains, CanBeGathered, After;
    if around.isRoot && Matching.IsDeferred(r) {
      DeferredKeepsNothing(d, c, r, around);
    } else if around.isRoot && r.command as char == 'L' {
      ClientEventKeepsNothing(d, Ignore(r.argument));
    } else if around.isRoot && r.command as char == 'R' && around.initIsShell {
      TransitionKeepsNothing(WithTrigger(d, Quitting, None), NextTrigger(d, Quitting, None), false, around.hasSplash);
    } else if around.isRoot && r.command as char == 'c' && !CanBeGathered(d.server.passwords) {
    } else {
      hide Requested;
      var f, reply := PlainAnswers(d, c, r, around);
    }
  }

  lemma KeyKeepsAnswers(d: Daemon, e: Event)
    requires Invariant(d) && CanHappen(e) && (e.Type? || e.Backspace? || e.Enter?)
    ensures DeskEvent(d, e).server.passwords == d.server.passwords + PasswordAnswers(After(d.desk, e).1)
  {
    hide AllCount, PulledAll, PasswordAnswers;
    var (desk, pulls) := After(d.desk, e);
    KeysPullOwned(d, e);
    DeskIsExchanged(d, e);
    hide After, Held;
    ExchangedInHand(d, [], d.(desk := desk), Triggers(pulls));
    AnswersAreKept(d.server, pulls, Held(d.(desk := desk)));
  }

  lemma KeysPullOwned(d: Daemon, e: Event)
    requires Invariant(d) && CanHappen(e) && (e.Type? || e.Backspace? || e.Enter?)
    ensures HaveOwners(After(d.desk, e).1)
  {
    hide FirstMatch, CString, Typed, Cancels, AllCount, Accounts;
  }

  lemma StepKeepsPasswords(d: Daemon, step: Step)
    requires Invariant(d) && CanStep(d, step)
    ensures Stepped(d, step).server.passwords ==
            d.server.passwords + if step.Keyboard? then PasswordAnswers(After(d.desk, step.event).1) else []
  {
    hide Invariant, Requested, Gone, DeskEvent, BecameIdle, PasswordAnswers, After;
    var kept := d.server.passwords;
    assert kept + [] == kept;
    match step {
      case Connect =>
      case Request(c, request, around) =>
        if request.None? { GoneKeepsNothing(d, c); } else { RequestKeepsNothing(d, c, request.value, around); }
      case Hangup(c) => GoneKeepsNothing(d, c);
      case Keyboard(e) => KeyKeepsAnswers(d, e);
      case Idle => TransitionKeepsNothing(d, Trigger(0, Quitting, None), false, false);
    }
  }

  lemma {:induction false} RunKeepsPasswords(d: Daemon, steps: seq<Step>)
    requires Invariant(d) && IsRun(d, steps)
    ensures Daemons.Run(d, steps).server.passwords == d.server.passwords + PasswordsTyped(d, steps)
    decreases steps
  {
    hide Invariant, Stepped, PasswordAnswers, After;
    if steps == [] {
      assert d.server.passwords + [] == d.server.passwords;
    } else {
      var first := if steps[0].Keyboard? then PasswordAnswers(After(d.desk, steps[0].event).1) else [];
      StepKeepsPasswords(d, steps[0]);
      StepKeepsInvariant(d, steps[0]);
      RunKeepsPasswords(Stepped(d, steps[0]), steps[1..]);
      Regroup(d.server.passwords, first, PasswordsTyped(Stepped(d, steps[0]), steps[1..]));
    }
  }

  /** Over every run, what is kept is what was answered to passwords at the keyboard, in order, and nothing else. */
  lemma PasswordsAreTyped(steps: seq<Step>)
    requires IsRun(Booted(), steps)
    ensures Daemons.Run(Booted(), steps).server.passwords == PasswordsTyped(Booted(), steps)
  {
    hide IsRun, Daemons.Run, PasswordsTyped;
    BootedIsInOrder();
    RunKeepsPasswords(Booted(), steps);
    assert [] + PasswordsTyped(Booted(), steps) == PasswordsTyped(Booted(), steps);
  }

  const CACHED: Protocol.Request := Protocol.Request.Request('c' as int, None)

  /** When no password was answered, a request for cached passwords gets no answer, whatever else was. */
  lemma NoPasswordNoAnswer(steps: seq<Step>, c: nat, around: Surroundings)
    requires IsRun(Booted(), steps) && PasswordsTyped(Booted(), steps) == []
    requires CanStep(Daemons.Run(Booted(), steps), Step.Request(c, Some(CACHED), around)) && around.isRoot
    ensures var d, e := Daemons.Run(Booted(), steps), Stepped(Daemons.Run(Booted(), steps), Step.Request(c, Some(CACHED), around));
      e.server.log == d.server.log + [Wrote(c, None, Answers([]))] && !e.isHung
    ensures IsReply(Answers([])) && CanBeWritten(Answers([])) && ReplyBytes(Answers([])) == [0x05]
  {
    hide IsRun, Daemons.Run, PasswordsTyped;
    PasswordsAreTyped(steps);
    BootedIsInOrder();
    EveryRunKeepsInvariant(Booted(), steps);
    hide Invariant;
    ListedIsThere(Daemons.Run(Booted(), steps), c);
  }

  // ----- who a key answers

  /** The keystroke occurs in the keys watched for, if any are given. */
  ghost predicate IsMeant(w: Watch, keystroke: seq<byte>) {
    w.keys.None? || exists a: seq<byte>, b: seq<byte> :: w.keys.value == a + keystroke + b
  }

  lemma MatchesIsMeant(w: Watch, keystroke: seq<byte>)
    ensures Matches(w, keystroke) <==> IsMeant(w, keystroke)
  {
    if w.keys.Some? {
      var keys := w.keys.value;
      if Contains(keys, keystroke) {
        var i :| 0 <= i <= |keys| && keystroke <= keys[i..];
        assert keys == keys[..i] + keystroke + keys[i + |keystroke|..];
      }
      if IsMeant(w, keystroke) {
        var a, b :| keys == a + keystroke + b;
        assert keystroke <= keys[|a|..];
      }
    }
  }

  /** The first watch meant is answered and goes; without one nothing happens. */
  ghost predicate AnswersFirstMeant(d: Desk, next: Desk, pulls: seq<Pull>, keystroke: seq<byte>, answer: seq<byte>) {
    || (next == d && pulls == [] && forall i :: 0 <= i < |d.watches| ==> !IsMeant(d.watches[i], keystroke))
    || exists i :: AnswersMeant(d, next, pulls, i, keystroke, answer)
  }

  ghost predicate AnswersMeant(d: Desk, next: Desk, pulls: seq<Pull>, i: int, keystroke: seq<byte>, answer: seq<byte>) {
    && 0 <= i < |d.watches| && IsMeant(d.watches[i], keystroke) && (forall k :: 0 <= k < i ==> !IsMeant(d.watches[k], keystroke))
    && pulls == [Pull(d.watches[i].trigger, Some(answer))]
    && next == d.(watches := d.watches[..i] + d.watches[i + 1..])
  }

  lemma FirstMeant(d: Desk, keystroke: seq<byte>, answer: seq<byte>)
    ensures var (next, pulls) := WatchPulled(d, FirstMatch(d.watches, keystroke), Some(answer));
      AnswersFirstMeant(d, next, pulls, keystroke, answer)
  {
    hide IsMeant, Matches;
    var i := FirstMatch(d.watches, keystroke);
    forall k | 0 <= k < |d.watches| ensures Matches(d.watches[k], keystroke) <==> IsMeant(d.watches[k], keystroke) {
      MatchesIsMeant(d.watches[k], keystroke);
    }
    var (next, pulls) := WatchPulled(d, i, Some(answer));
    if i < |d.watches| {
      assert AnswersMeant(d, next, pulls, i, keystroke, answer);
    }
  }

  /**
   Without a prompt, a key answers the first watch whose keys it occurs in, with
   itself, and enter the first with a line feed in its keys, with the line.
   */
  lemma KeysAnswerWatches(d: Desk, input: Input, line: seq<byte>, accepts: bool)
    requires d.prompts == [] && IsInput(input) && 0 !in input.bytes && 0 !in line
    ensures var (next, pulls) := After(d, Type(input, accepts)); AnswersFirstMeant(d, next, pulls, input.bytes, input.bytes)
    ensures var (next, pulls) := After(d, Enter(line, accepts)); AnswersFirstMeant(d, next, pulls, [10], line)
    ensures After(d, Backspace) == (d, [])
  {
    hide FirstMatch, WatchPulled, AnswersFirstMeant, CString;
    CStringOfNulFree(input.bytes);
    CStringOfNulFree(line);
    FirstMeant(d, input.bytes, input.bytes);
    FirstMeant(d, [10], line);
  }

  /** With a prompt, only it is answered: by Ctrl-C and Ctrl-D with Ctrl-C, by enter with the text; nothing else answers. */
  lemma KeysAnswerPrompt(d: Desk, input: Input, line: seq<byte>, accepts: bool)
    requires d.prompts != [] && IsInput(input) && 0 !in d.text
    ensures var next, first := d.(prompts := d.prompts[1..], text := []), d.prompts[0].trigger;
      && (After(d, Type(input, accepts)).1 ==
          if accepts && input.size == 1 && (input.bytes[0] == 3 || input.bytes[0] == 4) then [Pull(first, Some([3]))] else [])
      && (After(d, Type(input, accepts)).1 != [] ==> After(d, Type(input, accepts)).0 == next)
      && After(d, Enter(line, accepts)) == (if accepts then (next, [Pull(first, Some(d.text))]) else (d, []))
    ensures !accepts || (input.size >= 2 && input.bytes[0] == 27) ==> After(d, Type(input, accepts)) == (d, [])
    ensures After(d, Backspace) == (d.(text := WithoutLastCharacter(d.text)), [])
  {
    hide Appended;
    CStringOfNulFree(d.text);
  }

  // ----- what a pull writes

  /** A deactivation and a quit are acknowledged; the others are told the answer, or that there is none. */
  lemma PullWrites(v: Server, p: Pull, c: nat)
    requires p.trigger.owner == Some(c) && c in v.connections && !v.connections[c].disconnected
    ensures var w := Pulled(v, p);
      && |w.log| == |v.log| + 1 && v.log <= w.log && w.log[|v.log|].connection == c && w.log[|v.log|].trigger == Some(p.trigger)
      && (p.trigger.kind.Deactivation? || p.trigger.kind.Quitting? ==> w.log[|v.log|].reply == Ack)
      && (!p.trigger.kind.Deactivation? && !p.trigger.kind.Quitting? ==>
            w.log[|v.log|].reply == if p.answer.None? then NoAnswer else Answer(p.answer.value))
  {
  }

  // ----- what a request is told

  /** What is said at once, and to no trigger; None when nothing is. */
  function ToldAtOnce(d: Daemon, r: Protocol.Request, around: Surroundings): Option<Reply> {
    var command := r.command as char;
    if !around.isRoot then Some(Nak)
    else if command in {'D', 'Q', '*', 'W', 'K'} then None
    else if command == 'c' then if CanBeGathered(d.server.passwords) then Some(Answers(d.server.passwords)) else None
    else if command == 'V' then Some(if around.hasActiveVt then Ack else Nak)
    else if command in {'P', 'U', 'C', 'u', 'S', '!', 'R', 'r', '$', 'H', 'l', 'M', 'm', 'L', 'A', 'a'} then Some(Ack)
    else Some(Nak)
  }

  /** Whatever is written is for triggers. */
  predicate OnlyTriggers(before: seq<Wrote>, after: seq<Wrote>) {
    before <= after && forall i :: |before| <= i < |after| ==> after[i].trigger.Some?
  }

  /** The last thing written is what is told at once; all else that is written is for triggers. */
  predicate IsTold(before: seq<Wrote>, after: seq<Wrote>, c: nat, told: Option<Reply>) {
    if told.None? then OnlyTriggers(before, after)
    else
      && |after| > |before| && OnlyTriggers(before, after[..|after| - 1])
      && after[|after| - 1] == Wrote(c, None, told.value)
  }

  lemma {:induction false} PullsAnswerTriggers(v: Server, pulls: seq<Pull>)
    ensures OnlyTriggers(v.log, PulledAll(v, pulls).log)
    decreases pulls
  {
    hide ReplyTo;
    if pulls != [] {
      PullsAnswerTriggers(Pulled(v, pulls[0]), pulls[1..]);
    }
  }

  lemma TransitionAnswersTriggers(d: Daemon, t: Trigger, retain: bool, hasSplash: bool)
    ensures OnlyTriggers(d.server.log, Deactivated(d, t, hasSplash).server.log)
    ensures OnlyTriggers(d.server.log, Quit(d, t, retain, hasSplash).server.log)
  {
    hide PulledAll, Triggers, Bare;
    forall v: Server, pulls: seq<Pull> ensures OnlyTriggers(v.log, PulledAll(v, pulls).log) {
      PullsAnswerTriggers(v, pulls);
    }
  }

  lemma PullingAnswersTriggers(d: Daemon, pulls: seq<Pull>)
    ensures OnlyTriggers(d.server.log, WithPulls(d, pulls).server.log)
  {
    PullsAnswerTriggers(d.server, pulls);
  }

  lemma DeskAnswersTriggers(d: Daemon, e: Event)
    requires CanHappen(e)
    ensures OnlyTriggers(d.server.log, DeskEvent(d, e).server.log)
  {
    hide PulledAll, After;
    PullsAnswerTriggers(d.server, After(d.desk, e).1);
  }

  lemma ThenTold(before: seq<Wrote>, d: Daemon, c: nat, reply: Reply)
    requires OnlyTriggers(before, d.server.log) && c in d.server.connections
    ensures IsTold(before, Replied(d, c, reply).server.log, c, Some(reply))
  {
    assert (d.server.log + [Wrote(c, None, reply)])[..|d.server.log|] == d.server.log;
  }

  lemma DeferredAreTold(d: Daemon, c: nat, r: Protocol.Request, around: Surroundings)
    requires around.isRoot && r.command as char in {'D', 'Q', '*', 'W', 'K'}
    ensures OnlyTriggers(d.server.log, Requested(d, c, r, around).server.log)
  {
    hide Deactivated, Quit, DeskEvent, WithPulls, Retains, OnlyTriggers;
    var made, u := WithTrigger(d, KindOf(r), Some(c)), NextTrigger(d, KindOf(r), Some(c));
    match r.command as char {
      case 'D' => TransitionAnswersTriggers(made, u, false, around.hasSplash);
      case 'Q' => TransitionAnswersTriggers(made, u, Retains(r), around.hasSplash);
      case '*' =>
        PullingAnswersTriggers(made, [Pull(u, None)]);
        DeskAnswersTriggers(made, Ask(Prompt(u, c, true)));
      case 'W' => DeskAnswersTriggers(made, Ask(Prompt(u, c, false)));
      case 'K' => DeskAnswersTriggers(made, WatchFor(Watch(u, c, r.argument)));
    }
  }

  lemma IgnoringIsTold(d: Daemon, c: nat, keys: Option<seq<byte>>)
    requires Invariant(d) && c in d.server.listed
    ensures IsTold(d.server.log, Replied(DeskEvent(d, Ignore(keys)), c, Ack).server.log, c, Some(Ack))
  {
    hide PulledAll, AllCount, Held, AreOwned, AreListed, After, Replied, IsTold, OnlyTriggers;
    DeskEventKeeps(d, Ignore(keys));
    PullsKeepList(d.server, After(d.desk, Ignore(keys)).1);
    ListedIsThere(DeskEvent(d, Ignore(keys)), c);
    DeskAnswersTriggers(d, Ignore(keys));
    ThenTold(d.server.log, DeskEvent(d, Ignore(keys)), c, Ack);
  }

  lemma RestartingIsTold(d: Daemon, c: nat, hasSplash: bool)
    requires Invariant(d) && c in d.server.listed
    ensures var e := Quit(WithTrigger(d, Quitting, None), NextTrigger(d, Quitting, None), false, hasSplash);
      IsTold(d.server.log, Replied(e, c, Ack).server.log, c, Some(Ack))
  {
    hide AllCount, Held, AreOwned, AreListed, Quit, Replied, IsTold, OnlyTriggers;
    var made, x := WithTrigger(d, Quitting, None), NextTrigger(d, Quitting, None);
    TriggerIsMade(d, Quitting, None);
    TriggerStaysSettled(d, Quitting, None);
    QuitKeeps(made, x, false, hasSplash);
    QuitKeepsList(made, x, false, hasSplash);
    ListedIsThere(Quit(made, x, false, hasSplash), c);
    TransitionAnswersTriggers(made, x, false, hasSplash);
    ThenTold(d.server.log, Quit(made, x, false, hasSplash), c, Ack);
  }

  lemma OthersAreTold(d: Daemon, c: nat, r: Protocol.Request, around: Surroundings)
    requires c in d.server.connections
    requires around.isRoot ==> r.command as char !in {'D', 'Q', '*', 'W', 'K', 'L'} && !(r.command as char == 'R' && around.initIsShell)
    ensures IsTold(d.server.log, Requested(d, c, r, around).server.log, c, ToldAtOnce(d, r, around))
  {
    hide Deactivated, Quit, DeskEvent, WithPulls, Retains, CanBeGathered, OnlyTriggers, IsTold;
    var told := ToldAtOnce(d, r, around);
    NothingWritten(d.server.log);
    if told.Some? {
      ThenTold(d.server.log, d, c, told.value);
      assert Requested(d, c, r, around).server == Replied(d, c, told.value).server;
    } else {
      assert Requested(d, c, r, around).server == d.server;
      NothingTold(d.server.log, c);
    }
  }

  lemma NothingWritten(log: seq<Wrote>)
    ensures OnlyTriggers(log, log)
  {
  }

  lemma NothingTold(log: seq<Wrote>, c: nat)
    ensures IsTold(log, log, c, None)
  {
  }

  /** Acks, naks and cached passwords, by command; deferred requests are told nothing but by their triggers. */
  lemma RequestsAreTold(d: Daemon, c: nat, r: Protocol.Request, around: Surroundings)
    requires Invariant(d) && c in d.server.listed
    ensures IsTold(d.server.log, Requested(d, c, r, around).server.log, c, ToldAtOnce(d, r, around))
  {
    hide Invariant, Deactivated, Quit, DeskEvent, WithPulls, Retains, Replied, CanBeGathered, OnlyTriggers;
    ListedIsThere(d, c);
    if around.isRoot && r.command as char in {'D', 'Q', '*', 'W', 'K'} {
      DeferredAreTold(d, c, r, around);
    } else if around.isRoot && r.command as char == 'L' {
      IgnoringIsTold(d, c, r.argument);
    } else if around.isRoot && r.command as char == 'R' && around.initIsShell {
      RestartingIsTold(d, c, around.hasSplash);
    } else {
      OthersAreTold(d, c, r, around);
    }
  }

  // ----- what waits, and for what

  /** A deactivation waits behind another or for a splash; otherwise it is done at once, and acknowledged. */
  lemma DeactivationWaitsIff(d: Daemon, c: nat, r: Protocol.Request, around: Surroundings)
    requires Invariant(d) && c in d.server.listed && around.isRoot && r.command as char == 'D'
    ensures var e, u, tr := Requested(d, c, r, around), Trigger(|d.made|, Deactivation, Some(c)), d.transition;
      && e.desk == d.desk && e.transition.quit == tr.quit && e.transition.retainSplash == tr.retainSplash
      && if !tr.isInactive && (tr.deactivate != [] || around.hasSplash)
         then e.transition.deactivate == tr.deactivate + [u] && e.server.log == d.server.log && !e.transition.isInactive
              && e.transition.becomingIdle == (tr.becomingIdle || tr.deactivate == [])
         else e.transition.deactivate == [] && e.server.log == d.server.log + [Wrote(c, Some(u), Ack)] && e.transition.isInactive
              && e.transition.becomingIdle == tr.becomingIdle
  {
    hide AllCount, AreOwned, DeskTriggers, InOrderBut;
    var u := Trigger(|d.made|, Deactivation, Some(c));
    var made := WithTrigger(d, Deactivation, Some(c));
    ListedIsConnected(d, c);
    OnePullWrites(made, u, c);
    assert Bare([u]) == [Pull(u, None)] && [] + [u] == [u];
  }

  lemma ListedIsConnected(d: Daemon, c: nat)
    requires Invariant(d) && c in d.server.listed
    ensures c in d.server.connections && !d.server.connections[c].disconnected
  {
    ListedIsThere(d, c);
  }

  lemma OnePullWrites(d: Daemon, u: Trigger, c: nat)
    requires u.owner == Some(c) && c in d.server.connections && !d.server.connections[c].disconnected
    ensures PulledAll(d.server, [Pull(u, None)]).log == d.server.log + [Wrote(c, Some(u), if u.kind.Deactivation? || u.kind.Quitting? then Ack else NoAnswer)]
  {
    assert [Pull(u, None)][1..] == [];
    assert PulledAll(d.server, [Pull(u, None)]) == PulledAll(Pulled(d.server, Pull(u, None)), []);
  }

  /** A quit waits behind another or for a splash, unless the daemon is inactive and the splash is not retained; otherwise the daemon quits. */
  lemma QuitWaitsIff(d: Daemon, c: nat, r: Protocol.Request, around: Surroundings)
    requires Invariant(d) && !d.hasExited && around.isRoot && r.command as char == 'Q'
    ensures var e, u, tr := Requested(d, c, r, around), Trigger(|d.made|, Quitting, Some(c)), d.transition;
      var retain := r.argument.Some? && r.argument.value != [];
      && e.desk == d.desk && e.transition.isInactive == tr.isInactive
      && e.transition.retainSplash == (if tr.quit == [] then retain else tr.retainSplash)
      && if tr.quit != [] || (around.hasSplash && (!tr.isInactive || retain))
         then e.transition.quit == tr.quit + [u] && e.transition.deactivate == tr.deactivate && e.server.log == d.server.log && !e.hasExited
              && e.transition.becomingIdle == (tr.becomingIdle || tr.quit == [])
         else e.transition.quit == [] && e.transition.deactivate == [] && e.hasExited && e.pulled == d.pulled + tr.deactivate + [u]
              && e.transition.becomingIdle == tr.becomingIdle
  {
    hide AllCount, AreOwned, DeskTriggers, InOrderBut, PulledAll, Triggers, Bare;
    var u := Trigger(|d.made|, Quitting, Some(c));
    BareTriggers(d.transition.deactivate, [u]);
    Regroup(d.pulled, d.transition.deactivate, [u]);
    assert [] + [u] == [u];
  }

  /** Prompts and watches join their lists with the kind of answer they wait for; a password nobody can be asked for has none. */
  lemma PromptsAreQueued(d: Daemon, c: nat, r: Protocol.Request, around: Surroundings)
    requires Invariant(d) && c in d.server.listed && around.isRoot
    ensures var e := Requested(d, c, r, around); match r.command as char
      case '*' =>
        var u := Trigger(|d.made|, Password, Some(c));
        if around.hasSplash || around.isShown
        then e.desk == d.desk.(prompts := d.desk.prompts + [Prompt(u, c, true)]) && e.server.log == d.server.log
        else e.desk == d.desk && e.server.log == d.server.log + [Wrote(c, Some(u), NoAnswer)]
      case 'W' =>
        var u := Trigger(|d.made|, Question, Some(c));
        e.desk == d.desk.(prompts := d.desk.prompts + [Prompt(u, c, false)]) && e.server.log == d.server.log
      case 'K' =>
        var u := Trigger(|d.made|, Keystroke, Some(c));
        e.desk == d.desk.(watches := d.desk.watches + [Watch(u, c, r.argument)]) && e.server.log == d.server.log
      case _ => true
  {
    hide Invariant, Deactivated, Quit, Retains, CanBeGathered, Replied, Triggers;
    ListedIsConnected(d, c);
    var u := Trigger(|d.made|, Password, Some(c));
    OnePullWrites(WithTrigger(d, Password, Some(c)), u, c);
  }

  /** Showing and hiding may say that the splash is to be kept, and a reactivation that the daemon is active again. */
  lemma FlagsAreSet(d: Daemon, c: nat, r: Protocol.Request, around: Surroundings)
    requires around.isRoot
    ensures var e, tr := Requested(d, c, r, around), d.transition; match r.command as char
      case 'r' => e.transition == tr.(isInactive := false)
      case '$' => e.transition == tr.(retainSplash := tr.retainSplash || (!around.isShown && !tr.isInactive && around.ignoresShow))
      case 'H' => e.transition == tr.(retainSplash := tr.retainSplash || (!tr.isInactive && around.hasSplash))
      case _ => true
  {
    hide Deactivated, Quit, DeskEvent, WithPulls, Retains, CanBeGathered;
  }

  /** When the splash is idle a pending quit is done, and all that waits is pulled, deactivations first; or else pending deactivations are. */
  lemma IdleIs(d: Daemon)
    requires Invariant(d)
    ensures var e, tr := BecameIdle(d), d.transition;
      && e.desk == d.desk && e.made == d.made && e.transition.retainSplash == tr.retainSplash && !e.transition.becomingIdle
      && if tr.quit != [] then
           && e.transition.deactivate == [] && e.transition.quit == [] && e.transition.isInactive == tr.isInactive
           && e.hasExited && e.pulled == d.pulled + tr.deactivate + tr.quit
         else
           && e.transition.deactivate == [] && e.transition.quit == [] && e.transition.isInactive == (tr.isInactive || tr.deactivate != [])
           && e.hasExited == d.hasExited && e.pulled == d.pulled + tr.deactivate
  {
    hide AllCount, AreOwned, DeskTriggers, InOrderBut, PulledAll, Triggers, Bare;
    BareTriggers(d.transition.deactivate, d.transition.quit);
    Regroup(d.pulled, d.transition.deactivate, d.transition.quit);
  }
}
