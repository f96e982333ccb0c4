/**
 A trigger that waits ahead of another is answered ahead of it, whatever the daemon
 does next: prompts are one queue, the pending triggers of a transition are chained,
 and of two watches for the same keys the first is found first
 (src/daemon/plymouthd-interaction.c, src/daemon/plymouthd-transition.c).
 */
module Turns {
  import opened Base
  import opened Protocol
  import opened Interactions
  import opened Daemons
  import opened References
  import opened DaemonRuns
  import opened DaemonAnswers
  import opened Conversations
  import Matching

  // ----- the order of replies

  /** A reply to the connection: for a trigger, or at once. */
  predicate IsReplyFor(w: Wrote, c: nat, mark: Option<Trigger>) {
    w.connection == c && w.trigger == mark
  }

  /** From `start` on, no such reply is written. */
  ghost predicate Untold(log: seq<Wrote>, start: nat, c: nat, mark: Option<Trigger>) {
    forall i :: start <= i < |log| ==> !IsReplyFor(log[i], c, mark)
  }

  ghost predicate AnsweredIn(log: seq<Wrote>, start: nat, end: int, c: nat, t: Trigger)
    requires end <= |log|
  {
    exists j :: start <= j < end && IsReplyFor(log[j], c, Some(t))
  }

  /** From `start` on, a reply of the second kind comes only after one for `t`. */
  ghost predicate AreTold(log: seq<Wrote>, start: nat, c: nat, t: Trigger, mark: Option<Trigger>) {
    forall i :: start <= i < |log| && IsReplyFor(log[i], c, mark) ==> AnsweredIn(log, start, i, c, t)
  }

  /** And it will stay so: `t` was answered, or the connection is told nothing any more. */
  ghost predicate IsSure(v: Server, start: nat, c: nat, t: Trigger, mark: Option<Trigger>) {
    && start <= |v.log| && AreTold(v.log, start, c, t, mark)
    && (AnsweredIn(v.log, start, |v.log|, c, t) || (IsGone(v, c) && Untold(v.log, start, c, mark)))
  }

  lemma SureStays(v: Server, w: Server, start: nat, c: nat, t: Trigger, mark: Option<Trigger>)
    requires IsSure(v, start, c, t, mark) && v.log <= w.log
    requires IsGone(v, c) ==> IsGone(w, c) && IsSilent(v.log, w.log, c)
    ensures IsSure(w, start, c, t, mark)
  {
    forall i | start <= i < |v.log| && AnsweredIn(v.log, start, i, c, t) ensures AnsweredIn(w.log, start, i, c, t) {
      var j :| start <= j < i && IsReplyFor(v.log[j], c, Some(t));
      assert IsReplyFor(w.log[j], c, Some(t));
    }
    if AnsweredIn(v.log, start, |v.log|, c, t) {
      var j :| start <= j < |v.log| && IsReplyFor(v.log[j], c, Some(t));
      assert IsReplyFor(w.log[j], c, Some(t));
      assert forall i :: |v.log| <= i <= |w.log| ==> AnsweredIn(w.log, start, i, c, t);
    }
  }

  // ----- ahead in a list

  /** `t` is in the list, and `u` is not before it. */
  predicate Leads(ts: seq<Trigger>, t: Trigger, u: Trigger) {
    exists i :: 0 <= i < |ts| && ts[i] == t && u !in ts[..i]
  }

  lemma LeadsOfSum(a: seq<Trigger>, b: seq<Trigger>, t: Trigger, u: Trigger)
    ensures Leads(a, t, u) ==> Leads(a + b, t, u)
    ensures u !in a && Leads(b, t, u) ==> Leads(a + b, t, u)
    ensures t !in a && Leads(a + b, t, u) ==> u !in a && Leads(b, t, u)
    ensures t in a && Leads(a + b, t, u) ==> Leads(a, t, u)
  {
    if Leads(a, t, u) {
      var i :| 0 <= i < |a| && a[i] == t && u !in a[..i];
      assert (a + b)[i] == t && (a + b)[..i] == a[..i];
    }
    if u !in a && Leads(b, t, u) {
      var i :| 0 <= i < |b| && b[i] == t && u !in b[..i];
      assert (a + b)[|a| + i] == t && (a + b)[..|a| + i] == a + b[..i];
    }
    if Leads(a + b, t, u) {
      var i :| 0 <= i < |a + b| && (a + b)[i] == t && u !in (a + b)[..i];
      if i < |a| {
        assert a[i] == t && (a + b)[..i] == a[..i];
      } else {
        assert b[i - |a|] == t && (a + b)[..i] == a + b[..i - |a|];
        if t in a {
          var k :| 0 <= k < |a| && a[k] == t;
          assert u !in a[..k];
        }
      }
    }
  }

  lemma LeadsAlone(ts: seq<Trigger>, t: Trigger, u: Trigger)
    requires t in ts && u !in ts
    ensures Leads(ts, t, u)
  {
    var i :| 0 <= i < |ts| && ts[i] == t;
    assert u !in ts[..i];
  }

  lemma LeadsInserted(a: seq<Trigger>, x: Trigger, b: seq<Trigger>, t: Trigger, u: Trigger)
    requires Leads(a + b, t, u) && x != u
    ensures Leads(a + [x] + b, t, u)
  {
    LeadsOfSum(a, b, t, u);
    LeadsOfSum(a + [x], b, t, u);
    LeadsOfSum(a, [x], t, u);
  }

  // ----- triggers are pulled

  lemma {:induction false} PullsLeaveUntold(v: Server, pulls: seq<Pull>, start: nat, c: nat, mark: Option<Trigger>)
    requires start <= |v.log| && Untold(v.log, start, c, mark) && mark.Some? && mark.value !in Triggers(pulls)
    ensures start <= |PulledAll(v, pulls).log| && Untold(PulledAll(v, pulls).log, start, c, mark)
    decreases pulls
  {
    hide Pulled, ReplyTo;
    if pulls != [] {
      DropKeepsLog(v, pulls[0]);
      assert Triggers(pulls) == [pulls[0].trigger] + Triggers(pulls[1..]);
      PullsLeaveUntold(Pulled(v, pulls[0]), pulls[1..], start, c, mark);
    }
  }

  lemma SureStaysPulled(v: Server, pulls: seq<Pull>, start: nat, c: nat, t: Trigger, mark: Option<Trigger>)
    requires IsSure(v, start, c, t, mark)
    ensures IsSure(PulledAll(v, pulls), start, c, t, mark)
  {
    hide PulledAll, IsSure, DaemonAnswers.Answers;
    PullsGrowLog(v, pulls);
    PullsAreSilent(v, pulls, c);
    SureStays(v, PulledAll(v, pulls), start, c, t, mark);
  }

  /** Pulling `t` makes sure. */
  lemma PullMakesSure(v: Server, p: Pull, start: nat, c: nat, mark: Option<Trigger>)
    requires start <= |v.log| && Untold(v.log, start, c, mark) && mark != Some(p.trigger) && p.trigger.owner == Some(c)
    ensures IsSure(Pulled(v, p), start, c, p.trigger, mark)
  {
    hide ReplyTo;
    DropKeepsLog(v, p);
    PullIsSilent(v, p, c);
    var w := Pulled(v, p);
    if IsGone(v, c) {
    } else {
      assert IsReplyFor(w.log[|v.log|], c, Some(p.trigger));
    }
  }

  lemma {:induction false} PullsMakeSure(v: Server, pulls: seq<Pull>, start: nat, c: nat, t: Trigger, u: Trigger)
    requires start <= |v.log| && Untold(v.log, start, c, Some(u)) && t != u && t.owner == Some(c) && Leads(Triggers(pulls), t, u)
    ensures IsSure(PulledAll(v, pulls), start, c, t, Some(u))
    decreases pulls
  {
    hide IsSure, Pulled, ReplyTo;
    var first, rest := pulls[0], Triggers(pulls[1..]);
    assert Triggers(pulls) == [first.trigger] + rest;
    if first.trigger == t {
      PullMakesSure(v, first, start, c, Some(u));
      SureStaysPulled(Pulled(v, first), pulls[1..], start, c, t, Some(u));
    } else {
      LeadsOfSum([first.trigger], rest, t, u);
      assert first.trigger in [first.trigger];
      DropKeepsLog(v, first);
      PullsMakeSure(Pulled(v, first), pulls[1..], start, c, t, u);
    }
  }

  // ----- ahead of another trigger

  /** Of two watches for the same keys the first is found first. */
  ghost predicate WatchLeads(ws: seq<Watch>, t: Trigger, u: Trigger) {
    exists i :: 0 <= i < |ws| && ws[i].trigger == t && IsFollowed(ws, i, u)
  }

  ghost predicate IsFollowed(ws: seq<Watch>, i: nat, u: Trigger)
    requires i < |ws|
  {
    forall k :: 0 <= k < |ws| && ws[k].trigger == u ==> i < k && ws[k].keys == ws[i].keys
  }

  ghost predicate DeskLeads(desk: Desk, t: Trigger, u: Trigger) {
    || (Leads(PromptTriggers(desk.prompts), t, u) && u !in WatchTriggers(desk.watches))
    || (WatchLeads(desk.watches, t, u) && u !in PromptTriggers(desk.prompts))
  }

  /** `t` waits where it is pulled before `u`, if `u` waits at all. */
  ghost predicate Waits(d: Daemon, t: Trigger, u: Trigger) {
    || (DeskLeads(d.desk, t, u) && u !in d.transition.deactivate + d.transition.quit)
    || (Leads(d.transition.deactivate + d.transition.quit, t, u) && u !in DeskTriggers(d.desk))
  }

  /** A connection's triggers `t` and `u`, both made. */
  predicate AreMade(d: Daemon, c: nat, t: Trigger, u: Trigger) {
    t != u && t.owner == Some(c) && u.owner == Some(c) && u.serial < |d.made|
  }

  /** The reply of the second kind has its turn after that for `t`, now and later. */
  ghost predicate InTurn(d: Daemon, start: nat, c: nat, t: Trigger, mark: Option<Trigger>) {
    || IsSure(d.server, start, c, t, mark)
    || (&& mark.Some? && start <= |d.server.log| && Untold(d.server.log, start, c, mark)
        && AreMade(d, c, t, mark.value) && Waits(d, t, mark.value))
  }

  lemma InTurnIsTold(d: Daemon, start: nat, c: nat, t: Trigger, mark: Option<Trigger>)
    requires InTurn(d, start, c, t, mark)
    ensures AreTold(d.server.log, start, c, t, mark)
  {
  }

  lemma WithPullsInTurn(d: Daemon, pulls: seq<Pull>, start: nat, c: nat, t: Trigger, mark: Option<Trigger>)
    requires || IsSure(d.server, start, c, t, mark)
             || (&& mark.Some? && start <= |d.server.log| && Untold(d.server.log, start, c, mark) && AreMade(d, c, t, mark.value)
                 && (Leads(Triggers(pulls), t, mark.value) || (mark.value !in Triggers(pulls) && Waits(d, t, mark.value))))
    ensures InTurn(WithPulls(d, pulls), start, c, t, mark)
  {
    hide IsSure, Untold, PulledAll, Leads, DeskLeads;
    if IsSure(d.server, start, c, t, mark) {
      SureStaysPulled(d.server, pulls, start, c, t, mark);
    } else if Leads(Triggers(pulls), t, mark.value) {
      PullsMakeSure(d.server, pulls, start, c, t, mark.value);
    } else {
      PullsLeaveUntold(d.server, pulls, start, c, mark);
    }
  }

  lemma SameInTurn(d: Daemon, e: Daemon, start: nat, c: nat, t: Trigger, mark: Option<Trigger>)
    requires InTurn(d, start, c, t, mark) && d.server == e.server && d.desk == e.desk && |d.made| <= |e.made|
    requires d.transition.deactivate + d.transition.quit == e.transition.deactivate + e.transition.quit
    ensures InTurn(e, start, c, t, mark)
  {
    hide IsSure, Untold, DeskLeads, Leads;
  }

  // ----- the transition

  lemma CompletedAllInTurn(d: Daemon, start: nat, c: nat, t: Trigger, mark: Option<Trigger>)
    requires InTurn(d, start, c, t, mark)
    ensures InTurn(CompletedAll(d), start, c, t, mark)
  {
    hide IsSure, Untold, WithPulls, Leads, DeskLeads, Triggers, Bare, DeskTriggers;
    var tr := d.transition;
    var cleared := d.(transition := tr.(deactivate := [], quit := []), hasExited := true);
    BareTriggers(tr.deactivate, tr.quit);
    WithPullsInTurn(cleared, Bare(tr.deactivate) + Bare(tr.quit), start, c, t, mark);
  }

  lemma DeactivatedSplashInTurn(d: Daemon, start: nat, c: nat, t: Trigger, mark: Option<Trigger>)
    requires InTurn(d, start, c, t, mark)
    ensures InTurn(DeactivatedSplash(d), start, c, t, mark)
  {
    hide Untold, WithPulls, Leads, DeskLeads, Triggers, Bare, DeskTriggers, AreTold, AnsweredIn;
    var tr := d.transition;
    if !tr.isInactive {
      var cleared := d.(transition := tr.(deactivate := [], isInactive := true));
      BareTriggers(tr.deactivate, []);
      if mark.Some? {
        LeadsOfSum(tr.deactivate, tr.quit, t, mark.value);
        assert [] + tr.quit == tr.quit;
        if t in tr.deactivate {
        } else if Leads(tr.deactivate + tr.quit, t, mark.value) {
          assert Waits(d, t, mark.value) ==> mark.value !in tr.deactivate;
        }
      }
      WithPullsInTurn(cleared, Bare(tr.deactivate), start, c, t, mark);
    }
  }

  /** One more deactivation or quit, which is not `u`. */
  lemma QueuedInTurn(d: Daemon, e: Daemon, x: Trigger, start: nat, c: nat, t: Trigger, mark: Option<Trigger>)
    requires InTurn(d, start, c, t, mark) && mark != Some(x) && d.server == e.server && d.desk == e.desk && |d.made| <= |e.made|
    requires || (e.transition.deactivate == d.transition.deactivate + [x] && e.transition.quit == d.transition.quit)
             || (e.transition.deactivate == d.transition.deactivate && e.transition.quit == d.transition.quit + [x])
    ensures InTurn(e, start, c, t, mark)
  {
    hide IsSure, Untold, Leads, DeskLeads, DeskTriggers;
    if !IsSure(d.server, start, c, t, mark) {
      var tr, u := d.transition, mark.value;
      if Leads(tr.deactivate + tr.quit, t, u) {
        LeadsInserted(tr.deactivate, x, tr.quit, t, u);
        assert tr.deactivate + tr.quit + [] == tr.deactivate + tr.quit;
        LeadsInserted(tr.deactivate + tr.quit, x, [], t, u);
        Regroup(tr.deactivate, tr.quit, [x]);
        assert tr.deactivate + tr.quit + [x] + [] == tr.deactivate + (tr.quit + [x]);
      }
    }
  }

  lemma DeactivatedInTurn(d: Daemon, x: Trigger, hasSplash: bool, start: nat, c: nat, t: Trigger, mark: Option<Trigger>)
    requires InTurn(d, start, c, t, mark) && mark != Some(x)
    ensures InTurn(Deactivated(d, x, hasSplash), start, c, t, mark)
  {
    hide InTurn, WithPulls, DeactivatedSplash;
    var tr := d.transition;
    if tr.isInactive {
      OnePullInTurn(d, x, start, c, t, mark);
    } else {
      var queued := d.(transition := tr.(deactivate := tr.deactivate + [x]));
      QueuedInTurn(d, queued, x, start, c, t, mark);
      QueuedInTurn(d, queued.(transition := queued.transition.(becomingIdle := true)), x, start, c, t, mark);
      assert [] + [x] == [x];
      if tr.deactivate == [] && !hasSplash {
        DeactivatedSplashInTurn(queued, start, c, t, mark);
      }
    }
  }

  lemma OnePullInTurn(d: Daemon, x: Trigger, start: nat, c: nat, t: Trigger, mark: Option<Trigger>)
    requires InTurn(d, start, c, t, mark) && mark != Some(x)
    ensures InTurn(WithPulls(d, [Pull(x, None)]), start, c, t, mark)
  {
    hide IsSure, Untold, WithPulls, Leads, DeskLeads, DeskTriggers;
    assert Triggers([Pull(x, None)]) == [x];
    WithPullsInTurn(d, [Pull(x, None)], start, c, t, mark);
  }

  lemma QuitInTurn(d: Daemon, x: Trigger, retain: bool, hasSplash: bool, start: nat, c: nat, t: Trigger, mark: Option<Trigger>)
    requires InTurn(d, start, c, t, mark) && mark != Some(x)
    ensures InTurn(Quit(d, x, retain, hasSplash), start, c, t, mark)
  {
    hide InTurn, CompletedAll;
    var tr := d.transition;
    if tr.quit != [] {
      QueuedInTurn(d, Quit(d, x, retain, hasSplash), x, start, c, t, mark);
    } else {
      assert [] + [x] == [x];
      var queued := d.(transition := tr.(quit := [x], retainSplash := retain));
      QueuedInTurn(d, queued, x, start, c, t, mark);
      QueuedInTurn(d, queued.(transition := queued.transition.(becomingIdle := true)), x, start, c, t, mark);
      CompletedAllInTurn(queued, start, c, t, mark);
    }
  }

  lemma BecameIdleInTurn(d: Daemon, start: nat, c: nat, t: Trigger, mark: Option<Trigger>)
    requires InTurn(d, start, c, t, mark)
    ensures InTurn(BecameIdle(d), start, c, t, mark)
  {
    hide InTurn, CompletedAll, DeactivatedSplash;
    var e := if d.transition.quit != [] then CompletedAll(d)
             else if d.transition.deactivate != [] then DeactivatedSplash(d)
             else d;
    CompletedAllInTurn(d, start, c, t, mark);
    DeactivatedSplashInTurn(d, start, c, t, mark);
    SameInTurn(e, BecameIdle(d), start, c, t, mark);
  }

  // ----- the desk

  /** What an event of the desk means for two waiting triggers: the first is pulled, or both go on waiting. */
  ghost predicate TakesTurns(desk: Desk, e: Event, t: Trigger, u: Trigger)
    requires CanHappen(e)
  {
    var (next, pulls) := After(desk, e);
    Leads(Triggers(pulls), t, u) || (u !in Triggers(pulls) && DeskLeads(next, t, u))
  }

  lemma AnswerTakesTurns(desk: Desk, answer: seq<byte>, t: Trigger, u: Trigger)
    requires desk.prompts != [] && DeskLeads(desk, t, u)
    ensures var (next, pulls) := Answered(desk, answer);
      Leads(Triggers(pulls), t, u) || (u !in Triggers(pulls) && DeskLeads(next, t, u))
  {
    hide WatchLeads, Leads;
    var ps := desk.prompts;
    var (next, pulls) := Answered(desk, answer);
    var first, rest := [ps[0].trigger], PromptTriggers(ps[1..]);
    assert PromptTriggers(ps) == first + rest;
    assert Triggers(pulls) == first;
    LeadsOfSum(first, rest, t, u);
    if ps[0].trigger == t {
      assert t in first;
    } else {
      assert t !in first;
    }
  }

  lemma WatchPullTakesTurns(desk: Desk, i: nat, answer: Option<seq<byte>>, t: Trigger, u: Trigger)
    requires i <= |desk.watches| && DeskLeads(desk, t, u)
    requires forall j, k :: 0 <= j < k < |desk.watches| && desk.watches[j].keys == desk.watches[k].keys ==> k != i
    ensures var (next, pulls) := WatchPulled(desk, i, answer);
      Leads(Triggers(pulls), t, u) || (u !in Triggers(pulls) && DeskLeads(next, t, u))
  {
    var ws := desk.watches;
    var (next, pulls) := WatchPulled(desk, i, answer);
    if i == |ws| {
      assert Triggers(pulls) == [];
    } else {
      assert Triggers(pulls) == [ws[i].trigger];
      var left := Without(ws, i);
      assert WatchTriggers(left) == WatchTriggers(ws)[..i] + WatchTriggers(ws)[i + 1..];
      assert ws[i].trigger in WatchTriggers(ws) by { assert WatchTriggers(ws)[i] == ws[i].trigger; }
      if Leads(PromptTriggers(desk.prompts), t, u) && u !in WatchTriggers(ws) {
      } else {
        var k :| 0 <= k < |ws| && ws[k].trigger == t && IsFollowed(ws, k, u);
        if k == i {
          assert [t][0] == t;
        } else {
          StillFollowed(ws, i, k, u);
        }
      }
    }
  }

  lemma StillFollowed(ws: seq<Watch>, i: nat, k: nat, u: Trigger)
    requires i < |ws| && k < |ws| && i != k && IsFollowed(ws, k, u)
    requires forall j, n :: 0 <= j < n < |ws| && ws[j].keys == ws[n].keys ==> n != i
    ensures WatchLeads(Without(ws, i), ws[k].trigger, u) && ws[i].trigger != u
  {
    var left, at := Without(ws, i), if k < i then k else k - 1;
    assert left[at] == ws[k];
    forall n | 0 <= n < |left| && left[n].trigger == u ensures at < n && left[n].keys == left[at].keys {
      var m := if n < i then n else n + 1;
      assert left[n] == ws[m];
    }
    assert IsFollowed(left, at, u);
  }

  /** The first watch that matches is the first of those with its keys. */
  lemma MatchIsFirstOfItsKeys(ws: seq<Watch>, keystroke: seq<byte>)
    ensures forall j, k :: 0 <= j < k < |ws| && ws[j].keys == ws[k].keys ==> k != FirstMatch(ws, keystroke)
  {
    hide Contains;
    forall j, k | 0 <= j < k < |ws| && ws[j].keys == ws[k].keys ensures Matches(ws[j], keystroke) <==> Matches(ws[k], keystroke) {
    }
  }

  lemma FirstWithKeysIsFirst(ws: seq<Watch>, keys: Option<seq<byte>>)
    ensures forall j, k :: 0 <= j < k < |ws| && ws[j].keys == ws[k].keys ==> k != FirstWithKeys(ws, keys)
  {
  }

  lemma MoreAtTheDesk(desk: Desk, p: Prompt, w: Watch, t: Trigger, u: Trigger)
    requires DeskLeads(desk, t, u)
    ensures p.trigger != u ==> DeskLeads(desk.(prompts := desk.prompts + [p]), t, u)
    ensures w.trigger != u ==> DeskLeads(desk.(watches := desk.watches + [w]), t, u)
  {
    hide Leads;
    PromptTriggersOfSum([p], []);
    PromptTriggersOfSum(desk.prompts, [p]);
    WatchTriggersOfSum([w], []);
    WatchTriggersOfSum(desk.watches, [w]);
    LeadsOfSum(PromptTriggers(desk.prompts), [p.trigger], t, u);
    hide PromptTriggers, WatchTriggers;
    if w.trigger != u && WatchLeads(desk.watches, t, u) {
      var i :| 0 <= i < |desk.watches| && desk.watches[i].trigger == t && IsFollowed(desk.watches, i, u);
      assert (desk.watches + [w])[i] == desk.watches[i];
      assert IsFollowed(desk.watches + [w], i, u);
    }
  }

  // ----- another connection hangs up

  /** Neither trigger is the connection's. */
  predicate AreOthers(desk: Desk, x: nat, t: Trigger, u: Trigger) {
    && (forall p <- desk.prompts :: p.trigger == t || p.trigger == u ==> p.connection != x)
    && (forall w <- desk.watches :: w.trigger == t || w.trigger == u ==> w.connection != x)
  }

  lemma {:induction false} OtherPromptsStay(ps: seq<Prompt>, x: nat, t: Trigger, u: Trigger)
    requires forall p <- ps :: p.trigger == t || p.trigger == u ==> p.connection != x
    ensures u !in Triggers(PullsOf(ps, x))
    ensures u in PromptTriggers(PromptsWithout(ps, x)) ==> u in PromptTriggers(ps)
    ensures Leads(PromptTriggers(ps), t, u) ==> Leads(PromptTriggers(PromptsWithout(ps, x)), t, u)
    decreases ps
  {
    hide Leads, PromptTriggers, Triggers;
    TriggersOfSum([], []);
    PromptTriggersOfSum([], []);
    if ps != [] {
      var first, rest := [ps[0]], ps[1..];
      HeadAndTail(ps);
      OtherPromptsStay(rest, x, t, u);
      PromptTriggersOfSum(first, rest);
      LeadsOfSum([ps[0].trigger], PromptTriggers(rest), t, u);
      if ps[0].connection == x {
        TriggersOfSum([Pull(ps[0].trigger, None)], PullsOf(rest, x));
        assert PromptsWithout(ps, x) == PromptsWithout(rest, x);
        assert t !in [ps[0].trigger];
      } else {
        PromptTriggersOfSum(first, PromptsWithout(rest, x));
        LeadsOfSum([ps[0].trigger], PromptTriggers(PromptsWithout(rest, x)), t, u);
        assert PullsOf(ps, x) == PullsOf(rest, x);
        if Leads(PromptTriggers(ps), t, u) {
          if ps[0].trigger == t {
            AloneLeads(t, u);
          }
        }
      }
    }
  }

  lemma AloneLeads(t: Trigger, u: Trigger)
    ensures Leads([t], t, u)
  {
    assert [t][0] == t;
  }

  lemma WatchLeadsStep(ws: seq<Watch>, t: Trigger, u: Trigger)
    requires ws != []
    ensures ws[0].trigger != t && WatchLeads(ws, t, u) ==> ws[0].trigger != u && WatchLeads(ws[1..], t, u)
    ensures ws[0].trigger != u && WatchLeads(ws[1..], t, u) ==> WatchLeads(ws, t, u)
  {
    if ws[0].trigger != t && WatchLeads(ws, t, u) {
      var i :| 0 <= i < |ws| && ws[i].trigger == t && IsFollowed(ws, i, u);
      assert ws[1..][i - 1] == ws[i];
      assert IsFollowed(ws[1..], i - 1, u);
    }
    if ws[0].trigger != u && WatchLeads(ws[1..], t, u) {
      var i :| 0 <= i < |ws[1..]| && ws[1..][i].trigger == t && IsFollowed(ws[1..], i, u);
      assert ws[i + 1] == ws[1..][i];
      forall k | 0 <= k < |ws| && ws[k].trigger == u ensures i + 1 < k && ws[k].keys == ws[i + 1].keys {
        assert k > 0 && ws[1..][k - 1] == ws[k];
      }
      assert IsFollowed(ws, i + 1, u);
    }
  }

  lemma {:induction false} WatchesWithoutAreWatches(ws: seq<Watch>, x: nat, u: Trigger, keys: Option<seq<byte>>)
    requires forall w <- ws :: w.trigger == u ==> w.keys == keys
    ensures forall w <- WatchesWithout(ws, x) :: w in ws
    ensures forall w <- WatchesWithout(ws, x) :: w.trigger == u ==> w.keys == keys
    decreases ws
  {
    if ws != [] {
      WatchesWithoutAreWatches(ws[1..], x, u, keys);
    }
  }

  lemma FirstLeads(w: Watch, rest: seq<Watch>, u: Trigger)
    requires w.trigger != u && forall x <- rest :: x.trigger == u ==> x.keys == w.keys
    ensures WatchLeads([w] + rest, w.trigger, u)
  {
    var ws := [w] + rest;
    forall k | 0 <= k < |ws| && ws[k].trigger == u ensures 0 < k && ws[k].keys == ws[0].keys {
      assert k > 0 && ws[k] in rest;
    }
    assert IsFollowed(ws, 0, u);
  }

  lemma FirstOrLater(ws: seq<Watch>, t: Trigger, u: Trigger)
    requires ws != [] && t != u && WatchLeads(ws, t, u)
    ensures WatchLeads(ws[1..], t, u) || (ws[0].trigger == t && forall x <- ws[1..] :: x.trigger == u ==> x.keys == ws[0].keys)
  {
    var i :| 0 <= i < |ws| && ws[i].trigger == t && IsFollowed(ws, i, u);
    if i == 0 {
      forall x | x in ws[1..] && x.trigger == u ensures x.keys == ws[0].keys {
        var k :| 0 <= k < |ws[1..]| && ws[1..][k] == x;
        assert ws[k + 1] == x;
      }
    } else {
      assert ws[1..][i - 1] == ws[i];
      assert IsFollowed(ws[1..], i - 1, u);
    }
  }

  lemma {:induction false} OtherWatchesStay(ws: seq<Watch>, x: nat, t: Trigger, u: Trigger)
    requires t != u && forall w <- ws :: w.trigger == t || w.trigger == u ==> w.connection != x
    ensures u !in Triggers(WatchPullsOf(ws, x))
    ensures u in WatchTriggers(WatchesWithout(ws, x)) ==> u in WatchTriggers(ws)
    ensures WatchLeads(ws, t, u) ==> WatchLeads(WatchesWithout(ws, x), t, u)
    decreases ws
  {
    hide WatchLeads, WatchTriggers, Triggers;
    TriggersOfSum([], []);
    WatchTriggersOfSum([], []);
    if ws != [] {
      var first, rest := [ws[0]], ws[1..];
      var left := WatchesWithout(rest, x);
      HeadAndTail(ws);
      OtherWatchesStay(rest, x, t, u);
      WatchTriggersOfSum(first, rest);
      WatchLeadsStep(ws, t, u);
      if ws[0].connection == x {
        TriggersOfSum([Pull(ws[0].trigger, None)], WatchPullsOf(rest, x));
        assert WatchesWithout(ws, x) == left;
      } else {
        WatchTriggersOfSum(first, left);
        assert WatchPullsOf(ws, x) == WatchPullsOf(rest, x);
        assert (first + left)[1..] == left;
        WatchLeadsStep(first + left, t, u);
        if WatchLeads(ws, t, u) {
          FirstOrLater(ws, t, u);
          if !WatchLeads(rest, t, u) {
            WatchesWithoutAreWatches(rest, x, u, ws[0].keys);
            FirstLeads(ws[0], left, u);
          }
        }
      }
    }
  }

  // ----- any event of the desk

  lemma CancelTakesTurns(desk: Desk, x: nat, t: Trigger, u: Trigger)
    requires DeskLeads(desk, t, u) && t != u && AreOthers(desk, x, t, u)
    ensures u !in Triggers(Cancelled(desk, x).1) && DeskLeads(Cancelled(desk, x).0, t, u)
  {
    hide WatchLeads, Leads, PromptTriggers, WatchTriggers, Triggers, PromptsWithout, WatchesWithout, PullsOf, WatchPullsOf;
    OtherPromptsStay(desk.prompts, x, t, u);
    OtherWatchesStay(desk.watches, x, t, u);
    TriggersOfSum(PullsOf(desk.prompts, x), WatchPullsOf(desk.watches, x));
  }

  lemma DeskTakesTurns(desk: Desk, e: Event, t: Trigger, u: Trigger)
    requires CanHappen(e) && DeskLeads(desk, t, u) && t != u && u !in AddedBy(e)
    requires e.Cancel? ==> AreOthers(desk, e.connection, t, u)
    ensures TakesTurns(desk, e, t, u)
  {
    hide FirstMatch, FirstWithKeys, WatchPulled, CString, Typed, Answered, Cancelled, Cancels, WatchLeads, Leads, PromptTriggers, WatchTriggers,
      Triggers;
    TriggersOfSum([], []);
    match e {
      case Ask(p) => MoreAtTheDesk(desk, p, Watch(t, 0, None), t, u);
      case WatchFor(w) => MoreAtTheDesk(desk, Prompt(t, 0, false), w, t, u);
      case Ignore(keys) =>
        FirstWithKeysIsFirst(desk.watches, keys);
        WatchPullTakesTurns(desk, FirstWithKeys(desk.watches, keys), None, t, u);
      case Cancel(x) => CancelTakesTurns(desk, x, t, u);
      case _ => KeyTakesTurns(desk, e, t, u);
    }
  }

  lemma KeyTakesTurns(desk: Desk, e: Event, t: Trigger, u: Trigger)
    requires CanHappen(e) && DeskLeads(desk, t, u) && (e.Type? || e.Backspace? || e.Enter?)
    ensures TakesTurns(desk, e, t, u)
  {
    hide FirstMatch, WatchPulled, CString, Typed, Answered, Cancels, WatchLeads, Leads, PromptTriggers, WatchTriggers, Triggers;
    TriggersOfSum([], []);
    if desk.prompts == [] {
      match e {
        case Type(input, _) =>
          MatchIsFirstOfItsKeys(desk.watches, CString(input.bytes));
          WatchPullTakesTurns(desk, FirstMatch(desk.watches, CString(input.bytes)), Some(CString(input.bytes)), t, u);
        case Enter(line, _) =>
          MatchIsFirstOfItsKeys(desk.watches, [NEWLINE]);
          WatchPullTakesTurns(desk, FirstMatch(desk.watches, [NEWLINE]), Some(CString(line)), t, u);
        case Backspace =>
      }
    } else {
      AnswerTakesTurns(desk, [CTRL_C], t, u);
      AnswerTakesTurns(desk, CString(desk.text), t, u);
    }
  }

  lemma DeskLeavesOut(desk: Desk, e: Event, u: Trigger)
    requires CanHappen(e) && u !in DeskTriggers(desk) && u !in AddedBy(e)
    ensures u !in Triggers(After(desk, e).1) && u !in DeskTriggers(After(desk, e).0)
  {
    hide After, DeskTriggers, Triggers, AddedBy;
    var (next, pulls) := After(desk, e);
    DeskConserves(desk, e);
    assert u !in multiset(DeskTriggers(desk)) + multiset(AddedBy(e));
    assert u !in multiset(DeskTriggers(next)) && u !in multiset(Triggers(pulls));
  }

  lemma DeskEventInTurn(d: Daemon, e: Event, start: nat, c: nat, t: Trigger, mark: Option<Trigger>)
    requires InTurn(d, start, c, t, mark) && CanHappen(e) && (mark.Some? ==> mark.value !in AddedBy(e))
    requires e.Cancel? && mark.Some? ==> AreOthers(d.desk, e.connection, t, mark.value)
    ensures InTurn(DeskEvent(d, e), start, c, t, mark)
  {
    hide IsSure, Untold, WithPulls, Leads, DeskLeads, Triggers, DeskTriggers, After, AddedBy, AreOthers;
    var (desk, pulls) := After(d.desk, e);
    if !IsSure(d.server, start, c, t, mark) {
      var u := mark.value;
      if DeskLeads(d.desk, t, u) && u !in d.transition.deactivate + d.transition.quit {
        DeskTakesTurns(d.desk, e, t, u);
      } else {
        DeskLeavesOut(d.desk, e, u);
      }
    }
    WithPullsInTurn(d.(desk := desk), pulls, start, c, t, mark);
  }

  // ----- steps

  lemma OwnedAreOthers(d: Daemon, x: nat, c: nat, t: Trigger, u: Trigger)
    requires AreOwned(d.desk, d.server.listed) && t.owner == Some(c) && u.owner == Some(c) && x != c
    ensures AreOthers(d.desk, x, t, u)
  {
  }

  lemma UntoldStays(log: seq<Wrote>, more: seq<Wrote>, start: nat, c: nat, mark: Option<Trigger>)
    requires start <= |log| && Untold(log, start, c, mark) && IsSilent(log, more, c)
    ensures start <= |more| && Untold(more, start, c, mark)
  {
  }

  lemma GoneInTurn(d: Daemon, gone: nat, start: nat, c: nat, t: Trigger, mark: Option<Trigger>)
    requires Invariant(d) && gone in d.server.listed && InTurn(d, start, c, t, mark)
    ensures InTurn(Gone(d, gone), start, c, t, mark)
  {
    hide Invariant, Untold, Waits, AreTold, AnsweredIn, Gone, AreMade;
    GoingContinues(d, gone, c);
    GoneGrowsLog(d, gone);
    if IsSure(d.server, start, c, t, mark) {
      SureStays(d.server, Gone(d, gone).server, start, c, t, mark);
    } else if gone == c {
      UntoldStays(d.server.log, Gone(d, gone).server.log, start, c, mark);
      UntoldIsTold(Gone(d, gone).server.log, start, c, t, mark);
    } else {
      OtherGoneInTurn(d, gone, start, c, t, mark);
    }
  }

  lemma UntoldIsTold(log: seq<Wrote>, start: nat, c: nat, t: Trigger, mark: Option<Trigger>)
    requires Untold(log, start, c, mark)
    ensures AreTold(log, start, c, t, mark)
  {
  }

  lemma OtherGoneInTurn(d: Daemon, gone: nat, start: nat, c: nat, t: Trigger, mark: Option<Trigger>)
    requires Invariant(d) && gone in d.server.listed && gone != c && InTurn(d, start, c, t, mark) && !IsSure(d.server, start, c, t, mark)
    ensures InTurn(Gone(d, gone), start, c, t, mark)
  {
    hide PulledAll, Cancelled, AllCount, Held, Triggers, Unlisted, IsSure, Untold, DeskLeads, Leads, DeskTriggers;
    ListedIsAllocated(d.server, [] + Held(d), gone);
    var marked := d.(server := MarkedDisconnected(d.server, gone));
    CancelIsEvent(d.desk, gone);
    OwnedAreOthers(d, gone, c, t, mark.value);
    DeskEventInTurn(marked, Cancel(gone), start, c, t, mark);
    var cancelled := DeskEvent(marked, Cancel(gone));
    UnlistingKeepsLog(cancelled, gone);
    var e := Gone(d, gone);
    assert e.server == DropReference(cancelled.server.(listed := Unlisted(cancelled.server.listed, gone)), gone);
    if IsSure(cancelled.server, start, c, t, mark) {
      DroppingKeepsGone(cancelled.server, gone, c);
      SureStays(cancelled.server, e.server, start, c, t, mark);
    }
  }

  lemma DroppingKeepsGone(v: Server, gone: nat, c: nat)
    ensures var w := DropReference(v.(listed := Unlisted(v.listed, gone)), gone);
      w.log == v.log && (IsGone(v, c) ==> IsGone(w, c)) && IsSilent(v.log, w.log, c)
  {
  }

  lemma MadeInTurn(d: Daemon, kind: Kind, owner: Option<nat>, start: nat, c: nat, t: Trigger, mark: Option<Trigger>)
    requires InTurn(d, start, c, t, mark)
    ensures InTurn(WithTrigger(d, kind, owner), start, c, t, mark)
  {
    hide IsSure, Untold, DeskLeads, Leads, DeskTriggers;
    var e := WithTrigger(d, kind, owner);
    if IsSure(d.server, start, c, t, mark) {
      TakingKeepsGone(d, kind, owner, c);
      SureStays(d.server, e.server, start, c, t, mark);
    }
  }

  lemma TakingKeepsGone(d: Daemon, kind: Kind, owner: Option<nat>, c: nat)
    ensures var v, w := d.server, WithTrigger(d, kind, owner).server;
      w.log == v.log && (IsGone(v, c) ==> IsGone(w, c)) && IsSilent(v.log, w.log, c)
  {
  }

  lemma ReplyInTurn(d: Daemon, from: nat, reply: Reply, start: nat, c: nat, t: Trigger, mark: Option<Trigger>)
    requires InTurn(d, start, c, t, mark) && from in d.server.connections && !IsGone(d.server, from)
    ensures InTurn(Replied(d, from, reply), start, c, t, mark)
  {
    hide DeskLeads, Leads, DeskTriggers, AreTold, AnsweredIn;
    if IsSure(d.server, start, c, t, mark) {
      SureStays(d.server, Replied(d, from, reply).server, start, c, t, mark);
    }
  }

  /** The second reply is for a trigger that was made, or for none. */
  predicate IsOld(d: Daemon, mark: Option<Trigger>) {
    mark.Some? ==> mark.value.serial < |d.made|
  }

  lemma IgnoredInTurn(d: Daemon, from: nat, keys: Option<seq<byte>>, start: nat, c: nat, t: Trigger, mark: Option<Trigger>)
    requires Invariant(d) && from in d.server.listed && InTurn(d, start, c, t, mark)
    ensures InTurn(Replied(DeskEvent(d, Ignore(keys)), from, Ack), start, c, t, mark)
  {
    hide InTurn, PulledAll, AllCount, Held, AreOwned, AreListed, After, Replied, AreOthers;
    var e := DeskEvent(d, Ignore(keys));
    DeskEventInTurn(d, Ignore(keys), start, c, t, mark);
    DeskEventKeeps(d, Ignore(keys));
    PullsKeepList(d.server, After(d.desk, Ignore(keys)).1);
    ListedIsThere(e, from);
    ListedIsNotGone(e, from);
    ReplyInTurn(e, from, Ack, start, c, t, mark);
  }

  lemma RestartedInTurn(d: Daemon, from: nat, hasSplash: bool, start: nat, c: nat, t: Trigger, mark: Option<Trigger>)
    requires Invariant(d) && from in d.server.listed && InTurn(d, start, c, t, mark) && IsOld(d, mark)
    ensures var e := Quit(WithTrigger(d, Quitting, None), NextTrigger(d, Quitting, None), false, hasSplash);
      InTurn(Replied(e, from, Ack), start, c, t, mark)
  {
    hide InTurn, AllCount, Held, AreOwned, AreListed, Quit, Replied;
    var made, x := WithTrigger(d, Quitting, None), NextTrigger(d, Quitting, None);
    var e := Quit(made, x, false, hasSplash);
    MadeInTurn(d, Quitting, None, start, c, t, mark);
    QuitInTurn(made, x, false, hasSplash, start, c, t, mark);
    TriggerIsMade(d, Quitting, None);
    TriggerStaysSettled(d, Quitting, None);
    QuitKeeps(made, x, false, hasSplash);
    QuitKeepsList(made, x, false, hasSplash);
    ListedIsThere(e, from);
    ListedIsNotGone(e, from);
    ReplyInTurn(e, from, Ack, start, c, t, mark);
  }

  /** A deferred request of anybody's takes its place behind. */
  lemma DeferredInTurn(d: Daemon, from: nat, r: Protocol.Request, around: Surroundings, start: nat, c: nat, t: Trigger,
                       mark: Option<Trigger>)
    requires around.isRoot && Matching.IsDeferred(r) && InTurn(d, start, c, t, mark) && IsOld(d, mark)
    ensures InTurn(Requested(d, from, r, around), start, c, t, mark)
  {
    hide InTurn, Deactivated, Quit, DeskEvent, WithTrigger, WithPulls, Retains, AreOthers;
    var kind := KindOf(r);
    var x := NextTrigger(d, kind, Some(from));
    var made := WithTrigger(d, kind, Some(from));
    MadeInTurn(d, kind, Some(from), start, c, t, mark);
    match r.command as char {
      case 'D' => DeactivatedInTurn(made, x, around.hasSplash, start, c, t, mark);
      case 'Q' => QuitInTurn(made, x, Retains(r), around.hasSplash, start, c, t, mark);
      case '*' =>
        if !around.hasSplash && !around.isShown {
          OnePullInTurn(made, x, start, c, t, mark);
        } else {
          DeskEventInTurn(made, Ask(Prompt(x, from, true)), start, c, t, mark);
        }
      case 'W' => DeskEventInTurn(made, Ask(Prompt(x, from, false)), start, c, t, mark);
      case _ => DeskEventInTurn(made, WatchFor(Watch(x, from, r.argument)), start, c, t, mark);
    }
  }

  /** The kind of trigger a deferred request makes. */
  function KindOf(r: Protocol.Request): Kind {
    if r.command as char == 'D' then Deactivation
    else if r.command as char == 'Q' then Quitting
    else if r.command as char == '*' then Password
    else if r.command as char == 'W' then Question
    else Keystroke
  }

  /** What answers at once changes at most two flags. */
  lemma PlainAnswers(d: Daemon, c: nat, r: Protocol.Request, around: Surroundings) returns (f: Daemon, reply: Reply)
    requires around.isRoot ==> !Matching.IsDeferred(r) && r.command as char != 'L' && !(r.command as char == 'R' && around.initIsShell)
    requires around.isRoot && r.command as char == 'c' ==> CanBeGathered(d.server.passwords)
    ensures Requested(d, c, r, around) == Replied(f, c, reply)
    ensures f.server == d.server && f.desk == d.desk && f.made == d.made
    ensures f.transition.deactivate == d.transition.deactivate && f.transition.quit == d.transition.quit && Held(f) == Held(d)
  {
    hide Replied, DeskTriggers, Deactivated, Quit, DeskEvent, WithTrigger, WithPulls, Retains, CanBeGathered;
    f := d;
    if !around.isRoot {
      reply := Nak;
    } else {
      match r.command as char {
        case 'c' => reply := Answers(d.server.passwords);
        case 'V' => reply := if around.hasActiveVt then Ack else Nak;
        case 'r' => f, reply := Reactivated(d), Ack;
        case '$' =>
          f := if !around.isShown && !d.transition.isInactive && around.ignoresShow then Retaining(d) else d;
          reply := Ack;
        case 'H' =>
          f := if !d.transition.isInactive && around.hasSplash then Retaining(d) else d;
          reply := Ack;
        case _ => reply := if r.command as char in "UCuS!RlMmAaP" then Ack else Nak;
      }
    }
  }

  lemma RequestInTurn(d: Daemon, from: nat, r: Protocol.Request, around: Surroundings, start: nat, c: nat, t: Trigger,
                      mark: Option<Trigger>)
    requires Invariant(d) && from in d.server.listed && InTurn(d, start, c, t, mark) && IsOld(d, mark)
    ensures InTurn(Requested(d, from, r, around), start, c, t, mark)
  {
    if around.isRoot && Matching.IsDeferred(r) {
      DeferredInTurn(d, from, r, around, start, c, t, mark);
    } else if around.isRoot && r.command as char == 'L' {
      IgnoredInTurn(d, from, r.argument, start, c, t, mark);
    } else if around.isRoot && r.command as char == 'R' && around.initIsShell {
      RestartedInTurn(d, from, around.hasSplash, start, c, t, mark);
    } else if around.isRoot && r.command as char == 'c' && !CanBeGathered(d.server.passwords) {
      SameInTurn(d, d.(isHung := true), start, c, t, mark);
    } else {
      hide Invariant, Replied, InTurn, Requested, Held;
      var f, reply := PlainAnswers(d, from, r, around);
      ListedIsThere(d, from);
      ListedIsNotGone(d, from);
      SameInTurn(d, f, start, c, t, mark);
      ReplyInTurn(f, from, reply, start, c, t, mark);
    }
  }

  lemma ConnectedInTurn(d: Daemon, start: nat, c: nat, t: Trigger, mark: Option<Trigger>)
    requires InTurn(d, start, c, t, mark) && c < d.server.nextConnection
    ensures InTurn(Connected(d), start, c, t, mark)
  {
    hide DeskLeads, Leads, DeskTriggers, AreTold, AnsweredIn;
    if IsSure(d.server, start, c, t, mark) {
      SureStays(d.server, Connected(d).server, start, c, t, mark);
    }
  }

  lemma StepInTurn(d: Daemon, step: Daemons.Step, start: nat, c: nat, t: Trigger, mark: Option<Trigger>)
    requires Invariant(d) && Daemons.CanStep(d, step) && c < d.server.nextConnection
    requires InTurn(d, start, c, t, mark) && IsOld(d, mark)
    ensures InTurn(Daemons.Stepped(d, step), start, c, t, mark)
  {
    hide Invariant, InTurn, Connected, Requested, Gone, DeskEvent, BecameIdle, AreOthers;
    match step {
      case Connect => ConnectedInTurn(d, start, c, t, mark);
      case Request(from, request, around) =>
        if request.None? {
          GoneInTurn(d, from, start, c, t, mark);
        } else {
          RequestInTurn(d, from, request.value, around, start, c, t, mark);
        }
      case Hangup(gone) => GoneInTurn(d, gone, start, c, t, mark);
      case Keyboard(e) => DeskEventInTurn(d, e, start, c, t, mark);
      case Idle => BecameIdleInTurn(d, start, c, t, mark);
    }
  }

  // ----- what only grows

  predicate Ages(d: Daemon, e: Daemon) {
    |d.made| <= |e.made| && d.server.nextConnection <= e.server.nextConnection
  }

  lemma RequestAges(d: Daemon, from: nat, r: Protocol.Request, around: Surroundings)
    ensures |d.made| <= |Requested(d, from, r, around).made|
  {
    hide PulledAll, After, Triggers, Bare, CanBeGathered, Retains;
  }

  lemma StepAges(d: Daemon, step: Daemons.Step)
    requires Invariant(d) && Daemons.CanStep(d, step)
    ensures Ages(d, Daemons.Stepped(d, step))
  {
    hide Invariant, Requested, PulledAll, After, Cancelled, Unlisted;
    if step.Connect? {
    } else {
      StepContinuesNumbers(d, step);
      if step.Request? && step.request.Some? {
        RequestAges(d, step.connection, step.request.value, step.around);
      }
    }
  }

  lemma StepContinuesNumbers(d: Daemon, step: Daemons.Step)
    requires Invariant(d) && Daemons.CanStep(d, step)
    ensures d.server.nextConnection <= Daemons.Stepped(d, step).server.nextConnection
  {
    hide Invariant, Daemons.Stepped;
    if d.server.nextConnection > 0 {
      StepContinues(d, step, 0);
    }
  }

  /** Whatever comes next, the turn is kept. */
  lemma {:induction false} RunInTurn(d: Daemon, steps: seq<Daemons.Step>, start: nat, c: nat, t: Trigger, mark: Option<Trigger>)
    requires Invariant(d) && Daemons.IsRun(d, steps) && c < d.server.nextConnection
    requires InTurn(d, start, c, t, mark) && IsOld(d, mark)
    ensures InTurn(Daemons.Run(d, steps), start, c, t, mark)
    decreases steps
  {
    hide Invariant, InTurn, Daemons.Stepped, Daemons.CanStep;
    if steps != [] {
      StepInTurn(d, steps[0], start, c, t, mark);
      StepKeepsInvariant(d, steps[0]);
      StepAges(d, steps[0]);
      RunInTurn(Daemons.Stepped(d, steps[0]), steps[1..], start, c, t, mark);
    }
  }
}
