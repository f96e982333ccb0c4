/** What every run of the daemon keeps: references, answers, and silence after a hangup. */
module References {
  import opened Base
  import opened Protocol
  import opened Interactions
  import opened Daemons

  // ----- counting

  /** How many triggers a connection still waits for. */
  function Owned(ts: seq<Trigger>, c: nat): nat {
    if ts == [] then 0 else (if ts[0].owner == Some(c) then 1 else 0) + Owned(ts[1..], c)
  }

  lemma {:induction false} OwnedOfSum(a: seq<Trigger>, b: seq<Trigger>, c: nat)
    ensures Owned(a + b, c) == Owned(a, c) + Owned(b, c)
  {
    if a == [] {
      assert a + b == b;
    } else {
      assert (a + b)[1..] == a[1..] + b;
      OwnedOfSum(a[1..], b, c);
    }
  }

  lemma WithoutOne(b: seq<Trigger>, i: nat, c: nat)
    requires i < |b|
    ensures var others := b[..i] + b[i + 1..];
      && multiset(b) == multiset{b[i]} + multiset(others)
      && Owned(b, c) == (if b[i].owner == Some(c) then 1 else 0) + Owned(others, c)
  {
    assert b == b[..i] + [b[i]] + b[i + 1..];
    OwnedOfSum(b[..i], b[i + 1..], c);
    OwnedOfSum(b[..i] + [b[i]], b[i + 1..], c);
    OwnedOfSum(b[..i], [b[i]], c);
  }

  lemma {:induction false} OwnedOfPermutation(a: seq<Trigger>, b: seq<Trigger>, c: nat)
    requires multiset(a) == multiset(b)
    ensures Owned(a, c) == Owned(b, c)
    decreases |a|
  {
    assert |a| == |multiset(a)| == |multiset(b)| == |b|;
    if a != [] {
      HeadAndTail(a);
      assert a[0] in multiset(b);
      var i :| 0 <= i < |b| && b[i] == a[0];
      var others := b[..i] + b[i + 1..];
      WithoutOne(b, i, c);
      assert multiset(a) == multiset{a[0]} + multiset(a[1..]);
      assert multiset(a[1..]) == multiset(a) - multiset{a[0]} == multiset(others);
      OwnedOfPermutation(a[1..], others, c);
    }
  }

  /** One connection's count: one for the list, and one for each trigger; freed when there is none. */
  predicate Counts(s: Server, held: seq<Trigger>, c: nat) {
    if c in s.connections then
      && s.connections[c].referenceCount == (if c in s.listed then 1 else 0) + Owned(held, c)
      && s.connections[c].referenceCount >= 1
    else c !in s.listed && Owned(held, c) == 0
  }

  ghost predicate AllCount(s: Server, held: seq<Trigger>) {
    !s.failed && forall c: nat :: Counts(s, held, c)
  }

  lemma PullKeepsCount(s: Server, p: Pull, rest: seq<Trigger>)
    requires AllCount(s, [p.trigger] + rest)
    ensures AllCount(Pulled(s, p), rest)
  {
    hide Owned;
    var t := Pulled(s, p);
    if p.trigger.owner.Some? {
      var c := p.trigger.owner.value;
      OwnedOfFirst(p.trigger, rest, c);
      assert Counts(s, [p.trigger] + rest, c);
    }
    forall c: nat ensures Counts(t, rest, c) {
      OwnedOfFirst(p.trigger, rest, c);
      assert Counts(s, [p.trigger] + rest, c);
    }
  }

  lemma OwnedOfFirst(t: Trigger, rest: seq<Trigger>, c: nat)
    ensures Owned([t] + rest, c) == (if t.owner == Some(c) then 1 else 0) + Owned(rest, c)
  {
    assert ([t] + rest)[1..] == rest;
  }

  lemma {:induction false} PullsKeepCount(s: Server, pulls: seq<Pull>, rest: seq<Trigger>)
    requires AllCount(s, Triggers(pulls) + rest)
    ensures AllCount(PulledAll(s, pulls), rest)
    decreases pulls
  {
    hide Pulled, AllCount;
    if pulls == [] {
      assert Triggers(pulls) + rest == rest;
    } else {
      assert Triggers(pulls) + rest == [pulls[0].trigger] + (Triggers(pulls[1..]) + rest);
      PullKeepsCount(s, pulls[0], Triggers(pulls[1..]) + rest);
      PullsKeepCount(Pulled(s, pulls[0]), pulls[1..], rest);
    }
  }

  // ----- triggers are made once and pulled at most once

  function PromptTriggers(prompts: seq<Prompt>): (t: seq<Trigger>)
    ensures |t| == |prompts|
  {
    seq(|prompts|, i requires 0 <= i < |prompts| => prompts[i].trigger)
  }

  function WatchTriggers(watches: seq<Watch>): (t: seq<Trigger>)
    ensures |t| == |watches|
  {
    seq(|watches|, i requires 0 <= i < |watches| => watches[i].trigger)
  }

  function DeskTriggers(desk: Desk): seq<Trigger> {
    PromptTriggers(desk.prompts) + WatchTriggers(desk.watches)
  }

  /** The triggers not pulled yet: prompts, watches, and those of the transition. */
  function Held(d: Daemon): seq<Trigger> {
    DeskTriggers(d.desk) + (d.transition.deactivate + d.transition.quit)
  }

  /** Every trigger made is held or pulled, once. */
  predicate Accounts(d: Daemon, inHand: seq<Trigger>) {
    && (forall i :: 0 <= i < |d.made| ==> d.made[i].serial == i)
    && multiset(inHand) + multiset(Held(d)) + multiset(d.pulled) == multiset(d.made)
  }

  /** All is in order, but for some triggers in hand that are neither held nor pulled. */
  ghost predicate InOrderBut(d: Daemon, inHand: seq<Trigger>) {
    AllCount(d.server, inHand + Held(d)) && Accounts(d, inHand)
  }

  lemma Rearranged(d: Daemon, inHand: seq<Trigger>, e: Daemon, inHand': seq<Trigger>)
    requires InOrderBut(d, inHand) && d.server == e.server && d.made == e.made && d.pulled == e.pulled
    requires multiset(inHand) + multiset(Held(d)) == multiset(inHand') + multiset(Held(e))
    ensures InOrderBut(e, inHand')
  {
    hide Held, Owned;
    forall c: nat ensures Counts(e.server, inHand' + Held(e), c) {
      assert Counts(d.server, inHand + Held(d), c);
      OwnedOfPermutation(inHand + Held(d), inHand' + Held(e), c);
    }
  }

  lemma PullsSettle(d: Daemon, pulls: seq<Pull>)
    requires InOrderBut(d, Triggers(pulls))
    ensures InOrderBut(WithPulls(d, pulls), [])
  {
    hide AllCount, PulledAll;
    var e := WithPulls(d, pulls);
    assert Held(e) == Held(d) && [] + Held(d) == Held(d);
    PullsKeepCount(d.server, pulls, Held(d));
  }

  lemma TriggerIsMade(d: Daemon, kind: Kind, owner: Option<nat>)
    requires InOrderBut(d, []) && (owner.Some? ==> owner.value in d.server.connections)
    ensures InOrderBut(WithTrigger(d, kind, owner), [NextTrigger(d, kind, owner)])
  {
    hide Owned;
    var e, t := WithTrigger(d, kind, owner), NextTrigger(d, kind, owner);
    assert Held(e) == Held(d) && [] + Held(d) == Held(d);
    forall c: nat ensures Counts(e.server, [t] + Held(e), c) {
      assert Counts(d.server, [] + Held(d), c);
      OwnedOfFirst(t, Held(d), c);
    }
  }

  lemma TriggersOfSum(a: seq<Pull>, b: seq<Pull>)
    ensures Triggers(a + b) == Triggers(a) + Triggers(b) && Triggers([]) == []
    ensures |a| == 1 ==> Triggers(a) == [a[0].trigger]
  {
  }

  lemma PromptTriggersOfSum(a: seq<Prompt>, b: seq<Prompt>)
    ensures PromptTriggers(a + b) == PromptTriggers(a) + PromptTriggers(b) && PromptTriggers([]) == []
    ensures |a| == 1 ==> PromptTriggers(a) == [a[0].trigger]
  {
  }

  lemma WatchTriggersOfSum(a: seq<Watch>, b: seq<Watch>)
    ensures WatchTriggers(a + b) == WatchTriggers(a) + WatchTriggers(b) && WatchTriggers([]) == []
    ensures |a| == 1 ==> WatchTriggers(a) == [a[0].trigger]
  {
  }

  lemma {:induction false} CancelledPrompts(prompts: seq<Prompt>, c: nat)
    ensures multiset(PromptTriggers(prompts)) ==
            multiset(PromptTriggers(PromptsWithout(prompts, c))) + multiset(Triggers(PullsOf(prompts, c)))
  {
    hide PromptTriggers, Triggers;
    if prompts == [] {
      TriggersOfSum([], []);
      PromptTriggersOfSum([], []);
    } else {
      var first, rest := [prompts[0]], prompts[1..];
      CancelledPrompts(rest, c);
      HeadAndTail(prompts);
      PromptTriggersOfSum(first, rest);
      if prompts[0].connection == c {
        TriggersOfSum([Pull(prompts[0].trigger, None)], PullsOf(rest, c));
        assert PromptsWithout(prompts, c) == PromptsWithout(rest, c);
      } else {
        PromptTriggersOfSum(first, PromptsWithout(rest, c));
        assert PullsOf(prompts, c) == PullsOf(rest, c);
      }
    }
  }

  lemma {:induction false} CancelledWatches(watches: seq<Watch>, c: nat)
    ensures multiset(WatchTriggers(watches)) ==
            multiset(WatchTriggers(WatchesWithout(watches, c))) + multiset(Triggers(WatchPullsOf(watches, c)))
  {
    hide WatchTriggers, Triggers;
    if watches == [] {
      TriggersOfSum([], []);
      WatchTriggersOfSum([], []);
    } else {
      var first, rest := [watches[0]], watches[1..];
      CancelledWatches(rest, c);
      HeadAndTail(watches);
      WatchTriggersOfSum(first, rest);
      if watches[0].connection == c {
        TriggersOfSum([Pull(watches[0].trigger, None)], WatchPullsOf(rest, c));
        assert WatchesWithout(watches, c) == WatchesWithout(rest, c);
      } else {
        WatchTriggersOfSum(first, WatchesWithout(rest, c));
        assert WatchPullsOf(watches, c) == WatchPullsOf(rest, c);
      }
    }
  }

  function AddedBy(e: Event): seq<Trigger> {
    match e
    case Ask(p) => [p.trigger]
    case WatchFor(w) => [w.trigger]
    case _ => []
  }

  lemma WatchIsPulled(desk: Desk, i: nat, answer: Option<seq<byte>>)
    requires i <= |desk.watches|
    ensures var (next, pulls) := WatchPulled(desk, i, answer);
      multiset(DeskTriggers(desk)) == multiset(DeskTriggers(next)) + multiset(Triggers(pulls))
  {
    if i < |desk.watches| {
      var ws := desk.watches;
      assert WatchTriggers(ws) == WatchTriggers(ws[..i]) + [ws[i].trigger] + WatchTriggers(ws[i + 1..]);
      assert WatchTriggers(Without(ws, i)) == WatchTriggers(ws[..i]) + WatchTriggers(ws[i + 1..]);
      assert Triggers([Pull(ws[i].trigger, answer)]) == [ws[i].trigger];
    } else {
      assert Triggers([]) == [];
    }
  }

  /** No event loses or copies a trigger. */
  lemma DeskConserves(desk: Desk, e: Event)
    requires CanHappen(e)
    ensures var (next, pulls) := After(desk, e);
      multiset(DeskTriggers(desk)) + multiset(AddedBy(e)) == multiset(DeskTriggers(next)) + multiset(Triggers(pulls))
  {
    hide FirstMatch, FirstWithKeys, WatchPulled, CString, Typed, Answered, Cancelled, PromptTriggers, WatchTriggers, Triggers, Cancels;
    TriggersOfSum([], []);
    match e {
      case Ask(p) => PromptTriggersOfSum([p], []); PromptTriggersOfSum(desk.prompts, [p]);
      case WatchFor(w) => WatchTriggersOfSum([w], []); WatchTriggersOfSum(desk.watches, [w]);
      case Ignore(keys) => WatchIsPulled(desk, FirstWithKeys(desk.watches, keys), None);
      case Cancel(c) => CancellingConserves(desk, c);
      case _ => TypingConserves(desk, e);
    }
  }

  lemma TypingConserves(desk: Desk, e: Event)
    requires CanHappen(e) && (e.Type? || e.Backspace? || e.Enter?)
    ensures var (next, pulls) := After(desk, e);
      multiset(DeskTriggers(desk)) == multiset(DeskTriggers(next)) + multiset(Triggers(pulls))
  {
    hide FirstMatch, FirstWithKeys, WatchPulled, CString, Typed, Answered, PromptTriggers, WatchTriggers, Triggers, Cancels;
    TriggersOfSum([], []);
    if desk.prompts == [] {
      match e {
        case Type(input, _) => WatchIsPulled(desk, FirstMatch(desk.watches, CString(input.bytes)), Some(CString(input.bytes)));
        case Enter(line, _) => WatchIsPulled(desk, FirstMatch(desk.watches, [NEWLINE]), Some(CString(line)));
        case Backspace =>
      }
    } else {
      FirstIsAnswered(desk, [CTRL_C]);
      FirstIsAnswered(desk, CString(desk.text));
    }
  }

  lemma CancellingConserves(desk: Desk, c: nat)
    ensures var (next, pulls) := Cancelled(desk, c);
      multiset(DeskTriggers(desk)) == multiset(DeskTriggers(next)) + multiset(Triggers(pulls))
  {
    hide PromptTriggers, WatchTriggers, Triggers, PromptsWithout, WatchesWithout, PullsOf, WatchPullsOf;
    CancelledPrompts(desk.prompts, c);
    CancelledWatches(desk.watches, c);
    TriggersOfSum(PullsOf(desk.prompts, c), WatchPullsOf(desk.watches, c));
  }

  lemma FirstIsAnswered(desk: Desk, answer: seq<byte>)
    requires desk.prompts != []
    ensures var (next, pulls) := Answered(desk, answer);
      multiset(DeskTriggers(desk)) == multiset(DeskTriggers(next)) + multiset(Triggers(pulls))
  {
    assert PromptTriggers(desk.prompts) == [desk.prompts[0].trigger] + PromptTriggers(desk.prompts[1..]);
    assert Triggers([Pull(desk.prompts[0].trigger, Some(answer))]) == [desk.prompts[0].trigger];
  }
}
