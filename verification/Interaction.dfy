/** Prompts answered from one keyboard (src/daemon/plymouthd-interaction.c). */
module Interactions {
  import opened Base
  import opened Buffers
  import opened Utf8

  datatype Kind = Deactivation | Quitting | Password | Question | Keystroke

  /** What a connection waits for.  No two have the same serial number; some have no connection. */
  datatype Trigger = Trigger(serial: nat, kind: Kind, owner: Option<nat>)

  /** A trigger is pulled with an answer, or with none. */
  datatype Pull = Pull(trigger: Trigger, answer: Option<seq<byte>>)

  datatype Prompt = Prompt(trigger: Trigger, connection: nat, isPassword: bool)

  datatype Watch = Watch(trigger: Trigger, connection: nat, keys: Option<seq<byte>>)

  /** The prompts in turn, the keystrokes watched for, and the text typed so far. */
  datatype Desk = Desk(prompts: seq<Prompt>, watches: seq<Watch>, text: seq<byte>)

  const CTRL_C: byte := 3
  const CTRL_D: byte := 4
  const ESCAPE: byte := 0x1B
  const NEWLINE: byte := '\n' as int

  /** strstr */
  predicate Contains(s: seq<byte>, part: seq<byte>) {
    exists i :: 0 <= i <= |s| && part <= s[i..]
  }

  /** The first watch that a keystroke answers. */
  function FirstMatch(watches: seq<Watch>, keystroke: seq<byte>): (i: nat)
    ensures i <= |watches|
    ensures i < |watches| ==> Matches(watches[i], keystroke)
    ensures forall k :: 0 <= k < i ==> !Matches(watches[k], keystroke)
  {
    if watches == [] || Matches(watches[0], keystroke) then 0 else 1 + FirstMatch(watches[1..], keystroke)
  }

  predicate Matches(w: Watch, keystroke: seq<byte>) {
    w.keys.None? || Contains(w.keys.value, keystroke)
  }

  function FirstWithKeys(watches: seq<Watch>, keys: Option<seq<byte>>): (i: nat)
    ensures i <= |watches|
    ensures i < |watches| ==> watches[i].keys == keys
    ensures forall k :: 0 <= k < i ==> watches[k].keys != keys
  {
    if watches == [] || watches[0].keys == keys then 0 else 1 + FirstWithKeys(watches[1..], keys)
  }

  function Without<T>(s: seq<T>, i: nat): seq<T>
    requires i < |s|
  {
    s[..i] + s[i + 1..]
  }

  function WatchPulled(d: Desk, i: nat, answer: Option<seq<byte>>): (Desk, seq<Pull>)
    requires i <= |d.watches|
  {
    if i == |d.watches| then (d, []) else (d.(watches := Without(d.watches, i)), [Pull(d.watches[i].trigger, answer)])
  }

  /** What is typed: the bytes of a character, or of an escape sequence with whatever was typed after it. */
  datatype Input = Input(bytes: seq<byte>, size: nat)

  predicate IsInput(input: Input) {
    1 <= input.size <= |input.bytes| && input.size < CAPACITY
  }

  predicate Cancels(input: Input)
    requires IsInput(input)
  {
    input.size == 1 && (input.bytes[0] == CTRL_C || input.bytes[0] == CTRL_D)
  }

  /** Accepted input, typed after `text`. */
  function Typed(text: seq<byte>, input: Input): seq<byte>
    requires IsInput(input)
  {
    if input.size >= 2 && input.bytes[0] == ESCAPE then text else Appended(text, input.bytes[..input.size])
  }

  datatype Event =
    | Ask(prompt: Prompt)
    | WatchFor(watch: Watch)
    | Ignore(keys: Option<seq<byte>>)
    | Cancel(connection: nat)
    | Type(input: Input, accepts: bool)
    | Backspace
    | Enter(line: seq<byte>, accepts: bool)

  predicate CanHappen(e: Event) {
    e.Type? ==> IsInput(e.input)
  }

  function PullsOf(prompts: seq<Prompt>, c: nat): seq<Pull> {
    if prompts == [] then []
    else (if prompts[0].connection == c then [Pull(prompts[0].trigger, None)] else []) + PullsOf(prompts[1..], c)
  }

  function WatchPullsOf(watches: seq<Watch>, c: nat): seq<Pull> {
    if watches == [] then []
    else (if watches[0].connection == c then [Pull(watches[0].trigger, None)] else []) + WatchPullsOf(watches[1..], c)
  }

  function PromptsWithout(prompts: seq<Prompt>, c: nat): seq<Prompt> {
    if prompts == [] then []
    else (if prompts[0].connection == c then [] else [prompts[0]]) + PromptsWithout(prompts[1..], c)
  }

  function WatchesWithout(watches: seq<Watch>, c: nat): seq<Watch> {
    if watches == [] then []
    else (if watches[0].connection == c then [] else [watches[0]]) + WatchesWithout(watches[1..], c)
  }

  /** cancel_connection: every prompt and watch of the connection is answered with nothing. */
  function Cancelled(d: Desk, c: nat): (Desk, seq<Pull>) {
    (Desk(PromptsWithout(d.prompts, c), WatchesWithout(d.watches, c),
          if d.prompts != [] && d.prompts[0].connection == c then [] else d.text),
     PullsOf(d.prompts, c) + WatchPullsOf(d.watches, c))
  }

  /** The first prompt is answered and the text cleared. */
  function Answered(d: Desk, answer: seq<byte>): (Desk, seq<Pull>)
    requires d.prompts != []
  {
    (d.(prompts := d.prompts[1..], text := []), [Pull(d.prompts[0].trigger, Some(answer))])
  }

  /** One event, and the triggers it pulls. */
  function After(d: Desk, e: Event): (Desk, seq<Pull>)
    requires CanHappen(e)
  {
    match e
    case Ask(prompt) => (d.(prompts := d.prompts + [prompt]), [])
    case WatchFor(watch) => (d.(watches := d.watches + [watch]), [])
    case Ignore(keys) => WatchPulled(d, FirstWithKeys(d.watches, keys), None)
    case Cancel(c) => Cancelled(d, c)
    case Type(input, accepts) =>
      if d.prompts == [] then
        WatchPulled(d, FirstMatch(d.watches, CString(input.bytes)), Some(CString(input.bytes)))
      else if !accepts then (d, [])
      else if Cancels(input) then Answered(d, [CTRL_C])
      else (d.(text := Typed(d.text, input)), [])
    case Backspace => (if d.prompts == [] then d else d.(text := WithoutLastCharacter(d.text)), [])
    case Enter(line, accepts) =>
      if d.prompts == [] then WatchPulled(d, FirstMatch(d.watches, [NEWLINE]), Some(CString(line)))
      else if !accepts then (d, [])
      else Answered(d, CString(d.text))
  }

  predicate CanRun(events: seq<Event>) {
    forall e <- events :: CanHappen(e)
  }

  /** A run, and all triggers it pulls in order. */
  function Run(d: Desk, events: seq<Event>): (Desk, seq<Pull>)
    requires CanRun(events)
    decreases events
  {
    if events == [] then (d, [])
    else
      var (next, pulls) := After(d, events[0]);
      var (last, more) := Run(next, events[1..]);
      (last, pulls + more)
  }

  // ----- isolation: a text of its own for every prompt

  datatype Entry = Entry(prompt: Prompt, text: seq<byte>)

  /** The same with a private text for each prompt. */
  datatype Booths = Booths(entries: seq<Entry>, watches: seq<Watch>)

  function EntriesWithout(entries: seq<Entry>, c: nat): seq<Entry> {
    if entries == [] then []
    else (if entries[0].prompt.connection == c then [] else [entries[0]]) + EntriesWithout(entries[1..], c)
  }

  function Prompts(entries: seq<Entry>): (p: seq<Prompt>)
    ensures |p| == |entries|
  {
    seq(|entries|, i requires 0 <= i < |entries| => entries[i].prompt)
  }

  function Edited(q: Booths, text: seq<byte>): Booths
    requires q.entries != []
  {
    q.(entries := q.entries[0 := q.entries[0].(text := text)])
  }

  function EntryAnswered(q: Booths, answer: seq<byte>): (Booths, seq<Pull>)
    requires q.entries != []
  {
    (q.(entries := q.entries[1..]), [Pull(q.entries[0].prompt.trigger, Some(answer))])
  }

  function BoothWatchPulled(q: Booths, i: nat, answer: Option<seq<byte>>): (Booths, seq<Pull>)
    requires i <= |q.watches|
  {
    if i == |q.watches| then (q, []) else (q.(watches := Without(q.watches, i)), [Pull(q.watches[i].trigger, answer)])
  }

  /** The input edits the text of the first prompt only, and that is the text delivered. */
  function BoothsAfter(q: Booths, e: Event): (Booths, seq<Pull>)
    requires CanHappen(e)
  {
    match e
    case Ask(prompt) => (q.(entries := q.entries + [Entry(prompt, [])]), [])
    case WatchFor(watch) => (q.(watches := q.watches + [watch]), [])
    case Ignore(keys) => BoothWatchPulled(q, FirstWithKeys(q.watches, keys), None)
    case Cancel(c) =>
      (Booths(EntriesWithout(q.entries, c), WatchesWithout(q.watches, c)),
       PullsOf(Prompts(q.entries), c) + WatchPullsOf(q.watches, c))
    case Type(input, accepts) =>
      if q.entries == [] then
        BoothWatchPulled(q, FirstMatch(q.watches, CString(input.bytes)), Some(CString(input.bytes)))
      else if !accepts then (q, [])
      else if Cancels(input) then EntryAnswered(q, [CTRL_C])
      else (Edited(q, Typed(q.entries[0].text, input)), [])
    case Backspace => (if q.entries == [] then q else Edited(q, WithoutLastCharacter(q.entries[0].text)), [])
    case Enter(line, accepts) =>
      if q.entries == [] then BoothWatchPulled(q, FirstMatch(q.watches, [NEWLINE]), Some(CString(line)))
      else if !accepts then (q, [])
      else EntryAnswered(q, CString(q.entries[0].text))
  }

  function BoothsRun(q: Booths, events: seq<Event>): (Booths, seq<Pull>)
    requires CanRun(events)
    decreases events
  {
    if events == [] then (q, [])
    else
      var (next, pulls) := BoothsAfter(q, events[0]);
      var (last, more) := BoothsRun(next, events[1..]);
      (last, pulls + more)
  }

  /** The shared text is that of the first prompt; the others have typed nothing; without prompts there is no text. */
  predicate Shares(d: Desk, q: Booths) {
    && Prompts(q.entries) == d.prompts && q.watches == d.watches
    && (q.entries == [] ==> d.text == [])
    && (q.entries != [] ==> q.entries[0].text == d.text)
    && (forall i :: 1 <= i < |q.entries| ==> q.entries[i].text == [])
  }

  lemma PromptsOfSum(a: seq<Entry>, b: seq<Entry>)
    ensures Prompts(a + b) == Prompts(a) + Prompts(b) && Prompts([]) == []
    ensures |a| == 1 ==> Prompts(a) == [a[0].prompt]
  {
  }

  lemma {:induction false} CancellingAgrees(entries: seq<Entry>, c: nat)
    ensures Prompts(EntriesWithout(entries, c)) == PromptsWithout(Prompts(entries), c)
    ensures forall e <- EntriesWithout(entries, c) :: e in entries && e.prompt.connection != c
  {
    hide Prompts;
    PromptsOfSum([], []);
    if entries != [] {
      var first, rest := [entries[0]], entries[1..];
      CancellingAgrees(rest, c);
      HeadAndTail(entries);
      PromptsOfSum(first, rest);
      PromptsOfSum(first, EntriesWithout(rest, c));
      assert Prompts(entries)[1..] == Prompts(rest);
      assert [] + EntriesWithout(rest, c) == EntriesWithout(rest, c) && [] + PromptsWithout(Prompts(rest), c) == PromptsWithout(Prompts(rest), c);
    }
  }

  lemma CancellingShares(d: Desk, q: Booths, c: nat)
    requires Shares(d, q)
    ensures Shares(Cancelled(d, c).0, BoothsAfter(q, Cancel(c)).0)
  {
    hide Typed;
    CancellingAgrees(q.entries, c);
    var kept := EntriesWithout(q.entries, c);
    if q.entries != [] {
      CancellingAgrees(q.entries[1..], c);
      forall e | e in EntriesWithout(q.entries[1..], c) ensures e.text == [] {
        var i :| 0 <= i < |q.entries[1..]| && q.entries[1..][i] == e;
        assert q.entries[i + 1] == e;
      }
      forall i | 1 <= i < |kept| ensures kept[i].text == [] {
        assert kept[i] in EntriesWithout(q.entries[1..], c);
      }
    }
  }

  lemma EventShares(d: Desk, q: Booths, e: Event)
    requires Shares(d, q) && CanHappen(e)
    ensures Shares(After(d, e).0, BoothsAfter(q, e).0) && After(d, e).1 == BoothsAfter(q, e).1
  {
    hide Typed, WithoutLastCharacter, CString, FirstMatch, FirstWithKeys, Cancels, WatchesWithout, PromptsWithout, EntriesWithout;
    match e {
      case Cancel(c) =>
        CancellingShares(d, q, c);
      case Ask(prompt) =>
        assert Prompts(q.entries + [Entry(prompt, [])]) == Prompts(q.entries) + [prompt];
      case Type(input, accepts) =>
        if q.entries != [] {
          assert Prompts(q.entries[1..]) == Prompts(q.entries)[1..];
          assert Prompts(Edited(q, Typed(d.text, input)).entries) == Prompts(q.entries);
        }
      case Backspace =>
        if q.entries != [] {
          assert Prompts(Edited(q, WithoutLastCharacter(d.text)).entries) == Prompts(q.entries);
        }
      case Enter(_, accepts) =>
        if q.entries != [] {
          assert Prompts(q.entries[1..]) == Prompts(q.entries)[1..];
        }
      case _ =>
    }
  }

  /**
   Answer isolation: over every run, one shared text does what a text for each
   prompt would do.  What is delivered to a prompt is what was typed since it came
   first, and an empty queue leaves no text behind.
   */
  lemma {:induction false} AnswersAreIsolated(d: Desk, q: Booths, events: seq<Event>)
    requires Shares(d, q) && CanRun(events)
    ensures Shares(Run(d, events).0, BoothsRun(q, events).0)
    ensures Run(d, events).1 == BoothsRun(q, events).1
    decreases events
  {
    hide After, BoothsAfter, Shares;
    if events != [] {
      EventShares(d, q, events[0]);
      AnswersAreIsolated(After(d, events[0]).0, BoothsAfter(q, events[0]).0, events[1..]);
    }
  }

  // ----- the text as a fold

  /** The first prompt outlives the event. */
  predicate KeepsFirst(first: Prompt, e: Event)
    requires CanHappen(e)
  {
    match e
    case Type(input, accepts) => !accepts || !Cancels(input)
    case Enter(_, accepts) => !accepts
    case Cancel(c) => c != first.connection
    case _ => true
  }

  /** The input accepted, and the backspaces, in order. */
  function Fold(text: seq<byte>, events: seq<Event>): seq<byte>
    requires CanRun(events)
    decreases events
  {
    if events == [] then text
    else
      assert CanHappen(events[0]);
      match events[0]
      case Type(input, accepts) => Fold(if accepts then Typed(text, input) else text, events[1..])
      case Backspace => Fold(WithoutLastCharacter(text), events[1..])
      case _ => Fold(text, events[1..])
  }

  /** As long as a prompt is first, the text is the edit fold of what was typed, whatever else is asked, cancelled or watched for. */
  lemma {:induction false} TextIsEditFold(d: Desk, events: seq<Event>)
    requires CanRun(events) && d.prompts != [] && forall e <- events :: KeepsFirst(d.prompts[0], e)
    ensures var last := Run(d, events).0;
      last.prompts != [] && last.prompts[0] == d.prompts[0] && last.text == Fold(d.text, events)
    decreases events
  {
    hide Typed, WithoutLastCharacter, CString, Cancels;
    if events != [] {
      assert events[0] in events;
      var next := After(d, events[0]).0;
      assert next.prompts != [] && next.prompts[0] == d.prompts[0];
      TextIsEditFold(next, events[1..]);
    }
  }

  /** One accepted byte of text. */
  predicate IsPlainByte(e: Event) {
    e.Type? && IsInput(e.input) && e.accepts && e.input.size == 1 && !Cancels(e.input) && e.input.bytes[0] != 0
  }

  lemma OneByteIsTyped(text: seq<byte>, input: Input)
    requires |text| < CAPACITY && 0 !in text && IsInput(input) && input.size == 1 && input.bytes[0] != 0
    ensures var t := Typed(text, input);
      0 !in t && |t| == if |text| + 1 < CAPACITY then |text| + 1 else CAPACITY - 1
  {
    var more := input.bytes[..1];
    if |text| + 1 < CAPACITY {
      AppendFits(text, more);
    } else {
      FullForgets(text, more);
    }
    hide Appended;
    assert Typed(text, input) == Appended(text, more);
  }

  /** Bytes typed one at a time fill the text up to one byte below its limit, and no further; none of them is lost before. */
  lemma {:induction false} LongTextSettles(d: Desk, events: seq<Event>)
    requires d.prompts != [] && |d.text| < CAPACITY && 0 !in d.text && forall e <- events :: IsPlainByte(e)
    ensures CanRun(events)
    ensures var last := Run(d, events).0;
      && last.prompts == d.prompts && Run(d, events).1 == []
      && |last.text| == (if |d.text| + |events| < CAPACITY then |d.text| + |events| else CAPACITY - 1)
      && 0 !in last.text
    decreases events
  {
    hide Typed, CString, FirstMatch;
    if events != [] {
      assert events[0] in events;
      OneByteIsTyped(d.text, events[0].input);
      LongTextSettles(After(d, events[0]).0, events[1..]);
    }
  }

  /** Cancelling a connection whose prompt is not first leaves the text alone; cancelling the first prompt's clears it. */
  lemma CancellingKeepsText(d: Desk, c: nat)
    requires d.prompts != []
    ensures var e := Cancelled(d, c).0;
      if d.prompts[0].connection == c then e.text == [] else e.text == d.text && e.prompts != [] && e.prompts[0] == d.prompts[0]
  {
  }

  lemma PromptStep(prompts: seq<Prompt>, c: nat)
    ensures prompts == [] ==> PromptsWithout(prompts, c) == [] && PullsOf(prompts, c) == []
    ensures prompts != [] ==>
              && PromptsWithout(prompts, c) == (if prompts[0].connection == c then [] else [prompts[0]]) + PromptsWithout(prompts[1..], c)
              && PullsOf(prompts, c) ==
                 (if prompts[0].connection == c then [Pull(prompts[0].trigger, None)] else []) + PullsOf(prompts[1..], c)
  {
  }

  lemma WatchStep(watches: seq<Watch>, c: nat)
    ensures watches == [] ==> WatchesWithout(watches, c) == [] && WatchPullsOf(watches, c) == []
    ensures watches != [] ==>
              && WatchesWithout(watches, c) == (if watches[0].connection == c then [] else [watches[0]]) + WatchesWithout(watches[1..], c)
              && WatchPullsOf(watches, c) ==
                 (if watches[0].connection == c then [Pull(watches[0].trigger, None)] else []) + WatchPullsOf(watches[1..], c)
  {
  }

  // ----- the desk as the source has it

  class Interaction {
    var entryTriggers: seq<Prompt>
    var keystrokeWatches: seq<Watch>
    var entryBuffer: seq<byte>

    ghost function Snapshot(): Desk
      reads this
    {
      Desk(entryTriggers, keystrokeWatches, entryBuffer)
    }

    constructor ()
      ensures Snapshot() == Desk([], [], [])
    {
      entryTriggers := [];
      keystrokeWatches := [];
      entryBuffer := [];
    }

    method QueueEntry(prompt: Prompt)
      modifies this
      ensures (Snapshot(), []) == After(old(Snapshot()), Ask(prompt))
    {
      entryTriggers := entryTriggers + [prompt];
    }

    method WatchKeystroke(watch: Watch)
      modifies this
      ensures (Snapshot(), []) == After(old(Snapshot()), WatchFor(watch))
    {
      keystrokeWatches := keystrokeWatches + [watch];
    }

    method IgnoreKeystroke(keys: Option<seq<byte>>) returns (pulls: seq<Pull>)
      modifies this
      ensures (Snapshot(), pulls) == After(old(Snapshot()), Ignore(keys))
    {
      var i := 0;
      while i < |keystrokeWatches|
        modifies `keystrokeWatches
        invariant 0 <= i <= |keystrokeWatches| && keystrokeWatches == old(keystrokeWatches)
        invariant i + FirstWithKeys(keystrokeWatches[i..], keys) == FirstWithKeys(keystrokeWatches, keys)
      {
        if keystrokeWatches[i].keys == keys {
          pulls := [Pull(keystrokeWatches[i].trigger, None)];
          keystrokeWatches := Without(keystrokeWatches, i);
          return;
        }
        assert keystrokeWatches[i..][1..] == keystrokeWatches[i + 1..];
        i := i + 1;
      }
      pulls := [];
    }

    method CancelConnection(c: nat) returns (pulls: seq<Pull>)
      modifies this
      ensures (Snapshot(), pulls) == After(old(Snapshot()), Cancel(c))
    {
      pulls := CancelPrompts(c);
      var more := CancelWatches(c);
      pulls := pulls + more;
    }

    method CancelPrompts(c: nat) returns (pulls: seq<Pull>)
      modifies `entryTriggers, `entryBuffer
      ensures entryTriggers == PromptsWithout(old(entryTriggers), c) && pulls == PullsOf(old(entryTriggers), c)
      ensures entryBuffer == Cancelled(old(Snapshot()), c).0.text
    {
      hide PromptsWithout, PullsOf, WatchesWithout, WatchPullsOf;
      pulls := [];
      var i := 0;
      ghost var all := entryTriggers;
      ghost var clears := all != [] && all[0].connection == c;
      while i < |entryTriggers|
        modifies `entryTriggers, `entryBuffer
        invariant 0 <= i <= |entryTriggers|
        invariant entryTriggers[..i] + PromptsWithout(entryTriggers[i..], c) == PromptsWithout(all, c)
        invariant pulls + PullsOf(entryTriggers[i..], c) == PullsOf(all, c)
        invariant entryBuffer == if clears && |entryTriggers| - i < |all| then [] else old(entryBuffer)
        invariant |entryTriggers| - i <= |all| && (i == 0 && !clears ==> entryTriggers == all)
        invariant |entryTriggers| - i == |all| ==> i == 0 && entryTriggers == all
        decreases |entryTriggers| - i
      {
        var node, rest := entryTriggers[i], entryTriggers[i + 1..];
        PromptStep(entryTriggers[i..], c);
        assert entryTriggers[i..][1..] == rest;
        if node.connection == c {
          var isActive := i == 0;
          Regroup(pulls, [Pull(node.trigger, None)], PullsOf(rest, c));
          pulls := pulls + [Pull(node.trigger, None)];
          if isActive {
            entryBuffer := [];
          }
          entryTriggers := Without(entryTriggers, i);
          assert entryTriggers[i..] == rest;
        } else {
          assert entryTriggers[..i + 1] == entryTriggers[..i] + [node];
          Regroup(entryTriggers[..i], [node], PromptsWithout(rest, c));
          i := i + 1;
        }
      }
      PromptStep([], c);
      assert entryTriggers[i..] == [] && entryTriggers[..i] == entryTriggers && pulls + [] == pulls;
      assert entryTriggers + [] == entryTriggers;
    }

    method CancelWatches(c: nat) returns (pulls: seq<Pull>)
      modifies `keystrokeWatches
      ensures keystrokeWatches == WatchesWithout(old(keystrokeWatches), c) && pulls == WatchPullsOf(old(keystrokeWatches), c)
    {
      hide WatchesWithout, WatchPullsOf;
      pulls := [];
      var i := 0;
      ghost var all := keystrokeWatches;
      while i < |keystrokeWatches|
        modifies `keystrokeWatches
        invariant 0 <= i <= |keystrokeWatches|
        invariant keystrokeWatches[..i] + WatchesWithout(keystrokeWatches[i..], c) == WatchesWithout(all, c)
        invariant pulls + WatchPullsOf(keystrokeWatches[i..], c) == WatchPullsOf(all, c)
        decreases |keystrokeWatches| - i
      {
        var node, rest := keystrokeWatches[i], keystrokeWatches[i + 1..];
        WatchStep(keystrokeWatches[i..], c);
        assert keystrokeWatches[i..][1..] == rest;
        if node.connection == c {
          Regroup(pulls, [Pull(node.trigger, None)], WatchPullsOf(rest, c));
          pulls := pulls + [Pull(node.trigger, None)];
          keystrokeWatches := Without(keystrokeWatches, i);
          assert keystrokeWatches[i..] == rest;
        } else {
          assert keystrokeWatches[..i + 1] == keystrokeWatches[..i] + [node];
          Regroup(keystrokeWatches[..i], [node], WatchesWithout(rest, c));
          i := i + 1;
        }
      }
      WatchStep([], c);
      assert keystrokeWatches[i..] == [] && keystrokeWatches[..i] == keystrokeWatches && pulls + [] == pulls;
      assert keystrokeWatches + [] == keystrokeWatches;
    }

    /** The loop over the watches, shared by input and enter. */
    method AnswerWatch(keystroke: seq<byte>, answer: seq<byte>) returns (pulls: seq<Pull>)
      modifies `keystrokeWatches
      ensures (Snapshot(), pulls) == WatchPulled(old(Snapshot()), FirstMatch(old(keystrokeWatches), keystroke), Some(answer))
    {
      hide Contains;
      var i := 0;
      while i < |keystrokeWatches|
        modifies `keystrokeWatches
        invariant 0 <= i <= |keystrokeWatches| && keystrokeWatches == old(keystrokeWatches)
        invariant i + FirstMatch(keystrokeWatches[i..], keystroke) == FirstMatch(keystrokeWatches, keystroke)
      {
        if keystrokeWatches[i].keys.None? || Contains(keystrokeWatches[i].keys.value, keystroke) {
          pulls := [Pull(keystrokeWatches[i].trigger, Some(answer))];
          keystrokeWatches := Without(keystrokeWatches, i);
          return;
        }
        assert keystrokeWatches[i..][1..] == keystrokeWatches[i + 1..];
        i := i + 1;
      }
      pulls := [];
    }

    /** `accepts` is the splash's validation of the input. */
    method HandleInput(input: Input, accepts: bool) returns (pulls: seq<Pull>)
      requires IsInput(input)
      modifies this
      ensures (Snapshot(), pulls) == After(old(Snapshot()), Type(input, accepts))
    {
      hide CString, Appended;
      if |entryTriggers| > 0 {
        if !accepts {
          return [];
        }
        pulls := [];
        if input.size == 1 && (input.bytes[0] == CTRL_C || input.bytes[0] == CTRL_D) {
          pulls := [Pull(entryTriggers[0].trigger, Some([CTRL_C]))];
          entryBuffer := [];
          entryTriggers := entryTriggers[1..];
        } else if input.size >= 2 && input.bytes[0] == ESCAPE {
        } else {
          entryBuffer := Appended(entryBuffer, input.bytes[..input.size]);
        }
        return;
      }
      pulls := AnswerWatch(CString(input.bytes), CString(input.bytes));
    }

    method HandleBackspace()
      modifies this
      ensures (Snapshot(), []) == After(old(Snapshot()), Backspace)
    {
      if |entryTriggers| == 0 {
        return;
      }
      entryBuffer := RemoveLastCharacter(entryBuffer);
    }

    method HandleEnter(line: seq<byte>, accepts: bool) returns (pulls: seq<Pull>)
      modifies this
      ensures (Snapshot(), pulls) == After(old(Snapshot()), Enter(line, accepts))
    {
      hide CString;
      if |entryTriggers| > 0 {
        if !accepts {
          return [];
        }
        pulls := [Pull(entryTriggers[0].trigger, Some(CString(entryBuffer)))];
        entryBuffer := [];
        entryTriggers := entryTriggers[1..];
        return;
      }
      pulls := AnswerWatch([NEWLINE], CString(line));
    }
  }
}
