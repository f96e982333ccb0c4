/**
 A password as long as the limit of the buffers it passes through stops the daemon
 (src/ply-boot-server.c, src/libply/ply-buffer.c).
 */
module Hangs {
  import opened Base
  import opened Buffers
  import opened Protocol
  import opened Interactions
  import opened Daemons

  /** A request for the cached passwords while one of them has, with its NUL, exactly the size of the limit. */
  predicate Hangs(d: Daemon, step: Daemons.Step) {
    && step.Request? && step.request.Some? && step.around.isRoot && step.request.value.command as char == 'c'
    && exists p :: p in d.server.passwords && |p| + 1 == CAPACITY
  }

  lemma StepHangsIff(d: Daemon, step: Daemons.Step)
    requires Daemons.CanStep(d, step)
    ensures Daemons.Stepped(d, step).isHung <==> Hangs(d, step)
  {
    hide After, PulledAll, Cancelled, DropReference, MarkedDisconnected, Unlisted, TakeReference, Write;
    if step.Request? && step.request.Some? {
      var r, c, around := step.request.value, step.connection, step.around;
      assert CanBeGathered(d.server.passwords) <==> !(exists p :: p in d.server.passwords && |p| + 1 == CAPACITY);
      hide CanBeGathered;
      assert Requested(d, c, r, around).isHung <==> around.isRoot && r.command as char == 'c' && !CanBeGathered(d.server.passwords);
    }
  }

  /** A run leaves the daemon hung exactly when its last step is such a request. */
  lemma RunHangsIff(steps: seq<Daemons.Step>)
    requires steps != [] && Daemons.IsRun(Booted(), steps)
    ensures var front, last := steps[..|steps| - 1], steps[|steps| - 1];
      && Daemons.IsRun(Booted(), front)
      && (Daemons.Run(Booted(), steps).isHung <==> Hangs(Daemons.Run(Booted(), front), last))
  {
    hide Daemons.Run, Daemons.IsRun, Daemons.Stepped, Daemons.CanStep, Hangs;
    var front, last := steps[..|steps| - 1], steps[|steps| - 1];
    assert front + [last] == steps;
    RunOfSum(Booted(), front, [last]);
    OneStep(Daemons.Run(Booted(), front), last);
    StepHangsIff(Daemons.Run(Booted(), front), last);
  }

  // ----- how such a password comes about

  /** A printing key of ASCII. */
  predicate IsTextByte(b: byte) {
    0x20 <= b < 0x7F
  }

  function Key(b: byte): Event {
    Type(Input([b], 1), true)
  }

  /** A command without an argument from the first client. */
  function Command(command: byte, around: Surroundings): Daemons.Step {
    Daemons.Step.Request(0, Some(Protocol.Request.Request(command, None)), around)
  }

  function Typing(b: byte, n: nat): (steps: seq<Daemons.Step>)
    ensures |steps| == n
  {
    if n == 0 then [] else [Keyboard(Key(b))] + Typing(b, n - 1)
  }

  /** A client connects and asks for a password; somebody types `n` times the same key, then enter; and the client asks for what is cached. */
  function Script(b: byte, n: nat, line: seq<byte>, around: Surroundings): seq<Daemons.Step> {
    [Connect, Command('*' as int, around)] + Typing(b, n)
    + [Keyboard(Enter(line, true)), Command('c' as int, around)]
  }

  lemma {:induction false} TypingRuns(d: Daemon, b: byte, n: nat)
    requires IsTextByte(b) && !d.isHung && !d.hasExited && d.desk.prompts != [] && |d.desk.text| < CAPACITY && 0 !in d.desk.text
    ensures Daemons.IsRun(d, Typing(b, n))
    ensures var e := Daemons.Run(d, Typing(b, n));
      && e == d.(desk := d.desk.(text := e.desk.text)) && 0 !in e.desk.text
      && |e.desk.text| == if |d.desk.text| + n < CAPACITY then |d.desk.text| + n else CAPACITY - 1
    decreases n
  {
    hide Typed, CString, FirstMatch;
    if n > 0 {
      OneByteIsTyped(d.desk.text, Input([b], 1));
      var e := Daemons.Stepped(d, Keyboard(Key(b)));
      assert Triggers([]) == [];
      assert e == d.(desk := d.desk.(text := Typed(d.desk.text, Input([b], 1))));
      TypingRuns(e, b, n - 1);
      assert Typing(b, n)[1..] == Typing(b, n - 1);
    }
  }

  const PROMPTER := Trigger(0, Password, Some(0))

  /** After the connection and its request for a password. */
  const PROMPTED := Daemon(
    Server(map[0 := Connection(2, false)], [0], 1, [], [], false),
    Desk([Prompt(PROMPTER, 0, true)], [], []),
    Transition([], [], false, false, false), [PROMPTER], [], false, false)

  lemma PromptComesUp(around: Surroundings)
    requires around.isRoot && around.hasSplash
    ensures var steps := [Connect, Command('*' as int, around)];
      Daemons.IsRun(Booted(), steps) && Daemons.Run(Booted(), steps) == PROMPTED
  {
    var ask := Command('*' as int, around);
    var d := Connected(Booted());
    OneStep(Booted(), Connect);
    OneStep(d, ask);
    assert d.server.connections == map[0 := Connection(1, false)];
    assert WithTrigger(d, Password, Some(0)).server.connections == map[0 := Connection(2, false)];
    assert Triggers([]) == [];
    assert Daemons.Stepped(d, ask) == PROMPTED;
    RunOfSum(Booted(), [Connect], [ask]);
    assert [Connect] + [ask] == [Connect, ask];
  }

  /** Enter answers the prompt, and the password is cached as typed. */
  lemma PasswordIsCached(text: seq<byte>, line: seq<byte>)
    requires 0 !in text
    ensures var d := Daemons.Stepped(PROMPTED.(desk := PROMPTED.desk.(text := text)), Keyboard(Enter(line, true)));
      d.server.passwords == [text] && d.server.listed == [0] && !d.isHung && !d.hasExited
  {
    CStringOfNulFree(text);
    hide CString;
    var d := PROMPTED.(desk := PROMPTED.desk.(text := text));
    var p := Pull(PROMPTER, Some(text));
    assert After(d.desk, Enter(line, true)).1 == [p];
    assert [p][1..] == [];
    assert PulledAll(d.server, [p]) == PulledAll(Pulled(d.server, p), [p][1..]) == Pulled(d.server, p);
    assert [] + [text] == [text];
  }

  /** One byte short of the limit, or anything more, typed once by hand, hangs the daemon at the next request for cached passwords. */
  lemma LongPasswordHangsIff(b: byte, n: nat, line: seq<byte>, around: Surroundings)
    requires IsTextByte(b) && around.isRoot && around.hasSplash
    ensures Daemons.IsRun(Booted(), Script(b, n, line, around))
    ensures Daemons.Run(Booted(), Script(b, n, line, around)).isHung <==> n >= 1044479
  {
    hide Daemons.Run, Daemons.IsRun, Daemons.Stepped, PulledAll;
    var start := [Connect, Command('*' as int, around)];
    var enter, last := Keyboard(Enter(line, true)), Command('c' as int, around);
    PromptComesUp(around);
    TypingRuns(PROMPTED, b, n);
    RunOfSum(Booted(), start, Typing(b, n));
    var typed := Daemons.Run(PROMPTED, Typing(b, n));
    PasswordIsCached(typed.desk.text, line);
    var answered := Daemons.Stepped(typed, enter);
    OneStep(typed, enter);
    OneStep(answered, last);
    RunOfSum(typed, [enter], [last]);
    RunOfSum(Booted(), start + Typing(b, n), [enter, last]);
    assert [enter] + [last] == [enter, last];
    StepHangsIff(answered, last);
    assert typed.desk.text in answered.server.passwords;
  }
}
