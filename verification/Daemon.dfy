/**
 The daemon: connections and their references, prompts, and the deactivate and
 quit transitions (src/ply-boot-server.c, src/daemon/plymouthd-transition.c,
 src/daemon/plymouthd-control.c, src/daemon/plymouthd-actions.c).
 */
module Daemons {
  import opened Base
  import opened Protocol
  import opened Interactions

  datatype Connection = Connection(referenceCount: int, disconnected: bool)

  /** A reply written to a connection, for a trigger or at once. */
  datatype Wrote = Wrote(connection: nat, trigger: Option<Trigger>, reply: Reply)

  /**
   The connections in memory, the ones listed, and what was written.  `failed` says
   that memory was used after it was freed, or that an assertion did not hold.
   */
  datatype Server = Server(
    connections: map<nat, Connection>,
    listed: seq<nat>,
    nextConnection: nat,
    passwords: seq<seq<byte>>,
    log: seq<Wrote>,
    failed: bool)

  /** The pending trigger and those chained to it, first to last, and three flags. */
  datatype Transition = Transition(
    deactivate: seq<Trigger>,
    quit: seq<Trigger>,
    retainSplash: bool,
    becomingIdle: bool,
    isInactive: bool)

  /**
   The daemon, and every trigger made and pulled so far.  `isHung` says that it is in
   a loop that never ends, and `hasExited` that it takes no further event.
   */
  datatype Daemon = Daemon(
    server: Server,
    desk: Desk,
    transition: Transition,
    made: seq<Trigger>,
    pulled: seq<Trigger>,
    isHung: bool,
    hasExited: bool)

  // ----- references

  function TakeReference(s: Server, c: nat): Server {
    if c !in s.connections then s.(failed := true)
    else s.(connections := s.connections[c := s.connections[c].(referenceCount := s.connections[c].referenceCount + 1)])
  }

  /** A connection is freed when its last reference is dropped. */
  function DropReference(s: Server, c: nat): Server {
    if c !in s.connections then s.(failed := true)
    else
      var count := s.connections[c].referenceCount - 1;
      if count < 0 then s.(failed := true)
      else if count == 0 then s.(connections := s.connections - {c})
      else s.(connections := s.connections[c := s.connections[c].(referenceCount := count)])
  }

  function Write(s: Server, c: nat, trigger: Option<Trigger>, reply: Reply): Server {
    if c !in s.connections then s.(failed := true) else s.(log := s.log + [Wrote(c, trigger, reply)])
  }

  /** What is written when a trigger is pulled. */
  function ReplyTo(p: Pull): Reply {
    if p.trigger.kind.Deactivation? || p.trigger.kind.Quitting? then Ack
    else if p.answer.None? then NoAnswer
    else Answer(p.answer.value)
  }

  /** The callbacks on_deactivated, on_quit_complete, on_password_answer, on_question_answer and on_keystroke_answer. */
  function Pulled(s: Server, p: Pull): Server {
    match p.trigger.owner
    case None => s
    case Some(c) =>
      if c !in s.connections then s.(failed := true)
      else
        var written := if s.connections[c].disconnected then s else Write(s, c, Some(p.trigger), ReplyTo(p));
        var cached := if p.trigger.kind.Password? && p.answer.Some?
                      then written.(passwords := written.passwords + [p.answer.value]) else written;
        DropReference(cached, c)
  }

  function PulledAll(s: Server, pulls: seq<Pull>): Server
    decreases pulls
  {
    if pulls == [] then s else PulledAll(Pulled(s, pulls[0]), pulls[1..])
  }

  function Triggers(pulls: seq<Pull>): (t: seq<Trigger>)
    ensures |t| == |pulls|
  {
    seq(|pulls|, i requires 0 <= i < |pulls| => pulls[i].trigger)
  }

  function WithPulls(d: Daemon, pulls: seq<Pull>): Daemon {
    d.(server := PulledAll(d.server, pulls), pulled := d.pulled + Triggers(pulls))
  }

  function Bare(triggers: seq<Trigger>): (p: seq<Pull>)
    ensures |p| == |triggers|
  {
    seq(|triggers|, i requires 0 <= i < |triggers| => Pull(triggers[i], None))
  }

  // ----- the transition

  /** quit_program: the event loop is left, and the triggers are pulled, the deactivations first. */
  function CompletedAll(d: Daemon): Daemon {
    WithPulls(d.(transition := d.transition.(deactivate := [], quit := []), hasExited := true),
              Bare(d.transition.deactivate) + Bare(d.transition.quit))
  }

  /** deactivate_splash, which asserts that the daemon is active. */
  function DeactivatedSplash(d: Daemon): Daemon {
    if d.transition.isInactive then d.(server := d.server.(failed := true))
    else WithPulls(d.(transition := d.transition.(deactivate := [], isInactive := true)), Bare(d.transition.deactivate))
  }

  /** handle_deactivate */
  function Deactivated(d: Daemon, t: Trigger, hasSplash: bool): Daemon {
    var tr := d.transition;
    if tr.isInactive then WithPulls(d, [Pull(t, None)])
    else if tr.deactivate != [] then d.(transition := tr.(deactivate := tr.deactivate + [t]))
    else
      var queued := d.(transition := tr.(deactivate := [t]));
      if hasSplash then queued.(transition := queued.transition.(becomingIdle := true)) else DeactivatedSplash(queued)
  }

  /** handle_quit */
  function Quit(d: Daemon, t: Trigger, retain: bool, hasSplash: bool): Daemon {
    var tr := d.transition;
    if tr.quit != [] then d.(transition := tr.(quit := tr.quit + [t]))
    else
      var queued := d.(transition := tr.(quit := [t], retainSplash := retain));
      if !(tr.isInactive && !retain) && hasSplash then queued.(transition := queued.transition.(becomingIdle := true))
      else CompletedAll(queued)
  }

  /** on_boot_splash_idle: quitting takes precedence. */
  function BecameIdle(d: Daemon): Daemon {
    var e := if d.transition.quit != [] then CompletedAll(d)
             else if d.transition.deactivate != [] then DeactivatedSplash(d)
             else d;
    e.(transition := e.transition.(becomingIdle := false))
  }

  // ----- connections and requests

  /** add_connection */
  function Connected(d: Daemon): Daemon {
    var s := d.server;
    var c := s.nextConnection;
    d.(server := s.(connections := s.connections[c := Connection(1, false)], listed := s.listed + [c], nextConnection := c + 1))
  }

  function Unlisted(listed: seq<nat>, c: nat): seq<nat> {
    if listed == [] then [] else if listed[0] == c then listed[1..] else [listed[0]] + Unlisted(listed[1..], c)
  }

  function MarkedDisconnected(s: Server, c: nat): Server {
    if c !in s.connections then s.(failed := true)
    else s.(connections := s.connections[c := s.connections[c].(disconnected := true)])
  }

  /** disconnect and on_hangup: prompts and watches are cancelled before the list's reference goes. */
  function Gone(d: Daemon, c: nat): Daemon {
    if c !in d.server.listed then d.(server := d.server.(failed := true))
    else
      var marked := d.(server := MarkedDisconnected(d.server, c));
      var (desk, pulls) := Cancelled(marked.desk, c);
      var cancelled := WithPulls(marked.(desk := desk), pulls);
      var s := cancelled.server;
      cancelled.(server := DropReference(s.(listed := Unlisted(s.listed, c)), c))
  }

  function NextTrigger(d: Daemon, kind: Kind, owner: Option<nat>): Trigger {
    Trigger(|d.made|, kind, owner)
  }

  /** A new trigger holds a reference to the connection it will answer. */
  function WithTrigger(d: Daemon, kind: Kind, owner: Option<nat>): Daemon {
    d.(made := d.made + [NextTrigger(d, kind, owner)], server := if owner.Some? then TakeReference(d.server, owner.value) else d.server)
  }

  function Replied(d: Daemon, c: nat, reply: Reply): Daemon {
    d.(server := Write(d.server, c, None, reply))
  }

  /** What the daemon finds around it when a request comes. */
  datatype Surroundings = Surroundings(
    isRoot: bool,
    hasSplash: bool,
    isShown: bool,
    ignoresShow: bool,
    hasActiveVt: bool,
    initIsShell: bool)

  function DeskEvent(d: Daemon, e: Event): Daemon
    requires CanHappen(e)
  {
    var (desk, pulls) := After(d.desk, e);
    WithPulls(d.(desk := desk), pulls)
  }

  /** on_request, for a request that could be read from a listed connection. */
  function Requested(d: Daemon, c: nat, r: Request, around: Surroundings): Daemon {
    var command := r.command as char;
    if !around.isRoot then Replied(d, c, Nak)
    else if command == 'D' then
      Deactivated(WithTrigger(d, Deactivation, Some(c)), NextTrigger(d, Deactivation, Some(c)), around.hasSplash)
    else if command == 'Q' then
      Quit(WithTrigger(d, Quitting, Some(c)), NextTrigger(d, Quitting, Some(c)), Retains(r), around.hasSplash)
    else if command == '*' then
      var t := NextTrigger(d, Password, Some(c));
      if !around.hasSplash && !around.isShown then WithPulls(WithTrigger(d, Password, Some(c)), [Pull(t, None)])
      else DeskEvent(WithTrigger(d, Password, Some(c)), Ask(Prompt(t, c, true)))
    else if command == 'W' then
      DeskEvent(WithTrigger(d, Question, Some(c)), Ask(Prompt(NextTrigger(d, Question, Some(c)), c, false)))
    else if command == 'K' then
      DeskEvent(WithTrigger(d, Keystroke, Some(c)), WatchFor(Watch(NextTrigger(d, Keystroke, Some(c)), c, r.argument)))
    else if command == 'c' then
      if CanBeGathered(d.server.passwords) then Replied(d, c, Answers(d.server.passwords)) else d.(isHung := true)
    else if command == 'L' then Replied(DeskEvent(d, Ignore(r.argument)), c, Ack)
    else if command == 'V' then Replied(d, c, if around.hasActiveVt then Ack else Nak)
    else if command == 'R' && around.initIsShell then
      Replied(Quit(WithTrigger(d, Quitting, None), NextTrigger(d, Quitting, None), false, around.hasSplash), c, Ack)
    else if command == 'r' then Replied(Reactivated(d), c, Ack)
    else if command == '$' then
      Replied(if !around.isShown && !d.transition.isInactive && around.ignoresShow then Retaining(d) else d, c, Ack)
    else if command == 'H' then
      Replied(if !d.transition.isInactive && around.hasSplash then Retaining(d) else d, c, Ack)
    else Replied(d, c, if command in "UCuS!RlMmAaP" then Ack else Nak)
  }

  /** The quit request's argument says whether to retain the splash. */
  predicate Retains(r: Request) {
    r.argument.Some? && r.argument.value != []
  }

  function Reactivated(d: Daemon): Daemon {
    d.(transition := d.transition.(isInactive := false))
  }

  function Retaining(d: Daemon): Daemon {
    d.(transition := d.transition.(retainSplash := true))
  }

  // ----- runs

  datatype Step =
    | Connect
    | Request(connection: nat, request: Option<Protocol.Request>, around: Surroundings)
    | Hangup(connection: nat)
    | Keyboard(event: Event)
    | Idle

  /**
   Requests and hangups come from connections that are watched, which are the listed
   ones; the splash tells that it is idle when it was asked to become so.
   */
  predicate CanStep(d: Daemon, step: Step) {
    && !d.isHung && !d.hasExited
    && match step
       case Request(c, _, _) => c in d.server.listed
       case Hangup(c) => c in d.server.listed
       case Keyboard(e) => (e.Type? || e.Backspace? || e.Enter?) && CanHappen(e)
       case Idle => d.transition.becomingIdle
       case Connect => true
  }

  function Stepped(d: Daemon, step: Step): Daemon
    requires CanStep(d, step)
  {
    match step
    case Connect => Connected(d)
    case Request(c, request, around) => if request.None? then Gone(d, c) else Requested(d, c, request.value, around)
    case Hangup(c) => Gone(d, c)
    case Keyboard(e) => DeskEvent(d, e)
    case Idle => BecameIdle(d)
  }

  predicate IsRun(d: Daemon, steps: seq<Step>)
    decreases steps
  {
    steps == [] || (CanStep(d, steps[0]) && IsRun(Stepped(d, steps[0]), steps[1..]))
  }

  function Run(d: Daemon, steps: seq<Step>): Daemon
    requires IsRun(d, steps)
    decreases steps
  {
    if steps == [] then d else Run(Stepped(d, steps[0]), steps[1..])
  }

  lemma {:induction false} RunOfSum(d: Daemon, a: seq<Step>, b: seq<Step>)
    ensures IsRun(d, a + b) <==> IsRun(d, a) && IsRun(Run(d, a), b)
    ensures IsRun(d, a + b) ==> Run(d, a + b) == Run(Run(d, a), b)
    decreases a
  {
    hide Stepped, CanStep;
    if a == [] {
      assert a + b == b;
    } else {
      assert (a + b)[1..] == a[1..] + b;
      if CanStep(d, a[0]) {
        RunOfSum(Stepped(d, a[0]), a[1..], b);
      }
    }
  }

  lemma OneStep(d: Daemon, step: Step)
    ensures IsRun(d, [step]) <==> CanStep(d, step)
    ensures CanStep(d, step) ==> Run(d, [step]) == Stepped(d, step)
  {
    hide Stepped, CanStep;
    assert [step][1..] == [];
    if CanStep(d, step) {
      assert IsRun(Stepped(d, step), [step][1..]);
    }
  }

  function Booted(): Daemon {
    Daemon(Server(map[], [], 0, [], [], false), Desk([], [], []), Transition([], [], false, false, false), [], [], false, false)
  }
}
