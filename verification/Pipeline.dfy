/** From the application on the host to the process reading the device node, as one
    system: the session, the TCP actor on the device's side, and the device pipeline,
    each step of one carried into the others. What the device's connection delivers
    enters the actor's response channel; what the actor forwards enters the main loop's
    channel; the main loop's commands reach the actor; data commands and the actor's
    `close` become requests to the device's connection. When the device node is closed,
    the main loop clears its queues for the device and sends the actor a last command;
    from then on the session and the actor are followed to their end, and the device
    pipeline, which has no reader any more, is not. */
module Pipeline {
  import opened Basics
  import opened Endpoint
  import opened Forwarding
  import opened Packets
  import Calls = HandleCalls
  import ConnHandlers
  import Daemon
  import Session = SessionPair
  import Results = SessionResults
  import Flow = FlowSystem
  import FlowSafety
  import FlowLiveness
  import FlowCredit

  type Message = ConnHandlers.Message

  datatype Whole = Whole(
    pair: Session.Pair,
    actor: Actor,
    sys: Flow.Sys,
    closed: bool,                       // the main loop has handled the close of the device node
    written: seq<Message>               // everything ever written to the device node
  )

  datatype Step =
    | HostMoves(e: Session.Event)       // the host's connection and its application
    | DeviceMoves(e: Session.Event)     // the device's connection
    | DeviceDrops                       // its task is over and drops its ends of the channels
    | DeviceFinishes                    // and then counts as finished
    | Reads
    | Obeys
    | StartsClose
    | EndsClose
    | Flows(step: Flow.Step)            // main loop, driver and reader
    | NodeCloses

  predicate Possible(w: Whole, step: Step) {
    match step
    case HostMoves(e) => Session.Enabled(w.pair.host, w.pair.device, e)
    case DeviceMoves(e) => !e.AppAsks? && !e.ChannelDrops? && Session.Enabled(w.pair.device, w.pair.host, e)
    case DeviceDrops => Session.Enabled(w.pair.device, w.pair.host, Session.ChannelDrops)
    case DeviceFinishes => Enabled(w.actor, TaskEnds(TaskResultOf(w.pair.device.pc)))
    case Reads => Enabled(w.actor, ActorReads)
    case Obeys => Enabled(w.actor, ActorObeys) && !Session.Greeting(w.pair.device.pc)
    case StartsClose => Enabled(w.actor, CloseBegins) && !Session.Greeting(w.pair.device.pc)
    case EndsClose => Enabled(w.actor, CloseEnds)
    case Flows(step) =>
      && !w.closed && Flow.Enabled(w.sys, step)
      && !step.ActorForwards? && !step.ActorObeys? && !step.ActorExits?
    case NodeCloses => !w.closed && !w.sys.flushing
  }

  function Do(w: Whole, step: Step): Whole
    requires Possible(w, step)
  {
    match step
    case HostMoves(e) => w.(pair := w.pair.(host := Session.Apply(w.pair.host, w.pair.device, e)))
    case DeviceMoves(e) =>
      var d := Session.Apply(w.pair.device, w.pair.host, e);
      w.(pair := w.pair.(device := d), actor := Receive(w.actor, Added(w.pair.device.delivered, d.delivered)))
    case DeviceDrops =>
      w.(pair := w.pair.(device := Session.Apply(w.pair.device, w.pair.host, Session.ChannelDrops)),
         actor := Drop(w.actor))
    case DeviceFinishes => w.(actor := Apply(w.actor, TaskEnds(TaskResultOf(w.pair.device.pc))))
    case Reads => Acts(w, Apply(w.actor, ActorReads))
    case Obeys =>
      var a := Apply(w.actor, ActorObeys);
      w.(actor := a, sys := if w.closed then w.sys else Pops(w.sys),
         pair := w.pair.(device := Wrote(w.pair.device, w.actor.commands[0], a.phase)))
    case StartsClose =>
      var a := Apply(w.actor, CloseBegins);
      if a.phase == Awaiting then
        w.(actor := a, pair := w.pair.(device := Ask(w.pair.device, Request.Close)))
      else
        Acts(w, a)
    case EndsClose => Acts(w, Apply(w.actor, CloseEnds))
    case Flows(step) =>
      var s := Flow.Apply(w.sys, step);
      w.(sys := s, actor := Commanded(w.actor, Added(w.sys.commands, s.commands)),
         written := if step.MainLoopWrites? then w.written + [step.data] else w.written)
    case NodeCloses =>
      w.(closed := true, actor := if Alive(w.actor.phase) then Apply(w.actor, MainCommands(Daemon.Close)) else w.actor)
  }

  /** The actor has become `a`: what it has forwarded reaches the main loop, and so does
      its end. */
  function Acts(w: Whole, a: Actor): Whole {
    var ms := Added(w.actor.forwarded, a.forwarded);
    w.(actor := a,
       sys := if w.closed then w.sys else if Alive(a.phase) then Forwards(w.sys, ms) else Exits(w.sys, ms))
  }

  predicate Alive(p: Phase) {
    p == Looping || p == Leaving || p == Awaiting
  }

  /** What has come behind `old`. */
  function Added<T>(before: seq<T>, after: seq<T>): seq<T> {
    if |before| <= |after| then after[|before|..] else []
  }

  function Receive(a: Actor, ms: seq<Message>): Actor {
    if ms != [] && Enabled(a, TaskDelivers(ms[0])) then Apply(a, TaskDelivers(ms[0])) else a
  }

  function TaskResultOf(pc: Pc): ConnHandlers.TaskResult {
    if pc == Done(Finished) then ConnHandlers.TaskOk else ConnHandlers.TaskErr
  }

  function Drop(a: Actor): Actor {
    if Enabled(a, TaskDrops) then Apply(a, TaskDrops) else a
  }

  function Forwards(s: Flow.Sys, ms: seq<Message>): Flow.Sys {
    if ms != [] && Flow.Enabled(s, Flow.ActorForwards(ms[0])) then Flow.Apply(s, Flow.ActorForwards(ms[0])) else s
  }

  function Pops(s: Flow.Sys): Flow.Sys {
    if Flow.Enabled(s, Flow.ActorObeys) then Flow.Apply(s, Flow.ActorObeys) else s
  }

  function Exits(s: Flow.Sys, ms: seq<Message>): Flow.Sys {
    if Flow.Enabled(s, Flow.ActorExits(ms)) then Flow.Apply(s, Flow.ActorExits(ms)) else s
  }

  /** The device's connection after the actor has obeyed `c` and is in `phase`. */
  function Wrote(d: Conn, c: Command, phase: Phase): Conn {
    if c.Data? && phase == Looping then Ask(d, Request.Send(c.data)) else d
  }

  function Commanded(a: Actor, cs: seq<Command>): Actor {
    if cs == [] then a else Apply(a, MainCommands(cs[0]))
  }

  ghost predicate Next(w: Whole, v: Whole) {
    exists step :: Possible(w, step) && v == Do(w, step)
  }

  ghost predicate Init(w: Whole) {
    Session.Init(w.pair) && w.actor == Forwarding.INIT && w.sys == Flow.INIT && !w.closed && w.written == []
  }

  ghost predicate IsRun(run: seq<Whole>) {
    && run != [] && Init(run[0])
    && forall i :: 0 <= i < |run| - 1 ==> Next(run[i], run[i + 1])
  }

  ghost predicate Reachable(w: Whole) {
    exists run :: IsRun(run) && run[|run| - 1] == w
  }

  // ---------------------------------------------------------------------------
  // Every part runs as it does alone, and the parts agree.

  ghost predicate PartsReachable(w: Whole) {
    Session.Reachable(w.pair) && Forwarding.Reachable(w.actor) && Flow.Reachable(w.sys)
  }

  /** The seams between session and actor. */
  ghost predicate SessionSeam(d: Conn, a: Actor) {
    && a.handle.produced == d.delivered
    && (a.handle.handler.dropped <==> !d.accepting)
    && (a.handle.handler.task.Some? ==>
          || (d.pc == Done(Finished) && a.handle.handler.task.value == ConnHandlers.TaskOk)
          || (d.pc == Done(PeerClosed) && a.handle.handler.task.value == ConnHandlers.TaskErr))
    && (a.phase == Awaiting ==> d.closeRequested)
  }

  /** The seams between actor and main loop while the device node is open. */
  ghost predicate FlowSeam(a: Actor, s: Flow.Sys) {
    && s.forwarded == Flatten(a.forwarded)
    && (s.alive <==> Alive(a.phase))
    && (s.alive ==> a.commands == s.commands)
    && (a.phase == Looping ==> a.readPaused == s.actorPaused)
  }

  /** Afterwards a looping actor has its last command before it. */
  ghost predicate CloseSeam(a: Actor) {
    a.phase == Looping ==> Daemon.Close in a.commands
  }

  ghost predicate Joined(w: Whole) {
    && PartsReachable(w) && SessionSeam(w.pair.device, w.actor) && w.actor.mainOpen
    && (if w.closed then CloseSeam(w.actor) else FlowSeam(w.actor, w.sys))
  }

  lemma DeliversOne(d: Conn, peer: Conn, e: Session.Event)
    requires Session.Local(d) && Session.Enabled(d, peer, e)
    ensures var n := Session.Apply(d, peer, e);
      && (n.delivered == d.delivered
          || (d.accepting && |Added(d.delivered, n.delivered)| == 1
              && n.delivered == d.delivered + Added(d.delivered, n.delivered)))
      && (!e.ChannelDrops? ==> n.accepting == d.accepting)
      && (d.pc.Done? ==> n.pc == d.pc)
      && (!e.AppAsks? ==> n.closeRequested == d.closeRequested && n.promised == d.promised)
  {
    if e.TakePacket? {
      var p := peer.sent[d.received];
      PacketDelivers(d, p);
      if OnPacket(d, p).delivered != d.delivered {
        assert (d.delivered + [p.data])[|d.delivered|..] == [p.data];
      }
    } else {
      OthersDeliverNothing(d, peer, e);
    }
  }

  lemma PacketDelivers(d: Conn, p: Packet)
    ensures var n := OnPacket(d, p);
      && n.accepting == d.accepting && n.closeRequested == d.closeRequested && n.promised == d.promised
      && (n.delivered == d.delivered
          || ((d.pc == Loop || d.pc == WaitClose) && p.Data? && n.delivered == d.delivered + [p.data]))
  {
    if d.pc == Loop {
      assert HandlePacket(d, p).accepting == d.accepting;
    }
  }

  lemma OthersDeliverNothing(d: Conn, peer: Conn, e: Session.Event)
    requires Session.Enabled(d, peer, e) && !e.TakePacket?
    ensures var n := Session.Apply(d, peer, e);
      && n.delivered == d.delivered
      && (!e.ChannelDrops? ==> n.accepting == d.accepting)
      && (d.pc.Done? ==> n.pc == d.pc)
      && (!e.AppAsks? ==> n.closeRequested == d.closeRequested && n.promised == d.promised)
  {
    if e.TakeRequest? {
      RequestDeliversNothing(d);
    } else if e.SendPing? {
      assert LoopHead(d.Emit(ControlPing(e.id)), Finished).delivered == d.delivered;
    }
  }

  lemma RequestDeliversNothing(d: Conn)
    requires d.requests != []
    ensures var n := OnRequest(d);
      && n.delivered == d.delivered && n.accepting == d.accepting
      && n.closeRequested == d.closeRequested && n.promised == d.promised
  {
    var rest := d.(requests := d.requests[1..]);
    assert StartClose(rest).delivered == d.delivered && StartClose(rest).promised == d.promised;
  }

  lemma HostMovesJoined(w: Whole, e: Session.Event)
    requires Joined(w) && Possible(w, HostMoves(e))
    ensures Joined(Do(w, HostMoves(e)))
  {
    var _ := Session.HostStep(w.pair, e);
  }

  lemma ReceiveSeam(a: Actor, d: Conn, n: Conn)
    requires SessionSeam(d, a) && n.accepting == d.accepting && (d.closeRequested ==> n.closeRequested)
    requires d.pc.Done? ==> n.pc == d.pc
    requires n.delivered == d.delivered
      || (d.accepting && |Added(d.delivered, n.delivered)| == 1
          && n.delivered == d.delivered + Added(d.delivered, n.delivered))
    ensures SessionSeam(n, Receive(a, Added(d.delivered, n.delivered)))
  {
    var ms := Added(d.delivered, n.delivered);
    if n.delivered != d.delivered {
      assert ms == [ms[0]];
    }
  }

  lemma ReceiveReachable(a: Actor, ms: seq<Message>)
    requires Forwarding.Reachable(a)
    ensures var b := Receive(a, ms);
      && Forwarding.Reachable(b)
      && b == a.(handle := b.handle)
  {
    if ms != [] && Enabled(a, TaskDelivers(ms[0])) {
      Forwarding.NextReachable(a, Apply(a, TaskDelivers(ms[0])));
    }
  }

  lemma DeviceMovesJoined(w: Whole, e: Session.Event)
    requires Joined(w) && Possible(w, DeviceMoves(e))
    ensures Joined(Do(w, DeviceMoves(e)))
  {
    var d := w.pair.device;
    var moved := Session.DeviceStep(w.pair, e);
    Session.Invariant(w.pair);
    DeliversOne(d, w.pair.host, e);
    ReceiveSeam(w.actor, d, moved.device);
    ReceiveReachable(w.actor, Added(d.delivered, moved.device.delivered));
  }

  lemma DeviceDropsJoined(w: Whole)
    requires Joined(w) && Possible(w, DeviceDrops)
    ensures Joined(Do(w, DeviceDrops))
  {
    var _ := Session.DeviceStep(w.pair, Session.ChannelDrops);
    assert Enabled(w.actor, TaskDrops);
    Forwarding.NextReachable(w.actor, Apply(w.actor, TaskDrops));
  }

  lemma DeviceFinishesJoined(w: Whole)
    requires Joined(w) && Possible(w, DeviceFinishes)
    ensures Joined(Do(w, DeviceFinishes))
  {
    Forwarding.NextReachable(w.actor, Do(w, DeviceFinishes).actor);
    DeviceIsDone(w.pair);
  }

  lemma DeviceIsDone(p: Session.Pair)
    requires Session.Reachable(p) && !p.device.accepting
    ensures p.device.pc == Done(Finished) || p.device.pc == Done(PeerClosed)
  {
    Session.Invariant(p);
    assert p.device.pc.Done? && (p.device.pc.result == Finished || p.device.pc.result == PeerClosed);
  }

  /** While the actor loops nothing is cached, so the end of the connection, met by a
      read, carries no messages. */
  lemma ReadSends(a: Actor)
    requires Inv(a) && a.mainOpen && Enabled(a, ActorReads)
    ensures var b := Apply(a, ActorReads);
      && b.mainOpen && b.commands == a.commands && b.readPaused == a.readPaused
      && b.handle.produced == a.handle.produced && b.handle.handler.dropped == a.handle.handler.dropped
      && b.handle.handler.task == a.handle.handler.task
      && b.forwarded == a.forwarded + Added(a.forwarded, b.forwarded)
      && if a.handle.handler.channel != [] then
           b.phase == Looping && Added(a.forwarded, b.forwarded) == [a.handle.handler.channel[0]]
           && b.handle.handler.channel == a.handle.handler.channel[1..]
         else (b.phase == Leaving || b.phase == Crashed) && Added(a.forwarded, b.forwarded) == []
  {
    if a.handle.handler.channel != [] {
      assert (a.forwarded + [a.handle.handler.channel[0]])[|a.forwarded|..] == [a.handle.handler.channel[0]];
    } else {
      assert a.forwarded + [] == a.forwarded;
    }
  }

  /** A step of the actor that asks nothing of the connection and takes no command. */
  lemma ActsJoined(w: Whole, a: Actor)
    requires Joined(w) && Forwarding.Next(w.actor, a) && Alive(w.actor.phase)
    requires a.mainOpen && a.commands == w.actor.commands && a.readPaused == w.actor.readPaused
    requires a.handle.produced == w.actor.handle.produced
    requires a.handle.handler.dropped == w.actor.handle.handler.dropped
    requires a.handle.handler.task == w.actor.handle.handler.task && a.phase != Awaiting
    requires a.phase == Looping ==> w.actor.phase == Looping && !a.readPaused
    requires a.forwarded == w.actor.forwarded + Added(w.actor.forwarded, a.forwarded)
    requires Alive(a.phase) ==> |Added(w.actor.forwarded, a.forwarded)| <= 1
    requires Added(w.actor.forwarded, a.forwarded) != [] && Alive(a.phase) ==> a.phase == Looping
    ensures Joined(Acts(w, a))
  {
    Forwarding.NextReachable(w.actor, a);
    if !w.closed {
      if Alive(a.phase) {
        ForwardSeam(w, a);
      } else {
        ExitSeam(w, a);
      }
    }
  }

  lemma ForwardSeam(w: Whole, a: Actor)
    requires Joined(w) && !w.closed
    requires a.forwarded == w.actor.forwarded + Added(w.actor.forwarded, a.forwarded)
    requires |Added(w.actor.forwarded, a.forwarded)| <= 1
    requires Added(w.actor.forwarded, a.forwarded) != [] ==> w.sys.alive && !w.sys.actorPaused
    ensures var s := Forwards(w.sys, Added(w.actor.forwarded, a.forwarded));
      && Flow.Reachable(s) && s.forwarded == Flatten(a.forwarded)
      && s.alive == w.sys.alive && s.commands == w.sys.commands && s.actorPaused == w.sys.actorPaused
  {
    var ms := Added(w.actor.forwarded, a.forwarded);
    if ms != [] {
      assert Flow.Enabled(w.sys, Flow.ActorForwards(ms[0]));
      Flow.NextReachable(w.sys, Flow.Apply(w.sys, Flow.ActorForwards(ms[0])));
      FlattenSnoc(w.actor.forwarded, ms[0]);
      assert ms == [ms[0]];
    } else {
      assert a.forwarded == w.actor.forwarded;
    }
  }

  lemma ExitSeam(w: Whole, a: Actor)
    requires Joined(w) && !w.closed && w.sys.alive
    requires a.forwarded == w.actor.forwarded + Added(w.actor.forwarded, a.forwarded)
    ensures var s := Exits(w.sys, Added(w.actor.forwarded, a.forwarded));
      Flow.Reachable(s) && !s.alive && s.forwarded == Flatten(a.forwarded)
  {
    var ms := Added(w.actor.forwarded, a.forwarded);
    Flow.NextReachable(w.sys, Flow.Apply(w.sys, Flow.ActorExits(ms)));
    FlattenConcat(w.actor.forwarded, ms);
  }

  lemma ReadsJoined(w: Whole)
    requires Joined(w) && Possible(w, Reads)
    ensures Joined(Do(w, Reads))
  {
    Forwarding.Invariant(w.actor);
    ReadSends(w.actor);
    ActsJoined(w, Apply(w.actor, ActorReads));
  }

  /** What obeying a command does to the actor. */
  lemma ObeyEffect(a: Actor)
    requires Inv(a) && Enabled(a, ActorObeys)
    ensures var b, c := Apply(a, ActorObeys), a.commands[0];
      && b.commands == a.commands[1..] && b.forwarded == a.forwarded && b.mainOpen == a.mainOpen
      && b.handle.produced == a.handle.produced && b.handle.handler.dropped == a.handle.handler.dropped
      && b.handle.handler.task == a.handle.handler.task
      && (b.phase == Looping || b.phase == Leaving)
      && (b.phase == Looping ==>
            && b.readPaused == Flow.Obey(a.readPaused, c) && b.handle.handler.channel == a.handle.handler.channel
            && c != Daemon.Close)
      && (c.Data? && b.phase == Looping ==> !a.handle.handler.dropped)
  {
  }

  lemma ObeysJoined(w: Whole)
    requires Joined(w) && Possible(w, Obeys)
    ensures Joined(Do(w, Obeys))
  {
    Forwarding.Invariant(w.actor);
    ObeyEffect(w.actor);
    var a := Apply(w.actor, ActorObeys);
    Forwarding.NextReachable(w.actor, a);
    ObeySeam(w, a);
    ObeyAsks(w, a);
  }

  /** Main loop and actor have one command less between them. */
  lemma ObeySeam(w: Whole, a: Actor)
    requires Joined(w) && w.actor.phase == Looping && w.actor.commands != []
    requires a.commands == w.actor.commands[1..] && a.forwarded == w.actor.forwarded
    requires a.phase == Looping || a.phase == Leaving
    requires a.phase == Looping ==>
      w.actor.commands[0] != Daemon.Close && a.readPaused == Flow.Obey(w.actor.readPaused, w.actor.commands[0])
    ensures w.closed ==> CloseSeam(a)
    ensures !w.closed ==> Flow.Reachable(Pops(w.sys)) && FlowSeam(a, Pops(w.sys))
  {
    if w.closed {
      assert w.actor.commands == [w.actor.commands[0]] + a.commands;
    } else {
      Flow.NextReachable(w.sys, Flow.Apply(w.sys, Flow.ActorObeys));
    }
  }

  /** A write becomes a request. */
  lemma ObeyAsks(w: Whole, a: Actor)
    requires Joined(w) && w.actor.commands != [] && !Session.Greeting(w.pair.device.pc)
    requires w.actor.commands[0].Data? && a.phase == Looping ==> !w.actor.handle.handler.dropped
    ensures var d := Wrote(w.pair.device, w.actor.commands[0], a.phase);
      && Session.Reachable(w.pair.(device := d))
      && d.delivered == w.pair.device.delivered && d.accepting == w.pair.device.accepting
      && d.pc == w.pair.device.pc
  {
    var c := w.actor.commands[0];
    if c.Data? && a.phase == Looping {
      DeviceAsked(w.pair, Request.Send(c.data));
    }
  }

  lemma DeviceAsked(p: Session.Pair, r: Request)
    requires Session.Reachable(p) && p.device.accepting && !Session.Greeting(p.device.pc)
    ensures Session.Reachable(p.(device := Ask(p.device, r)))
  {
    Session.Invariant(p);
    var _ := Session.DeviceStep(p, Session.AppAsks(r));
  }

  /** `close` asks the connection to close, hands out the rest, or answers Unknown. */
  lemma CloseEffect(a: Actor)
    requires Inv(a) && a.mainOpen && Enabled(a, CloseBegins)
    ensures var b := Apply(a, CloseBegins);
      && b.commands == a.commands && b.mainOpen && b.readPaused == a.readPaused
      && b.handle.produced == a.handle.produced && b.handle.handler.dropped == a.handle.handler.dropped
      && b.handle.handler.task == a.handle.handler.task
      && b.forwarded == a.forwarded + Added(a.forwarded, b.forwarded)
      && (b.phase == Awaiting || b.phase.Gone?)
      && (b.phase == Awaiting ==> !a.handle.handler.dropped && b.forwarded == a.forwarded)
  {
    var b := Apply(a, CloseBegins);
    assert a.forwarded <= b.forwarded;
  }

  lemma StartsCloseJoined(w: Whole)
    requires Joined(w) && Possible(w, StartsClose)
    ensures Joined(Do(w, StartsClose))
  {
    Forwarding.Invariant(w.actor);
    CloseEffect(w.actor);
    var a := Apply(w.actor, CloseBegins);
    if a.phase == Awaiting {
      Forwarding.NextReachable(w.actor, a);
      DeviceAsked(w.pair, Request.Close);
    } else {
      ActsJoined(w, a);
    }
  }

  lemma EndsCloseJoined(w: Whole)
    requires Joined(w) && Possible(w, EndsClose)
    ensures Joined(Do(w, EndsClose))
  {
    EndEffect(w.actor);
    ActsJoined(w, Apply(w.actor, CloseEnds));
  }

  lemma EndEffect(a: Actor)
    requires a.mainOpen && Enabled(a, CloseEnds)
    ensures var b := Apply(a, CloseEnds);
      && b.commands == a.commands && b.mainOpen && b.readPaused == a.readPaused && b.phase == Gone(true)
      && b.handle.produced == a.handle.produced && b.handle.handler.dropped == a.handle.handler.dropped
      && b.handle.handler.task == a.handle.handler.task
      && b.forwarded == a.forwarded + Added(a.forwarded, b.forwarded)
  {
    assert Apply(a, CloseEnds).forwarded == a.forwarded + a.handle.handler.channel;
  }

  lemma NodeClosesJoined(w: Whole)
    requires Joined(w) && Possible(w, NodeCloses)
    ensures Joined(Do(w, NodeCloses))
  {
    var a := Apply(w.actor, MainCommands(Daemon.Close));
    Forwarding.NextReachable(w.actor, a);
    assert a.commands[|a.commands| - 1] == Daemon.Close;
  }

  /** The main loop sends at most one command in a step, and none to a dead actor. */
  lemma FlowCommands(s: Flow.Sys, step: Flow.Step)
    requires Flow.Enabled(s, step) && !step.ActorForwards? && !step.ActorObeys? && !step.ActorExits?
    ensures var t := Flow.Apply(s, step); var cs := Added(s.commands, t.commands);
      && t.alive == s.alive && t.forwarded == s.forwarded && t.actorPaused == s.actorPaused
      && |cs| <= 1 && t.commands == s.commands + cs
      && (!s.alive ==> cs == [])
      && (cs != [] && !step.MainLoopWrites? ==> !cs[0].Data?)
  {
    var t := Flow.Apply(s, step);
    if t.commands == s.commands {
      assert s.commands + [] == s.commands;
    } else {
      var c := t.commands[|t.commands| - 1];
      assert t.commands == s.commands + [c];
      assert (s.commands + [c])[|s.commands|..] == [c];
    }
  }

  /** A command sent by the main loop arrives at the actor. */
  lemma CommandArrives(a: Actor, s: Flow.Sys, t: Flow.Sys, cs: seq<Command>)
    requires Forwarding.Reachable(a) && FlowSeam(a, s)
    requires t.alive == s.alive && t.forwarded == s.forwarded && t.actorPaused == s.actorPaused
    requires |cs| <= 1 && t.commands == s.commands + cs
    ensures var b := Commanded(a, cs);
      Forwarding.Reachable(b) && FlowSeam(b, t) && b == a.(commands := b.commands)
  {
    if cs != [] {
      assert cs == [cs[0]];
      Forwarding.NextReachable(a, Apply(a, MainCommands(cs[0])));
    } else {
      assert s.commands + [] == s.commands;
    }
  }

  lemma FlowsJoined(w: Whole, step: Flow.Step)
    requires Joined(w) && Possible(w, Flows(step))
    ensures Joined(Do(w, Flows(step)))
  {
    var s := Flow.Apply(w.sys, step);
    Flow.NextReachable(w.sys, s);
    FlowCommands(w.sys, step);
    CommandArrives(w.actor, w.sys, s, Added(w.sys.commands, s.commands));
  }

  lemma StepJoined(w: Whole, step: Step)
    requires Joined(w) && Possible(w, step)
    ensures Joined(Do(w, step))
  {
    match step
    case HostMoves(e) => HostMovesJoined(w, e);
    case DeviceMoves(e) => DeviceMovesJoined(w, e);
    case DeviceDrops => DeviceDropsJoined(w);
    case DeviceFinishes => DeviceFinishesJoined(w);
    case Reads => ReadsJoined(w);
    case Obeys => ObeysJoined(w);
    case StartsClose => StartsCloseJoined(w);
    case EndsClose => EndsCloseJoined(w);
    case Flows(step) => FlowsJoined(w, step);
    case NodeCloses => NodeClosesJoined(w);
  }

  lemma InitJoined(w: Whole)
    requires Init(w)
    ensures Joined(w)
  {
    assert Session.IsRun([w.pair]) && Forwarding.IsRun([w.actor]) && Flow.IsRun([w.sys]);
  }

  lemma {:induction false} RunJoined(run: seq<Whole>, i: nat)
    requires IsRun(run) && i < |run|
    ensures Joined(run[i])
  {
    if i == 0 {
      InitJoined(run[0]);
    } else {
      RunJoined(run, i - 1);
      assert Next(run[i - 1], run[i]);
      var step :| Possible(run[i - 1], step) && run[i] == Do(run[i - 1], step);
      StepJoined(run[i - 1], step);
    }
  }

  lemma AlwaysJoined(w: Whole)
    requires Reachable(w)
    ensures Joined(w)
  {
    var run :| IsRun(run) && run[|run| - 1] == w;
    RunJoined(run, |run| - 1);
  }

  // ---------------------------------------------------------------------------
  // End to end.

  lemma FlattenPrefix<T>(a: seq<seq<T>>, b: seq<seq<T>>)
    requires a <= b
    ensures Flatten(a) <= Flatten(b)
  {
    assert b == a + b[|a|..];
    FlattenConcat(a, b[|a|..]);
  }

  /** In every run of the whole system the main loop has been sent a prefix of the
      messages that the host application wrote before closing; and as long as the device
      node is open and the driver has refused nothing, the reader has seen a prefix of
      their bytes. */
  lemma ReaderSeesPrefix(w: Whole)
    requires Reachable(w)
    ensures w.actor.forwarded <= w.pair.host.promised
    ensures !w.closed && !w.sys.dropped ==> w.sys.delivered <= Flatten(w.pair.host.promised)
  {
    AlwaysJoined(w);
    ExactlyOnce(w.actor);
    Results.DeliveredIsPrefix(w.pair);
    if !w.closed && !w.sys.dropped {
      FlowSafety.EndToEndStream(w.sys);
      FlattenPrefix(w.actor.forwarded, w.pair.host.promised);
    }
  }

  /** Steps that need nothing from outside: no request, no timer, no new data from the
      device node, no close of it, no signal, and only reads that ask for something. */
  predicate Inner(w: Whole, step: Step) {
    match step
    case HostMoves(e) => Results.Protocol(w.pair.host, e)
    case DeviceMoves(e) => Results.Protocol(w.pair.device, e)
    case Flows(step) => FlowLiveness.DrainStep(step)
    case NodeCloses => false
    case _ => true
  }

  ghost predicate AtRest(w: Whole) {
    forall step :: Inner(w, step) ==> !Possible(w, step)
  }

  lemma RestingPair(w: Whole)
    requires Joined(w) && AtRest(w)
    ensures Results.Stuck(w.pair.host, w.pair.device) && Results.Stuck(w.pair.device, w.pair.host)
    ensures w.pair.device.delivered + w.pair.host.late == w.pair.host.promised
    ensures w.pair.device.pc.Done? || (w.pair.device.pc == Loop && w.pair.device.requests == [])
    ensures w.pair.device.pc.Done? <==> !w.pair.device.accepting
    ensures w.pair.device.pc.Done? ==> w.pair.host.state == ConnState.Closed && w.pair.device.state == ConnState.Closed
  {
    var host, device := w.pair.host, w.pair.device;
    forall e | Results.Protocol(host, e)
      ensures !Session.Enabled(host, device, e)
    {
      assert !Possible(w, HostMoves(e));
    }
    forall e | Results.Protocol(device, e)
      ensures !Session.Enabled(device, host, e)
    {
      assert !Possible(w, if e.ChannelDrops? then DeviceDrops else DeviceMoves(e));
    }
    Session.Invariant(w.pair);
    Results.StuckShape(device, host);
    Results.NoDeadlock(w.pair);
    Results.RestDelivers(w.pair);
  }

  /** A `close` that waits for a connection with nothing left to do is over. */
  lemma CloseCanEnd(d: Conn, a: Actor)
    requires Session.PromiseKept(d) && SessionSeam(d, a) && Around(a) && a.phase == Awaiting
    requires (d.pc.Done? && !d.accepting) || (d.pc == Loop && d.requests == [])
    requires !Enabled(a, TaskEnds(TaskResultOf(d.pc)))
    ensures Enabled(a, CloseEnds)
  {
  }

  lemma LoopCanGoOn(a: Actor)
    requires Around(a)
    ensures a.phase == Leaving ==> Enabled(a, CloseBegins)
    ensures a.phase == Looping && a.commands != [] ==> Enabled(a, ActorObeys)
  {
  }

  lemma ActorAround(a: Actor)
    requires Forwarding.Reachable(a)
    ensures Around(a)
  {
    Forwarding.Invariant(a);
  }

  lemma NotAwaiting(w: Whole)
    requires Joined(w) && AtRest(w)
    ensures w.actor.phase != Awaiting
  {
    if w.actor.phase == Awaiting {
      RestingPair(w);
      ActorAround(w.actor);
      DevicePromise(w.pair);
      assert !Possible(w, DeviceFinishes);
      CloseCanEnd(w.pair.device, w.actor);
      assert Possible(w, EndsClose);
    }
  }

  lemma DevicePromise(p: Session.Pair)
    requires Session.Reachable(p)
    ensures Session.PromiseKept(p.device)
  {
    Session.Invariant(p);
  }

  lemma NotGreeting(w: Whole)
    requires Joined(w) && AtRest(w)
    ensures !Session.Greeting(w.pair.device.pc)
  {
    RestingPair(w);
  }

  lemma RestingActor(w: Whole)
    requires Joined(w) && AtRest(w)
    ensures w.actor.phase == Looping || !Alive(w.actor.phase)
    ensures w.actor.phase == Looping ==> w.actor.commands == [] && !w.closed
  {
    NotAwaiting(w);
    NotLeaving(w);
    NothingToObey(w);
  }

  lemma NotLeaving(w: Whole)
    requires Joined(w) && AtRest(w)
    ensures w.actor.phase != Leaving
  {
    if w.actor.phase == Leaving {
      NotGreeting(w);
      ActorAround(w.actor);
      LoopCanGoOn(w.actor);
      assert Possible(w, StartsClose);
    }
  }

  lemma NothingToObey(w: Whole)
    requires Joined(w) && AtRest(w)
    ensures w.actor.phase == Looping ==> w.actor.commands == []
  {
    NotGreeting(w);
    ActorAround(w.actor);
    LoopCanGoOn(w.actor);
    assert !Possible(w, Obeys);
  }

  lemma RestingFlow(w: Whole)
    requires Joined(w) && AtRest(w) && !w.closed
    ensures FlowLiveness.Quiescent(w.sys)
  {
    RestingActor(w);
    forall step | FlowLiveness.DrainStep(step)
      ensures !Flow.Enabled(w.sys, step)
    {
      if !step.ActorObeys? {
        assert !Possible(w, Flows(step));
      }
    }
  }

  /** Messages that `close` gave up with its Unknown answer. */
  function Lost(a: Actor): seq<Message> {
    if a.phase == Gone(false) then a.handle.handler.channel else []
  }

  lemma NothingWaits(a: Actor)
    requires Inv(a) && a.mainOpen && a.phase == Looping && !a.readPaused && !Enabled(a, ActorReads)
    ensures a.forwarded == a.handle.produced
  {
    assert a.handle.handler.channel == [];
    assert a.forwarded + [] == a.forwarded;
  }

  lemma RestingLooping(w: Whole)
    requires Joined(w) && AtRest(w) && w.actor.phase == Looping
    ensures w.actor.forwarded == w.actor.handle.produced
  {
    RestingReads(w);
    Forwarding.Invariant(w.actor);
    assert !Possible(w, Reads);
    NothingWaits(w.actor);
  }

  /** At rest nothing pauses the actor. */
  lemma RestingReads(w: Whole)
    requires Joined(w) && AtRest(w) && w.actor.phase == Looping
    ensures !w.actor.readPaused
  {
    RestingActor(w);
    RestingFlow(w);
    FlowSafety.Invariant(w.sys);
    FlowLiveness.QuiescentIsEmpty(w.sys);
  }

  /** At rest the actor has forwarded everything its connection delivered, or lost it. */
  lemma RestingForwarded(w: Whole)
    requires Joined(w) && AtRest(w)
    ensures w.actor.forwarded + Lost(w.actor) == w.actor.handle.produced
  {
    RestingActor(w);
    assert w.actor.forwarded + [] == w.actor.forwarded;
    if w.actor.phase == Looping {
      RestingLooping(w);
    } else {
      ExactlyOnce(w.actor);
    }
  }

  /** When nothing inside the system can move any more, whether the session is still
      open, or was closed by the host's application or by closing the device node: the
      main loop has been sent everything the host application wrote before closing,
      except for the late writes, and for what an Unknown answer of `close` gave up. */
  lemma EverythingForwarded(w: Whole)
    requires Reachable(w) && AtRest(w)
    ensures w.actor.forwarded + Lost(w.actor) + w.pair.host.late == w.pair.host.promised
  {
    AlwaysJoined(w);
    RestingPair(w);
    RestingForwarded(w);
  }

  /** And if the device node is still open, the reader has seen all of it: everything
      written if and only if the two exceptions hold no bytes. */
  lemma ReaderSeesEverything(w: Whole)
    requires Reachable(w) && AtRest(w) && !w.closed && !w.sys.dropped
    ensures w.sys.delivered + Flatten(Lost(w.actor)) + Flatten(w.pair.host.late) == Flatten(w.pair.host.promised)
    ensures w.sys.delivered == Flatten(w.pair.host.promised) <==>
      Flatten(Lost(w.actor)) == [] && Flatten(w.pair.host.late) == []
  {
    EverythingForwarded(w);
    AlwaysJoined(w);
    RestingFlow(w);
    FlowSafety.Invariant(w.sys);
    FlowLiveness.QuiescentIsEmpty(w.sys);
    FlattenConcat(w.actor.forwarded + Lost(w.actor), w.pair.host.late);
    FlattenConcat(w.actor.forwarded, Lost(w.actor));
    assert w.sys.delivered + [] + [] == w.sys.delivered;
  }

  /** Closing the device node ends everything: at rest both sides of the session are
      closed and the actor is gone. */
  lemma NodeCloseEndsSession(w: Whole)
    requires Reachable(w) && AtRest(w) && w.closed
    ensures w.pair.host.state == ConnState.Closed && w.pair.device.state == ConnState.Closed
    ensures !Alive(w.actor.phase)
  {
    AlwaysJoined(w);
    RestingPair(w);
    RestingActor(w);
    ActorAround(w.actor);
    GoneMeansDropped(w.actor);
  }

  lemma GoneMeansDropped(a: Actor)
    requires Forwarding.Reachable(a) && !Alive(a.phase)
    ensures a.handle.handler.dropped
  {
    Forwarding.Invariant(a);
  }

  // ---------------------------------------------------------------------------
  // The whole system always comes to rest.

  function PhaseRank(p: Phase): nat {
    match p
    case Looping => 3
    case Leaving => 2
    case Awaiting => 1
    case _ => 0
  }

  /** Data commands that the actor has still to obey. */
  function Writes(cs: seq<Command>): nat {
    if cs == [] then 0 else (if cs[0].Data? then 1 else 0) + Writes(cs[1..])
  }

  lemma {:induction false} WritesSnoc(cs: seq<Command>, c: Command)
    ensures Writes(cs + [c]) == Writes(cs) + if c.Data? then 1 else 0
  {
    if cs == [] {
      assert [] + [c] == [c] && [c][1..] == [];
    } else {
      assert (cs + [c])[1..] == cs[1..] + [c];
      WritesSnoc(cs[1..], c);
    }
  }

  /** The actor's phases, its writes, the session, the response channel and the device
      pipeline, in this order: a step may add work only to what comes later. Behind the
      close of the device node the commands before the actor stand for the pipeline. */
  datatype Work = Work(phase: nat, writes: nat, session: nat, waiting: nat, flow: nat)

  function Waits(a: Actor): nat {
    |a.handle.handler.channel| + if a.handle.handler.task.None? then 1 else 0
  }

  function WorkOf(w: Whole): Work {
    Work(PhaseRank(w.actor.phase), Writes(w.actor.commands), Results.Measure(w.pair), Waits(w.actor),
         if w.closed then |w.actor.commands| else FlowLiveness.Measure(w.sys))
  }

  predicate Less(a: Work, b: Work) {
    || a.phase < b.phase
    || (a.phase == b.phase &&
        (|| a.writes < b.writes
         || (a.writes == b.writes &&
             (|| a.session < b.session
              || (a.session == b.session &&
                  (|| a.waiting < b.waiting
                   || (a.waiting == b.waiting && a.flow < b.flow)))))))
  }

  /** Less to do in the session, with the actor where it was and no more to obey. */
  lemma SessionLess(w: Whole, v: Whole)
    requires v.actor.phase == w.actor.phase && v.actor.commands == w.actor.commands
    requires Results.Measure(v.pair) < Results.Measure(w.pair)
    ensures Less(WorkOf(v), WorkOf(w))
  {
  }

  lemma SessionStepLess(w: Whole, step: Step)
    requires Joined(w) && Inner(w, step) && Possible(w, step)
    requires step.HostMoves? || step.DeviceMoves? || step.DeviceDrops?
    ensures Less(WorkOf(Do(w, step)), WorkOf(w))
  {
    var v := Do(w, step);
    SessionStepCheaper(w, step);
    assert v.actor.phase == w.actor.phase && v.actor.commands == w.actor.commands;
    SessionLess(w, v);
  }

  lemma SessionStepCheaper(w: Whole, step: Step)
    requires Joined(w) && Inner(w, step) && Possible(w, step)
    requires step.HostMoves? || step.DeviceMoves? || step.DeviceDrops?
    ensures Results.Measure(Do(w, step).pair) < Results.Measure(w.pair)
  {
    Session.Invariant(w.pair);
    match step {
      case HostMoves(e) => Results.EventCheaper(w.pair.host, w.pair.device, e);
      case DeviceMoves(e) => Results.EventCheaper(w.pair.device, w.pair.host, e);
      case DeviceDrops => Results.EventCheaper(w.pair.device, w.pair.host, Session.ChannelDrops);
    }
  }

  lemma PhaseLess(w: Whole, v: Whole)
    requires PhaseRank(v.actor.phase) < PhaseRank(w.actor.phase)
    ensures Less(WorkOf(v), WorkOf(w))
  {
  }

  /** A step of the actor alone that takes something from the response channel. */
  lemma WaitsLess(w: Whole, v: Whole)
    requires v.actor.phase == w.actor.phase && v.actor.commands == w.actor.commands
    requires v.pair == w.pair && Waits(v.actor) < Waits(w.actor)
    ensures Less(WorkOf(v), WorkOf(w))
  {
  }

  lemma ReadsLess(w: Whole)
    requires Joined(w) && Possible(w, Reads)
    ensures Less(WorkOf(Do(w, Reads)), WorkOf(w))
  {
    Forwarding.Invariant(w.actor);
    ReadSends(w.actor);
    if w.actor.handle.handler.channel != [] {
      WaitsLess(w, Do(w, Reads));
    } else {
      PhaseLess(w, Do(w, Reads));
    }
  }

  lemma ObeysLess(w: Whole)
    requires Joined(w) && Possible(w, Obeys)
    ensures Less(WorkOf(Do(w, Obeys)), WorkOf(w))
  {
    Forwarding.Invariant(w.actor);
    ObeyEffect(w.actor);
    assert !w.closed ==> FlowLiveness.Measure(Flow.Apply(w.sys, Flow.ActorObeys)) < FlowLiveness.Measure(w.sys);
  }

  lemma ClosesLess(w: Whole, step: Step)
    requires Joined(w) && Possible(w, step) && (step.StartsClose? || step.EndsClose?)
    ensures Less(WorkOf(Do(w, step)), WorkOf(w))
  {
    if step.StartsClose? {
      ClosePhase(w.actor);
    }
    assert PhaseRank(Do(w, step).actor.phase) < PhaseRank(w.actor.phase);
    PhaseLess(w, Do(w, step));
  }

  lemma ClosePhase(a: Actor)
    requires Enabled(a, CloseBegins)
    ensures var b := Apply(a, CloseBegins);
      b.phase == Awaiting || b.phase.Gone?
  {
  }

  lemma FlowStepLess(w: Whole, step: Flow.Step)
    requires Joined(w) && FlowLiveness.DrainStep(step) && Possible(w, Flows(step))
    ensures Less(WorkOf(Do(w, Flows(step))), WorkOf(w))
  {
    FlowSafety.Invariant(w.sys);
    FlowLiveness.DrainStepDecreases(w.sys, step);
    FlowCommands(w.sys, step);
    var s := Flow.Apply(w.sys, step);
    var cs := Added(w.sys.commands, s.commands);
    assert WorkOf(Do(w, Flows(step))) == WorkOf(w.(sys := s, actor := Commanded(w.actor, cs)));
    CommandedLess(w, s, cs);
  }

  /** More commands, but no writes, for less work in the pipeline. */
  lemma CommandedLess(w: Whole, s: Flow.Sys, cs: seq<Command>)
    requires !w.closed && |cs| <= 1 && (cs != [] ==> !cs[0].Data?)
    requires FlowLiveness.Measure(s) < FlowLiveness.Measure(w.sys)
    ensures Less(WorkOf(w.(sys := s, actor := Commanded(w.actor, cs))), WorkOf(w))
  {
    if cs != [] {
      WritesSnoc(w.actor.commands, cs[0]);
    }
  }

  lemma InnerStepLess(w: Whole, step: Step)
    requires Joined(w) && Inner(w, step) && Possible(w, step)
    ensures Less(WorkOf(Do(w, step)), WorkOf(w))
  {
    match step
    case HostMoves(_) => SessionStepLess(w, step);
    case DeviceMoves(_) => SessionStepLess(w, step);
    case DeviceDrops => SessionStepLess(w, step);
    case DeviceFinishes => WaitsLess(w, Do(w, step));
    case Flows(s) => FlowStepLess(w, s);
    case Reads => ReadsLess(w);
    case Obeys => ObeysLess(w);
    case _ => ClosesLess(w, step);
  }

  ghost predicate InnerNext(w: Whole, v: Whole) {
    exists step :: Inner(w, step) && Possible(w, step) && v == Do(w, step)
  }

  lemma InnerNextLess(w: Whole, v: Whole)
    requires Joined(w) && InnerNext(w, v)
    ensures Joined(v) && Less(WorkOf(v), WorkOf(w))
  {
    var step :| Inner(w, step) && Possible(w, step) && v == Do(w, step);
    StepJoined(w, step);
    InnerStepLess(w, step);
  }

  lemma {:induction false} RestsFrom(run: nat -> Whole, i: nat, work: Work)
    requires Joined(run(i)) && work == WorkOf(run(i))
    ensures exists k: nat :: i <= k && !InnerNext(run(k), run(k + 1))
    decreases work.phase, work.writes, work.session, work.waiting, work.flow
  {
    if InnerNext(run(i), run(i + 1)) {
      InnerNextLess(run(i), run(i + 1));
      RestsFrom(run, i + 1, WorkOf(run(i + 1)));
    }
  }

  /** From every reachable state, however its parts are scheduled, the whole system
      comes to rest: there is no endless run of inner steps, and what cannot continue
      is at rest. */
  lemma AlwaysComesToRest(run: nat -> Whole)
    requires Reachable(run(0))
    ensures exists k: nat :: !InnerNext(run(k), run(k + 1))
    ensures forall w :: AtRest(w) <==> !exists v :: InnerNext(w, v)
  {
    AlwaysJoined(run(0));
    RestsFrom(run, 0, WorkOf(run(0)));
    forall w
      ensures AtRest(w) <==> !exists v :: InnerNext(w, v)
    {
      if !AtRest(w) {
        var step :| Inner(w, step) && Possible(w, step);
        assert InnerNext(w, Do(w, step));
      }
    }
  }

  // ---------------------------------------------------------------------------
  // Without a bound assumed on what the driver refuses.

  /** Never more than `k` announcements of space are outstanding. */
  ghost predicate Within(run: seq<Whole>, k: nat) {
    forall i :: 0 <= i < |run| ==> FlowCredit.Outstanding(run[i].sys) <= k
  }

  /** The device pipeline does one of its own steps, or none. */
  lemma PipelineSteps(w: Whole, step: Step)
    requires Joined(w) && Possible(w, step)
    ensures Do(w, step).sys == w.sys || Flow.Next(w.sys, Do(w, step).sys)
  {
    var s := Do(w, step).sys;
    match step
    case Reads => ActsPipeline(w, Apply(w.actor, ActorReads));
    case Obeys => assert s == w.sys || s == Flow.Apply(w.sys, Flow.ActorObeys);
    case StartsClose => ActsPipeline(w, Apply(w.actor, CloseBegins));
    case EndsClose => ActsPipeline(w, Apply(w.actor, CloseEnds));
    case Flows(e) => assert s == Flow.Apply(w.sys, e);
    case _ =>
  }

  lemma ActsPipeline(w: Whole, a: Actor)
    ensures Acts(w, a).sys == w.sys || Flow.Next(w.sys, Acts(w, a).sys)
  {
    var ms := Added(w.actor.forwarded, a.forwarded);
    if ms != [] && Flow.Enabled(w.sys, Flow.ActorForwards(ms[0])) {
      assert Forwards(w.sys, ms) == Flow.Apply(w.sys, Flow.ActorForwards(ms[0]));
    }
    if Flow.Enabled(w.sys, Flow.ActorExits(ms)) {
      assert Exits(w.sys, ms) == Flow.Apply(w.sys, Flow.ActorExits(ms));
    }
  }

  lemma {:induction false} CreditCarried(run: seq<Whole>, k: nat, i: nat)
    requires IsRun(run) && Within(run, k) && i < |run|
    ensures FlowCredit.Exposure(run[i].sys) <= FlowCredit.Ceiling(k)
    ensures k <= 255 ==> !run[i].sys.dropped
  {
    if i > 0 {
      CreditCarried(run, k, i - 1);
      RunJoined(run, i - 1);
      assert Next(run[i - 1], run[i]);
      var step :| Possible(run[i - 1], step) && run[i] == Do(run[i - 1], step);
      PipelineSteps(run[i - 1], step);
      FlowSafety.Invariant(run[i - 1].sys);
      if run[i].sys != run[i - 1].sys {
        FlowCredit.NextKeepsCeiling(run[i - 1].sys, run[i].sys, k);
      }
    }
  }

  /** In the device pipeline alone: a run that never has more than 255 announcements of
      space outstanding and that comes to rest has delivered every byte. */
  lemma RestMeansDelivered(run: seq<Flow.Sys>, k: nat)
    requires Flow.IsRun(run) && FlowCredit.Within(run, k) && k <= 255
    requires FlowLiveness.Quiescent(run[|run| - 1])
    ensures run[|run| - 1].delivered == run[|run| - 1].forwarded
  {
    FlowCredit.CreditBound(run, k, |run| - 1);
    Flow.RunInv(run, |run| - 1);
    FlowLiveness.QuiescentIsEmpty(run[|run| - 1]);
  }

  /** A run of the whole system that never has more than 255 announcements of space
      outstanding, and that comes to rest with the device node open: the reader has seen
      everything, except for what was written late or given up by `close`. */
  lemma BoundedRunDelivers(run: seq<Whole>, k: nat)
    requires IsRun(run) && Within(run, k) && k <= 255
    requires AtRest(run[|run| - 1]) && !run[|run| - 1].closed
    ensures var w := run[|run| - 1];
      w.sys.delivered + Flatten(Lost(w.actor)) + Flatten(w.pair.host.late) == Flatten(w.pair.host.promised)
  {
    CreditCarried(run, k, |run| - 1);
    ReaderSeesEverything(run[|run| - 1]);
  }
}
