/** The other direction: from the process writing to the device node, through the main
    loop's data commands, the actor and the session, to the application on the host; and
    what the actor is told when the session ends. */
module NodeWrites {
  import opened Basics
  import opened Endpoint
  import opened Forwarding
  import opened Pipeline
  import ConnHandlers
  import Daemon
  import Session = SessionPair
  import Results = SessionResults
  import Flow = FlowSystem

  /** Data that the actor has still to write, in order. */
  function CommandData(cs: seq<Command>): seq<Message> {
    if cs == [] then [] else (if cs[0].Data? then [cs[0].data] else []) + CommandData(cs[1..])
  }

  lemma {:induction false} CommandDataSnoc(cs: seq<Command>, c: Command)
    ensures CommandData(cs + [c]) == CommandData(cs) + if c.Data? then [c.data] else []
  {
    if cs == [] {
      assert [] + [c] == [c] && [c][1..] == [];
    } else {
      assert (cs + [c])[1..] == cs[1..] + [c];
      CommandDataSnoc(cs[1..], c);
      Associative(if cs[0].Data? then [cs[0].data] else [], CommandData(cs[1..]), if c.Data? then [c.data] else []);
    }
  }

  /** The close of the device node sends the last command. */
  ghost predicate CloseIsLast(cs: seq<Command>, closed: bool) {
    forall i :: 0 <= i < |cs| && cs[i] == Daemon.Close ==> closed && i == |cs| - 1
  }

  /** What was written to the node has become requests to the connection, or waits before
      the looping actor. An actor whose connection is alive leaves its loop only for the
      close of the node, with everything written handed over. */
  ghost predicate HandedOver(promised: seq<Message>, closeRequested: bool, phase: Phase, dropped: bool,
                             commands: seq<Command>, closed: bool, written: seq<Message>) {
    && promised <= written
    && CloseIsLast(commands, closed)
    && (phase == Looping ==> promised + CommandData(commands) == written && !closeRequested)
    && (phase == Leaving ==> !closeRequested)
    && ((phase == Leaving && !dropped) || phase == Awaiting || closeRequested ==> closed && promised == written)
  }

  ghost predicate WriteSeam(w: Whole) {
    HandedOver(w.pair.device.promised, w.pair.device.closeRequested, w.actor.phase, w.actor.handle.handler.dropped,
               w.actor.commands, w.closed, w.written)
  }

  /** One command less, and with a write that is accepted one request more. */
  lemma CommandHandedOver(promised: seq<Message>, after: seq<Message>, phase: Phase, dropped: bool,
                          commands: seq<Command>, closed: bool, written: seq<Message>)
    requires HandedOver(promised, false, Looping, dropped, commands, closed, written) && commands != []
    requires phase == Looping || phase == Leaving
    requires phase == Looping <==> commands[0].PauseRead? || commands[0].ResumeRead? || (commands[0].Data? && !dropped)
    requires after == promised + if commands[0].Data? && !dropped then [commands[0].data] else []
    ensures HandedOver(after, false, phase, dropped, commands[1..], closed, written)
  {
    var rest := commands[1..];
    CloseStaysLast(commands, closed);
    if commands[0].Data? {
      Associative(promised, [commands[0].data], CommandData(rest));
    } else if commands[0].Close? {
      assert rest == [];
      assert promised + [] == promised;
    } else {
      assert [] + CommandData(rest) == CommandData(rest) && promised + [] == promised;
    }
  }

  lemma CloseStaysLast(commands: seq<Command>, closed: bool)
    requires commands != [] && CloseIsLast(commands, closed)
    ensures CloseIsLast(commands[1..], closed)
  {
    assert forall i :: 0 <= i < |commands| - 1 ==> commands[1..][i] == commands[i + 1];
  }

  /** One command more: a write that was just made, or one about reading. */
  lemma MoreHandedOver(promised: seq<Message>, closeRequested: bool, phase: Phase, dropped: bool,
                       commands: seq<Command>, c: Command, written: seq<Message>)
    requires HandedOver(promised, closeRequested, phase, dropped, commands, false, written) && c != Daemon.Close
    ensures HandedOver(promised, closeRequested, phase, dropped, commands + [c], false,
                       if c.Data? then written + [c.data] else written)
  {
    CommandDataSnoc(commands, c);
    if c.Data? {
      Associative(promised, CommandData(commands), [c.data]);
    }
  }

  lemma DeviceMovesSeam(w: Whole, e: Session.Event)
    requires Joined(w) && WriteSeam(w) && Possible(w, DeviceMoves(e))
    ensures WriteSeam(Do(w, DeviceMoves(e)))
  {
    Session.Invariant(w.pair);
    DeliversOne(w.pair.device, w.pair.host, e);
    var d := Session.Apply(w.pair.device, w.pair.host, e);
    assert d.promised == w.pair.device.promised && d.closeRequested == w.pair.device.closeRequested;
    ReceiveKeepsSeam(w, d, Added(w.pair.device.delivered, d.delivered));
  }

  lemma ReceiveKeepsSeam(w: Whole, d: Conn, ms: seq<Message>)
    requires WriteSeam(w) && d.promised == w.pair.device.promised && d.closeRequested == w.pair.device.closeRequested
    ensures WriteSeam(w.(pair := w.pair.(device := d), actor := Receive(w.actor, ms)))
  {
  }

  /** Nothing that the seam looks at has changed, except that channels may be dropped. */
  lemma SeamStays(w: Whole, v: Whole)
    requires WriteSeam(w)
    requires v.pair.device.promised == w.pair.device.promised
    requires v.pair.device.closeRequested == w.pair.device.closeRequested
    requires v.actor.phase == w.actor.phase && v.actor.commands == w.actor.commands
    requires w.actor.handle.handler.dropped ==> v.actor.handle.handler.dropped
    requires v.closed == w.closed && v.written == w.written
    ensures WriteSeam(v)
  {
  }

  lemma HostMovesSeam(w: Whole, e: Session.Event)
    requires WriteSeam(w) && Possible(w, HostMoves(e))
    ensures WriteSeam(Do(w, HostMoves(e)))
  {
    var v := Do(w, HostMoves(e));
    assert v.pair.device == w.pair.device && v.actor == w.actor;
    SeamStays(w, v);
  }

  lemma DeviceEndsSeam(w: Whole, step: Step)
    requires WriteSeam(w) && Possible(w, step) && (step.DeviceDrops? || step.DeviceFinishes?)
    ensures WriteSeam(Do(w, step))
  {
    SeamStays(w, Do(w, step));
  }

  lemma ReadsSeam(w: Whole)
    requires Joined(w) && WriteSeam(w) && Possible(w, Reads)
    ensures WriteSeam(Do(w, Reads))
  {
    Forwarding.Invariant(w.actor);
    ReadsExactly(w.actor);
    ReadSends(w.actor);
  }

  /** Each data command obeyed while the connection takes requests appends exactly its
      data to what is asked of the connection, and the actor stays in its loop. */
  lemma ObeyedWrite(w: Whole)
    requires Joined(w) && WriteSeam(w) && Possible(w, Obeys)
    ensures var c, v := w.actor.commands[0], Do(w, Obeys);
      && (c.Data? && w.pair.device.accepting ==>
            v.actor.phase == Looping && v.pair.device.promised == w.pair.device.promised + [c.data])
      && (!(c.Data? && w.pair.device.accepting) ==> v.pair.device == w.pair.device)
  {
    Forwarding.Invariant(w.actor);
    ObeysExactly(w.actor);
  }

  lemma ObeysSeam(w: Whole)
    requires Joined(w) && WriteSeam(w) && Possible(w, Obeys)
    ensures WriteSeam(Do(w, Obeys))
  {
    Forwarding.Invariant(w.actor);
    ObeysExactly(w.actor);
    ObeyEffect(w.actor);
    ObeyedWrite(w);
    var v := Do(w, Obeys);
    var c, d := w.actor.commands[0], w.pair.device;
    assert d.promised + [] == d.promised;
    CommandHandedOver(d.promised, v.pair.device.promised, v.actor.phase, !d.accepting, w.actor.commands, w.closed, w.written);
    assert v.pair.device.closeRequested == d.closeRequested == false;
  }

  lemma ClosesSeam(w: Whole, step: Step)
    requires Joined(w) && WriteSeam(w) && Possible(w, step) && (step.StartsClose? || step.EndsClose?)
    ensures WriteSeam(Do(w, step))
  {
    Forwarding.Invariant(w.actor);
    if step.StartsClose? {
      CloseEffect(w.actor);
    } else {
      EndEffect(w.actor);
    }
  }

  /** The main loop has commanded `cs`, and what was written has become `written`. */
  lemma CommandedSeam(w: Whole, cs: seq<Command>, data: Option<Message>)
    requires WriteSeam(w) && !w.closed && |cs| <= 1
    requires data.Some? ==> if Alive(w.actor.phase) then cs == [Daemon.Data(data.value)] else cs == []
    requires data == None && cs != [] ==> cs[0] == Daemon.PauseRead || cs[0] == Daemon.ResumeRead
    ensures WriteSeam(w.(actor := Commanded(w.actor, cs),
                         written := if data.Some? then w.written + [data.value] else w.written))
  {
    var d, a := w.pair.device, w.actor;
    if cs != [] {
      MoreHandedOver(d.promised, d.closeRequested, a.phase, a.handle.handler.dropped, a.commands, cs[0], w.written);
    }
  }

  lemma FlowsSeam(w: Whole, step: Flow.Step)
    requires Joined(w) && WriteSeam(w) && Possible(w, Flows(step))
    ensures WriteSeam(Do(w, Flows(step)))
  {
    FlowCommands(w.sys, step);
    FlowWrites(w.sys, step);
    var cs := Added(w.sys.commands, Flow.Apply(w.sys, step).commands);
    CommandedSeam(w, cs, if step.MainLoopWrites? then Some(step.data) else None);
    SameSeam(w.(actor := Commanded(w.actor, cs), written := if step.MainLoopWrites? then w.written + [step.data] else w.written),
             Do(w, Flows(step)));
  }

  /** The pipeline is no part of the seam. */
  lemma SameSeam(w: Whole, v: Whole)
    requires WriteSeam(w) && v == w.(sys := v.sys)
    ensures WriteSeam(v)
  {
  }

  /** The command behind a write to the device node carries what was written; no other
      step of the main loop commands a write or a close. */
  lemma FlowWrites(s: Flow.Sys, step: Flow.Step)
    requires Flow.Enabled(s, step) && !step.ActorForwards? && !step.ActorObeys? && !step.ActorExits?
    ensures var cs := Added(s.commands, Flow.Apply(s, step).commands);
      && (step.MainLoopWrites? && s.alive ==> cs == [Daemon.Data(step.data)])
      && (!step.MainLoopWrites? && cs != [] ==> cs[0] == Daemon.PauseRead || cs[0] == Daemon.ResumeRead)
  {
    var t := Flow.Apply(s, step);
    if t.commands != s.commands {
      var c := t.commands[|t.commands| - 1];
      assert t.commands == s.commands + [c];
      assert (s.commands + [c])[|s.commands|..] == [c];
    }
  }

  lemma NodeClosesSeam(w: Whole)
    requires Joined(w) && WriteSeam(w) && Possible(w, NodeCloses)
    ensures WriteSeam(Do(w, NodeCloses))
  {
    CommandDataSnoc(w.actor.commands, Daemon.Close);
    assert CommandData(w.actor.commands) + [] == CommandData(w.actor.commands);
  }

  lemma StepSeam(w: Whole, step: Step)
    requires Joined(w) && WriteSeam(w) && Possible(w, step)
    ensures WriteSeam(Do(w, step))
  {
    match step
    case Reads => ReadsSeam(w);
    case Obeys => ObeysSeam(w);
    case StartsClose => ClosesSeam(w, step);
    case EndsClose => ClosesSeam(w, step);
    case Flows(step) => FlowsSeam(w, step);
    case NodeCloses => NodeClosesSeam(w);
    case DeviceMoves(e) => DeviceMovesSeam(w, e);
    case HostMoves(e) => HostMovesSeam(w, e);
    case _ => DeviceEndsSeam(w, step);
  }

  lemma {:induction false} RunSeam(run: seq<Whole>, i: nat)
    requires Pipeline.IsRun(run) && i < |run|
    ensures WriteSeam(run[i])
  {
    if i > 0 {
      RunSeam(run, i - 1);
      RunJoined(run, i - 1);
      assert Pipeline.Next(run[i - 1], run[i]);
      var step :| Possible(run[i - 1], step) && run[i] == Do(run[i - 1], step);
      StepSeam(run[i - 1], step);
    }
  }

  lemma AlwaysSeam(w: Whole)
    requires Pipeline.Reachable(w)
    ensures WriteSeam(w)
  {
    var run :| Pipeline.IsRun(run) && run[|run| - 1] == w;
    RunSeam(run, |run| - 1);
  }

  // ---------------------------------------------------------------------------

  /** In every run the host's application has got a prefix of what was written to the
      device node, message by message. */
  lemma HostSeesPrefix(w: Whole)
    requires Pipeline.Reachable(w)
    ensures w.pair.host.delivered <= w.pair.device.promised <= w.written
  {
    AlwaysJoined(w);
    AlwaysSeam(w);
    Results.DeliveredIsPrefix(w.pair);
  }

  /** At rest it has got all of it, if the session is still open or was closed from the
      device's side. */
  lemma HostSeesEverything(w: Whole)
    requires Pipeline.Reachable(w) && AtRest(w)
    requires w.pair.device.pc == Loop || w.pair.device.pc == Done(Finished)
    ensures w.pair.host.delivered == w.written
  {
    AlwaysJoined(w);
    AlwaysSeam(w);
    RestingPair(w);
    Session.Invariant(w.pair);
    Results.RestDelivers(w.pair);
    if w.pair.device.pc == Loop {
      RestingActor(w);
      AliveWhileOpen(w);
      assert w.pair.device.promised + [] == w.pair.device.promised;
    }
    assert w.pair.host.delivered + [] == w.pair.host.delivered;
  }

  lemma AliveWhileOpen(w: Whole)
    requires Joined(w) && w.pair.device.accepting
    ensures Alive(w.actor.phase)
  {
    if !Alive(w.actor.phase) {
      GoneMeansDropped(w.actor);
    }
  }

  /** Whatever the actor is told about the end of the session is how the device's
      connection ended: Normal exactly if it closed of its own, Error exactly if the
      host's side had closed. */
  lemma ActorToldTruly(w: Whole)
    requires Pipeline.Reachable(w)
    ensures w.actor.handle.handler.cached.Some? ==>
      && (w.actor.handle.handler.cached.value.Normal? <==> w.pair.device.pc == Done(Finished))
      && (w.actor.handle.handler.cached.value.Error? <==> w.pair.device.pc == Done(PeerClosed))
    ensures forall i :: 0 <= i < |w.actor.handle.log| && w.actor.handle.log[i].Ended? ==>
      && (w.actor.handle.log[i].told.Normally? ==> w.pair.device.pc == Done(Finished))
      && (w.actor.handle.log[i].told.WithError? ==> w.pair.device.pc == Done(PeerClosed))
  {
    AlwaysJoined(w);
    ToldTruly(w.actor);
    Forwarding.Invariant(w.actor);
  }
}
