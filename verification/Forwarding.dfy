/** The TCP actor of one device, `connection_run`, between the connection and the
    main loop: every message the connection delivers is forwarded exactly once. The
    actor is one caller of a handle: it keeps what `read` and `close` answer and
    ignores the messages that come with a failed write. */
module Forwarding {
  import opened Basics
  import opened ConnHandlers
  import Calls = HandleCalls
  import Daemon

  type Command = Daemon.WriteCommand

  /** Where the actor is: its select loop, about to call `close`, waiting in `close`
      for the connection to end, gone, or taken down by a panic in `read`. */
  datatype Phase = Looping | Leaving | Awaiting | Gone(known: bool) | Crashed

  datatype Actor = Actor(
    handle: Calls.History,
    phase: Phase,
    readPaused: bool,
    commands: seq<Command>,
    mainOpen: bool,               // the main loop still receives
    forwarded: seq<Message>       // everything the main loop was sent
  )

  const INIT: Actor := Actor(Calls.INIT, Looping, false, [], true, [])

  datatype Event =
    | TaskDelivers(m: Message)
    | TaskDrops
    | TaskEnds(result: TaskResult)
    | MainCommands(c: Command)
    | MainCloses
    | ActorReads                    // `read` returns, with data or with an error
    | ActorObeys                    // a command is taken
    | CommandsClosed                // the command channel is closed and empty
    | CloseBegins
    | CloseEnds

  predicate Enabled(a: Actor, e: Event) {
    match e
    case TaskDelivers(m) => Calls.Enabled(a.handle, Calls.Delivers(m))
    case TaskDrops => Calls.Enabled(a.handle, Calls.Drops)
    case TaskEnds(r) => Calls.Enabled(a.handle, Calls.TaskEnds(r))
    case MainCommands(_) => true
    case MainCloses => true
    case ActorReads => a.phase == Looping && !a.readPaused && Calls.Enabled(a.handle, Calls.CallsRead(true))
    case ActorObeys => a.phase == Looping && a.commands != [] && a.handle.use == Calls.InUse
    case CommandsClosed => a.phase == Looping && a.commands == []
    case CloseBegins => a.phase == Leaving && a.handle.use == Calls.InUse
    case CloseEnds => a.phase == Awaiting && Calls.Enabled(a.handle, Calls.CloseReturns(true))
  }

  /** `data_tx.send`, once per message; a closed channel swallows them all. */
  function Forward(a: Actor, ms: seq<Message>): Actor {
    if a.mainOpen then a.(forwarded := a.forwarded + ms) else a
  }

  function Apply(a: Actor, e: Event): Actor
    requires Enabled(a, e)
  {
    match e
    case TaskDelivers(m) => a.(handle := Calls.Apply(a.handle, Calls.Delivers(m)))
    case TaskDrops => a.(handle := Calls.Apply(a.handle, Calls.Drops))
    case TaskEnds(r) => a.(handle := Calls.Apply(a.handle, Calls.TaskEnds(r)))
    case MainCommands(c) => a.(commands := a.commands + [c])
    case MainCloses => a.(mainOpen := false)
    case ActorReads => OnRead(a, Read(a.handle.handler).1)
    case ActorObeys => OnCommand(a.(commands := a.commands[1..]), a.commands[0])
    case CommandsClosed => a.(phase := Leaving)
    case CloseBegins =>
      var b := a.(handle := Calls.Apply(a.handle, Calls.CallsClose(true)));
      (match BeginClose(a.handle.handler).1
       case Remaining(ms) => Forward(b, ms).(phase := Gone(true))
       case CloseUnknown => b.(phase := Gone(false))
       case AwaitTask => b.(phase := Awaiting))
    case CloseEnds =>
      Forward(a.(handle := Calls.Apply(a.handle, Calls.CloseReturns(true))), a.handle.handler.channel).(phase := Gone(true))
  }

  function OnRead(a: Actor, result: ReadResult): Actor
    requires Calls.Enabled(a.handle, Calls.CallsRead(true))
  {
    var b := a.(handle := Calls.Apply(a.handle, Calls.CallsRead(true)));
    match result
    case Data(m) => if a.mainOpen then Forward(b, [m]) else b.(phase := Leaving)
    case ReadClosed(closed) => Forward(b, Messages(closed)).(phase := Leaving)
    case Panicked => b.(phase := Crashed)
    case Blocked => a
  }

  function OnCommand(a: Actor, c: Command): Actor
    requires a.handle.use == Calls.InUse
  {
    match c
    case Data(_) =>
      var b := a.(handle := Calls.Apply(a.handle, Calls.CallsWrite(false)));
      if Write(a.handle.handler).1.Some? then b.(phase := Leaving) else b
    case PauseRead => a.(readPaused := true)
    case ResumeRead => a.(readPaused := false)
    case Close => a.(phase := Leaving)
  }

  ghost predicate Next(a: Actor, b: Actor) {
    exists e :: Enabled(a, e) && b == Apply(a, e)
  }

  ghost predicate IsRun(run: seq<Actor>) {
    && run != [] && run[0] == INIT
    && forall i :: 0 <= i < |run| - 1 ==> Next(run[i], run[i + 1])
  }

  ghost predicate Reachable(a: Actor) {
    exists run :: IsRun(run) && run[|run| - 1] == a
  }

  /** Nothing that was kept carried messages before the actor is gone; with the main
      loop still receiving, it has got exactly what was kept. While looping nothing is
      cached, because every failed call makes the actor leave its loop. */
  ghost predicate Around(a: Actor) {
    && Calls.KeptCarrying(a.handle.log) <= (if a.phase.Gone? then 1 else 0)
    && (a.phase == Looping || a.phase == Awaiting ==> a.handle.handler.cached.None?)
    && (a.phase == Looping || a.phase == Leaving ==> a.handle.use == Calls.InUse)
    && (a.phase == Awaiting <==> a.handle.use == Calls.Closing)
    && (a.phase == Gone(false) || a.phase == Crashed ==> a.handle.handler.cached.None? && a.handle.handler.dropped)
    && (a.phase == Crashed ==> a.handle.handler.channel == [])
    && (a.phase == Gone(true) ==> a.handle.handler.task.Some? && Calls.Kept(a.handle.log) == a.handle.produced)
    && a.forwarded <= Calls.Kept(a.handle.log)
    && (a.mainOpen ==> a.forwarded == Calls.Kept(a.handle.log))
  }

  ghost predicate Inv(a: Actor) {
    Calls.Inv(a.handle) && Around(a)
  }

  lemma ActorReadsAround(a: Actor)
    requires Around(a) && Enabled(a, ActorReads)
    ensures Around(Apply(a, ActorReads))
  {
    Calls.LogSnoc(a.handle.log, Calls.ReadAnswer(Read(a.handle.handler).1, true));
  }

  lemma ActorReadsInv(a: Actor)
    requires Inv(a) && Enabled(a, ActorReads)
    ensures Inv(Apply(a, ActorReads))
  {
    Calls.StepInv(a.handle, Calls.CallsRead(true));
    ActorReadsAround(a);
  }

  lemma ActorObeysAround(a: Actor)
    requires Around(a) && Enabled(a, ActorObeys)
    ensures Around(Apply(a, ActorObeys))
  {
    if a.commands[0].Data? {
      Calls.DroppedFailure(a.handle);
    }
  }

  /** Obeying a command keeps the actor in its loop exactly if it is to pause, to resume,
      or to write and the write is accepted; only pausing and resuming touch the read
      state. */
  lemma ObeysExactly(a: Actor)
    requires Inv(a) && Enabled(a, ActorObeys)
    ensures var b, c := Apply(a, ActorObeys), a.commands[0];
      && b.commands == a.commands[1..] && b.forwarded == a.forwarded
      && (b.phase == Looping || b.phase == Leaving)
      && (b.phase == Looping <==>
            c == Daemon.PauseRead || c == Daemon.ResumeRead || (c.Data? && !a.handle.handler.dropped))
      && b.readPaused == (c == Daemon.PauseRead || (a.readPaused && c != Daemon.ResumeRead))
  {
    if a.commands[0].Data? {
      WindowExactly(a.handle.handler);
    }
  }

  /** A read keeps the actor in its loop exactly if it brings a message that the main loop
      takes, and a panic takes it down. */
  lemma ReadsExactly(a: Actor)
    requires Inv(a) && Enabled(a, ActorReads)
    ensures var b, h := Apply(a, ActorReads), a.handle.handler;
      && (b.phase == Looping <==> h.channel != [] && a.mainOpen)
      && (b.phase == Crashed <==> h.channel == [] && h.task.None?)
      && (b.phase == Looping || b.phase == Crashed || b.phase == Leaving)
      && b.readPaused == a.readPaused && b.commands == a.commands
      && (b.phase == Looping ==> b.forwarded == a.forwarded + [h.channel[0]])
  {
    WindowExactly(a.handle.handler);
  }

  lemma ActorObeysInv(a: Actor)
    requires Inv(a) && Enabled(a, ActorObeys)
    ensures Inv(Apply(a, ActorObeys))
  {
    ActorObeysAround(a);
    ActorObeysHandle(a);
  }

  lemma ActorObeysHandle(a: Actor)
    requires Calls.Inv(a.handle) && Enabled(a, ActorObeys)
    ensures Calls.Inv(Apply(a, ActorObeys).handle)
  {
    Calls.StepInv(a.handle, Calls.CallsWrite(false));
    HandleAfterObeying(a);
  }

  lemma HandleAfterObeying(a: Actor)
    requires Enabled(a, ActorObeys)
    ensures Apply(a, ActorObeys).handle
         == if a.commands[0].Data? then Calls.Apply(a.handle, Calls.CallsWrite(false)) else a.handle
  {
  }

  lemma CloseBeginsInv(a: Actor)
    requires Inv(a) && Enabled(a, CloseBegins)
    ensures Inv(Apply(a, CloseBegins))
  {
    Calls.StepInv(a.handle, Calls.CallsClose(true));
    Calls.RemainderCompletes(a.handle);
    Calls.CloseLog(a.handle);
  }

  lemma CloseEndsInv(a: Actor)
    requires Inv(a) && Enabled(a, CloseEnds)
    ensures Inv(Apply(a, CloseEnds))
  {
    Calls.StepInv(a.handle, Calls.CloseReturns(true));
    Calls.RemainderCompletes(a.handle);
    Calls.CloseReturnsLog(a.handle);
  }

  lemma StepInv(a: Actor, e: Event)
    requires Inv(a) && Enabled(a, e)
    ensures Inv(Apply(a, e))
  {
    match e
    case TaskDelivers(m) => Calls.StepInv(a.handle, Calls.Delivers(m));
    case TaskDrops => Calls.StepInv(a.handle, Calls.Drops);
    case TaskEnds(r) => Calls.StepInv(a.handle, Calls.TaskEnds(r));
    case MainCommands(_) =>
    case MainCloses =>
    case ActorReads => ActorReadsInv(a);
    case ActorObeys => ActorObeysInv(a);
    case CommandsClosed =>
    case CloseBegins => CloseBeginsInv(a);
    case CloseEnds => CloseEndsInv(a);
  }

  lemma NextReachable(a: Actor, b: Actor)
    requires Reachable(a) && Next(a, b)
    ensures Reachable(b)
  {
    var run :| IsRun(run) && run[|run| - 1] == a;
    var longer := run + [b];
    assert longer[|longer| - 1] == b && IsRun(longer);
  }

  lemma NextInv(a: Actor, b: Actor)
    requires Inv(a) && Next(a, b)
    ensures Inv(b)
  {
    var e :| Enabled(a, e) && b == Apply(a, e);
    StepInv(a, e);
  }

  lemma {:induction false} RunInv(run: seq<Actor>, i: nat)
    requires IsRun(run) && i < |run|
    ensures Inv(run[i])
  {
    if i > 0 {
      RunInv(run, i - 1);
      NextInv(run[i - 1], run[i]);
    }
  }

  /** The actor's calls are one of the runs of its handle. */
  lemma {:induction false} HandleRuns(run: seq<Actor>, i: nat)
    requires IsRun(run) && i < |run|
    ensures Calls.Reachable(run[i].handle)
  {
    if i == 0 {
      assert Calls.IsRun([Calls.INIT]);
    } else {
      HandleRuns(run, i - 1);
      RunInv(run, i - 1);
      assert Next(run[i - 1], run[i]);
      var e :| Enabled(run[i - 1], e) && run[i] == Apply(run[i - 1], e);
      HandleSteps(run[i - 1], e);
      if run[i].handle != run[i - 1].handle {
        Calls.NextReachable(run[i - 1].handle, run[i].handle);
      }
    }
  }

  lemma HandleSteps(a: Actor, e: Event)
    requires Enabled(a, e)
    ensures Apply(a, e).handle == a.handle || Calls.Next(a.handle, Apply(a, e).handle)
  {
    match e
    case TaskDelivers(m) => assert Calls.Enabled(a.handle, Calls.Delivers(m));
    case TaskDrops => assert Calls.Enabled(a.handle, Calls.Drops);
    case TaskEnds(r) => assert Calls.Enabled(a.handle, Calls.TaskEnds(r));
    case ActorReads => assert Calls.Enabled(a.handle, Calls.CallsRead(true));
    case ActorObeys => HandleAfterObeying(a); assert Calls.Enabled(a.handle, Calls.CallsWrite(false));
    case CloseBegins => assert Calls.Enabled(a.handle, Calls.CallsClose(true));
    case CloseEnds => assert Calls.Enabled(a.handle, Calls.CloseReturns(true));
    case _ =>
  }

  /** So whatever the actor is told about the end of its connection is what happened. */
  lemma ToldTruly(a: Actor)
    requires Reachable(a)
    ensures Calls.TellsTruly(a.handle)
    ensures a.handle.handler.cached.Some? ==> Names(a.handle.handler.cached.value, a.handle.handler.task)
  {
    var run :| IsRun(run) && run[|run| - 1] == a;
    HandleRuns(run, |run| - 1);
    var calls :| Calls.IsRun(calls) && calls[|calls| - 1] == a.handle;
    Calls.EndIsNamed(calls, |calls| - 1);
  }

  lemma Invariant(a: Actor)
    requires Reachable(a)
    ensures Inv(a)
  {
    var run :| IsRun(run) && run[|run| - 1] == a;
    RunInv(run, |run| - 1);
  }

  /** Exactly-once forwarding: on every path through the actor the main loop gets an
      in-order, duplicate-free prefix of what the connection delivered, and all of
      it when the actor ends through a `close` that did not answer Unknown while
      the main loop was still receiving. After an Unknown answer exactly the
      messages still waiting in the channel are missing, and after a panic none. */
  lemma ExactlyOnce(a: Actor)
    requires Reachable(a)
    ensures a.forwarded <= a.handle.produced
    ensures a.phase == Gone(false) && a.mainOpen ==> a.forwarded + a.handle.handler.channel == a.handle.produced
    ensures a.phase == Gone(true) && a.mainOpen ==> a.forwarded == a.handle.produced && a.handle.handler.task.Some?
    ensures a.phase == Crashed && a.mainOpen ==> a.forwarded == a.handle.produced
  {
    Invariant(a);
    Calls.PrefixIffOne(a.handle);
  }

  /** When `close` loses messages: exactly when it is called in the window between the
      two steps of the connection's end, with something still in the channel. */
  lemma CloseLosesExactly(a: Actor)
    requires Reachable(a) && a.mainOpen && Enabled(a, CloseBegins)
    ensures var b, h := Apply(a, CloseBegins), a.handle.handler;
      && (b.phase == Gone(false) <==> h.dropped && h.task.None?)
      && (b.phase.Gone? ==>
            (b.forwarded == b.handle.produced <==> !(h.dropped && h.task.None? && h.channel != [])))
  {
    Invariant(a);
    WindowExactly(a.handle.handler);
    Calls.CloseAnswer(a.handle.handler);
    var b := Apply(a, CloseBegins);
    NextReachable(a, b);
    ExactlyOnce(b);
    assert b.forwarded + [] == b.forwarded;
  }

  lemma Step(a: Actor, e: Event) returns (b: Actor)
    requires Reachable(a) && Enabled(a, e)
    ensures b == Apply(a, e) && Reachable(b)
  {
    b := Apply(a, e);
    NextReachable(a, b);
  }

  /** A message has arrived, a write waits, and the connection has dropped its channels. */
  lemma WriteInWindow(m: Message, data: Message) returns (a: Actor)
    ensures Reachable(a)
    ensures a == INIT.(commands := [Daemon.Data(data)],
      handle := Calls.INIT.(handler := FRESH.(channel := [m], dropped := true), produced := [m]))
  {
    assert IsRun([INIT]);
    a := Step(INIT, MainCommands(Daemon.Data(data)));
    a := Step(a, TaskDelivers(m));
    a := Step(a, TaskDrops);
  }

  /** A run in which it does: a write fails in the window, and the `close` behind it
      gives up a message that has arrived. */
  lemma UnknownLoses(m: Message, data: Message) returns (a: Actor)
    ensures Reachable(a) && a.mainOpen && a.phase == Gone(false)
    ensures a.handle.produced == [m] && a.forwarded == []
  {
    a := WriteInWindow(m, data);
    a := Step(a, ActorObeys);
    a := Step(a, CloseBegins);
  }

  // ---------------------------------------------------------------------------
  // The code, on an actor that is updated in place.

  class ConnectionRun {
    const conn: ConnHandler
    var phase: Phase
    var readPaused: bool
    var commands: seq<Command>
    var mainOpen: bool
    var forwarded: seq<Message>
    // the history of the handle
    ghost var use: Calls.Use
    ghost var produced: seq<Message>
    ghost var log: seq<Calls.Answer>

    ghost function Value(): Actor
      reads this, conn
    {
      Actor(Calls.History(conn.Value(), use, produced, log), phase, readPaused, commands, mainOpen, forwarded)
    }

    constructor (conn: ConnHandler)
      requires conn.Value() == FRESH
      ensures this.conn == conn && Value() == INIT
    {
      this.conn := conn;
      phase, readPaused, commands, mainOpen, forwarded := Looping, false, [], true, [];
      use, produced, log := Calls.InUse, [], [];
    }

    method Send(message: Message) returns (accepted: bool)
      modifies this`forwarded
      ensures accepted == mainOpen
      ensures Value() == Forward(old(Value()), [message])
    {
      if mainOpen {
        forwarded := forwarded + [message];
      }
      return mainOpen;
    }

    /** The loop over the messages that came with the end of the connection; whether
        the main loop takes them is not looked at. */
    method SendAll(messages: seq<Message>)
      modifies this`forwarded
      ensures Value() == Forward(old(Value()), messages)
    {
      var i := 0;
      while i < |messages|
        invariant i <= |messages|
        invariant Value() == Forward(old(Value()), messages[..i])
      {
        assert messages[..i + 1] == messages[..i] + [messages[i]];
        var _ := Send(messages[i]);
        i := i + 1;
      }
      assert messages[..i] == messages;
    }

    /** The branch of the select loop that reads; it runs only while not paused. */
    method ReadBranch()
      requires Inv(Value()) && Enabled(Value(), ActorReads)
      modifies this, conn
      ensures Value() == Apply(old(Value()), ActorReads)
    {
      var result := conn.ReadMessage();
      log := log + [Calls.ReadAnswer(result, true)];
      match result {
        case Data(message) =>
          var accepted := Send(message);
          if !accepted {
            phase := Leaving;
          }
        case ReadClosed(closed) =>
          match closed {
            case Normal(messages) => SendAll(messages);
            case Error(messages) => SendAll(messages);
            case Unknown =>
          }
          phase := Leaving;
        case Panicked => use, phase := Calls.Crashed, Crashed;
        case Blocked =>
      }
    }

    /** The branch of the select loop that takes a command, or finds that there will
        be no more. The messages in the error of a failed write are ignored. */
    method CommandBranch()
      requires phase == Looping && use == Calls.InUse
      modifies this, conn
      ensures Value() == Apply(old(Value()), if old(commands) == [] then CommandsClosed else ActorObeys)
    {
      if commands == [] {
        phase := Leaving;
        return;
      }
      var command := commands[0];
      commands := commands[1..];
      match command {
        case Data(_) =>
          var failure := conn.WriteMessage();
          log := log + [Calls.WriteAnswer(failure, false)];
          if failure.Some? {
            phase := Leaving;
          }
        case PauseRead => readPaused := true;
        case ResumeRead => readPaused := false;
        case Close => phase := Leaving;
      }
    }

    /** `close` behind the loop, up to waiting for the connection to end. */
    method StartClosing()
      requires Enabled(Value(), CloseBegins)
      modifies this, conn
      ensures Value() == Apply(old(Value()), CloseBegins)
    {
      var start := conn.BeginClosing();
      match start {
        case Remaining(messages) =>
          log, use := log + [Calls.Ended(messages, true, Calls.Unclear)], Calls.Consumed;
          SendAll(messages);
          phase := Gone(true);
        case CloseUnknown =>
          log, use := log + [Calls.Ended([], true, Calls.Unclear)], Calls.Consumed;
          phase := Gone(false);
        case AwaitTask =>
          use := Calls.Closing;
          phase := Awaiting;
      }
    }

    method FinishClosing()
      requires Enabled(Value(), CloseEnds)
      modifies this, conn
      ensures Value() == Apply(old(Value()), CloseEnds)
    {
      var messages := conn.EndClosing();
      log, use := log + [Calls.Ended(messages, true, Calls.Unclear)], Calls.Consumed;
      SendAll(messages);
      phase := Gone(true);
    }
  }
}
