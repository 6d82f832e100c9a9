/** The handle an application holds on a running connection. Received messages wait
    in a channel; when the connection task has ended, the first call that notices
    drains the channel and caches the result. The task ends in two steps: it drops its
    ends of the channels, and then it counts as finished. Calls in between find closed
    channels and a task that still seems to run. */
module ConnHandlers {
  import opened Basics

  type Message = seq<byte>

  datatype Closed = Normal(messages: seq<Message>) | Error(messages: seq<Message>) | Unknown

  /** How the connection loop ended. */
  datatype TaskResult = TaskOk | TaskErr

  datatype Handler = Handler(
    channel: seq<Message>,
    dropped: bool,                 // the connection's ends of the channels are gone
    task: Option<TaskResult>,      // None until the task counts as finished
    cached: Option<Closed>
  )

  const FRESH: Handler := Handler([], false, None, None)

  function ClosedBy(r: TaskResult, messages: seq<Message>): Closed {
    match r
    case TaskOk => Normal(messages)
    case TaskErr => Error(messages)
  }

  function Messages(c: Closed): seq<Message> {
    match c
    case Normal(m) => m
    case Error(m) => m
    case Unknown => []
  }

  /** `check_task_state`: None while the task seems to run. */
  function Check(h: Handler): (Handler, Option<Closed>) {
    if h.cached.Some? then (h, h.cached)
    else if h.task.None? then (h, None)
    else
      var closed := ClosedBy(h.task.value, h.channel);
      (h.(channel := [], cached := Some(closed)), Some(closed))
  }

  /** Panicked: the `expect` behind a closed channel meets a task that seems to run. */
  datatype ReadResult = Data(message: Message) | ReadClosed(closed: Closed) | Blocked | Panicked

  /** `read`: the channel first; a closed and empty channel asks how the connection ended. */
  function Read(h: Handler): (Handler, ReadResult) {
    if h.channel != [] then (h.(channel := h.channel[1..]), Data(h.channel[0]))
    else if !h.dropped then (h, Blocked)
    else
      var (h', closed) := Check(h);
      (h', if closed.Some? then ReadClosed(closed.value) else Panicked)
  }

  /** `write`: None on success; a closed request channel gives Unknown. */
  function Write(h: Handler): (Handler, Option<Closed>) {
    var (h', closed) := Check(h);
    (h', if closed.Some? then closed else if h.dropped then Some(Unknown) else None)
  }

  datatype CloseStart = Remaining(messages: seq<Message>) | CloseUnknown | AwaitTask

  /** `close` up to waiting for the connection to end. */
  function BeginClose(h: Handler): (Handler, CloseStart) {
    var (h', closed) := Check(h);
    (h', match closed
         case Some(Unknown) => CloseUnknown
         case Some(c) => Remaining(Messages(c))
         case None => if h.dropped then CloseUnknown else AwaitTask)
  }

  /** The rest of `close` once the connection has ended. */
  function EndClose(h: Handler): (Handler, seq<Message>)
    requires h.task.Some?
  {
    (h.(channel := [], cached := Some(ClosedBy(h.task.value, h.channel))), h.channel)
  }

  /** `get_status` asks like `write`, and then waits for an answer. When the connection
      is gone without one, it asks how the connection ended, as `read` does. */
  function LoseStatus(h: Handler): (Handler, ReadResult)
    requires h.dropped
  {
    var (h', closed) := Check(h);
    (h', if closed.Some? then ReadClosed(closed.value) else Panicked)
  }

  /** `Closed` names the end that the task really had. */
  predicate Names(c: Closed, task: Option<TaskResult>) {
    && (c.Normal? <==> task == Some(TaskOk))
    && (c.Error? <==> task == Some(TaskErr))
  }

  ghost predicate Valid(h: Handler) {
    && (h.task.Some? ==> h.dropped)
    && (h.cached.Some? ==> h.task.Some? && h.channel == [] && h.cached.value != Unknown && Names(h.cached.value, h.task))
  }

  /** Draining moves every waiting message, in order, into the cached result; no
      later call finds any in the channel. */
  lemma CheckDrains(h: Handler)
    requires Valid(h)
    ensures var (h', closed) := Check(h);
      && Valid(h')
      && (closed.Some? <==> h.task.Some?)
      && (closed.Some? ==> h'.cached == closed && h'.channel == [] && closed.value != Unknown)
      && (closed.Some? ==> Names(closed.value, h.task))
      && (closed.Some? && h.cached.None? ==> Messages(closed.value) == h.channel)
      && (closed.None? ==> h' == h)
  {
  }

  /** In the window between the two steps of the end: exactly there a read panics when
      the channel is empty, `close` answers Unknown whatever waits in the channel, and a
      write is refused without the end being told. */
  lemma WindowExactly(h: Handler)
    requires Valid(h)
    ensures var window := h.dropped && h.task.None?;
      && (Read(h).1 == Panicked <==> window && h.channel == [])
      && (BeginClose(h).1 == CloseUnknown <==> window)
      && (Write(h).1 == Some(Unknown) <==> window)
      && (Write(h).1 == None <==> !h.dropped)
      && (BeginClose(h).1 == AwaitTask <==> !h.dropped)
      && (h.dropped ==> (LoseStatus(h).1 == Panicked <==> window))
      && (window ==> Write(h).0 == BeginClose(h).0 == h)
  {
  }

  /** A caller that reads on after a failed write gets the drained messages with
      every further read: exactly-once forwarding is up to the caller. */
  lemma ReadAfterFailedWriteRepeats(h: Handler)
    requires Valid(h) && h.cached.None? && h.task.Some?
    ensures var (w, failure) := Write(h);
      var (r1, first) := Read(w);
      var (r2, second) := Read(r1);
      && failure.Some?
      && first.ReadClosed? && second == first && Messages(first.closed) == h.channel
  {
  }

  class ConnHandler {
    var channel: seq<Message>        // packet_response_rx
    var dropped: bool                // its other end, and that of request_tx, is gone
    var task: Option<TaskResult>     // TaskState::Running(handle): the handle's result
    var cached: Option<Closed>       // TaskState::Finished

    function Value(): Handler
      reads this
    {
      Handler(channel, dropped, task, cached)
    }

    constructor ()
      ensures Value() == FRESH
    {
      channel, dropped, task, cached := [], false, None, None;
    }

    /** The loop over `try_recv`. */
    method DrainChannel() returns (messages: seq<Message>)
      modifies this`channel
      ensures messages == old(channel) && channel == []
    {
      messages := [];
      while channel != []
        invariant messages + channel == old(channel)
        decreases |channel|
      {
        messages := messages + [channel[0]];
        channel := channel[1..];
      }
    }

    method CheckTaskState() returns (closed: Option<Closed>)
      modifies this`channel, this`cached
      ensures (Value(), closed) == Check(old(Value()))
    {
      if cached.Some? {
        return cached;
      }
      if task.None? {
        return None;
      }
      var messages := DrainChannel();
      closed := Some(ClosedBy(task.value, messages));
      cached := closed;
    }

    method ReadMessage() returns (result: ReadResult)
      modifies this`channel, this`cached
      ensures (Value(), result) == Read(old(Value()))
      ensures result == Blocked <==> old(channel) == [] && !dropped
    {
      if channel != [] {
        var message := channel[0];
        channel := channel[1..];
        return Data(message);
      }
      if !dropped {
        return Blocked;
      }
      var closed := CheckTaskState();
      return if closed.Some? then ReadClosed(closed.value) else Panicked;
    }

    method WriteMessage() returns (failure: Option<Closed>)
      modifies this`channel, this`cached
      ensures (Value(), failure) == Write(old(Value()))
    {
      failure := CheckTaskState();
      if failure.None? && dropped {
        failure := Some(Unknown);
      }
    }

    /** `get_status` when the connection is gone without an answer. */
    method StatusLost() returns (result: ReadResult)
      requires dropped
      modifies this`channel, this`cached
      ensures (Value(), result) == LoseStatus(old(Value()))
    {
      var closed := CheckTaskState();
      return if closed.Some? then ReadClosed(closed.value) else Panicked;
    }

    method BeginClosing() returns (start: CloseStart)
      modifies this`channel, this`cached
      ensures (Value(), start) == BeginClose(old(Value()))
    {
      var closed := CheckTaskState();
      match closed {
        case Some(Normal(m)) => start := Remaining(m);
        case Some(Error(m)) => start := Remaining(m);
        case Some(Unknown) => start := CloseUnknown;
        case None => start := if dropped then CloseUnknown else AwaitTask;
      }
    }

    method EndClosing() returns (messages: seq<Message>)
      requires task.Some?
      modifies this`channel, this`cached
      ensures (Value(), messages) == EndClose(old(Value()))
    {
      messages := DrainChannel();
      cached := Some(ClosedBy(task.value, messages));
    }
  }
}
