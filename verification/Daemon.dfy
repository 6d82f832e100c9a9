/** The daemon side of one device: the queue of shards waiting for the kernel, the
    credit window that limits what is sent between two KFIFO_AVAILABLE messages,
    and the commands that pause or resume reading from TCP. */
module Daemon {
  import opened Basics
  import opened Driver

  const SHARD_SIZE: nat := FIFO_LOW_WATERMARK

  /** The largest value of `inflight`: a shard may be sent while 3276 are in flight. */
  const WINDOW: nat := FIFO_HIGH_WATERMARK + SHARD_SIZE

  /** The entries of `pending`, `inflight`, `paused` and `read_paused` for one minor. */
  datatype Slot = Slot(pending: seq<seq<byte>>, inflight: nat, paused: bool, readPaused: bool) {

    ghost predicate Valid() {
      && (forall i :: 0 <= i < |pending| ==> 1 <= |pending[i]| <= SHARD_SIZE)
      && inflight <= WINDOW
    }

    /** Why `flush_device` would stop here although every send succeeds. */
    predicate Stopped() {
      paused || pending == [] || inflight > FIFO_HIGH_WATERMARK
    }

    predicate ShouldPauseReading() {
      paused || pending != []
    }
  }

  const FRESH: Slot := Slot([], 0, false, false)

  function QueueShards(s: Slot, data: seq<byte>): Slot {
    s.(pending := s.pending + Chunks(data, SHARD_SIZE))
  }

  function TakeShard(s: Slot): Slot
    requires s.pending != []
  {
    s.(pending := s.pending[1..], inflight := s.inflight + |s.pending[0]|)
  }

  datatype FlushOutcome =
    FlushOutcome(slot: Slot, buffers: Buffers, sent: nat, notes: seq<Notification>, dropped: bool)

  /** `flush_device` against a driver in state `b`, when `goodSends` sends succeed
      before one fails (None: they all succeed). */
  function Flush(s: Slot, b: Buffers, goodSends: Option<nat>): FlushOutcome
    decreases |s.pending|
  {
    if s.Stopped() || goodSends == Some(0) then
      FlushOutcome(s, b, 0, [], false)
    else
      var o := OnData(b, s.pending[0]);
      After(1, NoteSeq(o.note), o.dropped, Flush(TakeShard(s), o.buffers, Fewer(goodSends)))
  }

  /** The outcome of a flush whose first part is already accounted for. */
  function After(sent: nat, notes: seq<Notification>, dropped: bool, more: FlushOutcome): FlushOutcome {
    FlushOutcome(more.slot, more.buffers, sent + more.sent, notes + more.notes, dropped || more.dropped)
  }

  lemma AfterOneMore(sent: nat, notes: seq<Notification>, dropped: bool, note: Option<Notification>, lost: bool, more: FlushOutcome)
    ensures After(sent, notes, dropped, After(1, NoteSeq(note), lost, more))
         == After(sent + 1, notes + NoteSeq(note), dropped || lost, more)
  {
    assert notes + (NoteSeq(note) + more.notes) == notes + NoteSeq(note) + more.notes;
  }

  function Fewer(sends: Option<nat>): Option<nat> {
    match sends
    case Some(n) => Some(if n == 0 then 0 else n - 1)
    case None => None
  }

  function NoteSeq(n: Option<Notification>): seq<Notification> {
    if n.Some? then [n.value] else []
  }

  lemma FlushStep(s: Slot, b: Buffers, goodSends: Option<nat>)
    requires !s.Stopped() && goodSends != Some(0)
    ensures var o := OnData(b, s.pending[0]);
      Flush(s, b, goodSends) == After(1, NoteSeq(o.note), o.dropped, Flush(TakeShard(s), o.buffers, Fewer(goodSends)))
  {
  }

  lemma FlushStop(s: Slot, b: Buffers, goodSends: Option<nat>)
    requires s.Stopped() || goodSends == Some(0)
    ensures forall sent, notes, dropped {:trigger After(sent, notes, dropped, Flush(s, b, goodSends))} ::
      After(sent, notes, dropped, Flush(s, b, goodSends)) == FlushOutcome(s, b, sent, notes, dropped)
  {
  }

  // ---------------------------------------------------------------------------
  // The credit window.

  /** Sharding keeps the bytes and the bound on every shard, whatever the message. */
  lemma QueueShardsKeeps(s: Slot, data: seq<byte>)
    ensures Flatten(QueueShards(s, data).pending) == Flatten(s.pending) + data
    ensures s.Valid() ==> QueueShards(s, data).Valid()
    ensures |QueueShards(s, data).pending| == |s.pending| + (|data| + SHARD_SIZE - 1) / SHARD_SIZE
  {
    ChunksPartition(data, SHARD_SIZE);
    ChunksCount(data, SHARD_SIZE);
    FlattenConcat(s.pending, Chunks(data, SHARD_SIZE));
  }

  /** Flushing sends a prefix of the queue, in order and whole shards only, and
      counts it in `inflight` without leaving the window. If no send fails, it
      stops only when paused, empty or above the high watermark. */
  lemma {:induction false} FlushSendsPrefix(s: Slot, b: Buffers, goodSends: Option<nat>)
    requires s.Valid()
    ensures var o := Flush(s, b, goodSends);
      && o.slot.Valid()
      && o.sent <= |s.pending|
      && o.slot == Slot(s.pending[o.sent..], s.inflight + |Flatten(s.pending[..o.sent])|, s.paused, s.readPaused)
      && (o.slot.Stopped() || goodSends == Some(o.sent))
      && s.inflight <= o.slot.inflight <= WINDOW < FIFO_SIZE
    decreases |s.pending|
  {
    if !(s.Stopped() || goodSends == Some(0)) {
      var t := TakeShard(s);
      var left := Fewer(goodSends);
      var buffers := OnData(b, s.pending[0]).buffers;
      TakeShardValid(s);
      FlushSendsPrefix(t, buffers, left);
      PrefixPeel(s.pending, Flush(t, buffers, left).sent);
    }
  }

  /** Each shard goes out only while not paused and with at most 3276 bytes in flight,
      and the flush does not stop before it has to. */
  lemma {:induction false} FlushStopsExactly(s: Slot, b: Buffers, goodSends: Option<nat>)
    requires s.Valid()
    ensures var o := Flush(s, b, goodSends);
      && o.sent <= |s.pending|
      && (o.sent > 0 ==> !s.paused)
      && (forall i :: 0 <= i < o.sent ==> s.inflight + |Flatten(s.pending[..i])| <= 3276)
      && (s.paused || o.sent == |s.pending| || s.inflight + |Flatten(s.pending[..o.sent])| > 3276 || goodSends == Some(o.sent))
      && (goodSends.Some? ==> o.sent <= goodSends.value)
    decreases |s.pending|
  {
    assert s.pending[..0] == [];
    if !(s.Stopped() || goodSends == Some(0)) {
      var t := TakeShard(s);
      var buffers := OnData(b, s.pending[0]).buffers;
      TakeShardValid(s);
      FlushStopsExactly(t, buffers, Fewer(goodSends));
      var more := Flush(t, buffers, Fewer(goodSends)).sent;
      forall i | 0 <= i <= more
        ensures s.inflight + |Flatten(s.pending[..i + 1])| == t.inflight + |Flatten(t.pending[..i])|
      {
        PrefixPeelLength(s.pending, i);
      }
      forall i | 0 <= i < more + 1
        ensures s.inflight + |Flatten(s.pending[..i])| <= 3276
      {
        if i > 0 {
          assert s.inflight + |Flatten(s.pending[..i - 1 + 1])| == t.inflight + |Flatten(t.pending[..i - 1])|;
        }
      }
    }
  }

  lemma PrefixPeelLength(ss: seq<seq<byte>>, n: nat)
    requires n < |ss|
    ensures |Flatten(ss[..n + 1])| == |ss[0]| + |Flatten(ss[1..][..n])|
  {
    PrefixPeel(ss, n);
  }

  lemma TakeShardValid(s: Slot)
    requires s.Valid() && !s.Stopped()
    ensures TakeShard(s).Valid()
  {
    assert forall i :: 0 <= i < |s.pending| - 1 ==> s.pending[1..][i] == s.pending[i + 1];
  }

  lemma PrefixPeel(ss: seq<seq<byte>>, n: nat)
    requires n < |ss|
    ensures Flatten(ss[..n + 1]) == ss[0] + Flatten(ss[1..][..n])
    ensures ss[1..][n..] == ss[n + 1..]
  {
    assert ss[..n + 1][1..] == ss[1..][..n];
  }

  /** The driver ends up holding exactly the bytes that were sent behind what it
      held before, unless it had to drop a shard. */
  lemma {:induction false} FlushDelivers(s: Slot, b: Buffers, goodSends: Option<nat>)
    requires s.Valid() && b.Valid()
    ensures var o := Flush(s, b, goodSends);
      && o.buffers.Valid()
      && o.sent <= |s.pending|
      && (!o.dropped ==> o.buffers.Contents() == b.Contents() + Flatten(s.pending[..o.sent]))
    decreases |s.pending|
  {
    if !(s.Stopped() || goodSends == Some(0)) {
      var t := TakeShard(s);
      var left := Fewer(goodSends);
      var d := OnData(b, s.pending[0]);
      DataAppends(b, s.pending[0]);
      TakeShardValid(s);
      FlushDelivers(t, d.buffers, left);
      var n := Flush(t, d.buffers, left).sent;
      PrefixPeel(s.pending, n);
      Associative(b.Contents(), s.pending[0], Flatten(t.pending[..n]));
    } else {
      assert b.Contents() + [] == b.Contents();
    }
  }

  // ---------------------------------------------------------------------------
  // The channel to the TCP actor.

  datatype WriteCommand = Data(data: seq<byte>) | PauseRead | ResumeRead | Close

  datatype DeviceOperationError = NotOpen | ConnectionLost

  class Device {
    var isOpen: bool            // write_tx is Some
    var actorAlive: bool        // the receiving end still exists
    var commands: seq<WriteCommand>

    constructor (open: bool)
      ensures isOpen == open && actorAlive == open && commands == []
    {
      isOpen, actorAlive, commands := open, open, [];
    }

    method SendCommand(command: WriteCommand) returns (r: Result<(), DeviceOperationError>)
      modifies this`commands
      ensures r == (if !isOpen then Err(NotOpen) else if actorAlive then Ok(()) else Err(ConnectionLost))
      ensures commands == old(commands) + if r.Ok? then [command] else []
    {
      if isOpen {
        if actorAlive {
          commands := commands + [command];
          return Ok(());
        }
        return Err(ConnectionLost);
      }
      return Err(NotOpen);
    }

    /** Takes the sender, so that a second close sends nothing. */
    method CloseDevice()
      modifies this
      ensures !isOpen && actorAlive == old(actorAlive)
      ensures commands == old(commands) + if old(isOpen && actorAlive) then [Close] else []
    {
      if isOpen {
        var _ := SendCommand(Close);
        isOpen := false;
      }
    }
  }

  /** The command that tells the actor about a change of the read state. */
  function Telling(before: bool, after: bool): seq<WriteCommand> {
    if before == after then [] else [if after then PauseRead else ResumeRead]
  }

  // ---------------------------------------------------------------------------
  // The main loop's own code for one device.

  class MainLoop {
    var pending: seq<seq<byte>>
    var inflight: nat
    var paused: bool
    var readPaused: bool
    const device: Device
    const kernel: NcdDevice

    function Value(): Slot
      reads this
    {
      Slot(pending, inflight, paused, readPaused)
    }

    ghost predicate Valid()
      reads this, kernel
    {
      Value().Valid() && kernel.Value().Valid()
    }

    /** The actor has been told the latest decision. */
    predicate InSync()
      reads this
    {
      readPaused == (paused || pending != [])
    }

    constructor (device: Device, kernel: NcdDevice)
      ensures Value() == FRESH && this.device == device && this.kernel == kernel
    {
      pending, inflight, paused, readPaused := [], 0, false, false;
      this.device, this.kernel := device, kernel;
    }

    /** The loop `for chunk in data.chunks(SHARD_SIZE)`. */
    method QueueShardsOf(data: seq<byte>)
      modifies this`pending
      ensures Value() == QueueShards(old(Value()), data)
    {
      var rest := data;
      while rest != []
        invariant QueueShards(Value(), rest) == QueueShards(old(Value()), data)
        decreases |rest|
      {
        ghost var before := pending;
        ghost var left := rest;
        var n := Min(SHARD_SIZE, |rest|);
        pending := pending + [rest[..n]];
        rest := rest[n..];
        if |left| <= SHARD_SIZE {
          assert left[..n] == left;
          assert pending + Chunks(rest, SHARD_SIZE) == before + Chunks(left, SHARD_SIZE);
        } else {
          assert pending + Chunks(rest, SHARD_SIZE) == before + Chunks(left, SHARD_SIZE);
        }
      }
      assert pending + Chunks(rest, SHARD_SIZE) == pending;
    }

    /** The body of the flush loop: pop, send, and on failure push back. */
    method SendFront(succeeds: bool) returns (note: Option<Notification>, lost: bool)
      requires Valid() && !Value().Stopped()
      modifies this`pending, this`inflight, kernel
      ensures Valid()
      ensures succeeds ==>
        && Value() == TakeShard(old(Value()))
        && var o := OnData(old(kernel.Value()), old(pending)[0]);
           kernel.Value() == o.buffers && note == o.note && lost == o.dropped
      ensures !succeeds ==> Value() == old(Value()) && kernel.Value() == old(kernel.Value())
    {
      TakeShardValid(Value());
      note, lost := None, false;
      ghost var queue := pending;
      var chunk := pending[0];
      pending := pending[1..];
      if succeeds {
        var wake;
        wake, note, lost := kernel.RecvData(chunk);
        inflight := inflight + |chunk|;
      } else {
        pending := [chunk] + pending;
        assert pending == queue;
      }
    }

    /** `flush_device`; a failing send stops the loop and keeps its shard. */
    method FlushDevice(goodSends: Option<nat>) returns (notes: seq<Notification>, dropped: bool, ghost sent: nat)
      requires Valid()
      modifies this`pending, this`inflight, kernel
      ensures Valid()
      ensures Flush(old(Value()), old(kernel.Value()), goodSends)
           == FlushOutcome(Value(), kernel.Value(), sent, notes, dropped)
      ensures sent <= |old(pending)| && pending == old(pending)[sent..]
      ensures inflight == old(inflight) + |Flatten(old(pending)[..sent])| <= WINDOW
      ensures Value().Stopped() || goodSends == Some(sent)
    {
      FlushSendsPrefix(Value(), kernel.Value(), goodSends);
      ghost var whole := Flush(Value(), kernel.Value(), goodSends);
      notes, dropped, sent := [], false, 0;
      if paused {
        return;
      }
      var left := goodSends;
      assert whole == After(0, [], false, whole);
      while pending != []
        invariant Valid() && !paused
        invariant whole == After(sent, notes, dropped, Flush(Value(), kernel.Value(), left))
        decreases |pending|
      {
        if inflight > FIFO_HIGH_WATERMARK {
          break;
        }
        ghost var before, kernelBefore := Value(), kernel.Value();
        var note, lost;
        note, lost := SendFront(left != Some(0));
        if left == Some(0) {
          break;
        }
        FlushStep(before, kernelBefore, left);
        AfterOneMore(sent, notes, dropped, note, lost, Flush(Value(), kernel.Value(), Fewer(left)));
        left := Fewer(left);
        notes, dropped, sent := notes + NoteSeq(note), dropped || lost, sent + 1;
      }
      FlushStop(Value(), kernel.Value(), left);
    }

    /** `sync_device_reading`: the flag follows the command only if it was accepted. */
    method SyncDeviceReading(kfifoPaused: bool)
      modifies this`readPaused, device`commands
      ensures readPaused == if device.isOpen && device.actorAlive then kfifoPaused || pending != [] else old(readPaused)
      ensures device.commands == old(device.commands) + Telling(old(readPaused), readPaused)
      ensures !old(readPaused) && readPaused ==> device.commands == old(device.commands) + [PauseRead]
      ensures old(readPaused) && !readPaused ==> device.commands == old(device.commands) + [ResumeRead]
    {
      var shouldPause := kfifoPaused || pending != [];
      if readPaused == shouldPause {
        return;
      }
      var result: Result<(), DeviceOperationError>;
      if shouldPause {
        result := device.SendCommand(PauseRead);
      } else {
        result := device.SendCommand(ResumeRead);
      }
      if result.Ok? {
        readPaused := shouldPause;
      }
    }

    method OnKfifoFull()
      modifies this`paused, this`readPaused, device`commands
      ensures paused
      ensures if device.isOpen && device.actorAlive then InSync() else readPaused == old(readPaused)
      ensures device.commands == old(device.commands) + Telling(old(readPaused), readPaused)
    {
      paused := true;
      SyncDeviceReading(true);
    }

    method OnKfifoAvailable(goodSends: Option<nat>) returns (notes: seq<Notification>, dropped: bool)
      requires Valid()
      modifies this, kernel, device`commands
      ensures Valid() && !paused
      ensures var o := Flush(old(Value()).(paused := false, inflight := 0), old(kernel.Value()), goodSends);
        && Value() == o.slot.(readPaused := readPaused)
        && kernel.Value() == o.buffers && notes == o.notes && dropped == o.dropped
      ensures if device.isOpen && device.actorAlive then InSync() else readPaused == old(readPaused)
      ensures device.commands == old(device.commands) + Telling(old(readPaused), readPaused)
    {
      paused := false;
      inflight := 0;
      ghost var sent;
      notes, dropped, sent := FlushDevice(goodSends);
      SyncDeviceReading(false);
    }

    method OnTcpData(data: seq<byte>, goodSends: Option<nat>) returns (notes: seq<Notification>, dropped: bool)
      requires Valid()
      modifies this, kernel, device`commands
      ensures Valid() && paused == old(paused)
      ensures var o := Flush(QueueShards(old(Value()), data), old(kernel.Value()), goodSends);
        && Value() == o.slot.(readPaused := readPaused)
        && kernel.Value() == o.buffers && notes == o.notes && dropped == o.dropped
      ensures if device.isOpen && device.actorAlive then InSync() else readPaused == old(readPaused)
      ensures device.commands == old(device.commands) + Telling(old(readPaused), readPaused)
    {
      QueueShardsKeeps(Value(), data);
      QueueShardsOf(data);
      ghost var sent;
      notes, dropped, sent := FlushDevice(goodSends);
      SyncDeviceReading(paused);
    }
  }
}
