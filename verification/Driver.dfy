/** The kernel side of one device: a 4096-byte kfifo, the ordered list of chunks
    that did not fit, and the hysteresis flag that tells the daemon to pause. */
module Driver {
  import opened Basics

  const FIFO_SIZE: nat := 4096
  const FIFO_HIGH_WATERMARK: nat := FIFO_SIZE * 80 / 100
  const FIFO_LOW_WATERMARK: nat := FIFO_SIZE * 20 / 100
  const FIFO_PENDING_LIMIT: nat := FIFO_SIZE * 256

  /** Netlink messages from the driver to the daemon about flow control. */
  datatype Notification = KfifoFull | KfifoAvailable

  datatype Buffers = Buffers(fifo: seq<byte>, chunks: seq<seq<byte>>, pendingBytes: int, kfifoPaused: bool) {

    function Avail(): int {
      FIFO_SIZE - |fifo|
    }

    /** The one queue that the two levels stand for. */
    function Contents(): seq<byte> {
      fifo + Flatten(chunks)
    }

    /** What holds whatever payload sizes arrive: the byte counter is exact, the
        overflow list respects its limit, and its head really does not fit. */
    ghost predicate Valid() {
      && |fifo| <= FIFO_SIZE
      && pendingBytes == |Flatten(chunks)| <= FIFO_PENDING_LIMIT
      && (forall i :: 0 <= i < |chunks| ==> 1 <= |chunks[i]| <= FIFO_SIZE)
      && (chunks != [] ==> Avail() < |chunks[0]|)
    }

    /** What holds in addition when every payload is at most one fifth of the fifo. */
    ghost predicate Hysteresis() {
      && (forall i :: 0 <= i < |chunks| ==> |chunks[i]| <= FIFO_LOW_WATERMARK)
      && (!kfifoPaused ==> chunks == [] && |fifo| < FIFO_HIGH_WATERMARK)
      && (kfifoPaused ==> |fifo| >= FIFO_LOW_WATERMARK)
    }
  }

  const EMPTY: Buffers := Buffers([], [], 0, false)

  /** The overflow list takes a payload unless it is oversized or the list is full. */
  predicate Queueable(b: Buffers, len: nat) {
    len <= FIFO_SIZE && b.pendingBytes + len <= FIFO_PENDING_LIMIT
  }

  function Enqueue(b: Buffers, data: seq<byte>): Buffers {
    b.(chunks := b.chunks + [data], pendingBytes := b.pendingBytes + |data|)
  }

  function Drain(b: Buffers): Buffers
    decreases |b.chunks|
  {
    if b.chunks == [] || b.Avail() < |b.chunks[0]| then b
    else Drain(DrainOne(b))
  }

  function DrainOne(b: Buffers): Buffers
    requires b.chunks != []
  {
    Buffers(b.fifo + b.chunks[0], b.chunks[1..], b.pendingBytes - |b.chunks[0]|, b.kfifoPaused)
  }

  datatype DataOutcome =
    DataOutcome(buffers: Buffers, wakeReader: bool, note: Option<Notification>, dropped: bool)

  /** The NCD_MSG_DATA handler as a function of the buffers. */
  function OnData(b: Buffers, payload: seq<byte>): DataOutcome {
    if payload == [] then
      DataOutcome(b, false, None, false)
    else if b.chunks != [] || b.Avail() < |payload| then
      var queued := Queueable(b, |payload|);
      var b' := if queued then Enqueue(b, payload) else b;
      DataOutcome(b'.(kfifoPaused := true), false,
                  if b.kfifoPaused then None else Some(KfifoFull), !queued)
    else
      var b' := b.(fifo := b.fifo + payload);
      var pause := |b'.fifo| >= FIFO_HIGH_WATERMARK && !b.kfifoPaused;
      DataOutcome(if pause then b'.(kfifoPaused := true) else b', true,
                  if pause then Some(KfifoFull) else None, false)
  }

  datatype ReadOutcome = ReadOutcome(buffers: Buffers, data: Option<seq<byte>>, note: Option<Notification>)

  /** One pass of `ncd_read`: data is None when the fifo is empty and the caller
      goes to sleep, after announcing that the fifo is available. */
  function OnRead(b: Buffers, count: nat): ReadOutcome {
    if b.fifo == [] then
      ReadOutcome(b, None, Some(KfifoAvailable))
    else
      var n := Min(Min(count, FIFO_SIZE), |b.fifo|);
      var b' := Drain(b.(fifo := b.fifo[n..]));
      var resume := b'.chunks == [] && |b'.fifo| < FIFO_LOW_WATERMARK;
      ReadOutcome(if resume then b'.(kfifoPaused := false) else b', Some(b.fifo[..n]),
                  if resume then Some(KfifoAvailable) else None)
  }

  // ---------------------------------------------------------------------------
  // The two levels behave as one FIFO queue.

  /** Draining moves bytes between the levels, in order, and stops only when the
      overflow list is empty or its head does not fit. */
  lemma {:induction false} DrainKeepsContents(b: Buffers)
    requires |b.fifo| <= FIFO_SIZE
    requires b.pendingBytes == |Flatten(b.chunks)|
    ensures var d := Drain(b);
      && d.Contents() == b.Contents()
      && |b.fifo| <= |d.fifo| <= FIFO_SIZE
      && d.pendingBytes == |Flatten(d.chunks)| <= b.pendingBytes
      && d.kfifoPaused == b.kfifoPaused
      && (d.chunks != [] ==> d.Avail() < |d.chunks[0]|)
      && |d.chunks| <= |b.chunks|
      && d.chunks == b.chunks[|b.chunks| - |d.chunks|..]
    decreases |b.chunks|
  {
    if b.chunks != [] && b.Avail() >= |b.chunks[0]| {
      var n := DrainOne(b);
      assert b.Contents() == b.fifo + (b.chunks[0] + Flatten(b.chunks[1..]));
      assert n.Contents() == b.Contents();
      DrainKeepsContents(n);
    }
  }

  /** A payload goes, whole, to the back of the queue; it is refused, and the
      bytes already held are untouched, exactly when it cannot go straight into
      the fifo and the overflow list will not take it either. */
  lemma DataAppends(b: Buffers, payload: seq<byte>)
    requires b.Valid()
    ensures var o := OnData(b, payload);
      && o.buffers.Valid()
      && o.buffers.Contents() == (if o.dropped then b.Contents() else b.Contents() + payload)
      && (o.dropped <==> |payload| > FIFO_SIZE
                         || (|b.Contents()| + |payload| > |b.fifo| + FIFO_PENDING_LIMIT && (b.chunks != [] || b.Avail() < |payload|)))
      && (o.wakeReader <==> payload != [] && o.buffers.fifo != b.fifo)
      && (o.wakeReader ==> o.buffers.fifo == b.fifo + payload)
  {
    var o := OnData(b, payload);
    if payload != [] && (b.chunks != [] || b.Avail() < |payload|) && Queueable(b, |payload|) {
      FlattenSnoc(b.chunks, payload);
      assert b.fifo + (Flatten(b.chunks) + payload) == b.Contents() + payload;
    } else if payload != [] && !o.dropped && o.wakeReader {
      assert |o.buffers.fifo| == |b.fifo| + |payload|;
      assert b.fifo + payload + Flatten([]) == b.Contents() + payload;
    }
  }

  /** A read takes bytes from the front of the queue: it returns nothing only when
      the whole queue is empty, and otherwise min(count, fifo) bytes. */
  lemma ReadRemoves(b: Buffers, count: nat)
    requires b.Valid()
    ensures var o := OnRead(b, count);
      && o.buffers.Valid()
      && (o.data == None <==> b.Contents() == [])
      && (o.data == None ==> o.buffers == b)
      && (o.data.Some? ==>
            && o.data.value + o.buffers.Contents() == b.Contents()
            && |o.data.value| == Min(Min(count, FIFO_SIZE), |b.fifo|))
  {
    if b.fifo == [] {
      EmptyFifoEmptyQueue(b);
    } else {
      var n := Min(Min(count, FIFO_SIZE), |b.fifo|);
      FrontOfContents(b, n);
      DrainedValid(b, b.(fifo := b.fifo[n..]));
    }
  }

  lemma FrontOfContents(b: Buffers, n: nat)
    requires n <= |b.fifo|
    ensures b.fifo[..n] + b.(fifo := b.fifo[n..]).Contents() == b.Contents()
  {
    assert b.fifo[..n] + b.fifo[n..] == b.fifo;
  }

  lemma DrainedValid(b: Buffers, rest: Buffers)
    requires b.Valid()
    requires rest == b.(fifo := rest.fifo) && |rest.fifo| <= |b.fifo|
    ensures Drain(rest).Valid() && Drain(rest).Contents() == rest.Contents()
  {
    DrainKeepsContents(rest);
    var d := Drain(rest);
    var k := |b.chunks| - |d.chunks|;
    forall i | 0 <= i < |d.chunks|
      ensures 1 <= |d.chunks[i]| <= FIFO_SIZE
    {
      assert d.chunks[i] == b.chunks[k + i];
    }
  }

  /** The reader may sleep on the fifo alone: an empty fifo means an empty queue. */
  lemma EmptyFifoEmptyQueue(b: Buffers)
    requires b.Valid() && b.fifo == []
    ensures b.chunks == [] && b.Contents() == [] && b.pendingBytes == 0
  {
  }

  /** Data always leaves something to read, and a reader asleep on an empty fifo is
      always woken: the branch that skips the wakeup never runs for it. */
  lemma DataWakes(b: Buffers, payload: seq<byte>)
    requires b.Valid() && 1 <= |payload| <= FIFO_SIZE
    ensures var o := OnData(b, payload);
      && o.buffers.fifo != []
      && (b.fifo == [] ==> o.wakeReader && !o.dropped)
  {
    if b.fifo == [] {
      EmptyFifoEmptyQueue(b);
      assert OnData(b, payload).buffers.fifo == [] + payload;
    }
  }

  // ---------------------------------------------------------------------------
  // Hysteresis: the flag changes exactly at the notifications.

  /** With payloads of at most 819 bytes the pause flag always separates the two
      regimes; KFIFO_FULL is sent exactly when the flag goes up, and nothing ever
      lowers it here. */
  lemma DataHysteresis(b: Buffers, payload: seq<byte>)
    requires b.Valid() && b.Hysteresis() && |payload| <= FIFO_LOW_WATERMARK
    ensures var o := OnData(b, payload);
      && o.buffers.Hysteresis()
      && (b.kfifoPaused ==> o.buffers.kfifoPaused)
      && (o.note == Some(KfifoFull) <==> !b.kfifoPaused && o.buffers.kfifoPaused)
      && (o.note.Some? ==> o.note.value == KfifoFull)
      && (o.dropped ==> b.pendingBytes + |payload| > FIFO_PENDING_LIMIT)
      && (o.buffers.chunks != b.chunks || o.dropped ==> |b.fifo| + FIFO_LOW_WATERMARK > FIFO_SIZE)
  {
    assert b.chunks != [] ==> |b.chunks[0]| <= FIFO_LOW_WATERMARK;
  }

  /** The threshold, for payloads of any size: KFIFO_FULL goes out, and the flag goes up,
      exactly when a payload has to be queued or refused, or leaves at least 3276 bytes
      in the fifo; a device that is paused already sends nothing. */
  lemma FullExactly(b: Buffers, payload: seq<byte>)
    requires b.Valid()
    ensures var o := OnData(b, payload);
      var full := payload != [] && (b.chunks != [] || |b.fifo| + |payload| > 4096 || |b.fifo| + |payload| >= 3276);
      && (o.note == Some(KfifoFull) <==> !b.kfifoPaused && full)
      && (o.note == None <==> b.kfifoPaused || !full)
      && (o.buffers.kfifoPaused <==> b.kfifoPaused || full)
  {
  }

  /** A read announces KFIFO_AVAILABLE exactly when it leaves fewer than 819 bytes
      in the whole device or finds nothing at all; in both cases the flag is down
      afterwards, and it never goes up. */
  lemma ReadHysteresis(b: Buffers, count: nat)
    requires b.Valid() && b.Hysteresis()
    ensures var o := OnRead(b, count);
      && o.buffers.Hysteresis()
      && (o.note == Some(KfifoAvailable) <==> |o.buffers.Contents()| < FIFO_LOW_WATERMARK)
      && (o.note.Some? ==> o.note.value == KfifoAvailable && !o.buffers.kfifoPaused)
      && (o.note == None ==> o.buffers.kfifoPaused == b.kfifoPaused)
  {
    if b.fifo == [] {
      EmptyFifoEmptyQueue(b);
    } else {
      var n := Min(Min(count, FIFO_SIZE), |b.fifo|);
      DrainedHysteresis(b, b.(fifo := b.fifo[n..]));
    }
  }

  lemma DrainedHysteresis(b: Buffers, rest: Buffers)
    requires b.Valid() && b.Hysteresis()
    requires rest == b.(fifo := rest.fifo) && |rest.fifo| <= |b.fifo|
    ensures var d := Drain(rest);
      && (forall i :: 0 <= i < |d.chunks| ==> |d.chunks[i]| <= FIFO_LOW_WATERMARK)
      && (d.chunks != [] ==> b.kfifoPaused && |d.fifo| + FIFO_LOW_WATERMARK > FIFO_SIZE)
      && (d.chunks == [] ==> d.Contents() == d.fifo)
      && (!b.kfifoPaused ==> d == rest)
      && d.kfifoPaused == b.kfifoPaused
  {
    DrainKeepsContents(rest);
    var d := Drain(rest);
    var k := |b.chunks| - |d.chunks|;
    forall i | 0 <= i < |d.chunks|
      ensures |d.chunks[i]| <= FIFO_LOW_WATERMARK
    {
      assert d.chunks[i] == b.chunks[k + i];
    }
  }

  // ---------------------------------------------------------------------------
  // The driver's own code, on a device that is updated in place.

  class NcdDevice {
    var fifo: seq<byte>
    var pendingChunks: seq<seq<byte>>
    var pendingBytes: int
    var kfifoPaused: bool

    function Value(): Buffers
      reads this
    {
      Buffers(fifo, pendingChunks, pendingBytes, kfifoPaused)
    }

    constructor ()
      ensures Value() == EMPTY && Value().Valid() && Value().Hysteresis()
    {
      fifo, pendingChunks, pendingBytes, kfifoPaused := [], [], 0, false;
    }

    /** The library's `kfifo_in`: copies what fits. */
    method KfifoIn(data: seq<byte>) returns (copied: nat)
      requires |fifo| <= FIFO_SIZE
      modifies this`fifo
      ensures copied == Min(FIFO_SIZE - |old(fifo)|, |data|)
      ensures fifo == old(fifo) + data[..copied]
    {
      copied := Min(FIFO_SIZE - |fifo|, |data|);
      fifo := fifo + data[..copied];
    }

    /** The library's `kfifo_out`: takes from the front. */
    method KfifoOut(want: nat) returns (data: seq<byte>)
      modifies this`fifo
      ensures |data| == Min(want, |old(fifo)|)
      ensures data + fifo == old(fifo)
    {
      var n := Min(want, |fifo|);
      data := fifo[..n];
      fifo := fifo[n..];
    }

    method QueuePendingLocked(data: seq<byte>) returns (queued: bool)
      modifies this`pendingChunks, this`pendingBytes
      ensures queued == (data == [] || Queueable(old(Value()), |data|))
      ensures Value() == if queued && data != [] then Enqueue(old(Value()), data) else old(Value())
    {
      if |data| == 0 {
        return true;
      }
      if |data| > FIFO_SIZE {
        return false;
      }
      if pendingBytes > FIFO_PENDING_LIMIT - |data| {
        return false;
      }
      pendingChunks := pendingChunks + [data];
      pendingBytes := pendingBytes + |data|;
      return true;
    }

    method DrainPendingLocked() returns (total: nat)
      requires |fifo| <= FIFO_SIZE && pendingBytes == |Flatten(pendingChunks)|
      modifies this
      ensures Value() == Drain(old(Value()))
      ensures |fifo| == |old(fifo)| + total
    {
      total := 0;
      while pendingChunks != []
        invariant |fifo| <= FIFO_SIZE && pendingBytes == |Flatten(pendingChunks)|
        invariant Drain(Value()) == Drain(old(Value()))
        invariant |fifo| == |old(fifo)| + total
        decreases |pendingChunks|
      {
        var chunk := pendingChunks[0];
        if FIFO_SIZE - |fifo| < |chunk| {
          break;
        }
        ghost var before := Value();
        var copied := KfifoIn(chunk);
        pendingChunks := pendingChunks[1..];
        pendingBytes := pendingBytes - |chunk|;
        total := total + copied;
        assert Value() == DrainOne(before);
      }
    }

    /** The NCD_MSG_DATA case of `recv_from_daemon`. */
    method RecvData(payload: seq<byte>) returns (wakeReader: bool, note: Option<Notification>, dropped: bool)
      requires Value().Valid()
      modifies this
      ensures OnData(old(Value()), payload) == DataOutcome(Value(), wakeReader, note, dropped)
      ensures Value().Valid()
      ensures Value().Contents() == old(Value().Contents()) + if dropped then [] else payload
    {
      ghost var before := Value();
      DataAppends(before, payload);
      wakeReader, note, dropped := false, None, false;
      if |payload| == 0 {
        return;
      }
      if pendingChunks != [] || FIFO_SIZE - |fifo| < |payload| {
        var queued := QueuePendingLocked(payload);
        if !queued {
          dropped := true;
        }
        if !kfifoPaused {
          kfifoPaused := true;
          note := Some(KfifoFull);
        }
      } else {
        var copied := KfifoIn(payload);
        var used := |fifo|;
        wakeReader := copied > 0;
        if used >= FIFO_HIGH_WATERMARK && !kfifoPaused {
          kfifoPaused := true;
          note := Some(KfifoFull);
        }
      }
    }

    /** One pass of the loop in `ncd_read`; None means that the caller must sleep. */
    method Read(count: nat) returns (data: Option<seq<byte>>, note: Option<Notification>)
      requires Value().Valid()
      modifies this
      ensures OnRead(old(Value()), count) == ReadOutcome(Value(), data, note)
      ensures Value().Valid()
      ensures (if data.Some? then data.value else []) + Value().Contents() == old(Value().Contents())
    {
      ghost var before := Value();
      ReadRemoves(before, count);
      note := None;
      if fifo == [] {
        note := Some(KfifoAvailable);
        return None, note;
      }
      var want := Min(count, FIFO_SIZE);
      var copied := KfifoOut(want);
      assert copied == before.fifo[..|copied|] && fifo == before.fifo[|copied|..];
      var _ := DrainPendingLocked();
      var used := |fifo|;
      if pendingChunks == [] && used < FIFO_LOW_WATERMARK {
        kfifoPaused := false;
        note := Some(KfifoAvailable);
      }
      data := Some(copied);
    }
  }
}
