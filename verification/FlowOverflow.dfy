/** The bound of 255 outstanding KFIFO_AVAILABLE messages is exact: with 256 of
    them the driver can be made to refuse a shard. The run below uses reads of
    length zero, each of which announces space while 818 bytes stay in the fifo. */
module FlowOverflow {
  import opened Basics
  import opened Driver
  import opened Daemon
  import opened FlowSystem
  import opened FlowCredit

  ghost predicate ReachesWithin(s: Sys, k: nat) {
    exists run :: IsRun(run) && Within(run, k) && run[|run| - 1] == s
  }

  lemma Extend(s: Sys, step: Step, k: nat)
    requires ReachesWithin(s, k) && Enabled(s, step) && Outstanding(Apply(s, step)) <= k
    ensures ReachesWithin(Apply(s, step), k)
  {
    var t := Apply(s, step);
    var run :| IsRun(run) && Within(run, k) && run[|run| - 1] == s;
    var longer := run + [t];
    assert Next(s, t);
    assert longer[|longer| - 1] == t;
    assert IsRun(longer) && Within(longer, k);
  }

  function Available(n: nat): seq<Notification> {
    if n == 0 then [] else [KfifoAvailable] + Available(n - 1)
  }

  lemma {:induction false} CountOf(n: nat, rest: seq<Notification>)
    ensures CountAvailable(Available(n) + rest) == n + CountAvailable(rest)
    ensures n > 0 ==> Available(n) + rest == [KfifoAvailable] + (Available(n - 1) + rest)
  {
    if n == 0 {
      assert Available(n) + rest == rest;
    } else {
      CountOf(n - 1, rest);
      assert Available(n) + rest == [KfifoAvailable] + (Available(n - 1) + rest);
    }
  }

  lemma {:induction false} AvailableSnoc(n: nat)
    ensures Available(n) + [KfifoAvailable] == Available(n + 1)
  {
    if n > 0 {
      AvailableSnoc(n - 1);
    }
  }

  ghost predicate FullShards(ss: seq<seq<byte>>) {
    forall i :: 0 <= i < |ss| ==> |ss[i]| == SHARD_SIZE
  }

  function Zeros(n: nat): (z: seq<byte>)
    ensures |z| == n
  {
    seq(n, _ => 0)
  }

  lemma {:induction false} ManyFullShards(n: nat)
    ensures |Chunks(Zeros(819 * n), SHARD_SIZE)| == n
    ensures FullShards(Chunks(Zeros(819 * n), SHARD_SIZE))
  {
    if n > 0 {
      var z := Zeros(819 * n);
      ManyFullShards(n - 1);
      if n == 1 {
        assert Chunks(z, SHARD_SIZE) == [z];
      } else {
        assert z[SHARD_SIZE..] == Zeros(819 * (n - 1));
      }
    }
  }

  // ---------------------------------------------------------------------------
  // Filling the overflow list, one window per outstanding message.

  /** The driver is saturated: the fifo is full, `held` bytes sit in the overflow
      list, and `a` AVAILABLE messages are queued ahead of one FULL. */
  ghost predicate Saturated(s: Sys, a: nat, shards: nat, held: int) {
    && ReachesWithin(s, 256)
    && s.buffers.chunks != [] && s.buffers.kfifoPaused && s.buffers.pendingBytes == held
    && s.notes == Available(a) + [KfifoFull] && a <= 256
    && !s.slot.paused && |s.slot.pending| == shards && FullShards(s.slot.pending)
  }

  lemma OneMoreChunk(b: Buffers, shard: seq<byte>)
    requires b.chunks != [] && b.kfifoPaused && |shard| == SHARD_SIZE
    ensures var o := OnData(b, shard);
      && o.note == None && o.dropped == (b.pendingBytes + SHARD_SIZE > FIFO_PENDING_LIMIT)
      && (!o.dropped ==> o.buffers.pendingBytes == b.pendingBytes + SHARD_SIZE)
      && o.buffers.chunks != [] && o.buffers.kfifoPaused
  {
  }

  lemma SendFullShard(s: Sys, a: nat, shards: nat, held: int) returns (t: Sys)
    requires Saturated(s, a, shards, held) && s.flushing && !s.dropped
    requires shards > 0 && s.slot.inflight <= FIFO_HIGH_WATERMARK
    ensures t.dropped == (held + SHARD_SIZE > FIFO_PENDING_LIMIT)
    ensures ReachesWithin(t, 256)
    ensures !t.dropped ==> Saturated(t, a, shards - 1, held + SHARD_SIZE) && t.flushing
    ensures t.slot.inflight == s.slot.inflight + SHARD_SIZE
  {
    OneMoreChunk(s.buffers, s.slot.pending[0]);
    CountOf(a, [KfifoFull]);
    assert s.notes + [] == s.notes;
    Extend(s, FlushSends, 256);
    t := Apply(s, FlushSends);
    assert forall i :: 0 <= i < shards - 1 ==> t.slot.pending[i] == s.slot.pending[i + 1];
  }

  lemma {:induction false} SendFullShards(s: Sys, a: nat, shards: nat, held: int, n: nat) returns (t: Sys)
    requires Saturated(s, a, shards, held) && s.flushing && !s.dropped
    requires n <= shards && s.slot.inflight + 819 * n <= WINDOW
    requires held + 819 * n <= FIFO_PENDING_LIMIT
    ensures Saturated(t, a, shards - n, held + 819 * n) && t.flushing && !t.dropped
    ensures t.slot.inflight == s.slot.inflight + 819 * n
    decreases n
  {
    if n == 0 {
      t := s;
    } else {
      var next := SendFullShard(s, a, shards, held);
      t := SendFullShards(next, a, shards - 1, held + SHARD_SIZE, n - 1);
    }
  }

  /** Handling one AVAILABLE reopens the window, and five more shards go out. */
  lemma OpenWindow(s: Sys, a: nat, shards: nat, held: int) returns (t: Sys)
    requires Saturated(s, a, shards, held) && !s.flushing && !s.dropped && a > 0
    ensures Saturated(t, a - 1, shards, held) && t.flushing && !t.dropped && t.slot.inflight == 0
  {
    CountOf(a, [KfifoFull]);
    CountOf(a - 1, [KfifoFull]);
    Extend(s, MainLoopGetsNote, 256);
    t := Apply(s, MainLoopGetsNote);
  }

  lemma CloseWindow(s: Sys, a: nat, shards: nat, held: int) returns (t: Sys)
    requires Saturated(s, a, shards, held) && s.flushing && !s.dropped && s.slot.Stopped()
    ensures Saturated(t, a, shards, held) && !t.flushing && !t.dropped
  {
    CountOf(a, [KfifoFull]);
    Extend(s, FlushEnds, 256);
    t := Apply(s, FlushEnds);
  }

  lemma FillWindow(s: Sys, a: nat, shards: nat, held: int) returns (t: Sys)
    requires Saturated(s, a, shards, held) && !s.flushing && !s.dropped && a > 0
    requires shards >= 5 && held + 4095 <= FIFO_PENDING_LIMIT
    ensures Saturated(t, a - 1, shards - 5, held + 4095) && !t.flushing && !t.dropped
  {
    var open := OpenWindow(s, a, shards, held);
    var sent := SendFullShards(open, a - 1, shards, held, 5);
    t := CloseWindow(sent, a - 1, shards - 5, held + 4095);
  }

  lemma {:induction false} FillWindows(s: Sys, a: nat, shards: nat, held: int) returns (t: Sys)
    requires Saturated(s, a, shards, held) && !s.flushing && !s.dropped && a > 0
    requires shards >= 5 * a && held + 4095 * (a - 1) <= FIFO_PENDING_LIMIT
    ensures Saturated(t, 1, shards - 5 * (a - 1), held + 4095 * (a - 1)) && !t.flushing && !t.dropped
    decreases a
  {
    if a == 1 {
      t := s;
    } else {
      var next := FillWindow(s, a, shards, held);
      t := FillWindows(next, a - 1, shards - 5, held + 4095);
    }
  }

  /** The fifth shard of the last window no longer fits. */
  lemma LastWindowDrops(s: Sys, shards: nat, held: int) returns (t: Sys)
    requires Saturated(s, 1, shards, held) && !s.flushing && !s.dropped && shards >= 5
    requires held + 819 * 4 <= FIFO_PENDING_LIMIT < held + 819 * 5
    ensures ReachesWithin(t, 256) && t.dropped
  {
    var open := OpenWindow(s, 1, shards, held);
    var sent := SendFullShards(open, 0, shards, held, 4);
    CountOf(0, [KfifoFull]);
    assert sent.notes + [] == sent.notes;
    Extend(sent, FlushSends, 256);
    t := Apply(sent, FlushSends);
  }

  // ---------------------------------------------------------------------------
  // Getting there.

  /** 818 bytes rest in the fifo, the window is fresh, and nothing is queued. */
  ghost predicate Resting(s: Sys, notes: seq<Notification>, tcp: seq<seq<byte>>) {
    && ReachesWithin(s, 256)
    && |s.buffers.fifo| == FIFO_LOW_WATERMARK - 1 && s.buffers.chunks == []
    && s.buffers.pendingBytes == 0 && !s.buffers.kfifoPaused
    && s.slot == FRESH && s.notes == notes && s.tcp == tcp
    && s.reader == Ready && s.alive && !s.actorPaused && s.commands == []
    && !s.flushing && !s.dropped
  }

  lemma ReachesInit(k: nat)
    ensures ReachesWithin(INIT, k)
  {
    var run := [INIT];
    assert IsRun(run) && Within(run, k);
  }

  lemma FirstMessage() returns (s: Sys)
    ensures ReachesWithin(s, 256)
    ensures s == INIT.(buffers := Buffers(Zeros(818), [], 0, false), slot := FRESH.(inflight := 818),
                       forwarded := Zeros(818), flushing := false)
  {
    var z: seq<byte> := Zeros(818);
    ReachesInit(256);
    Extend(INIT, ActorForwards(z), 256);
    var s1 := Apply(INIT, ActorForwards(z));
    assert [] + z == z && [] + [z] == [z];
    Extend(s1, MainLoopGetsData, 256);
    var s2 := Apply(s1, MainLoopGetsData);
    assert [] + Chunks(z, SHARD_SIZE) == [z];
    Extend(s2, FlushSends, 256);
    var s3 := Apply(s2, FlushSends);
    Extend(s3, FlushEnds, 256);
    s := Apply(s3, FlushEnds);
  }

  lemma EmptyRead(s: Sys)
    requires s.reader == Ready && 0 < |s.buffers.fifo| < FIFO_LOW_WATERMARK && s.buffers.chunks == [] && !s.buffers.kfifoPaused
    ensures Apply(s, ReaderCalls(0)) == s.(notes := s.notes + [KfifoAvailable])
  {
    assert s.buffers.fifo[..0] == [];
    assert s.delivered + [] == s.delivered;
  }

  lemma RestingState(big: seq<byte>) returns (s: Sys)
    ensures Resting(s, [], [big])
  {
    var first := FirstMessage();
    EmptyRead(first);
    Extend(first, ReaderCalls(0), 256);
    var announced := Apply(first, ReaderCalls(0));
    Extend(announced, MainLoopGetsNote, 256);
    var reopened := Apply(announced, MainLoopGetsNote);
    Extend(reopened, FlushEnds, 256);
    var idle := Apply(reopened, FlushEnds);
    Extend(idle, ActorForwards(big), 256);
    s := Apply(idle, ActorForwards(big));
  }

  lemma AnnounceOnce(s: Sys, tcp: seq<seq<byte>>, done: nat) returns (t: Sys)
    requires Resting(s, Available(done), tcp) && done < 256
    ensures Resting(t, Available(done + 1), tcp)
  {
    EmptyRead(s);
    AvailableSnoc(done);
    CountOf(done + 1, []);
    assert Available(done + 1) + [] == Available(done + 1);
    Extend(s, ReaderCalls(0), 256);
    t := Apply(s, ReaderCalls(0));
  }

  lemma {:induction false} Announce(s: Sys, tcp: seq<seq<byte>>, done: nat, n: nat) returns (t: Sys)
    requires Resting(s, Available(done), tcp) && done + n <= 256
    ensures Resting(t, Available(done + n), tcp)
    decreases n
  {
    if n == 0 {
      t := s;
    } else {
      var next := AnnounceOnce(s, tcp, done);
      t := Announce(next, tcp, done + 1, n - 1);
    }
  }

  /** Before saturation: `sent` full shards of the first window are in the fifo. */
  ghost predicate Filling(s: Sys, a: nat, shards: nat, sent: nat) {
    && ReachesWithin(s, 256)
    && |s.buffers.fifo| == 818 + 819 * sent && s.buffers.chunks == [] && s.buffers.pendingBytes == 0
    && s.buffers.kfifoPaused == (sent == 4)
    && s.notes == Available(a) + (if sent == 4 then [KfifoFull] else []) && a <= 256
    && s.flushing && !s.dropped
    && !s.slot.paused && s.slot.inflight == 819 * sent
    && |s.slot.pending| == shards && FullShards(s.slot.pending)
  }

  lemma IntoFifo(b: Buffers, shard: seq<byte>, sent: nat)
    requires |b.fifo| == 818 + 819 * sent && b.chunks == [] && b.pendingBytes == 0
    requires !b.kfifoPaused && |shard| == SHARD_SIZE && sent < 4
    ensures var o := OnData(b, shard);
      && o.buffers.fifo == b.fifo + shard && o.buffers.chunks == [] && o.buffers.pendingBytes == 0
      && o.buffers.kfifoPaused == (sent == 3)
      && o.note == (if sent == 3 then Some(KfifoFull) else None) && !o.dropped
  {
    assert |b.fifo + shard| == 818 + 819 * (sent + 1);
  }

  lemma FillFifo(s: Sys, a: nat, shards: nat, sent: nat) returns (t: Sys)
    requires Filling(s, a, shards, sent) && sent < 4 && shards > 0
    ensures Filling(t, a, shards - 1, sent + 1)
  {
    CountOf(a, []);
    IntoFifo(s.buffers, s.slot.pending[0], sent);
    var note := OnData(s.buffers, s.slot.pending[0]).note;
    OutstandingSnoc(s.notes, note);
    assert s.notes == Available(a) && Available(a) + [] == Available(a);
    Extend(s, FlushSends, 256);
    t := Apply(s, FlushSends);
    assert forall i :: 0 <= i < shards - 1 ==> t.slot.pending[i] == s.slot.pending[i + 1];
  }

  /** The fifth shard of the first window is the first to overflow. */
  lemma FirstChunk(s: Sys, a: nat, shards: nat) returns (t: Sys)
    requires Filling(s, a, shards, 4) && shards > 0
    ensures Saturated(t, a, shards - 1, SHARD_SIZE) && t.flushing && !t.dropped && t.slot.Stopped()
  {
    CountOf(a, [KfifoFull]);
    assert s.notes + [] == s.notes;
    Extend(s, FlushSends, 256);
    t := Apply(s, FlushSends);
    assert forall i :: 0 <= i < shards - 1 ==> t.slot.pending[i] == s.slot.pending[i + 1];
  }

  lemma FirstWindow(s: Sys, a: nat, shards: nat) returns (t: Sys)
    requires Filling(s, a, shards, 0) && shards >= 5
    ensures Saturated(t, a, shards - 5, SHARD_SIZE) && !t.flushing && !t.dropped
  {
    var s1 := FillFifo(s, a, shards, 0);
    var s2 := FillFifo(s1, a, shards - 1, 1);
    var s3 := FillFifo(s2, a, shards - 2, 2);
    var s4 := FillFifo(s3, a, shards - 3, 3);
    var s5 := FirstChunk(s4, a, shards - 4);
    t := CloseWindow(s5, a, shards - 5, SHARD_SIZE);
  }

  lemma TakeMessage(s: Sys, a: nat, big: seq<byte>) returns (t: Sys)
    requires Resting(s, Available(a), [big]) && a <= 256
    requires FullShards(Chunks(big, SHARD_SIZE))
    ensures Filling(t, a, |Chunks(big, SHARD_SIZE)|, 0)
  {
    CountOf(a, []);
    assert Available(a) + [] == Available(a);
    Extend(s, MainLoopGetsData, 256);
    t := Apply(s, MainLoopGetsData);
    assert t.slot.pending == Chunks(big, SHARD_SIZE);
  }

  /** With `a` messages outstanding and one long TCP message waiting. */
  lemma StartFilling(a: nat, shards: nat) returns (t: Sys)
    requires a <= 256
    ensures Filling(t, a, shards, 0)
  {
    var big: seq<byte> := Zeros(819 * shards);
    ManyFullShards(shards);
    var rest := RestingState(big);
    var announced := Announce(rest, [big], 0, a);
    t := TakeMessage(announced, a, big);
  }

  /** A run that loses data with never more than 256 announcements outstanding. (The
      number has a name so that the proof treats it as any other.) */
  lemma OverflowRun(a: nat) returns (t: Sys)
    requires a == 256
    ensures ReachesWithin(t, 256) && t.dropped
  {
    var shards := 5 * (a + 1);
    var filling := StartFilling(a, shards);
    var saturated := FirstWindow(filling, a, shards);
    var filled := FillWindows(saturated, a, shards - 5, SHARD_SIZE);
    t := LastWindowDrops(filled, 5, SHARD_SIZE + 4095 * (a - 1));
  }

  // ---------------------------------------------------------------------------

  /** No run with at most `k` AVAILABLE messages outstanding loses a byte. */
  ghost predicate Lossless(k: nat) {
    forall s :: ReachesWithin(s, k) ==> !s.dropped && InTransit(s) == s.forwarded
  }

  /** The exact limit of the flow control: it loses nothing if and only if at most
      255 KFIFO_AVAILABLE messages can be outstanding. */
  lemma LosslessExactlyUpTo255(k: nat)
    ensures Lossless(k) <==> k <= 255
  {
    if k <= 255 {
      forall s | ReachesWithin(s, k)
        ensures !s.dropped && InTransit(s) == s.forwarded
      {
        var run :| IsRun(run) && Within(run, k) && run[|run| - 1] == s;
        CreditBound(run, k, |run| - 1);
        RunInv(run, |run| - 1);
      }
    } else {
      var t := OverflowRun(256);
      var run :| IsRun(run) && Within(run, 256) && run[|run| - 1] == t;
      assert Within(run, k);
      assert ReachesWithin(t, k);
    }
  }
}
