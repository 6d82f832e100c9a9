/** What holds in every reachable state of the device pipeline. */
module FlowSafety {
  import opened Basics
  import opened Driver
  import opened Daemon
  import opened FlowSystem

  lemma Invariant(s: Sys)
    requires Reachable(s)
    ensures Inv(s)
  {
    var run :| IsRun(run) && run[|run| - 1] == s;
    RunInv(run, |run| - 1);
  }

  /** End to end: as long as nothing was dropped, every forwarded byte is in exactly
      one place, in order, so the reader has always seen a prefix of the stream. */
  lemma EndToEndStream(s: Sys)
    requires Reachable(s) && !s.dropped
    ensures s.delivered + s.buffers.fifo + Flatten(s.buffers.chunks) + Flatten(s.slot.pending) + Flatten(s.tcp) == s.forwarded
    ensures s.delivered <= s.forwarded
  {
    Invariant(s);
    Associative(s.delivered, s.buffers.fifo, Flatten(s.buffers.chunks));
    assert s.delivered <= InTransit(s);
  }

  /** No stall: a main loop that has finished a step with shards left over is
      certain to hear KFIFO_AVAILABLE, because the reader still has something to
      read or the message is already on its way. */
  lemma NoStall(s: Sys)
    requires Reachable(s) && !s.flushing && s.slot.pending != []
    ensures s.buffers.fifo != [] || KfifoAvailable in s.notes
  {
    Invariant(s);
  }

  /** The loosely coupled flags agree once the queues between them are drained:
      daemon with driver, and actor with daemon. A reader asleep in the wait queue
      has an empty device before it. */
  lemma FlagsAgree(s: Sys)
    requires Reachable(s)
    ensures s.notes == [] ==> s.slot.paused == s.buffers.kfifoPaused
    ensures s.alive && s.commands == [] && !s.flushing ==>
      s.actorPaused == s.slot.readPaused == (s.slot.paused || s.slot.pending != [])
    ensures s.buffers.kfifoPaused ==> |s.buffers.fifo| >= FIFO_LOW_WATERMARK
    ensures !s.buffers.kfifoPaused ==> s.buffers.chunks == [] && |s.buffers.fifo| < FIFO_HIGH_WATERMARK
    ensures s.reader.Asleep? ==> s.buffers.Contents() == []
  {
    Invariant(s);
    if s.reader.Asleep? {
      EmptyFifoEmptyQueue(s.buffers);
    }
  }

  // ---------------------------------------------------------------------------
  // The flush loop and the flush steps.

  /** The steps of one flush with nothing in between. */
  function FlushSteps(s: Sys): Sys
    decreases |s.slot.pending|
  {
    if s.slot.Stopped() then s else FlushSteps(SendFront(s))
  }

  /** The `flush_device` loop is the special case of the steps in which neither the
      reader nor the actor runs between two sends. */
  lemma {:induction false} FlushLoopIsItsSteps(s: Sys)
    ensures var o, t := Flush(s.slot, s.buffers, None), FlushSteps(s);
      && t.slot == o.slot
      && t.buffers == o.buffers
      && t.notes == s.notes + o.notes
      && t.dropped == (s.dropped || o.dropped)
      && t.delivered == s.delivered && t.tcp == s.tcp && t.commands == s.commands
    decreases |s.slot.pending|
  {
    if s.slot.Stopped() {
      assert s.notes + [] == s.notes;
    } else {
      var o := OnData(s.buffers, s.slot.pending[0]);
      FlushLoopIsItsSteps(SendFront(s));
      FlushStep(s.slot, s.buffers, None);
      Associative(s.notes, NoteSeq(o.note), Flush(TakeShard(s.slot), o.buffers, None).notes);
    }
  }

  /** The main loop's handlers, each as its steps with nothing in between: what the
      methods of the daemon are specified to do to the slot and to send to the actor. */
  ghost predicate Handled(s: Sys, t: Sys, slot: Slot) {
    && !t.flushing
    && t.slot == slot.(readPaused := t.slot.readPaused)
    && t.slot.readPaused == (if s.alive then slot.paused || slot.pending != [] else s.slot.readPaused)
    && t.commands == s.commands + Telling(s.slot.readPaused, t.slot.readPaused)
  }

  lemma FullHandlerIsItsSteps(s: Sys)
    requires !s.flushing && s.notes != [] && s.notes[0] == KfifoFull
    ensures Handled(s, Apply(s, MainLoopGetsNote), s.slot.(paused := true))
  {
    SyncTells(s.(notes := s.notes[1..], slot := s.slot.(paused := true)));
  }

  lemma AvailableHandlerIsItsSteps(s: Sys)
    requires !s.flushing && s.notes != [] && s.notes[0] == KfifoAvailable
    ensures var begun := Apply(s, MainLoopGetsNote); var sent := FlushSteps(begun);
      && Enabled(sent, FlushEnds)
      && Handled(s, Apply(sent, FlushEnds), Flush(s.slot.(paused := false, inflight := 0), s.buffers, None).slot)
  {
    var begun := Apply(s, MainLoopGetsNote);
    FlushEndsHandled(s, begun);
  }

  lemma DataHandlerIsItsSteps(s: Sys)
    requires !s.flushing && s.tcp != []
    ensures var begun := Apply(s, MainLoopGetsData); var sent := FlushSteps(begun);
      && Enabled(sent, FlushEnds)
      && Handled(s, Apply(sent, FlushEnds), Flush(QueueShards(s.slot, s.tcp[0]), s.buffers, None).slot)
  {
    var begun := Apply(s, MainLoopGetsData);
    FlushEndsHandled(s, begun);
  }

  lemma FlushEndsHandled(s: Sys, begun: Sys)
    requires begun.flushing && begun.alive == s.alive && begun.commands == s.commands
    requires begun.slot.readPaused == s.slot.readPaused
    ensures var sent := FlushSteps(begun);
      && Enabled(sent, FlushEnds)
      && Handled(s, Apply(sent, FlushEnds), Flush(begun.slot, begun.buffers, None).slot)
  {
    FlushLoopIsItsSteps(begun);
    FlushStepsStop(begun);
    SyncTells(FlushSteps(begun).(flushing := false));
  }

  lemma {:induction false} FlushStepsStop(s: Sys)
    ensures var t := FlushSteps(s);
      && t.slot.Stopped() && t.flushing == s.flushing && t.alive == s.alive && t.slot.readPaused == s.slot.readPaused
    decreases |s.slot.pending|
  {
    if !s.slot.Stopped() {
      FlushStepsStop(SendFront(s));
    }
  }
}
