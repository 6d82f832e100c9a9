/** Draining: once the actor forwards nothing more and the reader keeps calling
    `read` with a non-zero count, everything reaches the reader in finitely many
    steps, whatever the order in which the parties run. */
module FlowLiveness {
  import opened Basics
  import opened Driver
  import opened Daemon
  import opened FlowSystem
  import opened FlowSafety

  /** The steps left when no new data arrives, nothing fails, and no signal
      interrupts the reader. */
  predicate DrainStep(step: Step) {
    match step
    case ActorObeys => true
    case MainLoopGetsData => true
    case MainLoopGetsNote => true
    case FlushSends => true
    case FlushEnds => true
    case ReaderCalls(count) => count > 0
    case ReaderWakes => true
    case _ => false
  }

  ghost predicate DrainNext(s: Sys, t: Sys) {
    exists step :: DrainStep(step) && Enabled(s, step) && t == Apply(s, step)
  }

  ghost predicate Quiescent(s: Sys) {
    forall step :: DrainStep(step) ==> !Enabled(s, step)
  }

  function ReaderRank(r: Reader): nat {
    match r
    case Asleep(_) => 0
    case Ready => 5
    case Woken(_) => 10
  }

  /** Bytes that the daemon has not sent yet. */
  function DaemonBytes(s: Sys): nat {
    |Flatten(s.slot.pending)| + |Flatten(s.tcp)|
  }

  /** Bounds the number of steps left: a read removes bytes, a send moves bytes out
      of the daemon, and every message is handled once. */
  function Measure(s: Sys): nat {
    5 * |s.buffers.Contents()| + 20 * DaemonBytes(s)
      + ReaderRank(s.reader) + 4 * |s.notes| + 4 * |s.tcp|
      + (if s.flushing then 2 else 0) + |s.commands|
  }

  lemma SendDecreases(s: Sys)
    requires Inv(s) && Enabled(s, FlushSends)
    ensures Measure(SendFront(s)) < Measure(s)
  {
    var shard := s.slot.pending[0];
    var o := OnData(s.buffers, shard);
    DataAppends(s.buffers, shard);
    assert |o.buffers.Contents()| <= |s.buffers.Contents()| + |shard|;
    assert |Flatten(s.slot.pending)| == |shard| + |Flatten(s.slot.pending[1..])|;
  }

  lemma ReadEffect(b: Buffers, count: nat)
    requires b.Valid()
    ensures var o := OnRead(b, count);
      && |NoteSeq(o.note)| <= 1
      && (o.data.Some? <==> b.fifo != [])
      && |b.Contents()| == |o.buffers.Contents()| + (if o.data.Some? then |o.data.value| else 0)
      && (o.data.Some? && count > 0 ==> |o.data.value| > 0)
  {
    ReadRemoves(b, count);
  }

  lemma ReadDecreases(s: Sys, count: nat)
    requires Inv(s)
    requires (s.reader.Ready? && count > 0) || s.reader.Woken?
    ensures Measure(ReadPass(s, count)) < Measure(s)
  {
    ReadEffect(s.buffers, count);
    var t := ReadPass(s, count);
    assert DaemonBytes(t) == DaemonBytes(s);
    assert |t.notes| <= |s.notes| + 1;
  }

  lemma GetDataDecreases(s: Sys)
    requires Enabled(s, MainLoopGetsData)
    ensures Measure(Apply(s, MainLoopGetsData)) < Measure(s)
  {
    QueueShardsKeeps(s.slot, s.tcp[0]);
    assert |Flatten(s.tcp)| == |s.tcp[0]| + |Flatten(s.tcp[1..])|;
  }

  lemma SyncCosts(s: Sys)
    ensures Measure(Sync(s)) <= Measure(s) + 1
  {
  }

  lemma GetNoteDecreases(s: Sys)
    requires Enabled(s, MainLoopGetsNote)
    ensures Measure(GetNote(s)) < Measure(s)
  {
    if s.notes[0] == KfifoFull {
      SyncCosts(s.(notes := s.notes[1..], slot := s.slot.(paused := true)));
    }
  }

  lemma DrainStepDecreases(s: Sys, step: Step)
    requires Inv(s) && DrainStep(step) && Enabled(s, step)
    ensures Measure(Apply(s, step)) < Measure(s)
  {
    match step
    case ActorObeys =>
    case MainLoopGetsData => GetDataDecreases(s);
    case MainLoopGetsNote => GetNoteDecreases(s);
    case FlushSends => SendDecreases(s);
    case FlushEnds => SyncCosts(s.(flushing := false));
    case ReaderCalls(count) => ReadDecreases(s, count);
    case ReaderWakes => ReadDecreases(s, s.reader.count);
  }

  ghost predicate DrainRun(run: seq<Sys>) {
    run != [] && forall i :: 0 <= i < |run| - 1 ==> DrainNext(run[i], run[i + 1])
  }

  /** Every drain run from a reachable state is bounded in advance ... */
  lemma {:induction false} DrainTerminates(run: seq<Sys>)
    requires DrainRun(run) && Inv(run[0])
    ensures |run| - 1 <= Measure(run[0])
    ensures Inv(run[|run| - 1])
    decreases |run|
  {
    if |run| > 1 {
      assert DrainNext(run[0], run[1]);
      var step :| DrainStep(step) && Enabled(run[0], step) && run[1] == Apply(run[0], step);
      StepInv(run[0], step);
      DrainStepDecreases(run[0], step);
      var rest := run[1..];
      forall i | 0 <= i < |rest| - 1
        ensures DrainNext(rest[i], rest[i + 1])
      {
        assert DrainNext(run[i + 1], run[i + 2]);
      }
      DrainTerminates(rest);
    }
  }

  /** ... and a state where no drain step is enabled has nothing left anywhere: the
      reader is asleep on an empty device. */
  lemma QuiescentIsEmpty(s: Sys)
    requires Inv(s) && Quiescent(s)
    ensures s.buffers.Contents() == [] && s.slot.pending == [] && s.tcp == [] && s.notes == []
    ensures s.reader.Asleep? && !s.flushing
    ensures s.alive ==> !s.actorPaused
    ensures !s.dropped ==> s.delivered == s.forwarded
  {
    assert !Enabled(s, ReaderCalls(1));
    assert !Enabled(s, ReaderWakes);
    assert !Enabled(s, FlushSends);
    assert !Enabled(s, FlushEnds);
    assert !Enabled(s, MainLoopGetsData);
    assert !Enabled(s, MainLoopGetsNote);
    assert !Enabled(s, ActorObeys);
    EmptyFifoEmptyQueue(s.buffers);
    assert !s.slot.paused && s.slot.inflight == 0;
    assert s.delivered + [] + [] + [] == s.delivered;
  }

  /** Drain to completion: from every reachable state, however the parties are
      scheduled, a run that cannot be continued has delivered the whole stream. */
  lemma DrainCompletes(run: seq<Sys>)
    requires DrainRun(run) && Reachable(run[0])
    ensures |run| <= Measure(run[0]) + 1
    ensures var last := run[|run| - 1];
      && (Quiescent(last) && !last.dropped ==> last.delivered == last.forwarded)
      && (Quiescent(last) <==> !exists t :: DrainNext(last, t))
  {
    Invariant(run[0]);
    DrainTerminates(run);
    var last := run[|run| - 1];
    if Quiescent(last) {
      QuiescentIsEmpty(last);
    } else {
      var step :| DrainStep(step) && Enabled(last, step);
      assert DrainNext(last, Apply(last, step));
    }
  }
}
