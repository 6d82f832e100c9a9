/** One device during one session, from OPEN to CLOSE: TCP actor, daemon main loop,
    driver and reader, connected by ordered queues. Every driver handler is one
    atomic step that includes its notification; the sends of one flush are separate
    steps, so that the reader and the actor run between any two of them. */
module FlowSystem {
  import opened Basics
  import opened Driver
  import opened Daemon

  /** A process inside `read`: not calling, asleep in the wait queue, or woken up
      and about to look again. */
  datatype Reader = Ready | Asleep(count: nat) | Woken(count: nat)

  datatype Sys = Sys(
    slot: Slot,                      // the daemon's state for this device
    flushing: bool,                  // the main loop is inside flush_device
    buffers: Buffers,                // the driver's state
    reader: Reader,
    notes: seq<Notification>,        // driver to daemon
    alive: bool,                     // the TCP actor
    actorPaused: bool,
    commands: seq<WriteCommand>,     // main loop to actor
    tcp: seq<seq<byte>>,             // actor to main loop
    forwarded: seq<byte>,            // everything the actor ever put on that channel
    delivered: seq<byte>,            // everything the reader ever got
    dropped: bool                    // the driver has refused a shard
  )

  const INIT: Sys :=
    Sys(FRESH, false, EMPTY, Ready, [], true, false, [], [], [], [], false)

  datatype Step =
    | ActorForwards(msg: seq<byte>)
    | ActorObeys
    | ActorExits(leftover: seq<seq<byte>>)
    | MainLoopGetsData
    | MainLoopGetsNote
    | MainLoopWrites(data: seq<byte>)     // data written to the device node, for the connection
    | FlushSends
    | FlushEnds
    | ReaderCalls(count: nat)
    | ReaderWakes
    | ReaderInterrupted

  predicate Enabled(s: Sys, step: Step) {
    match step
    case ActorForwards(_) => s.alive && !s.actorPaused
    case ActorObeys => s.alive && s.commands != []
    case ActorExits(_) => s.alive
    case MainLoopGetsData => !s.flushing && s.tcp != []
    case MainLoopGetsNote => !s.flushing && s.notes != []
    case MainLoopWrites(_) => !s.flushing
    case FlushSends => s.flushing && !s.slot.Stopped()
    case FlushEnds => s.flushing && s.slot.Stopped()
    case ReaderCalls(_) => s.reader.Ready?
    case ReaderWakes => s.reader.Woken?
    case ReaderInterrupted => s.reader.Asleep?
  }

  function Apply(s: Sys, step: Step): Sys
    requires Enabled(s, step)
  {
    match step
    case ActorForwards(msg) => s.(tcp := s.tcp + [msg], forwarded := s.forwarded + msg)
    case ActorObeys =>
      s.(commands := s.commands[1..], actorPaused := Obey(s.actorPaused, s.commands[0]))
    case ActorExits(leftover) =>
      s.(alive := false, commands := [], tcp := s.tcp + leftover, forwarded := s.forwarded + Flatten(leftover))
    case MainLoopGetsData =>
      s.(tcp := s.tcp[1..], slot := QueueShards(s.slot, s.tcp[0]), flushing := true)
    case MainLoopGetsNote => GetNote(s)
    case MainLoopWrites(data) => if s.alive then s.(commands := s.commands + [Data(data)]) else s
    case FlushSends => SendFront(s)
    case FlushEnds => Sync(s.(flushing := false))
    case ReaderCalls(count) => ReadPass(s, count)
    case ReaderWakes => ReadPass(s, s.reader.count)
    case ReaderInterrupted => s.(reader := Ready)
  }

  function Obey(paused: bool, command: WriteCommand): bool {
    match command
    case PauseRead => true
    case ResumeRead => false
    case _ => paused
  }

  function GetNote(s: Sys): Sys
    requires s.notes != []
  {
    var t := s.(notes := s.notes[1..]);
    match s.notes[0]
    case KfifoFull => Sync(t.(slot := s.slot.(paused := true)))
    case KfifoAvailable => t.(slot := s.slot.(paused := false, inflight := 0), flushing := true)
  }

  function SendFront(s: Sys): Sys
    requires !s.slot.Stopped()
  {
    var o := OnData(s.buffers, s.slot.pending[0]);
    s.(slot := TakeShard(s.slot), buffers := o.buffers, notes := s.notes + NoteSeq(o.note),
       reader := if o.wakeReader && s.reader.Asleep? then Woken(s.reader.count) else s.reader,
       dropped := s.dropped || o.dropped)
  }

  function Sync(s: Sys): Sys {
    var pause := s.slot.ShouldPauseReading();
    if !s.alive || s.slot.readPaused == pause then s
    else s.(slot := s.slot.(readPaused := pause),
            commands := s.commands + [if pause then PauseRead else ResumeRead])
  }

  function ReadPass(s: Sys, count: nat): Sys {
    var o := OnRead(s.buffers, count);
    s.(buffers := o.buffers, notes := s.notes + NoteSeq(o.note),
       reader := if o.data.Some? then Ready else Asleep(count),
       delivered := s.delivered + if o.data.Some? then o.data.value else [])
  }

  ghost predicate Next(s: Sys, t: Sys) {
    exists step :: Enabled(s, step) && t == Apply(s, step)
  }

  ghost predicate IsRun(run: seq<Sys>) {
    && run != [] && run[0] == INIT
    && forall i :: 0 <= i < |run| - 1 ==> Next(run[i], run[i + 1])
  }

  ghost predicate Reachable(s: Sys) {
    exists run :: IsRun(run) && run[|run| - 1] == s
  }

  // ---------------------------------------------------------------------------
  // The invariant.

  /** Where every byte is: read, in the two levels of the driver, queued in the
      daemon, or still in the channel from the actor. */
  function InTransit(s: Sys): seq<byte> {
    s.delivered + s.buffers.Contents() + Flatten(s.slot.pending) + Flatten(s.tcp)
  }

  /** The pause state the daemon will have once it has handled everything queued. */
  function PauseAfter(paused: bool, notes: seq<Notification>): bool {
    if notes == [] then paused else notes[|notes| - 1] == KfifoFull
  }

  /** The read state the actor will have once it has obeyed everything queued. */
  function ObeyAll(paused: bool, commands: seq<WriteCommand>): bool
    decreases |commands|
  {
    if commands == [] then paused else ObeyAll(Obey(paused, commands[0]), commands[1..])
  }

  ghost predicate PartsValid(s: Sys) {
    s.buffers.Valid() && s.buffers.Hysteresis() && s.slot.Valid()
  }

  ghost predicate StreamKept(s: Sys) {
    !s.dropped ==> InTransit(s) == s.forwarded
  }

  ghost predicate PauseAgrees(s: Sys) {
    PauseAfter(s.slot.paused, s.notes) == s.buffers.kfifoPaused
  }

  ghost predicate CreditReturned(s: Sys) {
    s.buffers.fifo == [] && KfifoAvailable !in s.notes ==> s.slot.inflight == 0
  }

  ghost predicate FlushedWhenIdle(s: Sys) {
    !s.flushing ==> s.slot.Stopped()
  }

  ghost predicate NoLostWakeup(s: Sys) {
    (s.reader.Asleep? ==> s.buffers.fifo == []) && (s.reader.Woken? ==> s.buffers.fifo != [])
  }

  ghost predicate ActorInformed(s: Sys) {
    s.alive ==>
      && ObeyAll(s.actorPaused, s.commands) == s.slot.readPaused
      && (!s.flushing ==> s.slot.readPaused == s.slot.ShouldPauseReading())
  }

  ghost predicate Inv(s: Sys) {
    && PartsValid(s)
    && StreamKept(s)
    && PauseAgrees(s)
    && CreditReturned(s)
    && FlushedWhenIdle(s)
    && NoLostWakeup(s)
    && ActorInformed(s)
  }

  lemma {:induction false} ObeyAllSnoc(paused: bool, commands: seq<WriteCommand>, c: WriteCommand)
    ensures ObeyAll(paused, commands + [c]) == Obey(ObeyAll(paused, commands), c)
    decreases |commands|
  {
    if commands == [] {
      assert ([] + [c])[1..] == [];
    } else {
      assert (commands + [c])[1..] == commands[1..] + [c];
      ObeyAllSnoc(Obey(paused, commands[0]), commands[1..], c);
    }
  }

  /** The main loop's command is what an actor in the old read state has to be told to
      get into the new one. */
  lemma TellingIsObeyed(before: bool, after: bool)
    ensures ObeyAll(before, Telling(before, after)) == after
    ensures Telling(before, after) == [] <==> before == after
    ensures Obey(before, PauseRead) && !Obey(before, ResumeRead)
  {
    if before != after {
      assert Telling(before, after)[1..] == [];
    }
  }

  /** Synchronizing sends exactly these commands. */
  lemma SyncTells(s: Sys)
    ensures Sync(s).commands == s.commands + Telling(s.slot.readPaused, Sync(s).slot.readPaused)
    ensures s.alive ==> Sync(s).slot.readPaused == (s.slot.paused || s.slot.pending != [])
    ensures !s.alive ==> Sync(s).slot.readPaused == s.slot.readPaused
  {
    assert s.commands + [] == s.commands;
  }

  lemma SyncInforms(s: Sys)
    requires s.alive ==> ObeyAll(s.actorPaused, s.commands) == s.slot.readPaused
    ensures ActorInformed(Sync(s))
    ensures Sync(s) == s.(slot := s.slot.(readPaused := Sync(s).slot.readPaused), commands := Sync(s).commands)
  {
    ObeyAllSnoc(s.actorPaused, s.commands, if s.slot.ShouldPauseReading() then PauseRead else ResumeRead);
  }

  lemma InitInv()
    ensures Inv(INIT)
  {
  }

  lemma ActorSendsInv(s: Sys, msgs: seq<seq<byte>>, t: Sys)
    requires Inv(s) && t == s.(tcp := s.tcp + msgs, forwarded := s.forwarded + Flatten(msgs), alive := t.alive, commands := t.commands)
    requires if t.alive then s.alive && t.commands == s.commands else t.commands == []
    ensures Inv(t)
  {
    FlattenConcat(s.tcp, msgs);
    Associative(s.delivered + s.buffers.Contents() + Flatten(s.slot.pending), Flatten(s.tcp), Flatten(msgs));
  }

  lemma ActorStepInv(s: Sys, step: Step)
    requires Inv(s) && Enabled(s, step)
    requires step.ActorForwards? || step.ActorObeys? || step.ActorExits?
    ensures Inv(Apply(s, step))
  {
    match step
    case ActorForwards(msg) =>
      FlattenOne(msg);
      ActorSendsInv(s, [msg], Apply(s, step));
    case ActorObeys =>
    case ActorExits(leftover) =>
      ActorSendsInv(s, leftover, Apply(s, step));
  }

  lemma GetDataInv(s: Sys)
    requires Inv(s) && Enabled(s, MainLoopGetsData)
    ensures Inv(Apply(s, MainLoopGetsData))
  {
    QueueShardsKeeps(s.slot, s.tcp[0]);
    Associative(Flatten(s.slot.pending), s.tcp[0], Flatten(s.tcp[1..]));
    Associative(s.delivered + s.buffers.Contents(), Flatten(s.slot.pending), Flatten(s.tcp));
    Associative(s.delivered + s.buffers.Contents(), Flatten(s.slot.pending) + s.tcp[0], Flatten(s.tcp[1..]));
  }

  lemma PauseAfterTail(paused: bool, notes: seq<Notification>)
    requires notes != []
    ensures PauseAfter(notes[0] == KfifoFull, notes[1..]) == PauseAfter(paused, notes)
    ensures KfifoAvailable in notes <==> notes[0] == KfifoAvailable || KfifoAvailable in notes[1..]
  {
    assert notes == [notes[0]] + notes[1..];
    assert |notes| > 1 ==> notes[1..][|notes| - 2] == notes[|notes| - 1];
  }

  lemma GetNoteInv(s: Sys)
    requires Inv(s) && Enabled(s, MainLoopGetsNote)
    ensures Inv(Apply(s, MainLoopGetsNote))
  {
    PauseAfterTail(s.slot.paused, s.notes);
    if s.notes[0] == KfifoFull {
      SyncInforms(s.(notes := s.notes[1..], slot := s.slot.(paused := true)));
    }
  }

  lemma FlushEndsInv(s: Sys)
    requires Inv(s) && Enabled(s, FlushEnds)
    ensures Inv(Apply(s, FlushEnds))
  {
    SyncInforms(s.(flushing := false));
  }

  lemma SendKeepsStream(s: Sys)
    requires Inv(s) && Enabled(s, FlushSends)
    ensures PartsValid(SendFront(s)) && StreamKept(SendFront(s))
  {
    var shard := s.slot.pending[0];
    TakeShardValid(s.slot);
    DataAppends(s.buffers, shard);
    DataHysteresis(s.buffers, shard);
    ShardMoves(s.delivered, s.buffers.Contents(), shard, Flatten(s.slot.pending[1..]), Flatten(s.tcp));
  }

  lemma ShardMoves<T>(a: seq<T>, b: seq<T>, shard: seq<T>, c: seq<T>, d: seq<T>)
    ensures a + (b + shard) + c + d == a + b + (shard + c) + d
  {
  }

  lemma PauseAfterSnoc(paused: bool, notes: seq<Notification>, note: Option<Notification>)
    ensures PauseAfter(paused, notes + NoteSeq(note))
         == if note.Some? then note.value == KfifoFull else PauseAfter(paused, notes)
    ensures KfifoAvailable in notes + NoteSeq(note) <==> KfifoAvailable in notes || note == Some(KfifoAvailable)
  {
    if note == None {
      assert notes + [] == notes;
    }
  }

  lemma SendKeepsControl(s: Sys)
    requires Inv(s) && Enabled(s, FlushSends)
    ensures var t := SendFront(s); PauseAgrees(t) && CreditReturned(t) && NoLostWakeup(t)
  {
    var shard := s.slot.pending[0];
    DataHysteresis(s.buffers, shard);
    DataWakes(s.buffers, shard);
    PauseAfterSnoc(s.slot.paused, s.notes, OnData(s.buffers, shard).note);
  }

  lemma FlushSendsInv(s: Sys)
    requires Inv(s) && Enabled(s, FlushSends)
    ensures Inv(Apply(s, FlushSends))
  {
    SendKeepsStream(s);
    SendKeepsControl(s);
  }

  lemma ReadKeepsStream(s: Sys, count: nat)
    requires Inv(s)
    ensures PartsValid(ReadPass(s, count)) && StreamKept(ReadPass(s, count))
  {
    var o := OnRead(s.buffers, count);
    ReadRemoves(s.buffers, count);
    ReadHysteresis(s.buffers, count);
    if o.data.Some? {
      ReadMoves(s.delivered, o.data.value, o.buffers.Contents(), Flatten(s.slot.pending), Flatten(s.tcp));
    } else {
      assert s.delivered + [] == s.delivered;
    }
  }

  lemma ReadMoves<T>(a: seq<T>, data: seq<T>, rest: seq<T>, c: seq<T>, d: seq<T>)
    ensures a + data + rest + c + d == a + (data + rest) + c + d
  {
  }

  lemma ReadKeepsPause(s: Sys, count: nat)
    requires PartsValid(s) && PauseAgrees(s)
    ensures PauseAgrees(ReadPass(s, count))
  {
    ReadHysteresis(s.buffers, count);
    PauseAfterSnoc(s.slot.paused, s.notes, OnRead(s.buffers, count).note);
  }

  lemma ReadKeepsCredit(s: Sys, count: nat)
    requires PartsValid(s)
    ensures CreditReturned(ReadPass(s, count))
  {
    var o := OnRead(s.buffers, count);
    ReadRemoves(s.buffers, count);
    ReadHysteresis(s.buffers, count);
    PauseAfterSnoc(s.slot.paused, s.notes, o.note);
    if o.buffers.fifo == [] {
      EmptyFifoEmptyQueue(o.buffers);
    }
  }

  lemma ReadPassInv(s: Sys, count: nat)
    requires Inv(s) && (s.reader.Ready? || s.reader.Woken?)
    ensures Inv(ReadPass(s, count))
  {
    ReadKeepsStream(s, count);
    ReadKeepsPause(s, count);
    ReadKeepsCredit(s, count);
  }

  lemma StepInv(s: Sys, step: Step)
    requires Inv(s) && Enabled(s, step)
    ensures Inv(Apply(s, step))
  {
    match step
    case ActorForwards(_) => ActorStepInv(s, step);
    case ActorObeys => ActorStepInv(s, step);
    case ActorExits(_) => ActorStepInv(s, step);
    case MainLoopGetsData => GetDataInv(s);
    case MainLoopGetsNote => GetNoteInv(s);
    case MainLoopWrites(data) => ObeyAllSnoc(s.actorPaused, s.commands, Data(data));
    case FlushSends => FlushSendsInv(s);
    case FlushEnds => FlushEndsInv(s);
    case ReaderCalls(count) => ReadPassInv(s, count);
    case ReaderWakes => ReadPassInv(s, s.reader.count);
    case ReaderInterrupted =>
  }

  lemma NextReachable(s: Sys, t: Sys)
    requires Reachable(s) && Next(s, t)
    ensures Reachable(t)
  {
    var run :| IsRun(run) && run[|run| - 1] == s;
    var longer := run + [t];
    assert longer[|longer| - 1] == t && IsRun(longer);
  }

  lemma NextInv(s: Sys, t: Sys)
    requires Inv(s) && Next(s, t)
    ensures Inv(t)
  {
    var step :| Enabled(s, step) && t == Apply(s, step);
    StepInv(s, step);
  }

  lemma {:induction false} RunInv(run: seq<Sys>, i: nat)
    requires IsRun(run) && i < |run|
    ensures Inv(run[i])
  {
    if i == 0 {
      InitInv();
    } else {
      RunInv(run, i - 1);
      NextInv(run[i - 1], run[i]);
    }
  }
}
