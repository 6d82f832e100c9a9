/** When the credit window protects the driver's overflow list. KFIFO_AVAILABLE
    resets the window even when nothing was paused, and several of them can be
    outstanding, so the protection depends on how many ever are. */
module FlowCredit {
  import opened Basics
  import opened Driver
  import opened Daemon
  import opened FlowSystem

  /** KFIFO_AVAILABLE messages that the daemon has not handled yet. */
  function Outstanding(s: Sys): nat {
    CountAvailable(s.notes)
  }

  function CountAvailable(notes: seq<Notification>): nat {
    if notes == [] then 0
    else (if notes[0] == KfifoAvailable then 1 else 0) + CountAvailable(notes[1..])
  }

  ghost predicate Within(run: seq<Sys>, k: nat) {
    forall i :: 0 <= i < |run| ==> Outstanding(run[i]) <= k
  }

  function Windows(n: nat): (bytes: nat)
    ensures bytes == WINDOW * n
  {
    4095 * n
  }

  /** Bytes that the driver holds. */
  function Held(b: Buffers): int {
    |b.fifo| + b.pendingBytes
  }

  /** Bytes in the driver plus every byte the daemon may still send: the rest of
      the current window and one full window per outstanding message. */
  function Exposure(s: Sys): int {
    Held(s.buffers) + (WINDOW - s.slot.inflight) + Windows(Outstanding(s))
  }

  function Ceiling(k: nat): int {
    FIFO_LOW_WATERMARK - 1 + Windows(k + 1)
  }

  lemma {:induction false} CountSnoc(notes: seq<Notification>, note: Notification)
    ensures CountAvailable(notes + [note]) == CountAvailable(notes) + if note == KfifoAvailable then 1 else 0
  {
    if notes != [] {
      assert (notes + [note])[1..] == notes[1..] + [note];
      CountSnoc(notes[1..], note);
    } else {
      assert ([] + [note])[1..] == [];
    }
  }

  lemma OutstandingSnoc(notes: seq<Notification>, note: Option<Notification>)
    ensures CountAvailable(notes + NoteSeq(note))
         == CountAvailable(notes) + if note == Some(KfifoAvailable) then 1 else 0
  {
    if note.Some? {
      CountSnoc(notes, note.value);
    } else {
      assert notes + [] == notes;
    }
  }

  lemma HeldIsContents(b: Buffers)
    requires b.Valid()
    ensures Held(b) == |b.Contents()|
  {
  }

  /** A send spends the credit it uses; a refused shard means that a fifo that is
      nearly full and a full overflow list were exposed already. */
  lemma SendKeepsExposure(s: Sys)
    requires Inv(s) && Enabled(s, FlushSends)
    ensures Exposure(SendFront(s)) <= Exposure(s)
    ensures SendFront(s).dropped && !s.dropped ==>
      Exposure(s) > FIFO_PENDING_LIMIT + FIFO_SIZE - FIFO_LOW_WATERMARK
  {
    var shard := s.slot.pending[0];
    var o := OnData(s.buffers, shard);
    DataAppends(s.buffers, shard);
    DataHysteresis(s.buffers, shard);
    OutstandingSnoc(s.notes, o.note);
    HeldIsContents(s.buffers);
    HeldIsContents(o.buffers);
  }

  /** A read never adds to the driver, and one that announces space leaves at most
      818 bytes in it. */
  lemma ReadShrinks(b: Buffers, count: nat)
    requires b.Valid() && b.Hysteresis()
    ensures var o := OnRead(b, count);
      && Held(o.buffers) <= Held(b)
      && (o.note == Some(KfifoAvailable) ==> Held(o.buffers) < FIFO_LOW_WATERMARK)
  {
    var o := OnRead(b, count);
    ReadRemoves(b, count);
    ReadHysteresis(b, count);
    HeldIsContents(b);
    HeldIsContents(o.buffers);
  }

  lemma ReadKeepsCeiling(s: Sys, count: nat, k: nat)
    requires Inv(s) && Exposure(s) <= Ceiling(k)
    requires Outstanding(ReadPass(s, count)) <= k
    ensures Exposure(ReadPass(s, count)) <= Ceiling(k)
  {
    ReadShrinks(s.buffers, count);
    OutstandingSnoc(s.notes, OnRead(s.buffers, count).note);
  }

  lemma GetNoteKeepsExposure(s: Sys)
    requires Inv(s) && Enabled(s, MainLoopGetsNote)
    ensures Exposure(GetNote(s)) <= Exposure(s)
    ensures GetNote(s).dropped == s.dropped
  {
  }

  lemma StepKeepsCeiling(s: Sys, step: Step, k: nat)
    requires Inv(s) && Enabled(s, step) && Exposure(s) <= Ceiling(k)
    requires Outstanding(Apply(s, step)) <= k
    ensures Exposure(Apply(s, step)) <= Ceiling(k)
    ensures k <= 255 && !s.dropped ==> !Apply(s, step).dropped
  {
    match step
    case ActorForwards(_) =>
    case ActorObeys =>
    case ActorExits(_) =>
    case MainLoopGetsData =>
    case MainLoopGetsNote => GetNoteKeepsExposure(s);
    case MainLoopWrites(_) =>
    case FlushSends => SendKeepsExposure(s);
    case FlushEnds =>
    case ReaderCalls(count) => ReadKeepsCeiling(s, count, k);
    case ReaderWakes => ReadKeepsCeiling(s, s.reader.count, k);
    case ReaderInterrupted =>
  }

  lemma NextKeepsCeiling(s: Sys, t: Sys, k: nat)
    requires Inv(s) && Next(s, t) && Exposure(s) <= Ceiling(k) && Outstanding(t) <= k
    ensures Exposure(t) <= Ceiling(k)
    ensures k <= 255 && !s.dropped ==> !t.dropped
  {
    var step :| Enabled(s, step) && t == Apply(s, step);
    StepKeepsCeiling(s, step, k);
  }

  /** The credit theorem, for every run and every state in it. */
  lemma {:induction false} CreditBound(run: seq<Sys>, k: nat, i: nat)
    requires IsRun(run) && Within(run, k) && i < |run|
    ensures Exposure(run[i]) <= Ceiling(k)
    ensures k <= 255 ==> !run[i].dropped
  {
    if i > 0 {
      CreditBound(run, k, i - 1);
      RunInv(run, i - 1);
      NextKeepsCeiling(run[i - 1], run[i], k);
    }
  }
}
