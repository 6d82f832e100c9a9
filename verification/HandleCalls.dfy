/** Everything an application can do with a handle: any interleaving of messages that
    arrive, the end of the connection in its two steps, and calls of `read`, `write`,
    `get_status` and `close`. Each call leaves one answer in a log, and the caller
    decides of every answer that tells the end of the connection whether to keep the
    messages in it. */
module HandleCalls {
  import opened Basics
  import opened ConnHandlers

  /** What an answer tells about how the connection ended. */
  datatype Told = Normally | WithError | Unclear

  datatype Answer = Got(message: Message) | Ended(messages: seq<Message>, keep: bool, told: Told) | Nothing

  function TellsOf(c: Closed): Told {
    match c
    case Normal(_) => Normally
    case Error(_) => WithError
    case Unknown => Unclear
  }

  /** `close` consumes the handle and `get_status` only borrows it; both may have to wait
      for the connection. A call that panics takes the caller with it. */
  datatype Use = InUse | Asking | Closing | Consumed | Crashed

  datatype History = History(
    handler: Handler,
    use: Use,
    produced: seq<Message>,       // everything the connection put on the response channel
    log: seq<Answer>
  )

  const INIT: History := History(FRESH, InUse, [], [])

  datatype Event =
    | Delivers(m: Message)
    | Drops                         // the connection's ends of the channels
    | TaskEnds(result: TaskResult)
    | CallsRead(keep: bool)
    | CallsWrite(keep: bool)
    | CallsStatus(keep: bool)
    | StatusComes
    | StatusLost(keep: bool)
    | CallsClose(keep: bool)
    | CloseReturns(keep: bool)

  predicate Enabled(h: History, e: Event) {
    match e
    case Delivers(_) => !h.handler.dropped
    case Drops => !h.handler.dropped
    case TaskEnds(_) => h.handler.dropped && h.handler.task.None?
    case CallsRead(_) => h.use == InUse && Read(h.handler).1 != Blocked
    case CallsWrite(_) => h.use == InUse
    case CallsStatus(_) => h.use == InUse
    case StatusComes => h.use == Asking
    case StatusLost(_) => h.use == Asking && h.handler.dropped
    case CallsClose(_) => h.use == InUse
    case CloseReturns(_) => h.use == Closing && h.handler.task.Some?
  }

  function Apply(h: History, e: Event): History
    requires Enabled(h, e)
  {
    match e
    case Delivers(m) => h.(handler := h.handler.(channel := h.handler.channel + [m]), produced := h.produced + [m])
    case Drops => h.(handler := h.handler.(dropped := true))
    case TaskEnds(r) => h.(handler := h.handler.(task := Some(r)))
    case CallsRead(keep) => AfterRead(h, Read(h.handler), keep)
    case CallsWrite(keep) =>
      var (handler, failure) := Write(h.handler);
      h.(handler := handler, log := h.log + [WriteAnswer(failure, keep)])
    case CallsStatus(keep) =>
      var (handler, failure) := Write(h.handler);
      if failure.None? then h.(handler := handler, use := Asking)
      else h.(handler := handler, log := h.log + [WriteAnswer(failure, keep)])
    case StatusComes => h.(use := InUse, log := h.log + [Nothing])
    case StatusLost(keep) => AfterRead(h, LoseStatus(h.handler), keep)
    case CallsClose(keep) => AfterClose(h, BeginClose(h.handler), keep)
    case CloseReturns(keep) =>
      var (handler, ms) := EndClose(h.handler);
      h.(handler := handler, use := Consumed, log := h.log + [Ended(ms, keep, Unclear)])
  }

  function AfterRead(h: History, outcome: (Handler, ReadResult), keep: bool): History {
    h.(handler := outcome.0, use := if outcome.1 == Panicked then Crashed else InUse,
       log := h.log + [ReadAnswer(outcome.1, keep)])
  }

  function AfterClose(h: History, outcome: (Handler, CloseStart), keep: bool): History {
    match outcome.1
    case Remaining(ms) => h.(handler := outcome.0, use := Consumed, log := h.log + [Ended(ms, keep, Unclear)])
    case CloseUnknown => h.(handler := outcome.0, use := Consumed, log := h.log + [Ended([], keep, Unclear)])
    case AwaitTask => h.(handler := outcome.0, use := Closing)
  }

  function ReadAnswer(result: ReadResult, keep: bool): Answer {
    match result
    case Data(m) => Got(m)
    case ReadClosed(closed) => Ended(Messages(closed), keep, TellsOf(closed))
    case _ => Nothing
  }

  function WriteAnswer(failure: Option<Closed>, keep: bool): Answer {
    match failure
    case Some(closed) => Ended(Messages(closed), keep, TellsOf(closed))
    case None => Nothing
  }

  ghost predicate Next(h: History, k: History) {
    exists e :: Enabled(h, e) && k == Apply(h, e)
  }

  ghost predicate IsRun(run: seq<History>) {
    && run != [] && run[0] == INIT
    && forall i :: 0 <= i < |run| - 1 ==> Next(run[i], run[i + 1])
  }

  ghost predicate Reachable(h: History) {
    exists run :: IsRun(run) && run[|run| - 1] == h
  }

  // ---------------------------------------------------------------------------
  // What the caller ends up with.

  function KeptOf(a: Answer): seq<Message> {
    match a
    case Got(m) => [m]
    case Ended(ms, keep, _) => if keep then ms else []
    case Nothing => []
  }

  /** Every message that the caller was handed and kept, in order. */
  function Kept(log: seq<Answer>): seq<Message> {
    if log == [] then [] else Kept(log[..|log| - 1]) + KeptOf(log[|log| - 1])
  }

  /** The answer tells the end of the connection and carries messages. */
  predicate Carries(a: Answer) {
    a.Ended? && a.messages != []
  }

  /** How many of these answers the caller has kept. */
  function KeptCarrying(log: seq<Answer>): nat {
    if log == [] then 0
    else KeptCarrying(log[..|log| - 1]) + if Carries(log[|log| - 1]) && log[|log| - 1].keep then 1 else 0
  }

  lemma LogSnoc(log: seq<Answer>, a: Answer)
    ensures Kept(log + [a]) == Kept(log) + KeptOf(a)
    ensures KeptCarrying(log + [a]) == KeptCarrying(log) + if Carries(a) && a.keep then 1 else 0
  {
    assert (log + [a])[..|log|] == log;
  }

  function Repeat(ms: seq<Message>, n: nat): seq<Message> {
    if n == 0 then [] else Repeat(ms, n - 1) + ms
  }

  // ---------------------------------------------------------------------------
  // The invariant.

  /** While nothing is cached no answer carries messages, and what was kept and what
      still waits make up what was produced. */
  ghost predicate Before(h: History) {
    && Kept(h.log) + h.handler.channel == h.produced
    && KeptCarrying(h.log) == 0
    && (forall i :: 0 <= i < |h.log| ==> !Carries(h.log[i]))
  }

  /** Afterwards what was kept, followed by the cached messages, is what was produced,
      followed by one copy of these messages for every answer kept that carried them. */
  ghost predicate Since(h: History, ms: seq<Message>) {
    && Kept(h.log) + ms == h.produced + Repeat(ms, KeptCarrying(h.log))
    && SameMessages(h.log, ms)
    && (KeptCarrying(h.log) > 0 ==> ms != [])
  }

  ghost predicate SameMessages(log: seq<Answer>, ms: seq<Message>) {
    forall i :: 0 <= i < |log| && Carries(log[i]) ==> log[i].messages == ms
  }

  /** Once an answer has carried messages, all later ones do. */
  ghost predicate Sticky(log: seq<Answer>) {
    forall i, j :: 0 <= i < j < |log| && Carries(log[i]) ==> Carries(log[j])
  }

  ghost predicate Inv(h: History) {
    && Valid(h.handler)
    && (h.handler.cached.None? ==> Before(h))
    && (h.handler.cached.Some? ==> Since(h, Messages(h.handler.cached.value)))
    && Sticky(h.log)
    && (h.use == Closing || h.use == Asking ==> h.handler.cached.None?)
    && (h.use == Crashed ==> h.handler.dropped && h.handler.cached.None?)
  }

  /** An answer without messages, while nothing is cached. */
  lemma PlainAnswer(h: History, a: Answer, k: History)
    requires Inv(h) && h.handler.cached.None? && !Carries(a)
    requires k == h.(handler := k.handler, use := k.use, log := h.log + [a])
    requires k.handler == h.handler.(channel := k.handler.channel) && KeptOf(a) + k.handler.channel == h.handler.channel
    requires k.use != Closing && k.use != Asking
    requires k.use == Crashed ==> k.handler.dropped
    ensures Inv(k)
  {
    LogSnoc(h.log, a);
    Associative(Kept(h.log), KeptOf(a), k.handler.channel);
  }

  lemma OneMoreCopy(log: seq<Answer>, produced: seq<Message>, ms: seq<Message>, keep: bool, told: Told)
    requires Kept(log) + ms == produced + Repeat(ms, KeptCarrying(log))
    ensures var longer := log + [Ended(ms, keep, told)];
      Kept(longer) + ms == produced + Repeat(ms, KeptCarrying(longer))
  {
    LogSnoc(log, Ended(ms, keep, told));
    if keep && ms != [] {
      Associative(produced, Repeat(ms, KeptCarrying(log)), ms);
    } else {
      assert Kept(log) + [] == Kept(log);
    }
  }

  lemma SameMessagesAgain(log: seq<Answer>, ms: seq<Message>, keep: bool, told: Told)
    requires SameMessages(log, ms)
    ensures SameMessages(log + [Ended(ms, keep, told)], ms)
    ensures KeptCarrying(log + [Ended(ms, keep, told)]) > 0 ==> KeptCarrying(log) > 0 || ms != []
  {
    LogSnoc(log, Ended(ms, keep, told));
  }

  lemma StickyAgain(h: History, ms: seq<Message>, keep: bool, told: Told)
    requires SameMessages(h.log, ms) && Sticky(h.log)
    ensures Sticky(h.log + [Ended(ms, keep, told)])
  {
    var log := h.log + [Ended(ms, keep, told)];
    forall i, j | 0 <= i < j < |log| && Carries(log[i])
      ensures Carries(log[j])
    {
      assert log[i] == h.log[i];
      if j < |h.log| {
        assert log[j] == h.log[j];
      }
    }
  }

  /** The messages still waiting are those that the call which notices the end will get. */
  lemma BeforeSince(h: History)
    requires Before(h)
    ensures Since(h, h.handler.channel)
  {
    assert h.produced + [] == h.produced;
  }

  lemma InvSince(k: History, ms: seq<Message>)
    requires Valid(k.handler) && k.handler.cached.Some? && Messages(k.handler.cached.value) == ms
    requires Kept(k.log) + ms == k.produced + Repeat(ms, KeptCarrying(k.log))
    requires SameMessages(k.log, ms) && (KeptCarrying(k.log) > 0 ==> ms != []) && Sticky(k.log)
    requires k.use == InUse || k.use == Consumed
    ensures Inv(k)
  {
  }

  /** The call that notices the end gets what still waits, and every later call gets it
      again. */
  lemma EndedInv(h: History, k: History, ms: seq<Message>, keep: bool)
    requires |k.log| == |h.log| + 1 && k.log[|h.log|].Ended?
    requires k.log == h.log + [Ended(ms, keep, k.log[|h.log|].told)] && k.produced == h.produced
    requires Valid(k.handler) && k.handler.cached.Some? && Messages(k.handler.cached.value) == ms
    requires Since(h, ms) && Sticky(h.log) && (k.use == InUse || k.use == Consumed)
    ensures Inv(k)
  {
    var told := k.log[|h.log|].told;
    OneMoreCopy(h.log, h.produced, ms, keep, told);
    SameMessagesAgain(h.log, ms, keep, told);
    StickyAgain(h, ms, keep, told);
    InvSince(k, ms);
  }

  lemma CallInv(h: History, e: Event)
    requires Inv(h) && Enabled(h, e) && !e.Delivers? && !e.Drops? && !e.TaskEnds?
    ensures Inv(Apply(h, e))
  {
    var k := Apply(h, e);
    if e.StatusComes? {
      PlainAnswer(h, Nothing, k);
    } else if h.handler.cached.Some? {
      EndedInv(h, k, Messages(h.handler.cached.value), e.keep);
    } else if e.CallsRead? && h.handler.channel != [] {
      assert h.handler.channel == [h.handler.channel[0]] + h.handler.channel[1..];
      PlainAnswer(h, Got(h.handler.channel[0]), k);
    } else if h.handler.task.Some? {
      BeforeSince(h);
      EndedInv(h, k, h.handler.channel, e.keep);
    } else if k.use != Closing && k.use != Asking {
      PlainAnswer(h, k.log[|h.log|], k);
    }
  }

  lemma StepInv(h: History, e: Event)
    requires Inv(h) && Enabled(h, e)
    ensures Inv(Apply(h, e))
  {
    match e
    case Delivers(m) => Associative(Kept(h.log), h.handler.channel, [m]);
    case Drops =>
    case TaskEnds(_) =>
    case _ => CallInv(h, e);
  }

  lemma NextReachable(h: History, k: History)
    requires Reachable(h) && Next(h, k)
    ensures Reachable(k)
  {
    var run :| IsRun(run) && run[|run| - 1] == h;
    var longer := run + [k];
    assert longer[|longer| - 1] == k && IsRun(longer);
  }

  lemma NextInv(h: History, k: History)
    requires Inv(h) && Next(h, k)
    ensures Inv(k)
  {
    var e :| Enabled(h, e) && k == Apply(h, e);
    StepInv(h, e);
  }

  lemma {:induction false} RunInv(run: seq<History>, i: nat)
    requires IsRun(run) && i < |run|
    ensures Inv(run[i])
  {
    if i > 0 {
      RunInv(run, i - 1);
      NextInv(run[i - 1], run[i]);
    }
  }

  // ---------------------------------------------------------------------------
  // When messages come more than once.

  lemma PrefixIffOneCopy(kept: seq<Message>, produced: seq<Message>, ms: seq<Message>, n: nat)
    requires kept + ms == produced + Repeat(ms, n) && (n > 0 ==> ms != [])
    ensures kept <= produced <==> n <= 1
  {
    assert |kept| + |ms| == |produced| + |Repeat(ms, n)|;
    if n == 0 {
      assert produced + [] == produced;
      assert kept <= kept + ms;
    } else if n == 1 {
      assert Repeat(ms, 1) == [] + ms;
      assert kept == (kept + ms)[..|kept|] == (produced + ms)[..|produced|] == produced;
    } else {
      assert |Repeat(ms, n)| == |Repeat(ms, n - 2)| + |ms| + |ms|;
    }
  }

  lemma PrefixIffOne(h: History)
    requires Inv(h)
    ensures Kept(h.log) <= h.produced <==> KeptCarrying(h.log) <= 1
  {
    if h.handler.cached.Some? {
      PrefixIffOneCopy(Kept(h.log), h.produced, Messages(h.handler.cached.value), KeptCarrying(h.log));
    }
  }

  /** In every run the messages kept are an in-order, duplicate-free prefix of those
      produced if and only if at most one of the answers kept carries messages. */
  lemma EachMessageOnce(h: History)
    requires Reachable(h)
    ensures Kept(h.log) <= h.produced <==> KeptCarrying(h.log) <= 1
  {
    var run :| IsRun(run) && run[|run| - 1] == h;
    RunInv(run, |run| - 1);
    PrefixIffOne(h);
  }

  /** The caller keeps whatever it gets. */
  ghost predicate KeepsAll(log: seq<Answer>) {
    forall i :: 0 <= i < |log| && log[i].Ended? ==> log[i].keep
  }

  /** No call follows an answer that carries messages: what a caller can check before
      each call. */
  ghost predicate StopsAfterCarrying(log: seq<Answer>) {
    forall i :: 0 <= i < |log| - 1 ==> !Carries(log[i])
  }

  lemma {:induction false} NoneCarries(log: seq<Answer>)
    requires forall i :: 0 <= i < |log| ==> !Carries(log[i])
    ensures KeptCarrying(log) == 0
  {
    if log != [] {
      NoneCarries(log[..|log| - 1]);
    }
  }

  lemma {:induction false} SomeCarries(log: seq<Answer>, i: nat)
    requires i < |log| && Carries(log[i]) && log[i].keep
    ensures KeptCarrying(log) >= 1
  {
    if i < |log| - 1 {
      SomeCarries(log[..|log| - 1], i);
    }
  }

  /** A caller that keeps everything gets every message at most once and in order if
      and only if it makes no call after an answer that carried messages. */
  lemma RepeatsIffCalledAgain(h: History)
    requires Reachable(h) && KeepsAll(h.log)
    ensures Kept(h.log) <= h.produced <==> StopsAfterCarrying(h.log)
  {
    var run :| IsRun(run) && run[|run| - 1] == h;
    RunInv(run, |run| - 1);
    PrefixIffOne(h);
    var log := h.log;
    if StopsAfterCarrying(log) {
      if log != [] {
        NoneCarries(log[..|log| - 1]);
      }
    } else {
      var i :| 0 <= i < |log| - 1 && Carries(log[i]);
      assert Carries(log[|log| - 1]);
      SomeCarries(log[..|log| - 1], i);
    }
  }

  // ---------------------------------------------------------------------------
  // Single calls, for a caller that has kept no messages with an answer so far.

  /** A failed write whose messages are ignored leaves no trace in what is kept. */
  lemma DroppedFailure(h: History)
    requires h.use == InUse
    ensures var k := Apply(h, CallsWrite(false));
      && k.use == InUse && k.produced == h.produced
      && k.handler.task == h.handler.task && k.handler.dropped == h.handler.dropped
      && Kept(k.log) == Kept(h.log) && KeptCarrying(k.log) == KeptCarrying(h.log)
      && (k.handler.cached.Some? ==> Write(h.handler).1.Some?)
  {
    LogSnoc(h.log, WriteAnswer(Write(h.handler).1, false));
    assert Kept(h.log) + [] == Kept(h.log);
  }

  /** What `close` has still to hand out. */
  function Remainder(h: Handler): seq<Message> {
    if h.cached.Some? then Messages(h.cached.value) else h.channel
  }

  /** What waits, or what an ignored answer carried, completes what was produced. */
  lemma RemainderCompletes(h: History)
    requires Inv(h) && KeptCarrying(h.log) == 0
    ensures Kept(h.log) + Remainder(h.handler) == h.produced
  {
    assert h.produced + [] == h.produced;
  }

  lemma CloseAnswer(h: Handler)
    requires Valid(h)
    ensures var (k, start) := BeginClose(h);
      && k.task == h.task && k.dropped == h.dropped
      && match start
         case Remaining(ms) => h.task.Some? && ms == Remainder(h)
         case CloseUnknown => k == h && h.dropped && h.cached.None?
         case AwaitTask => k == h && !h.dropped && h.cached.None?
  {
  }

  lemma AfterCloseLog(h: History, outcome: (Handler, CloseStart))
    ensures var k := AfterClose(h, outcome, true);
      && k.handler == outcome.0 && k.produced == h.produced && KeptCarrying(k.log) <= KeptCarrying(h.log) + 1
      && match outcome.1
         case Remaining(ms) => k.use == Consumed && Kept(k.log) == Kept(h.log) + ms
         case CloseUnknown => k.use == Consumed && Kept(k.log) == Kept(h.log)
         case AwaitTask => k.use == Closing && k.log == h.log
  {
    match outcome.1
    case Remaining(ms) => LogSnoc(h.log, Ended(ms, true, Unclear));
    case CloseUnknown =>
      LogSnoc(h.log, Ended([], true, Unclear));
      assert Kept(h.log) + [] == Kept(h.log);
    case AwaitTask =>
  }

  lemma CloseLog(h: History)
    requires Valid(h.handler) && h.use == InUse
    ensures var k := Apply(h, CallsClose(true));
      && k.handler.task == h.handler.task && k.handler.dropped == h.handler.dropped
      && k.produced == h.produced && KeptCarrying(k.log) <= KeptCarrying(h.log) + 1
      && match BeginClose(h.handler).1
         case Remaining(ms) =>
           && k.use == Consumed && k.handler.task.Some?
           && ms == Remainder(h.handler) && Kept(k.log) == Kept(h.log) + ms
         case CloseUnknown =>
           k.use == Consumed && k.handler == h.handler && h.handler.dropped && h.handler.cached.None?
           && Kept(k.log) == Kept(h.log)
         case AwaitTask =>
           k.use == Closing && k.handler == h.handler && !h.handler.dropped && h.handler.cached.None?
           && k.log == h.log
  {
    CloseAnswer(h.handler);
    AfterCloseLog(h, BeginClose(h.handler));
  }

  lemma CloseReturnsLog(h: History)
    requires Enabled(h, CloseReturns(true))
    ensures var k := Apply(h, CloseReturns(true));
      && k.use == Consumed && k.handler.task.Some? && k.produced == h.produced && KeptCarrying(k.log) <= KeptCarrying(h.log) + 1
      && Kept(k.log) == Kept(h.log) + h.handler.channel
  {
    LogSnoc(h.log, Ended(h.handler.channel, true, Unclear));
  }

  /** Who has the handle after a step: a read, a write and an answered status request give
      it back, a status request or a close that is accepted waits, a close never gives it
      back, and a panic takes the caller down. */
  lemma UseExactly(h: History, e: Event)
    requires Inv(h) && Enabled(h, e)
    ensures var k := Apply(h, e); var window := h.handler.dropped && h.handler.task.None?;
      match e
      case CallsRead(_) => k.use == if window && h.handler.channel == [] then Crashed else InUse
      case StatusLost(_) => k.use == if window then Crashed else InUse
      case CallsWrite(_) => k.use == InUse
      case StatusComes => k.use == InUse
      case CallsStatus(_) => k.use == if h.handler.dropped then InUse else Asking
      case CallsClose(_) => k.use == if h.handler.dropped then Consumed else Closing
      case CloseReturns(_) => k.use == Consumed
      case _ => k.use == h.use
  {
    WindowExactly(h.handler);
  }

  // ---------------------------------------------------------------------------
  // What is told about the end.

  /** Every answer that names an end names the one the task really had. */
  ghost predicate TellsTruly(h: History) {
    forall i :: 0 <= i < |h.log| && h.log[i].Ended? ==>
      && (h.log[i].told == Normally ==> h.handler.task == Some(TaskOk))
      && (h.log[i].told == WithError ==> h.handler.task == Some(TaskErr))
  }

  /** A read, a write and a status request name the end as soon as the task counts as
      finished, by its result, and never before. */
  lemma AnswersName(h: History, e: Event)
    requires Inv(h) && Enabled(h, e)
    requires e.CallsRead? || e.CallsWrite? || e.CallsStatus? || e.StatusLost?
    ensures var k := Apply(h, e);
      && k.handler.task == h.handler.task
      && (|k.log| > |h.log| && k.log[|h.log|].Ended? ==>
            k.log[|h.log|].told == match h.handler.task
                                   case Some(TaskOk) => Normally
                                   case Some(TaskErr) => WithError
                                   case None => Unclear)
      && (k.handler.cached.Some? ==> Names(k.handler.cached.value, k.handler.task))
  {
    StepInv(h, e);
  }

  lemma StepTells(h: History, e: Event)
    requires Inv(h) && Enabled(h, e) && TellsTruly(h)
    ensures TellsTruly(Apply(h, e))
  {
    var k := Apply(h, e);
    if e.CallsRead? || e.CallsWrite? || e.CallsStatus? || e.StatusLost? {
      AnswersName(h, e);
    }
    forall i | 0 <= i < |k.log| && k.log[i].Ended?
      ensures k.log[i].told == Normally ==> k.handler.task == Some(TaskOk)
      ensures k.log[i].told == WithError ==> k.handler.task == Some(TaskErr)
    {
      if i < |h.log| {
        assert k.log[i] == h.log[i];
      }
    }
  }

  /** Over all runs: a cached result is Normal exactly when the connection ended with Ok
      and Error exactly when it ended with an error, and no answer ever says otherwise. */
  lemma {:induction false} EndIsNamed(run: seq<History>, i: nat)
    requires IsRun(run) && i < |run|
    ensures TellsTruly(run[i])
    ensures run[i].handler.cached.Some? ==>
      && (run[i].handler.cached.value.Normal? <==> run[i].handler.task == Some(TaskOk))
      && (run[i].handler.cached.value.Error? <==> run[i].handler.task == Some(TaskErr))
  {
    RunInv(run, i);
    if i > 0 {
      EndIsNamed(run, i - 1);
      RunInv(run, i - 1);
      assert Next(run[i - 1], run[i]);
      var e :| Enabled(run[i - 1], e) && run[i] == Apply(run[i - 1], e);
      StepTells(run[i - 1], e);
    }
  }
}
