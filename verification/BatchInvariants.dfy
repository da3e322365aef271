/**
 What every interleaving of clients and worker keeps: permits are conserved, each accepted message is answered
 once and in order, all errors are the first error, and the batch limit holds.
 */
module BatchInvariants {
  import opened Prelude
  import opened BatchModel

  // ---------------------------------------------------------------- errors

  ghost predicate ErrorInv(s: System) {
    // the worker's own error and the exposed one agree
    && (s.failed.Some? ==> s.handle == s.failed && s.channelClosed && s.semaphoreClosed)
    && (s.pc.Publishing? ==> s.handle == Some(s.pc.error) && s.failed.None?)
    && (s.handle.Some? && s.failed.None? ==> s.pc.Publishing?)
    // publication order: first the error, then the channel, then the semaphore
    && (s.channelClosed ==> s.handle.Some?)
    && (s.semaphoreClosed ==> s.channelClosed)
    && (s.pc.Publishing? ==> (s.channelClosed <==> s.pc.stage != CloseChannel))
    && (s.pc.Publishing? ==> (s.semaphoreClosed <==> s.pc.stage == SetFailed))
    // a working worker has not failed, a draining one has
    && (s.pc.Receiving? || s.pc.Flushing? ==> s.handle.None?)
    && (s.pc.Draining? || s.pc.Dropped? ==> s.failed.Some?)
    // nobody is told anything but the exposed error
    && (forall i :: 0 <= i < |s.answers| && s.answers[i].error.Some? ==> s.handle == s.answers[i].error)
    && (forall c :: c in s.views && s.views[c] == SawClosed ==> s.handle.Some?)
    && (forall c :: c in s.views && s.views[c].GotError? ==> s.handle == Some(s.views[c].error))
  }

  /** A failure outside of a publication: the first one starts publishing, a later one changes nothing. */
  lemma FailErrorInv(s: System, error: Error, after: Then)
    requires ErrorInv(s) && !s.pc.Publishing?
    ensures ErrorInv(Fail(s, error, after))
  {
  }

  lemma PublishErrorInv(s: System)
    requires ErrorInv(s) && s.pc.Publishing?
    ensures ErrorInv(PublishStep(s))
  {
  }

  lemma TakeErrorInv(s: System)
    requires ErrorInv(s) && s.queue != []
    ensures s.pc.Select? ==> ErrorInv(StartRequest(s))
    ensures s.pc.Draining? ==> s.failed.Some? && ErrorInv(DrainStep(s))
  {
  }

  lemma ServiceErrorInv(s: System, error: Option<Error>)
    requires ErrorInv(s)
    ensures ErrorInv(ServiceStep(s, error))
  {
    hide Fail;
    if error.Some? && s.pc.Receiving? { FailErrorInv(s, error.value, AnswerMessage(s.pc.msg, s.pc.isNew)); }
    if error.Some? && s.pc.Flushing? { FailErrorInv(s, error.value, EndArm(s.pc.holdsPermit)); }
  }

  lemma WorkerErrorInv(s: System, e: WorkerEvent)
    requires ErrorInv(s)
    ensures ErrorInv(WorkerStep(s, e))
  {
    hide Fail, PublishStep, StartRequest, ServiceStep;
    match e
    case BatchFinished(error) =>
      if s.pc.Select? && s.running > 0 && error.Some? {
        FailErrorInv(s.(running := s.running - 1), error.value, EndArm(false));
      }
    case ReceiveNone => if s.pc.Select? { FailErrorInv(s, Closed, DrainQueue); }
    case Cancel =>
      if s.pc.Select? {
        FailErrorInv(s, Closed, DrainQueue);
      } else if s.pc.Flushing? {
        FailErrorInv(FinishArm(s, s.pc.holdsPermit), Closed, DrainQueue);
      }
    case ReceiveMessage => if s.queue != [] { TakeErrorInv(s); }
    case Drain => if s.queue != [] { TakeErrorInv(s); }
    case ServiceReady(error) => ServiceErrorInv(s, error);
    case Publish => if s.pc.Publishing? { PublishErrorInv(s); }
    case TimeoutElapses =>
    case TimerExpired =>
    case AfterRequest =>
  }

  lemma ClientErrorInv(s: System, c: nat, e: ClientEvent)
    requires ErrorInv(s)
    ensures ErrorInv(ClientStep(s, c, e))
  {
  }

  lemma NoErrorYet(s: System)
    requires ErrorInv(s) && s.handle.None?
    ensures forall i :: 0 <= i < |s.answers| ==> s.answers[i].error.None?
  {
  }

  lemma FailHandle(s: System, error: Error, after: Then)
    ensures s.handle.Some? ==> Fail(s, error, after).handle == s.handle
    ensures Fail(s, error, after).cfg == s.cfg
  {
  }

  lemma WorkerHandle(s: System, e: WorkerEvent)
    ensures s.handle.Some? ==> WorkerStep(s, e).handle == s.handle
    ensures WorkerStep(s, e).cfg == s.cfg
  {
    hide Fail;
    match e
    case BatchFinished(error) =>
      if s.running > 0 && error.Some? { FailHandle(s.(running := s.running - 1), error.value, EndArm(false)); }
    case ReceiveNone => FailHandle(s, Closed, DrainQueue);
    case Cancel =>
      FailHandle(s, Closed, DrainQueue);
      if s.pc.Flushing? { FailHandle(FinishArm(s, s.pc.holdsPermit), Closed, DrainQueue); }
    case ServiceReady(error) =>
      if error.Some? && s.pc.Receiving? { FailHandle(s, error.value, AnswerMessage(s.pc.msg, s.pc.isNew)); }
      if error.Some? && s.pc.Flushing? { FailHandle(s, error.value, EndArm(s.pc.holdsPermit)); }
    case TimeoutElapses =>
    case TimerExpired =>
    case ReceiveMessage =>
    case AfterRequest =>
    case Publish =>
    case Drain =>
  }

  /** The exposed error never changes. */
  lemma StepHandle(s: System, e: Event)
    ensures s.handle.Some? ==> Step(s, e).handle == s.handle
    ensures Step(s, e).cfg == s.cfg
  {
    hide WorkerStep;
    if e.OfWorker? { WorkerHandle(s, e.w); }
  }

  // ---------------------------------------------------------------- permits

  /** The permits that travel with the message being processed. */
  function InFlight(pc: Pc): nat {
    match pc
    case Receiving(_, _) => 1
    case Received(_) => 1
    case Flushing(holdsPermit) => if holdsPermit then 1 else 0
    case Publishing(_, _, AnswerMessage(_, _)) => 1
    case Publishing(_, _, EndArm(holdsPermit)) => if holdsPermit then 1 else 0
    case _ => 0
  }

  ghost predicate PermitInv(s: System) {
    && s.available + |s.held| + |s.queue| + InFlight(s.pc) == s.cfg.permits
    && s.held <= s.views.Keys
  }

  /** The permits that a continuation carries. */
  function Carried(after: Then): nat {
    match after
    case AnswerMessage(_, _) => 1
    case EndArm(holdsPermit) => if holdsPermit then 1 else 0
    case DrainQueue => 0
  }

  /** A failure carries on with the permits the worker has in flight. */
  lemma FailPermitInv(s: System, error: Error, after: Then)
    requires PermitInv(s) && s.failed == s.handle && InFlight(s.pc) == Carried(after)
    ensures PermitInv(Fail(s, error, after))
  {
  }

  lemma PublishPermitInv(s: System)
    requires PermitInv(s) && s.pc.Publishing?
    ensures PermitInv(PublishStep(s))
  {
  }

  lemma ServicePermitInv(s: System, error: Option<Error>)
    requires ErrorInv(s) && PermitInv(s)
    ensures PermitInv(ServiceStep(s, error))
  {
    hide Fail, ErrorInv;
    ErrorKnown(s);
    if error.Some? && s.pc.Receiving? { FailPermitInv(s, error.value, AnswerMessage(s.pc.msg, s.pc.isNew)); }
    if error.Some? && s.pc.Flushing? { FailPermitInv(s, error.value, EndArm(s.pc.holdsPermit)); }
  }

  lemma WorkerPermitInv(s: System, e: WorkerEvent)
    requires ErrorInv(s) && PermitInv(s)
    ensures PermitInv(WorkerStep(s, e))
  {
    hide Fail, PublishStep, ServiceStep, ErrorInv;
    ErrorKnown(s);
    match e
    case BatchFinished(error) =>
      if s.pc.Select? && s.running > 0 && error.Some? {
        FailPermitInv(s.(running := s.running - 1), error.value, EndArm(false));
      }
    case ReceiveNone => if s.pc.Select? { FailPermitInv(s, Closed, DrainQueue); }
    case Cancel =>
      if s.pc.Select? {
        FailPermitInv(s, Closed, DrainQueue);
      } else if s.pc.Flushing? {
        FailPermitInv(FinishArm(s, s.pc.holdsPermit), Closed, DrainQueue);
      }
    case ServiceReady(error) => ServicePermitInv(s, error);
    case Publish => if s.pc.Publishing? { PublishPermitInv(s); }
    case ReceiveMessage =>
    case Drain =>
    case TimeoutElapses =>
    case TimerExpired =>
    case AfterRequest =>
  }

  lemma ClientPermitInv(s: System, c: nat, e: ClientEvent)
    requires PermitInv(s)
    ensures PermitInv(ClientStep(s, c, e))
  {
  }

  // ---------------------------------------------------------------- messages

  function Messages(a: seq<Answer>): (r: seq<Msg>)
    ensures |r| == |a| && forall i :: 0 <= i < |a| ==> r[i] == a[i].msg
  {
    seq(|a|, i requires 0 <= i < |a| => a[i].msg)
  }

  /** The message the worker has taken but not answered. */
  function Unanswered(pc: Pc): seq<Msg> {
    match pc
    case Receiving(msg, _) => [msg]
    case Publishing(_, _, AnswerMessage(msg, _)) => [msg]
    case _ => []
  }

  /** Answers follow the order of acceptance, one each, and nothing is skipped. */
  ghost predicate MessageInv(s: System) {
    && Places(s.answers, Unanswered(s.pc), s.queue) == s.accepted
    && (s.pc.Dropped? ==> s.queue == [])
  }

  lemma MessagesSnoc(a: seq<Answer>, x: Answer)
    ensures Messages(a + [x]) == Messages(a) + [x.msg]
  {
  }

  /** The three places of a message, in order: answered, in the worker's hand, queued. */
  function Places(a: seq<Answer>, hand: seq<Msg>, queue: seq<Msg>): seq<Msg> {
    Messages(a) + hand + queue
  }

  lemma TakeFromQueue(a: seq<Answer>, queue: seq<Msg>, x: Answer)
    requires queue != [] && x.msg == queue[0]
    ensures Places(a, [x.msg], queue[1..]) == Places(a, [], queue)
    ensures Places(a + [x], [], queue[1..]) == Places(a, [], queue)
  {
    MessagesSnoc(a, x);
    assert queue == [x.msg] + queue[1..];
  }

  lemma AnswerHand(a: seq<Answer>, queue: seq<Msg>, x: Answer)
    ensures Places(a + [x], [], queue) == Places(a, [x.msg], queue)
  {
    MessagesSnoc(a, x);
  }

  lemma FailMessages(s: System, error: Error, after: Then)
    requires s.failed == s.handle && MessageInv(s)
    requires Unanswered(s.pc) == if after.AnswerMessage? then [after.msg] else []
    requires after.AnswerMessage? ==> s.handle.None?
    ensures MessageInv(Fail(s, error, after))
  {
    hide Places;
  }

  /** A worker step moves a message from the queue to the hand, or from either to the answers. */
  lemma WorkerMessageInv(s: System, e: WorkerEvent)
    requires ErrorInv(s) && MessageInv(s)
    ensures MessageInv(WorkerStep(s, e))
  {
    hide ErrorInv, Messages, Places, Fail;
    ErrorKnown(s);
    match e
    case ReceiveMessage =>
      if s.queue != [] { TakeFromQueue(s.answers, s.queue, Answer(s.queue[0], s.failed)); }
    case Drain =>
      if s.queue != [] { TakeFromQueue(s.answers, s.queue, Answer(s.queue[0], s.failed)); }
    case ServiceReady(error) =>
      if s.pc.Receiving? {
        AnswerHand(s.answers, s.queue, Answer(s.pc.msg, None));
        if error.Some? { FailMessages(s, error.value, AnswerMessage(s.pc.msg, s.pc.isNew)); }
      } else if s.pc.Flushing? && error.Some? {
        FailMessages(s, error.value, EndArm(s.pc.holdsPermit));
      }
    case Publish =>
      if s.pc.Publishing? && s.pc.after.AnswerMessage? {
        AnswerHand(s.answers, s.queue, Answer(s.pc.after.msg, Some(s.pc.error)));
      }
    case BatchFinished(error) =>
      if s.pc.Select? && s.running > 0 && error.Some? {
        FailMessages(s.(running := s.running - 1), error.value, EndArm(false));
      }
    case ReceiveNone => if s.pc.Select? { FailMessages(s, Closed, DrainQueue); }
    case Cancel =>
      if s.pc.Select? {
        FailMessages(s, Closed, DrainQueue);
      } else if s.pc.Flushing? {
        FailMessages(FinishArm(s, s.pc.holdsPermit), Closed, DrainQueue);
      }
    case TimeoutElapses =>
    case TimerExpired =>
    case AfterRequest =>
  }

  lemma ErrorKnown(s: System)
    requires ErrorInv(s)
    ensures s.pc.Draining? || s.pc.Dropped? ==> s.failed.Some?
    ensures s.pc.Receiving? || s.pc.Flushing? ==> s.handle.None? && s.failed.None?
    ensures s.pc.Publishing? ==> s.failed.None? && s.handle == Some(s.pc.error)
    ensures s.failed.Some? ==> s.channelClosed && s.handle == s.failed
    ensures s.handle.Some? && s.failed.None? ==> s.pc.Publishing?
  {
  }

  lemma ClientMessageInv(s: System, c: nat, e: ClientEvent)
    requires ErrorInv(s) && MessageInv(s)
    ensures MessageInv(ClientStep(s, c, e))
  {
    hide Messages, ErrorInv;
    ErrorKnown(s);
    if e.CallService? {
      assert Places(s.answers, Unanswered(s.pc), s.queue + [e.msg])
          == Places(s.answers, Unanswered(s.pc), s.queue) + [e.msg];
    }
  }

  // ---------------------------------------------------------------- running batches

  /** An armed timer, and a message in hand, reserve room for one more batch. */
  ghost predicate RunningInv(s: System) {
    && s.running <= s.cfg.maxBatches
    && (s.handle.None? && s.timer != Off ==> s.running < s.cfg.maxBatches)
    && (s.handle.None? && (s.pc.Receiving? || s.pc.Received? || s.pc.Flushing?) ==> s.running < s.cfg.maxBatches)
  }

  lemma ClientRunningInv(s: System, c: nat, e: ClientEvent)
    requires RunningInv(s)
    ensures RunningInv(ClientStep(s, c, e))
  {
  }

  lemma WorkerRunningInv(s: System, e: WorkerEvent)
    requires ErrorInv(s) && RunningInv(s)
    ensures RunningInv(WorkerStep(s, e))
  {
    hide ErrorInv;
    ErrorKnown(s);
  }

  // ---------------------------------------------------------------- all runs

  ghost predicate Inv(s: System) {
    ErrorInv(s) && PermitInv(s) && MessageInv(s) && RunningInv(s)
  }

  lemma StepInv(s: System, e: Event)
    requires Inv(s)
    ensures Inv(Step(s, e))
  {
    hide ErrorInv, PermitInv, MessageInv, RunningInv, WorkerStep, ClientStep;
    match e
    case OfWorker(w) =>
      WorkerErrorInv(s, w);
      WorkerPermitInv(s, w);
      WorkerMessageInv(s, w);
      WorkerRunningInv(s, w);
    case OfClient(client, c) =>
      ClientErrorInv(s, client, c);
      ClientPermitInv(s, client, c);
      ClientMessageInv(s, client, c);
      ClientRunningInv(s, client, c);
  }

  lemma {:induction false} RunInv(cfg: Config, es: seq<Event>)
    ensures Inv(Run(Init(cfg), es)) && Run(Init(cfg), es).cfg == cfg
  {
    if es != [] {
      RunInv(cfg, es[..|es| - 1]);
      StepInv(Run(Init(cfg), es[..|es| - 1]), es[|es| - 1]);
      StepHandle(Run(Init(cfg), es[..|es| - 1]), es[|es| - 1]);
    }
  }

  /**
   Permit conservation: in every reachable state, the permits that are available, held by clients, queued with
   a message, or carried by the message being processed add up to the maximum weight times the number of batches,
   where the weight counts as at least 1 and the batches as at least 1 and at most 64. So the queue of the unbounded
   channel never exceeds that bound.
   */
  lemma PermitsConserved(maxItemsWeight: nat, maxBatches: nat, es: seq<Event>)
    ensures var s := Run(Init(Pair(maxItemsWeight, maxBatches)), es);
            var total := s.available + |s.held| + |s.queue| + InFlight(s.pc);
            var weight := if maxItemsWeight == 0 then 1 else maxItemsWeight;
            && (maxBatches == 0 ==> total == weight)
            && (1 <= maxBatches <= 64 ==> total == weight * maxBatches)
            && (maxBatches > 64 ==> total == weight * 64)
            && |s.queue| <= total
  {
    RunInv(Pair(maxItemsWeight, maxBatches), es);
  }

  /**
   The number of running batches never exceeds the number given to `pair`, which is not clamped here, although the
   timer branch does not test it.
   */
  lemma RunningBatchesBounded(maxItemsWeight: nat, maxBatches: nat, es: seq<Event>)
    ensures Run(Init(Pair(maxItemsWeight, maxBatches)), es).running <= maxBatches
  {
    RunInv(Pair(maxItemsWeight, maxBatches), es);
  }

  /** The flushes among the calls of the inner service. */
  function Flushes(trace: seq<Control>): nat {
    if trace == [] then 0 else Flushes(trace[..|trace| - 1]) + if trace[|trace| - 1].Flush? then 1 else 0
  }

  /** The worker takes the result of a batch. */
  predicate Finishes(s: System, e: Event) {
    e.OfWorker? && e.w.BatchFinished? && s.pc.Select? && s.running > 0
  }

  /** How many batches have finished in a run. */
  function FinishedBatches(s: System, es: seq<Event>): nat {
    if es == [] then 0
    else
      var n := |es| - 1;
      FinishedBatches(s, es[..n]) + if Finishes(Run(s, es[..n]), es[n]) then 1 else 0
  }

  lemma FlushesSnoc(trace: seq<Control>, c: Control)
    ensures Flushes(trace + [c]) == Flushes(trace) + if c.Flush? then 1 else 0
  {
    assert (trace + [c])[..|trace|] == trace;
  }

  lemma FailRunsNothing(s: System, error: Error, after: Then)
    ensures Fail(s, error, after).running == s.running && Fail(s, error, after).trace == s.trace
  {
  }

  lemma WorkerRuns(s: System, e: WorkerEvent)
    ensures var s' := WorkerStep(s, e);
            s'.running + (if Finishes(s, OfWorker(e)) then 1 else 0) + Flushes(s.trace)
              == s.running + Flushes(s'.trace)
  {
    hide Fail, Flushes;
    match e
    case BatchFinished(error) =>
      if s.running > 0 && error.Some? { FailRunsNothing(s.(running := s.running - 1), error.value, EndArm(false)); }
    case ServiceReady(error) =>
      if s.pc.Receiving? {
        FlushesSnoc(s.trace, Item(s.pc.msg));
        if error.Some? { FailRunsNothing(s, error.value, AnswerMessage(s.pc.msg, s.pc.isNew)); }
      } else if s.pc.Flushing? {
        FlushesSnoc(s.trace, Flush);
        if error.Some? { FailRunsNothing(s, error.value, EndArm(s.pc.holdsPermit)); }
      }
    case ReceiveNone => FailRunsNothing(s, Closed, DrainQueue);
    case Cancel =>
      FailRunsNothing(s, Closed, DrainQueue);
      if s.pc.Flushing? { FailRunsNothing(FinishArm(s, s.pc.holdsPermit), Closed, DrainQueue); }
    case _ =>
  }

  lemma ClientRunsNothing(s: System, c: nat, e: ClientEvent)
    ensures ClientStep(s, c, e).running == s.running && ClientStep(s, c, e).trace == s.trace
  {
  }

  lemma {:induction false} RunningIs(cfg: Config, es: seq<Event>)
    ensures var s := Run(Init(cfg), es); s.running + FinishedBatches(Init(cfg), es) == Flushes(s.trace)
  {
    hide WorkerStep, ClientStep, Flushes, Finishes;
    if es == [] {
      assert Flushes([]) == 0 by { NoFlushes(); }
    } else {
      var n := |es| - 1;
      RunningIs(cfg, es[..n]);
      var s := Run(Init(cfg), es[..n]);
      match es[n]
      case OfWorker(w) => WorkerRuns(s, w);
      case OfClient(client, c) => ClientRunsNothing(s, client, c); NotWorker(s, es[n]);
    }
  }

  lemma NoFlushes()
    ensures Flushes([]) == 0
  {
  }

  lemma NotWorker(s: System, e: Event)
    ensures e.OfClient? ==> !Finishes(s, e)
  {
  }

  /**
   The running batches are exactly those that were flushed and have not finished. So the inner service never has more
   unfinished flushes than the number of batches given to `pair`.
   */
  lemma UnfinishedFlushesBounded(maxItemsWeight: nat, maxBatches: nat, es: seq<Event>)
    ensures var start := Init(Pair(maxItemsWeight, maxBatches));
            var s := Run(start, es);
            && s.running == Flushes(s.trace) - FinishedBatches(start, es)
            && Flushes(s.trace) <= FinishedBatches(start, es) + maxBatches
  {
    hide Run;
    RunningIs(Pair(maxItemsWeight, maxBatches), es);
    RunningBatchesBounded(maxItemsWeight, maxBatches, es);
  }

  /**
   Each message the channel accepted has at most one answer in every reachable state, in the order of
   acceptance; when the worker is gone, each has exactly one.
   */
  lemma AnsweredOnceInOrder(cfg: Config, es: seq<Event>)
    ensures var s := Run(Init(cfg), es);
            && Messages(s.answers) <= s.accepted
            && |s.accepted| <= |s.answers| + 1 + |s.queue|
            && (s.pc.Dropped? ==> Messages(s.answers) == s.accepted)
  {
    RunInv(cfg, es);
    var s := Run(Init(cfg), es);
    assert s.accepted[..|s.answers|] == Messages(s.answers);
  }

  lemma {:induction false} HandleStays(s: System, es: seq<Event>)
    requires s.handle.Some?
    ensures Run(s, es).handle == s.handle
  {
    if es != [] {
      HandleStays(s, es[..|es| - 1]);
      StepHandle(Run(s, es[..|es| - 1]), es[|es| - 1]);
    }
  }

  lemma RunNothing(s: System)
    ensures Run(s, []) == s
  {
  }

  lemma {:induction false} RunAppend(s: System, a: seq<Event>, b: seq<Event>)
    ensures Run(s, a + b) == Run(Run(s, a), b)
  {
    if b == [] {
      assert a + b == a;
    } else {
      RunAppend(s, a, b[..|b| - 1]);
      assert (a + b)[..|a + b| - 1] == a + b[..|b| - 1];
    }
  }

  /**
   There is one error for everybody. Once an error is exposed, every later error answer carries it, and a
   client that finds the channel or the semaphore closed reads it, never `Closed` in its place. Before that,
   nothing is closed and nobody has been given an error.
   */
  lemma OneErrorForAll(cfg: Config, before: seq<Event>, after: seq<Event>)
    ensures var s := Run(Init(cfg), before);
            var s' := Run(Init(cfg), before + after);
            if s.handle.None? then
              && !s.channelClosed && !s.semaphoreClosed
              && (forall i :: 0 <= i < |s.answers| ==> s.answers[i].error.None?)
              && (forall c :: c in s.views ==> !s.views[c].GotError?)
            else
              && s'.handle == s.handle
              && (forall i :: 0 <= i < |s'.answers| && s'.answers[i].error.Some? ==> s'.answers[i].error == s.handle)
              && (forall c :: c in s'.views && s'.views[c].GotError? ==> Some(s'.views[c].error) == s.handle)
              && (forall c :: c in s'.views && s'.views[c] == SawClosed ==>
                    ClientStep(s', c, ReadError).views[c] == GotError(s.handle.value))
  {
    RunInv(cfg, before);
    RunInv(cfg, before + after);
    RunAppend(Init(cfg), before, after);
    var s := Run(Init(cfg), before);
    if s.handle.Some? { HandleStays(s, after); }
  }

  // ---------------------------------------------------------------- the select statement

  /** Some branch of the select statement is enabled. */
  predicate SomeBranchEnabled(s: System) {
    s.running > 0 || s.timer != Off || CanSpawnNewBatches(s)
  }

  /** The select statement finds an enabled branch in every run exactly when `pair` is given at least one batch. */
  lemma SelectNeverStuck(maxItemsWeight: nat, maxBatches: nat)
    ensures maxBatches >= 1 <==> AlwaysEnabled(Pair(maxItemsWeight, maxBatches))
  {
    var cfg := Pair(maxItemsWeight, maxBatches);
    if maxBatches >= 1 {
      forall es: seq<Event> ensures SomeBranchEnabled(Run(Init(cfg), es)) {
        EnabledInRun(cfg, es);
      }
    } else {
      EnabledAtStart(cfg);
    }
  }

  ghost predicate AlwaysEnabled(cfg: Config) {
    forall es: seq<Event> :: SomeBranchEnabled(Run(Init(cfg), es))
  }

  lemma EnabledInRun(cfg: Config, es: seq<Event>)
    requires cfg.maxBatches >= 1
    ensures SomeBranchEnabled(Run(Init(cfg), es))
  {
    RunInv(cfg, es);
  }

  lemma EnabledAtStart(cfg: Config)
    ensures AlwaysEnabled(cfg) ==> cfg.maxBatches >= 1
  {
    var none: seq<Event> := [];
    assert Run(Init(cfg), none) == Init(cfg);
    assert AlwaysEnabled(cfg) ==> SomeBranchEnabled(Run(Init(cfg), none));
  }
}
