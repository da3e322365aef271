/**
 Which requests can still be answered. The worker can answer every accepted request from every reachable state but
 one kind: a failed worker whose timer has elapsed never looks at its messages again, because the timer branch
 comes first and does nothing.
 */
module BatchProgress {
  import opened Prelude
  import opened BatchModel
  import opened BatchInvariants
  import opened BatchService
  import opened BatchTimer

  /** A step of the worker itself, or a success of the inner service. */
  predicate Smooth(e: Event) {
    e in {OfWorker(ReceiveMessage), OfWorker(TimerExpired), OfWorker(BatchFinished(None)), OfWorker(ServiceReady(None)),
          OfWorker(AfterRequest), OfWorker(Publish), OfWorker(Drain)}
  }

  predicate AllSmooth(es: seq<Event>) {
    forall i :: 0 <= i < |es| ==> Smooth(es[i])
  }

  lemma SmoothStep(s: System, e: Event)
    requires Smooth(e)
    ensures Step(s, e).accepted == s.accepted && Step(s, e).handle == s.handle && Step(s, e).cfg == s.cfg
  {
  }

  /** Smooth steps accept nothing and fail nothing. */
  lemma {:induction false} SmoothRun(s: System, es: seq<Event>)
    requires AllSmooth(es)
    ensures Run(s, es).accepted == s.accepted && Run(s, es).handle == s.handle && Run(s, es).cfg == s.cfg
  {
    hide Step, Smooth;
    if es != [] {
      SmoothRun(s, es[..|es| - 1]);
      SmoothStep(Run(s, es[..|es| - 1]), es[|es| - 1]);
    }
  }

  lemma SmoothAppend(a: seq<Event>, b: seq<Event>)
    requires AllSmooth(a) && AllSmooth(b)
    ensures AllSmooth(a + b)
  {
    hide Smooth;
  }

  // ---------------------------------------------------------------- getting to the select statement

  /** The steps that finish whatever the worker is doing. */
  const SETTLE: seq<Event> :=
    PUBLISH + [OfWorker(ServiceReady(None)), OfWorker(AfterRequest), OfWorker(ServiceReady(None))]

  /** How many publication steps are left. */
  function PublishRank(pc: Pc): nat {
    if !pc.Publishing? then 0 else if pc.stage.CloseChannel? then 3 else if pc.stage.CloseSemaphore? then 2 else 1
  }

  lemma PublishOnce(s: System)
    ensures var s' := Step(s, OfWorker(Publish));
            s'.queue == s.queue && PublishRank(s'.pc) == if PublishRank(s.pc) == 0 then 0 else PublishRank(s.pc) - 1
  {
  }

  lemma PublishEnds(s: System)
    ensures !Run(s, PUBLISH).pc.Publishing? && Run(s, PUBLISH).queue == s.queue
  {
    hide Step, Run;
    var e := OfWorker(Publish);
    RunThree(s, e, e, e);
    PublishOnce(s);
    PublishOnce(Step(s, e));
    PublishOnce(Step(Step(s, e), e));
  }

  /** An idle worker waits in its select statement, drains its channel, or is gone. */
  predicate Idle(s: System) {
    s.pc.Select? || s.pc.Draining? || s.pc.Dropped?
  }

  lemma ServiceEnds(s: System)
    requires !s.pc.Publishing?
    ensures var t := ServiceStep(s, None);
            && t.queue == s.queue && (Idle(t) || t.pc.Received?)
            && (Idle(s) || s.pc.Flushing? ==> Idle(t))
  {
  }

  lemma RequestEnds(s: System)
    requires Idle(s) || s.pc.Received?
    ensures var t := WorkerStep(s, AfterRequest); t.queue == s.queue && (Idle(t) || t.pc.Flushing?)
  {
  }

  lemma WorkEnds(s: System)
    requires !s.pc.Publishing?
    ensures var t := ServiceStep(WorkerStep(ServiceStep(s, None), AfterRequest), None);
            Idle(t) && t.queue == s.queue
  {
    hide ServiceStep, WorkerStep;
    var t := ServiceStep(s, None);
    ServiceEnds(s);
    RequestEnds(t);
    ServiceEnds(WorkerStep(t, AfterRequest));
  }

  lemma Settles(s: System)
    ensures Idle(Run(s, SETTLE)) && Run(s, SETTLE).queue == s.queue
  {
    hide Run, Idle;
    var t := Run(s, PUBLISH);
    PublishEnds(s);
    WorkEnds(t);
    RunAppend(s, PUBLISH, [OfWorker(ServiceReady(None)), OfWorker(AfterRequest), OfWorker(ServiceReady(None))]);
    RunThree(t, OfWorker(ServiceReady(None)), OfWorker(AfterRequest), OfWorker(ServiceReady(None)));
  }

  lemma SettleIsSmooth()
    ensures AllSmooth(SETTLE) && AllSmooth(PUBLISH) && AllSmooth(MessageEvents(None, None))
  {
  }

  // ---------------------------------------------------------------- starvation

  /** A failed worker at its select statement, with an elapsed timer. */
  predicate Starved(s: System) {
    s.pc.Select? && s.failed.Some? && TimerReady(s)
  }

  /** The worker is not dropped from outside. */
  predicate Uncancelled(es: seq<Event>) {
    forall i :: 0 <= i < |es| ==> es[i] != OfWorker(Cancel)
  }

  lemma StarvedWorkerStep(s: System, e: WorkerEvent)
    requires Starved(s) && s.handle == s.failed && e != Cancel
    ensures var s' := WorkerStep(s, e);
            && Starved(s') && s'.answers == s.answers && s'.queue == s.queue && s'.handle == s.handle
            && s'.failed == s.failed && s'.channelClosed == s.channelClosed
  {
  }

  lemma StarvedClientStep(s: System, c: nat, e: ClientEvent)
    requires Starved(s) && s.channelClosed
    ensures var s' := ClientStep(s, c, e);
            && Starved(s') && s'.answers == s.answers && s'.queue == s.queue && s'.handle == s.handle
            && s'.failed == s.failed && s'.channelClosed == s.channelClosed
  {
  }

  /** Nothing but dropping it gets a starved worker to answer anything. */
  lemma {:induction false} StarvedForEver(s: System, es: seq<Event>)
    requires Inv(s) && Starved(s) && Uncancelled(es)
    ensures var s' := Run(s, es);
            && Starved(s') && s'.answers == s.answers && s'.queue == s.queue && s'.handle == s.handle
            && s'.failed == s.failed && s'.channelClosed == s.channelClosed
  {
    hide Inv, Starved, WorkerStep, ClientStep;
    StarvedIsClosed(s);
    if es != [] {
      var n := |es| - 1;
      var t := Run(s, es[..n]);
      StarvedForEver(s, es[..n]);
      match es[n]
      case OfWorker(w) => StarvedWorkerStep(t, w);
      case OfClient(client, c) => StarvedClientStep(t, client, c);
    }
  }

  lemma StarvedIsClosed(s: System)
    requires Inv(s) && Starved(s)
    ensures s.handle == s.failed && s.channelClosed
  {
  }

  lemma SmoothWorkerStepFree(s: System, e: WorkerEvent)
    requires ErrorInv(s) && TimerInv(s) && !Starved(s) && s.cfg.maxWeight >= 1 && Smooth(OfWorker(e))
    ensures !Starved(WorkerStep(s, e))
  {
    hide ErrorInv, HasError;
    ErrorKnown(s);
  }

  /** Smooth steps do not starve the worker: each error answer starts a fresh timer, or none is armed. */
  lemma {:induction false} SmoothRunFree(s: System, es: seq<Event>)
    requires Inv(s) && TimerInv(s) && !Starved(s) && s.cfg.maxWeight >= 1 && AllSmooth(es)
    ensures !Starved(Run(s, es))
  {
    hide ErrorInv, PermitInv, MessageInv, RunningInv, TimerInv, Starved, WorkerStep;
    if es != [] {
      var n := |es| - 1;
      SmoothRunFree(s, es[..n]);
      RunTimerInv(s, es[..n]);
      assert Smooth(es[n]);
      SmoothWorkerStepFree(Run(s, es[..n]), es[n].w);
    }
  }

  // ---------------------------------------------------------------- answering the queue

  /** Flushes a batch whose timer has elapsed. */
  lemma FlushFirst(s: System) returns (es: seq<Event>)
    requires Inv(s) && s.pc.Select? && !Starved(s)
    ensures AllSmooth(es) && Run(s, es).pc.Select? && Run(s, es).queue == s.queue && !TimerReady(Run(s, es))
  {
    hide Inv, Run;
    InvIsQuiet(s);
    SettleIsSmooth();
    if TimerReady(s) {
      var flush := [OfWorker(TimerExpired), OfWorker(ServiceReady(None))];
      es := flush + PUBLISH;
      assert AllSmooth(flush);
      SmoothAppend(flush, PUBLISH);
      TimerRun(s, None);
    } else {
      es := [];
      RunNothing(s);
    }
  }

  /** Makes room for a batch. */
  lemma RoomFirst(s: System) returns (es: seq<Event>)
    requires Inv(s) && s.pc.Select? && !TimerReady(s) && s.cfg.maxBatches >= 1
    ensures AllSmooth(es) && Receives(Run(s, es)) && Run(s, es).queue == s.queue
  {
    hide Inv, Run;
    InvIsQuiet(s);
    LimitHolds(s);
    if CanSpawnNewBatches(s) {
      es := [];
      RunNothing(s);
    } else {
      es := [OfWorker(BatchFinished(None))];
      RunOne(s, OfWorker(BatchFinished(None)));
    }
  }

  lemma LimitHolds(s: System)
    requires Inv(s)
    ensures s.running <= s.cfg.maxBatches
  {
  }

  lemma TakesOne(s: System)
    requires Inv(s) && s.queue != [] && Receives(s)
    ensures Run(s, MessageEvents(None, None)).pc.Select? && Run(s, MessageEvents(None, None)).queue == s.queue[1..]
  {
    hide Run, Inv;
    InvIsQuiet(s);
    MessageRun(s, None, None);
  }

  /** Takes the next request. */
  lemma ServeOne(s: System) returns (es: seq<Event>)
    requires Inv(s) && s.pc.Select? && !Starved(s) && s.queue != [] && s.cfg.maxBatches >= 1
    ensures AllSmooth(es) && Run(s, es).pc.Select? && Run(s, es).queue == s.queue[1..]
  {
    hide Run, Inv, Starved, Receives, Smooth;
    var flush := FlushFirst(s);
    var t := Run(s, flush);
    RunKeepsInv(s, flush);
    SmoothRun(s, flush);
    var room := RoomFirst(t);
    RunKeepsInv(t, room);
    TakesOne(Run(t, room));
    SettleIsSmooth();
    SmoothAppend(flush, room);
    SmoothAppend(flush + room, MessageEvents(None, None));
    RunAppend(s, flush, room);
    RunAppend(s, flush + room, MessageEvents(None, None));
    es := flush + room + MessageEvents(None, None);
  }

  /** From the select statement, the whole queue can be answered. */
  lemma {:induction false} ServeAll(s: System) returns (es: seq<Event>)
    requires Inv(s) && TimerInv(s) && s.cfg.maxWeight >= 1
    requires s.pc.Select? && !Starved(s) && s.cfg.maxBatches >= 1
    ensures AllSmooth(es) && Run(s, es).pc.Select? && Run(s, es).queue == []
    decreases |s.queue|
  {
    hide Inv, TimerInv, Starved, Run;
    if s.queue == [] {
      es := [];
      RunNothing(s);
    } else {
      var one := ServeOne(s);
      RunTimerInv(s, one);
      SmoothRunFree(s, one);
      var rest := ServeAll(Run(s, one));
      es := one + rest;
      RunAppend(s, one, rest);
      SmoothAppend(one, rest);
    }
  }

  lemma AllAnswered(s: System)
    requires Inv(s) && Idle(s) && s.queue == []
    ensures Messages(s.answers) == s.accepted
  {
    hide ErrorInv, PermitInv, RunningInv;
  }

  lemma DropsAtEnd(s: System)
    requires Inv(s) && s.pc.Draining?
    ensures AllSmooth(DrainEvents(|s.queue| + 1))
    ensures Idle(Run(s, DrainEvents(|s.queue| + 1))) && Run(s, DrainEvents(|s.queue| + 1)).queue == []
  {
    hide Run, PermitInv, RunningInv, MessageInv;
    DrainRun(s);
  }

  lemma GoneIsEmpty(s: System)
    requires Inv(s) && s.pc.Dropped?
    ensures s.queue == []
  {
  }

  /** From an idle state, the whole queue can be answered. */
  lemma AnswerFromIdle(s: System) returns (es: seq<Event>)
    requires Inv(s) && TimerInv(s) && Idle(s) && !Starved(s) && s.cfg.maxBatches >= 1 && s.cfg.maxWeight >= 1
    ensures AllSmooth(es) && Messages(Run(s, es).answers) == Run(s, es).accepted
  {
    hide Inv, TimerInv, Starved, Run, DrainEvents;
    if s.pc.Select? {
      es := ServeAll(s);
    } else if s.pc.Draining? {
      es := DrainEvents(|s.queue| + 1);
      DropsAtEnd(s);
    } else {
      es := [];
      RunNothing(s);
      GoneIsEmpty(s);
    }
    RunKeepsInv(s, es);
    AllAnswered(Run(s, es));
  }

  /**
   In every reachable state but a starved one there are smooth steps after which every request accepted so far has
   its answer, and no new failure has happened. If there was none before, all the answers are responses.
   */
  lemma EveryRequestCanBeAnswered(cfg: Config, es: seq<Event>) returns (more: seq<Event>)
    requires cfg.maxWeight >= 1 && cfg.maxBatches >= 1 && !Starved(Run(Init(cfg), es))
    ensures AllSmooth(more)
    ensures var s := Run(Init(cfg), es);
            var s' := Run(Init(cfg), es + more);
            && s'.accepted == s.accepted && Messages(s'.answers) == s.accepted && s'.handle == s.handle
            && (s.handle.None? ==> forall i :: 0 <= i < |s'.answers| ==> s'.answers[i].error.None?)
  {
    hide Inv, TimerInv, Starved, Run, Idle;
    var s := Run(Init(cfg), es);
    Reachable(cfg, es);
    Settles(s);
    SettleIsSmooth();
    var t := Run(s, SETTLE);
    RunTimerInv(s, SETTLE);
    SmoothRunFree(s, SETTLE);
    SmoothRun(s, SETTLE);
    var rest := AnswerFromIdle(t);
    more := SETTLE + rest;
    SmoothAppend(SETTLE, rest);
    SmoothRun(s, more);
    RunAppend(s, SETTLE, rest);
    RunAppend(Init(cfg), es, more);
    RunInv(cfg, es + more);
    if s.handle.None? { NoErrorYet(Run(Init(cfg), es + more)); }
  }

  lemma Reachable(cfg: Config, es: seq<Event>)
    requires cfg.maxWeight >= 1
    ensures var s := Run(Init(cfg), es); Inv(s) && TimerInv(s) && s.cfg == cfg
  {
    hide Inv, TimerInv, Run;
    RunInv(cfg, []);
    RunNothing(Init(cfg));
    InitTimerInv(cfg);
    RunTimerInv(Init(cfg), es);
  }

  // ---------------------------------------------------------------- exactly when

  /** After `more` steps, none of which drops the worker, every request accepted so far has its answer. */
  ghost predicate AnswersAll(cfg: Config, es: seq<Event>, more: seq<Event>) {
    Uncancelled(more) && Run(Init(cfg), es).accepted <= Messages(Run(Init(cfg), es + more).answers)
  }

  /**
   From a reachable state every accepted request can be answered without dropping the worker if and only if none is
   queued, or the worker has not both failed and come to its select statement with an elapsed timer.
   */
  lemma AnswerableExactly(cfg: Config, es: seq<Event>)
    requires cfg.maxWeight >= 1 && cfg.maxBatches >= 1
    ensures var s := Run(Init(cfg), es);
            (exists more :: AnswersAll(cfg, es, more)) <==> s.queue == [] || !Starved(s)
  {
    hide Inv, TimerInv, Run;
    var s := Run(Init(cfg), es);
    Reachable(cfg, es);
    if !Starved(s) {
      var more := EveryRequestCanBeAnswered(cfg, es);
      SmoothIsUncancelled(more);
      assert AnswersAll(cfg, es, more);
    } else if s.queue == [] {
      AllAnswered(s);
      assert es + [] == es;
      assert AnswersAll(cfg, es, []);
    } else {
      forall more | Uncancelled(more) ensures !AnswersAll(cfg, es, more) {
        RunAppend(Init(cfg), es, more);
        StarvedForEver(s, more);
        QueuedIsUnanswered(s);
      }
    }
  }

  lemma SmoothIsUncancelled(es: seq<Event>)
    requires AllSmooth(es)
    ensures Uncancelled(es)
  {
  }

  lemma QueuedIsUnanswered(s: System)
    requires Inv(s) && s.queue != []
    ensures |s.answers| < |s.accepted|
  {
    hide ErrorInv, PermitInv, RunningInv;
  }

  // ---------------------------------------------------------------- a failed worker's timer

  /** The steps by which one handle becomes ready and sends a request. */
  function RequestEvents(c: nat, msg: Msg): seq<Event> {
    PollEvents(c) + [OfClient(c, CallService(msg)), OfClient(c, ReadError)]
  }

  lemma RequestRun(s: System, msg: Msg)
    requires s.views == map[0 := Working] && s.held == {} && !s.channelClosed && !s.semaphoreClosed && s.available > 0
    ensures var s' := Run(s, RequestEvents(0, msg));
            s' == s.(available := s.available - 1, queue := s.queue + [msg], accepted := s.accepted + [msg])
  {
    hide Run;
    RunAppend(s, PollEvents(0), [OfClient(0, CallService(msg)), OfClient(0, ReadError)]);
    PollRun(s, 0);
    CallRun(Polled(s, 0), 0, msg);
    assert s.views[0 := Polling][0 := Working] == s.views;
    assert {0} - {0} == {} && {} + {0} == {0};
  }

  /**
   A worker whose very first request meets a failed service starts the timer after the failure. When it elapses,
   the timer branch changes nothing, so it is taken for ever.
   */
  lemma FailedWorkerRearms(cfg: Config, error: Error, msg: Msg) returns (es: seq<Event>)
    requires cfg.maxWeight >= 1 && cfg.maxBatches >= 1 && cfg.permits >= 1
    ensures var s := Run(Init(cfg), es);
            s.failed == Some(error) && s.pc.Select? && s.timer == Ticking
            && var s' := WorkerStep(s, TimeoutElapses); TimerReady(s') && WorkerStep(s', TimerExpired) == s'
  {
    hide Run;
    var s0 := Init(cfg);
    RequestRun(s0, msg);
    var s1 := Run(s0, RequestEvents(0, msg));
    assert s1.queue == [msg];
    MessageRun(s1, Some(error), None);
    es := RequestEvents(0, msg) + MessageEvents(Some(error), None);
    RunAppend(s0, RequestEvents(0, msg), MessageEvents(Some(error), None));
  }

  /** Some run starves a queued request. */
  ghost predicate CanStarve(cfg: Config) {
    exists es :: StarvesARequest(cfg, es)
  }

  ghost predicate StarvesARequest(cfg: Config, es: seq<Event>) {
    Starved(Run(Init(cfg), es)) && Run(Init(cfg), es).queue != []
  }

  /** Two requests are sent, the service fails for the first one, and the timer it starts elapses before the second. */
  lemma StarvingRun(cfg: Config, error: Error, a: Msg, b: Msg)
    requires cfg.maxWeight >= 1 && cfg.maxBatches >= 1 && cfg.permits >= 2
    ensures CanStarve(cfg)
  {
    hide Run;
    var s0 := Init(cfg);
    RequestRun(s0, a);
    var s1 := Run(s0, RequestEvents(0, a));
    RequestRun(s1, b);
    var s2 := Run(s1, RequestEvents(0, b));
    assert s2.queue == [a, b];
    MessageRun(s2, Some(error), None);
    var s3 := Run(s2, MessageEvents(Some(error), None));
    RunOne(s3, OfWorker(TimeoutElapses));
    var es := RequestEvents(0, a) + RequestEvents(0, b);
    RunAppend(s0, RequestEvents(0, a), RequestEvents(0, b));
    RunAppend(s0, es, MessageEvents(Some(error), None));
    RunAppend(s0, es + MessageEvents(Some(error), None), [OfWorker(TimeoutElapses)]);
    assert StarvesARequest(cfg, es + MessageEvents(Some(error), None) + [OfWorker(TimeoutElapses)]);
  }

  /** With one permit there is never a second request behind one that is answered with an error. */
  ghost predicate NothingBehind(s: System) {
    s.cfg.permits <= 1 && HasError(s.answers) ==> s.queue == []
  }

  /** The worker only takes from the queue; what it answers without taking, it had in hand. */
  lemma WorkerTakes(s: System, e: WorkerEvent)
    ensures var s' := WorkerStep(s, e);
            && s'.cfg == s.cfg
            && (s'.queue == s.queue || (s.queue != [] && s'.queue == s.queue[1..]))
            && (s'.queue == s.queue && s'.answers != s.answers ==> s'.pc.Received?)
  {
    hide Fail;
    match e
    case BatchFinished(error) =>
      if s.running > 0 && error.Some? { FailTakes(s.(running := s.running - 1), error.value, EndArm(false)); }
    case ReceiveNone => FailTakes(s, Closed, DrainQueue);
    case Cancel =>
      FailTakes(s, Closed, DrainQueue);
      if s.pc.Flushing? { FailTakes(FinishArm(s, s.pc.holdsPermit), Closed, DrainQueue); }
    case ServiceReady(error) =>
      if error.Some? && s.pc.Receiving? { FailTakes(s, error.value, AnswerMessage(s.pc.msg, s.pc.isNew)); }
      if error.Some? && s.pc.Flushing? { FailTakes(s, error.value, EndArm(s.pc.holdsPermit)); }
    case ReceiveMessage =>
    case Drain =>
    case Publish =>
    case TimeoutElapses =>
    case TimerExpired =>
    case AfterRequest =>
  }

  lemma FailTakes(s: System, error: Error, after: Then)
    ensures var s' := Fail(s, error, after);
            s'.cfg == s.cfg && s'.queue == s.queue && (s'.answers != s.answers ==> s'.pc.Received?)
  {
  }

  lemma StepNothingBehind(s: System, e: Event)
    requires Inv(s) && TimerInv(s) && NothingBehind(s)
    ensures NothingBehind(Step(s, e))
  {
    hide MessageInv, RunningInv, ErrorInv, HasError, WorkerStep, ClientStep;
    ErrorKnown(s);
    StepInv(s, e);
    match e
    case OfWorker(w) => WorkerTakes(s, w);
    case OfClient(client, c) => ClientSends(s, client, c);
  }

  /** A client adds to the queue only while the channel is open. */
  lemma ClientSends(s: System, c: nat, e: ClientEvent)
    ensures var s' := ClientStep(s, c, e);
            s'.cfg == s.cfg && s'.answers == s.answers && (s.channelClosed ==> s'.queue == s.queue)
  {
  }

  lemma {:induction false} RunNothingBehind(cfg: Config, es: seq<Event>)
    requires cfg.maxWeight >= 1
    ensures NothingBehind(Run(Init(cfg), es))
  {
    hide Inv, TimerInv, Step, HasError;
    if es != [] {
      var n := |es| - 1;
      RunNothingBehind(cfg, es[..n]);
      Reachable(cfg, es[..n]);
      StepNothingBehind(Run(Init(cfg), es[..n]), es[n]);
    }
  }

  /** A configuration can starve a request if and only if it lets two requests wait at the same time. */
  lemma StarvationNeedsTwo(cfg: Config)
    requires cfg.maxWeight >= 1 && cfg.maxBatches >= 1
    ensures CanStarve(cfg) <==> cfg.permits >= 2
  {
    if cfg.permits >= 2 {
      StarvingRun(cfg, Closed, Msg(0, 1), Msg(1, 1));
    } else {
      forall es ensures !StarvesARequest(cfg, es) {
        hide Run, Inv, HasError;
        Reachable(cfg, es);
        RunNothingBehind(cfg, es);
      }
    }
  }
}
