/**
 The batch service and its worker as they are written: fields updated in place by methods. Each method, executed
 without interruption, is a run of the protocol's steps, so what holds of every run holds of its effect.
 A result of the inner service is a parameter: no value when it is ready or succeeded, its error otherwise.
 */
module BatchService {
  import opened Prelude
  import opened BatchModel
  import opened BatchInvariants

  /** The steps that publish a failure; they do nothing if there is none to publish. */
  const PUBLISH: seq<Event> := [OfWorker(Publish), OfWorker(Publish), OfWorker(Publish)]

  /** Handling one message: taking it, offering it to the service, and flushing the batch if it is full. */
  function MessageEvents(ready: Option<Error>, flushReady: Option<Error>): seq<Event> {
    [OfWorker(ReceiveMessage), OfWorker(ServiceReady(ready))] + PUBLISH
    + [OfWorker(AfterRequest), OfWorker(ServiceReady(flushReady))] + PUBLISH
  }

  function DrainEvents(n: nat): seq<Event> {
    seq(n, i => OfWorker(Drain))
  }

  /** The answers that fail a queue of requests. */
  function ErrorAnswers(queue: seq<Msg>, error: Option<Error>): seq<Answer> {
    seq(|queue|, i requires 0 <= i < |queue| => Answer(queue[i], error))
  }

  datatype Poll = Ready | Pending | Failed(error: Error)

  lemma {:induction false} RunKeepsInv(s: System, es: seq<Event>)
    requires Inv(s)
    ensures Inv(Run(s, es))
  {
    hide Inv, Step;
    if es != [] {
      RunKeepsInv(s, es[..|es| - 1]);
      StepInv(Run(s, es[..|es| - 1]), es[|es| - 1]);
    }
  }

  lemma RunOne(s: System, e: Event)
    ensures Run(s, [e]) == Step(s, e)
  {
    hide Step;
    assert Run(s, [e][..0]) == s;
  }

  lemma RunTwo(s: System, e: Event, f: Event)
    ensures Run(s, [e, f]) == Step(Step(s, e), f)
  {
    hide Step;
    RunOne(s, e);
    assert [e, f][..1] == [e];
  }

  lemma RunThree(s: System, e: Event, f: Event, g: Event)
    ensures Run(s, [e, f, g]) == Step(Step(Step(s, e), f), g)
  {
    hide Step;
    RunTwo(s, e, f);
    assert [e, f, g][..2] == [e, f];
  }

  lemma PublishIs(s: System)
    ensures !s.pc.Publishing? ==> Run(s, PUBLISH) == s
    ensures s.pc.Publishing? && s.pc.stage.CloseChannel? ==>
              Run(s, PUBLISH) == Resume(s.(channelClosed := true, semaphoreClosed := true, timer := Off,
                                           failed := Some(s.pc.error), pc := s.pc.(stage := SetFailed)), s.pc.after)
  {
    RunThree(s, OfWorker(Publish), OfWorker(Publish), OfWorker(Publish));
  }

  // ---------------------------------------------------------------- uninterrupted parts of the worker

  /** A worker that has no failure, or a published one. */
  predicate Quiet(s: System) {
    s.pc.Select? && s.failed == s.handle
  }

  lemma InvIsQuiet(s: System)
    requires Inv(s) && s.pc.Select?
    ensures Quiet(s)
  {
  }

  /** A failure published in one go. */
  function Published(s: System, error: Error): System {
    if s.handle.Some? then s
    else s.(handle := Some(error), channelClosed := true, semaphoreClosed := true, timer := Off,
            failed := Some(error))
  }

  /** A request answered in one go. */
  function Processed(s: System, msg: Msg, ready: Option<Error>): System {
    if s.failed.Some? then s.(answers := s.answers + [Answer(msg, s.failed)])
    else
      match ready
      case None => s.(pendingWeight := s.pendingWeight + msg.weight, trace := s.trace + [Item(msg)],
                      answers := s.answers + [Answer(msg, None)])
      case Some(error) => Published(s, error).(answers := s.answers + [Answer(msg, Some(error))])
  }

  /** A batch flushed in one go. */
  function Flushed(s: System, ready: Option<Error>): System {
    if s.failed.Some? then s
    else
      match ready
      case None => s.(trace := s.trace + [Flush], running := s.running + 1, pendingWeight := 0, timer := Off)
      case Some(error) => Published(s, error)
  }

  /** The steps of a failure, taken together, publish it. */
  lemma FailRun(s: System, error: Error, after: Then)
    requires s.failed == s.handle && !s.pc.Publishing?
    ensures Run(Fail(s, error, after), PUBLISH) == Resume(Published(s, error), after)
  {
    hide Run;
    PublishIs(Fail(s, error, after));
  }

  lemma ServiceRun(s: System, ready: Option<Error>)
    ensures Run(s, [OfWorker(ServiceReady(ready))] + PUBLISH) == Run(ServiceStep(s, ready), PUBLISH)
  {
    hide Run;
    RunAppend(s, [OfWorker(ServiceReady(ready))], PUBLISH);
    RunOne(s, OfWorker(ServiceReady(ready)));
  }

  /** The steps that answer a request, taken together. */
  lemma ProcessRun(s: System, ready: Option<Error>)
    requires Quiet(s) && s.queue != []
    ensures Run(StartRequest(s), [OfWorker(ServiceReady(ready))] + PUBLISH)
         == Processed(s.(queue := s.queue[1..]), s.queue[0], ready).(pc := Received(s.pendingWeight == 0))
  {
    hide Run, Fail, Resume;
    var t := StartRequest(s);
    ServiceRun(t, ready);
    PublishIs(ServiceStep(t, ready));
    if s.failed.None? && ready.Some? {
      FailedRequest(t, ready.value, t.pc.msg, t.pc.isNew);
    }
  }

  lemma FailedRequest(s: System, error: Error, msg: Msg, isNew: bool)
    requires s.failed == s.handle == None && s.pc == Receiving(msg, isNew)
    ensures Run(Fail(s, error, AnswerMessage(msg, isNew)), PUBLISH)
         == Published(s, error).(answers := s.answers + [Answer(msg, Some(error))], pc := Received(isNew))
  {
    hide Run, Fail;
    FailRun(s, error, AnswerMessage(msg, isNew));
  }

  /** The steps of a flush, taken together; a message's permit is released with them. */
  lemma FlushRun(s: System, holdsPermit: bool, ready: Option<Error>)
    requires s.failed == s.handle && (s.pc.Select? || s.pc.Received?)
    ensures Run(StartFlush(s, holdsPermit), [OfWorker(ServiceReady(ready))] + PUBLISH)
         == FinishArm(Flushed(s, ready), holdsPermit)
  {
    hide Run, Fail, Resume;
    var t := StartFlush(s, holdsPermit);
    ServiceRun(t, ready);
    PublishIs(ServiceStep(t, ready));
    if s.failed.None? && ready.Some? {
      FailedFlush(t, ready.value, holdsPermit);
    }
  }

  lemma FailedFlush(s: System, error: Error, holdsPermit: bool)
    requires s.failed == s.handle == None && s.pc.Flushing?
    ensures Run(Fail(s, error, EndArm(holdsPermit)), PUBLISH) == FinishArm(Published(s, error), holdsPermit)
  {
    hide Run, Fail;
    FailRun(s, error, EndArm(holdsPermit));
  }

  /** The steps of the branch for a finished batch, taken together. */
  lemma FinishRun(s: System, result: Option<Error>)
    requires Quiet(s) && s.running > 0
    ensures Run(s, [OfWorker(BatchFinished(result))] + PUBLISH)
         == var t := s.(running := s.running - 1); if result.Some? then Published(t, result.value) else t
  {
    hide Run, Fail, Resume;
    RunAppend(s, [OfWorker(BatchFinished(result))], PUBLISH);
    RunOne(s, OfWorker(BatchFinished(result)));
    var t := s.(running := s.running - 1);
    PublishIs(t);
    if result.Some? {
      FailedBatch(t, result.value);
    }
  }

  lemma FailedBatch(s: System, error: Error)
    requires Quiet(s)
    ensures Run(Fail(s, error, EndArm(false)), PUBLISH) == Published(s, error)
  {
    hide Run, Fail;
    FailRun(s, error, EndArm(false));
  }

  /** The steps of the message branch, taken together. */
  lemma MessageRun(s: System, ready: Option<Error>, flushReady: Option<Error>)
    requires Quiet(s) && s.queue != [] && Receives(s)
    ensures Run(s, MessageEvents(ready, flushReady))
         == var t := Processed(s.(queue := s.queue[1..]), s.queue[0], ready);
            FinishArm(if t.pendingWeight >= t.cfg.maxWeight then Flushed(t, flushReady)
                      else if s.pendingWeight == 0 then t.(timer := Ticking) else t, true)
  {
    hide Run, StartRequest, Processed, Flushed, AfterRequestStep, FinishArm, Receives;
    MessageSplit(s, ready, flushReady);
    ProcessRun(s, ready);
    var t := Processed(s.(queue := s.queue[1..]), s.queue[0], ready);
    ProcessedIs(s.(queue := s.queue[1..]), s.queue[0], ready);
    RequestRun(t, s.pendingWeight == 0, flushReady);
  }

  /** The steps after a request, taken together. */
  lemma RequestRun(s: System, isNew: bool, flushReady: Option<Error>)
    requires Quiet(s)
    ensures Run(Step(s.(pc := Received(isNew)), OfWorker(AfterRequest)), [OfWorker(ServiceReady(flushReady))] + PUBLISH)
         == FinishArm(if s.pendingWeight >= s.cfg.maxWeight then Flushed(s, flushReady)
                      else if isNew then s.(timer := Ticking) else s, true)
  {
    hide Run, StartFlush, Flushed;
    var t := s.(pc := Received(isNew));
    if s.pendingWeight >= s.cfg.maxWeight {
      FlushRun(t, true, flushReady);
      FlushedElsewhere(t, Select, flushReady);
    } else {
      ServiceIdle(AfterRequestStep(t, isNew), flushReady);
    }
  }

  lemma ProcessedIs(s: System, msg: Msg, ready: Option<Error>)
    requires Quiet(s)
    ensures Quiet(Processed(s, msg, ready)) && Processed(s, msg, ready).cfg == s.cfg
    ensures Processed(s, msg, ready).available == s.available
  {
  }

  lemma FlushedElsewhere(s: System, pc: Pc, ready: Option<Error>)
    ensures Flushed(s, ready).(pc := pc) == Flushed(s.(pc := pc), ready)
  {
  }

  lemma ServiceIdle(s: System, ready: Option<Error>)
    requires s.pc.Select?
    ensures Run(s, [OfWorker(ServiceReady(ready))] + PUBLISH) == s
  {
    hide Run;
    ServiceRun(s, ready);
    PublishIs(s);
  }

  lemma MessageSplit(s: System, ready: Option<Error>, flushReady: Option<Error>)
    requires Receives(s) && s.queue != []
    ensures Run(s, MessageEvents(ready, flushReady))
         == var t := Run(StartRequest(s), [OfWorker(ServiceReady(ready))] + PUBLISH);
            Run(Step(t, OfWorker(AfterRequest)), [OfWorker(ServiceReady(flushReady))] + PUBLISH)
  {
    hide Run, StartRequest;
    var first := [OfWorker(ServiceReady(ready))] + PUBLISH;
    var second := [OfWorker(ServiceReady(flushReady))] + PUBLISH;
    assert MessageEvents(ready, flushReady) == [OfWorker(ReceiveMessage)] + first + ([OfWorker(AfterRequest)] + second);
    RunAppend(s, [OfWorker(ReceiveMessage)] + first, [OfWorker(AfterRequest)] + second);
    RunAppend(s, [OfWorker(ReceiveMessage)], first);
    RunOne(s, OfWorker(ReceiveMessage));
    var t := Run(StartRequest(s), first);
    RunAppend(t, [OfWorker(AfterRequest)], second);
    RunOne(t, OfWorker(AfterRequest));
  }

  /** The steps of the timer branch, taken together. */
  lemma TimerRun(s: System, ready: Option<Error>)
    requires Quiet(s) && TimerReady(s)
    ensures Run(s, [OfWorker(TimerExpired), OfWorker(ServiceReady(ready))] + PUBLISH) == Flushed(s, ready)
  {
    hide Run, StartFlush, Flushed;
    var events := [OfWorker(ServiceReady(ready))] + PUBLISH;
    assert [OfWorker(TimerExpired), OfWorker(ServiceReady(ready))] + PUBLISH == [OfWorker(TimerExpired)] + events;
    RunAppend(s, [OfWorker(TimerExpired)], events);
    RunOne(s, OfWorker(TimerExpired));
    FlushRun(s, false, ready);
    FlushedElsewhere(s, Select, ready);
  }

  /** Draining answers what is queued, in order, and ends the worker. */
  lemma {:induction false} DrainRun(s: System)
    requires s.pc.Draining? && s.failed.Some?
    ensures Run(s, DrainEvents(|s.queue| + 1))
         == s.(queue := [], answers := s.answers + ErrorAnswers(s.queue, s.failed),
               available := s.available + |s.queue|, pc := Dropped)
    decreases |s.queue|
  {
    hide Run;
    var n := |s.queue|;
    assert DrainEvents(n + 1) == [OfWorker(Drain)] + DrainEvents(n);
    RunAppend(s, [OfWorker(Drain)], DrainEvents(n));
    RunOne(s, OfWorker(Drain));
    if n == 0 {
      assert DrainEvents(0) == [];
      RunNothing(Step(s, OfWorker(Drain)));
      assert s.answers + ErrorAnswers(s.queue, s.failed) == s.answers;
    } else {
      DrainRun(DrainStep(s));
      ErrorAnswersCons(s.answers, s.queue, s.failed);
    }
  }

  lemma ErrorAnswersCons(a: seq<Answer>, queue: seq<Msg>, error: Option<Error>)
    requires queue != []
    ensures a + ErrorAnswers(queue, error) == a + [Answer(queue[0], error)] + ErrorAnswers(queue[1..], error)
  {
  }

  lemma NoErrorAnswers(a: seq<Answer>, error: Option<Error>)
    ensures a + ErrorAnswers([], error) == a
  {
  }

  /** Polling one handle: look at the channel, give up a permit, ask for one, read the error. */
  function PollEvents(c: nat): seq<Event> {
    [OfClient(c, PollClosed), OfClient(c, PollRelease), OfClient(c, PollAcquire)] + [OfClient(c, ReadError)]
  }

  /** A handle polled in one go. */
  function Polled(s: System, c: nat): System {
    if s.channelClosed then SetView(s, c, GotError(ErrorOnClosed(s)))
    else
      var t := SetView(Release(s, c), c, Polling);
      if t.semaphoreClosed then SetView(t, c, GotError(ErrorOnClosed(s)))
      else if t.available > 0 then SetView(t, c, Working).(held := t.held + {c}, available := t.available - 1)
      else t
  }

  lemma PollRun(s: System, c: nat)
    requires c in s.views
    ensures Run(s, PollEvents(c)) == Polled(s, c)
  {
    hide Run, ClientStep, Polled;
    var first := [OfClient(c, PollClosed), OfClient(c, PollRelease), OfClient(c, PollAcquire)];
    RunAppend(s, first, [OfClient(c, ReadError)]);
    RunThree(s, OfClient(c, PollClosed), OfClient(c, PollRelease), OfClient(c, PollAcquire));
    RunOne(Run(s, first), OfClient(c, ReadError));
    if s.channelClosed { PollClosedSteps(s, c); } else { PollOpenSteps(s, c); }
  }

  lemma SetViewTwice(s: System, c: nat, first: View, second: View)
    ensures SetView(SetView(s, c, first), c, second) == SetView(s, c, second)
  {
    assert s.views[c := first][c := second] == s.views[c := second];
  }

  lemma PollClosedSteps(s: System, c: nat)
    requires c in s.views && s.channelClosed
    ensures var t := ClientStep(s, c, PollClosed);
            && ClientStep(ClientStep(t, c, PollRelease), c, PollAcquire) == t
            && ClientStep(t, c, ReadError) == Polled(s, c)
  {
    SetViewTwice(s, c, SawClosed, GotError(ErrorOnClosed(s)));
  }

  lemma PollOpenSteps(s: System, c: nat)
    requires c in s.views && !s.channelClosed
    ensures ClientStep(s, c, PollClosed) == s
    ensures ClientStep(ClientStep(ClientStep(s, c, PollRelease), c, PollAcquire), c, ReadError) == Polled(s, c)
  {
    hide Release;
    ReleaseIs(s, c);
    var t := SetView(Release(s, c), c, Polling);
    assert ClientStep(s, c, PollRelease) == t;
    SetViewTwice(t, c, SawClosed, GotError(ErrorOnClosed(s)));
  }

  lemma ReleaseIs(s: System, c: nat)
    ensures c !in Release(s, c).held && Release(s, c).views == s.views && Release(s, c).handle == s.handle
    ensures Release(s, c).channelClosed == s.channelClosed && Release(s, c).semaphoreClosed == s.semaphoreClosed
  {
  }

  /** A request handed over in one go. */
  function Called(s: System, c: nat, msg: Msg): System {
    if s.channelClosed
    then s.(held := s.held - {c}, available := s.available + 1, views := s.views[c := GotError(ErrorOnClosed(s))])
    else s.(held := s.held - {c}, queue := s.queue + [msg], accepted := s.accepted + [msg])
  }

  lemma CallRun(s: System, c: nat, msg: Msg)
    requires c in s.views && s.views[c] == Working && c in s.held
    ensures Run(s, [OfClient(c, CallService(msg)), OfClient(c, ReadError)]) == Called(s, c, msg)
  {
    hide Run;
    RunTwo(s, OfClient(c, CallService(msg)), OfClient(c, ReadError));
    SetViewTwice(Release(s, c), c, SawClosed, GotError(ErrorOnClosed(s)));
  }

  /** A closed channel or semaphore always has an error to read. */
  lemma ClosedHasError(s: System)
    requires Inv(s)
    ensures s.channelClosed || s.semaphoreClosed ==> s.handle.Some?
  {
  }

  /** The steps of dropping the worker, taken together. */
  lemma DropRun(s: System, error: Error)
    requires Quiet(s) && error == (if s.handle.Some? then s.handle.value else Closed)
    ensures Run(s, [OfWorker(Cancel)] + PUBLISH + DrainEvents(|s.queue| + 1))
         == Published(s, Closed).(queue := [], answers := s.answers + ErrorAnswers(s.queue, Some(error)),
                                  available := s.available + |s.queue|, pc := Dropped)
  {
    hide Run, Fail;
    RunAppend(s, [OfWorker(Cancel)] + PUBLISH, DrainEvents(|s.queue| + 1));
    RunAppend(s, [OfWorker(Cancel)], PUBLISH);
    RunOne(s, OfWorker(Cancel));
    FailRun(s, Closed, DrainQueue);
    DrainRun(Published(s, Closed).(pc := Draining));
  }

  class Batch {
    const cfg: Config
    // the semaphore and the channel
    var available: nat
    var semaphoreClosed: bool
    var held: set<nat>
    var views: map<nat, View>
    var queue: seq<Msg>
    var channelClosed: bool
    // the worker
    var pendingWeight: nat
    var timer: Timer
    var running: nat
    var failed: Option<Error>
    var handle: Option<Error>
    // what was sent on the response channels and to the inner service
    var answers: seq<Answer>
    var trace: seq<Control>
    ghost var accepted: seq<Msg>

    /** The protocol state, with the worker at a given place. */
    ghost function At(pc: Pc): System
      reads this
    {
      System(cfg, available, semaphoreClosed, held, views, queue, channelClosed,
             pc, pendingWeight, timer, running, failed, handle, accepted, answers, trace)
    }

    constructor (maxItemsWeight: nat, maxBatches: nat)
      ensures At(Select) == Init(Pair(maxItemsWeight, maxBatches)) && Inv(At(Select))
      ensures cfg.maxBatches == maxBatches && cfg.maxWeight == if maxItemsWeight == 0 then 1 else maxItemsWeight
      ensures maxBatches == 0 ==> available == cfg.maxWeight
      ensures 1 <= maxBatches <= 64 ==> available == cfg.maxWeight * maxBatches
      ensures maxBatches > 64 ==> available == cfg.maxWeight * 64
    {
      var pair := Pair(maxItemsWeight, maxBatches);
      cfg := pair;
      available, semaphoreClosed, held, views := pair.permits, false, {}, map[0 := Working];
      queue, channelClosed, pendingWeight, timer, running := [], false, 0, Off, 0;
      failed, handle, answers, trace, accepted := None, None, [], [], [];
    }

    // -------------------------------------------------------------- worker

    /** Registers a failure: the first one is exposed, closes channel and semaphore, and stops the timer. */
    method Fail(error: Error)
      modifies `handle, `channelClosed, `semaphoreClosed, `timer, `failed
      ensures At(Select) == Published(old(At(Select)), error)
    {
      if handle.Some? {
        return;
      }
      handle := Some(error);
      channelClosed := true;
      semaphoreClosed := true;
      timer := Off;
      failed := Some(error);
    }

    /** Answers a request: by the service's response, or by the failure. */
    method ProcessReq(msg: Msg, ready: Option<Error>)
      requires Quiet(At(Select))
      modifies this
      ensures At(Select) == Processed(old(At(Select)), msg, ready)
    {
      if failed.Some? {
        answers := answers + [Answer(msg, failed)];
        return;
      }
      match ready
      case None =>
        pendingWeight := pendingWeight + msg.weight;
        trace := trace + [Item(msg)];
        answers := answers + [Answer(msg, None)];
      case Some(error) =>
        Fail(error);
        answers := answers + [Answer(msg, failed)];
    }

    /** Sends a flush; the batch is then running and the next one is empty. */
    method FlushService(ready: Option<Error>)
      requires Quiet(At(Select))
      modifies this
      ensures At(Select) == Flushed(old(At(Select)), ready)
    {
      if failed.Some? {
        return;
      }
      match ready
      case None =>
        trace := trace + [Flush];
        running := running + 1;
        pendingWeight := 0;
        timer := Off;
      case Some(error) =>
        Fail(error);
    }

    /** The branch of the select statement for a finished batch. */
    method FinishBatch(result: Option<Error>)
      requires Inv(At(Select)) && running > 0
      modifies this
      ensures At(Select) == Run(old(At(Select)), [OfWorker(BatchFinished(result))] + PUBLISH)
      ensures Inv(At(Select))
    {
      hide Inv, Run;
      ghost var s := At(Select);
      InvIsQuiet(s);
      FinishRun(s, result);
      RunKeepsInv(s, [OfWorker(BatchFinished(result))] + PUBLISH);
      running := running - 1;
      if result.Some? {
        Fail(result.value);
      }
    }

    /** The branch for an expired timer. */
    method ExpireTimer(ready: Option<Error>)
      requires Inv(At(Select)) && timer == Elapsed
      modifies this
      ensures At(Select) == Run(old(At(Select)), [OfWorker(TimerExpired), OfWorker(ServiceReady(ready))] + PUBLISH)
      ensures Inv(At(Select))
    {
      hide Inv, Run, Flushed;
      ghost var s := At(Select);
      InvIsQuiet(s);
      TimerRun(s, ready);
      RunKeepsInv(s, [OfWorker(TimerExpired), OfWorker(ServiceReady(ready))] + PUBLISH);
      FlushService(ready);
    }

    /** The branch for a message; its permit is released when the branch ends. */
    method ReceiveMessage(ready: Option<Error>, flushReady: Option<Error>)
      requires Inv(At(Select)) && running < cfg.maxBatches && queue != [] && timer != Elapsed
      modifies this
      ensures At(Select) == Run(old(At(Select)), MessageEvents(ready, flushReady))
      ensures Inv(At(Select))
    {
      hide Inv, Run, Processed, Flushed;
      ghost var s := At(Select);
      InvIsQuiet(s);
      MessageRun(s, ready, flushReady);
      RunKeepsInv(s, MessageEvents(ready, flushReady));
      var msg := queue[0];
      queue := queue[1..];
      var isNew := pendingWeight == 0;
      ProcessedIs(At(Select), msg, ready);
      ProcessReq(msg, ready);
      if pendingWeight >= cfg.maxWeight {
        FlushService(flushReady);
      } else if isNew {
        timer := Ticking;
      }
      available := available + 1;
    }

    /** Dropping the worker: its failure is registered, and every queued request is answered with the error. */
    method Drop()
      requires Inv(At(Select))
      modifies this
      ensures At(Dropped) == Run(old(At(Select)), [OfWorker(Cancel)] + PUBLISH + DrainEvents(|old(queue)| + 1))
      ensures answers == old(answers) + ErrorAnswers(old(queue), handle)
      ensures handle == if old(handle).Some? then old(handle) else Some(Closed)
      ensures Inv(At(Dropped))
    {
      hide Inv, Run, ErrorAnswers;
      ghost var s := At(Select);
      InvIsQuiet(s);
      Fail(Closed);
      DropRun(s, failed.value);
      RunKeepsInv(s, [OfWorker(Cancel)] + PUBLISH + DrainEvents(|s.queue| + 1));
      while queue != []
        invariant answers + ErrorAnswers(queue, failed) == s.answers + ErrorAnswers(s.queue, failed)
        invariant available + |queue| == s.available + |s.queue|
        invariant At(Select) == Published(s, Closed).(queue := queue, answers := answers, available := available)
      {
        ErrorAnswersCons(answers, queue, failed);
        answers := answers + [Answer(queue[0], failed)];
        queue := queue[1..];
        available := available + 1;
      }
      NoErrorAnswers(answers, failed);
    }

    // -------------------------------------------------------------- clients

    /** `poll_ready` of one handle, wherever the worker is. */
    method PollReady(c: nat, ghost pc: Pc) returns (r: Poll)
      requires Inv(At(pc)) && c in views
      modifies `held, `available, `views
      ensures At(pc) == Run(old(At(pc)), PollEvents(c)) && Inv(At(pc))
      ensures c in views && (r.Ready? <==> c in held && views[c] == Working)
      ensures r.Failed? ==> handle == Some(r.error) && views[c] == GotError(r.error)
      ensures r.Pending? ==> available == 0 && !channelClosed
    {
      hide Inv, Run;
      ghost var s := At(pc);
      PollRun(s, c);
      RunKeepsInv(s, PollEvents(c));
      ClosedHasError(s);
      if channelClosed {
        views := views[c := GotError(handle.value)];
        return Failed(handle.value);
      }
      if c in held {
        held := held - {c};
        available := available + 1;
      }
      views := views[c := Polling];
      if semaphoreClosed {
        views := views[c := GotError(handle.value)];
        return Failed(handle.value);
      }
      if available == 0 {
        return Pending;
      }
      held := held + {c};
      available := available - 1;
      views := views[c := Working];
      return Ready;
    }

    /** `call` of a handle that is ready, wherever the worker is: the request is queued, or fails with the error. */
    method Call(c: nat, msg: Msg, ghost pc: Pc) returns (r: Option<Error>)
      requires Inv(At(pc)) && c in views && views[c] == Working && c in held
      modifies `held, `available, `views, `queue, `accepted
      ensures At(pc) == Run(old(At(pc)), [OfClient(c, CallService(msg)), OfClient(c, ReadError)]) && Inv(At(pc))
      ensures c !in held
      ensures r.None? ==> queue == old(queue) + [msg]
      ensures r.Some? ==> r == handle && unchanged(`queue)
    {
      hide Inv, Run;
      ghost var s := At(pc);
      CallRun(s, c, msg);
      RunKeepsInv(s, [OfClient(c, CallService(msg)), OfClient(c, ReadError)]);
      ClosedHasError(s);
      held := held - {c};
      if channelClosed {
        available := available + 1;
        views := views[c := GotError(handle.value)];
        return handle;
      }
      queue := queue + [msg];
      accepted := accepted + [msg];
      return None;
    }
  }
}
