/**
 What the inner service sees: the accepted requests in arrival order, cut by `Flush` into non-empty batches
 that were below the weight limit before their last request.
 */
module BatchTrace {
  import opened Prelude
  import opened BatchModel
  import opened BatchInvariants

  function Weight(l: seq<Msg>): nat {
    if l == [] then 0 else Weight(l[..|l| - 1]) + l[|l| - 1].weight
  }

  /** The items of a trace, in order. */
  function Items(t: seq<Control>): seq<Msg> {
    if t == [] then []
    else Items(t[..|t| - 1]) + if t[|t| - 1].Item? then [t[|t| - 1].msg] else []
  }

  /** The flushed batches, and the items since the last flush. */
  function Cut(t: seq<Control>): (seq<seq<Msg>>, seq<Msg>) {
    if t == [] then ([], [])
    else
      var (done, open) := Cut(t[..|t| - 1]);
      if t[|t| - 1].Item? then (done, open + [t[|t| - 1].msg]) else (done + [open], [])
  }

  function Concat(bs: seq<seq<Msg>>): seq<Msg> {
    if bs == [] then [] else Concat(bs[..|bs| - 1]) + bs[|bs| - 1]
  }

  /** The requests answered with a response future, in order. */
  function OkMessages(a: seq<Answer>): seq<Msg> {
    if a == [] then []
    else OkMessages(a[..|a| - 1]) + if a[|a| - 1].error.None? then [a[|a| - 1].msg] else []
  }

  lemma {:induction false} CutCovers(t: seq<Control>)
    ensures Concat(Cut(t).0) + Cut(t).1 == Items(t)
  {
    if t != [] {
      CutCovers(t[..|t| - 1]);
      var (done, open) := Cut(t[..|t| - 1]);
      if t[|t| - 1].Flush? {
        assert (done + [open])[..|done|] == done;
      }
    }
  }

  lemma {:induction false} AllOk(a: seq<Answer>)
    requires forall i :: 0 <= i < |a| ==> a[i].error.None?
    ensures OkMessages(a) == Messages(a)
  {
    if a != [] {
      AllOk(a[..|a| - 1]);
      MessagesSnoc(a[..|a| - 1], a[|a| - 1]);
      assert a[..|a| - 1] + [a[|a| - 1]] == a;
    }
  }

  lemma OkMessagesSnoc(a: seq<Answer>, x: Answer)
    ensures OkMessages(a + [x]) == OkMessages(a) + if x.error.None? then [x.msg] else []
  {
    assert (a + [x])[..|a|] == a;
  }

  lemma TraceSnoc(t: seq<Control>, x: Control)
    ensures Items(t + [x]) == Items(t) + if x.Item? then [x.msg] else []
    ensures Cut(t + [x]) == if x.Item? then (Cut(t).0, Cut(t).1 + [x.msg]) else (Cut(t).0 + [Cut(t).1], [])
  {
    assert (t + [x])[..|t|] == t;
  }

  lemma WeightSnoc(l: seq<Msg>, m: Msg)
    ensures Weight(l + [m]) == Weight(l) + m.weight
    ensures (l + [m])[..|l|] == l
  {
    assert (l + [m])[..|l|] == l;
  }

  /** A batch is not empty and was below the limit before its last request. */
  predicate WellCut(b: seq<Msg>, maxWeight: nat) {
    b != [] && Weight(b[..|b| - 1]) < maxWeight
  }

  ghost predicate TraceInv(s: System) {
    var (done, open) := Cut(s.trace);
    && Items(s.trace) == OkMessages(s.answers)
    && (forall i :: 0 <= i < |done| ==> WellCut(done[i], s.cfg.maxWeight))
    && Weight(open) == s.pendingWeight
    && Weighted(s)
    && (s.handle.None? ==> PcInv(s, open))
  }

  ghost predicate Weighted(s: System) {
    forall i :: 0 <= i < |s.accepted| ==> s.accepted[i].weight >= 1
  }

  /** The request in the worker's hand was accepted. */
  lemma HandIsAccepted(s: System)
    requires MessageInv(s) && s.pc.Receiving?
    ensures |s.answers| < |s.accepted| && s.accepted[|s.answers|] == s.pc.msg
  {
  }

  /** While nothing has failed: how the timer, the pending weight and the open batch fit together. */
  ghost predicate PcInv(s: System, open: seq<Msg>) {
    match s.pc
    case Select => s.pendingWeight < s.cfg.maxWeight && (s.timer != Off <==> s.pendingWeight > 0)
    case Receiving(_, isNew) =>
      && s.pendingWeight < s.cfg.maxWeight && (s.timer != Off <==> s.pendingWeight > 0)
      && (isNew <==> s.pendingWeight == 0)
    case Received(isNew) => WellCut(open, s.cfg.maxWeight) && (s.timer != Off <==> !isNew) && s.pendingWeight > 0
    case Flushing(_) => WellCut(open, s.cfg.maxWeight)
    case _ => true
  }

  lemma PendingIsWellCut(open: seq<Msg>, maxWeight: nat)
    requires 0 < Weight(open) < maxWeight
    ensures WellCut(open, maxWeight)
  {
  }

  /** The service accepted the request in hand. */
  lemma ItemTraceInv(s: System, msg: Msg, isNew: bool)
    requires ErrorInv(s) && MessageInv(s) && TraceInv(s) && s.pc == Receiving(msg, isNew)
    ensures TraceInv(ServiceStep(s, None))
  {
    hide ErrorInv, MessageInv, Items, Cut, OkMessages, Weight;
    ErrorKnown(s);
    HandIsAccepted(s);
    OkMessagesSnoc(s.answers, Answer(msg, None));
    TraceSnoc(s.trace, Item(msg));
    WeightSnoc(Cut(s.trace).1, msg);
  }

  /** The service accepted a flush. */
  lemma FlushTraceInv(s: System)
    requires ErrorInv(s) && TraceInv(s) && s.pc.Flushing? && s.cfg.maxWeight >= 1
    ensures TraceInv(ServiceStep(s, None))
  {
    hide ErrorInv, Items, Cut, OkMessages;
    ErrorKnown(s);
    TraceSnoc(s.trace, Flush);
    assert Items(s.trace) + [] == Items(s.trace);
  }

  /** A step that does not call the inner service: it is not ready for a request or a flush that waits for it. */
  predicate CallsNothing(s: System, e: WorkerEvent) {
    e.ServiceReady? ==> e.error.Some? || !(s.pc.Receiving? || s.pc.Flushing?)
  }

  /** Nothing the trace invariant speaks of has changed, except where the worker is. */
  ghost predicate SameTrace(s: System, s': System) {
    && s'.trace == s.trace && s'.pendingWeight == s.pendingWeight && s'.accepted == s.accepted && s'.cfg == s.cfg
    && OkMessages(s'.answers) == OkMessages(s.answers)
  }

  lemma ErrorAnswerSame(a: seq<Answer>, x: Answer)
    requires x.error.Some?
    ensures OkMessages(a + [x]) == OkMessages(a)
  {
    OkMessagesSnoc(a, x);
    assert OkMessages(a) + [] == OkMessages(a);
  }

  lemma ResumeSame(s: System, after: Then)
    requires s.failed.Some?
    ensures SameTrace(s, Resume(s, after))
  {
    hide OkMessages;
    if after.AnswerMessage? { ErrorAnswerSame(s.answers, Answer(after.msg, s.failed)); }
  }

  lemma FailSame(s: System, error: Error, after: Then)
    ensures SameTrace(s, Fail(s, error, after))
  {
    hide OkMessages, Resume;
    if s.failed.Some? { ResumeSame(s, after); }
  }

  lemma PublishSame(s: System)
    requires s.pc.Publishing?
    ensures SameTrace(s, PublishStep(s))
  {
    hide OkMessages, Resume;
    ResumeSame(s.(timer := Off, failed := Some(s.pc.error)), s.pc.after);
  }

  lemma TakeSame(s: System)
    requires s.queue != []
    ensures SameTrace(s, StartRequest(s))
    ensures s.failed.Some? ==> SameTrace(s, DrainStep(s))
  {
    hide OkMessages;
    if s.failed.Some? { ErrorAnswerSame(s.answers, Answer(s.queue[0], s.failed)); }
  }

  lemma OtherSame(s: System, e: WorkerEvent)
    requires CallsNothing(s, e)
    ensures SameTrace(s, WorkerStep(s, e))
  {
    hide OkMessages, Fail, Resume, PublishStep, StartRequest;
    match e
    case BatchFinished(error) =>
      if s.running > 0 && error.Some? { FailSame(s.(running := s.running - 1), error.value, EndArm(false)); }
    case ReceiveMessage => if s.queue != [] { TakeSame(s); }
    case Drain => if s.queue != [] { TakeSame(s); }
    case ReceiveNone => FailSame(s, Closed, DrainQueue);
    case Cancel =>
      FailSame(s, Closed, DrainQueue);
      if s.pc.Flushing? { FailSame(FinishArm(s, s.pc.holdsPermit), Closed, DrainQueue); }
    case ServiceReady(error) =>
      if error.Some? && s.pc.Receiving? { FailSame(s, error.value, AnswerMessage(s.pc.msg, s.pc.isNew)); }
      if error.Some? && s.pc.Flushing? { FailSame(s, error.value, EndArm(s.pc.holdsPermit)); }
    case Publish => if s.pc.Publishing? { PublishSame(s); }
    case TimeoutElapses =>
    case TimerExpired =>
    case AfterRequest =>
  }

  lemma OtherPc(s: System, e: WorkerEvent, open: seq<Msg>)
    requires ErrorInv(s) && CallsNothing(s, e) && s.cfg.maxWeight >= 1 && s.pendingWeight == Weight(open)
    requires s.handle.None? ==> PcInv(s, open)
    ensures WorkerStep(s, e).handle.None? ==> PcInv(WorkerStep(s, e), open)
  {
    hide ErrorInv, WellCut, Weight;
    ErrorKnown(s);
    if 0 < s.pendingWeight < s.cfg.maxWeight { PendingIsWellCut(open, s.cfg.maxWeight); }
  }

  /** Steps that send nothing to the inner service. */
  lemma OtherTraceInv(s: System, e: WorkerEvent)
    requires ErrorInv(s) && TraceInv(s) && s.cfg.maxWeight >= 1 && CallsNothing(s, e)
    ensures TraceInv(WorkerStep(s, e))
  {
    hide ErrorInv, Items, Cut, OkMessages, WellCut, Weight, PcInv, WorkerStep;
    OtherSame(s, e);
    OtherPc(s, e, Cut(s.trace).1);
  }

  lemma WorkerTraceInv(s: System, e: WorkerEvent)
    requires ErrorInv(s) && MessageInv(s) && TraceInv(s) && s.cfg.maxWeight >= 1
    ensures TraceInv(WorkerStep(s, e))
  {
    hide ErrorInv, MessageInv, TraceInv;
    if e == ServiceReady(None) && s.pc.Receiving? {
      ItemTraceInv(s, s.pc.msg, s.pc.isNew);
    } else if e == ServiceReady(None) && s.pc.Flushing? {
      FlushTraceInv(s);
    } else {
      OtherTraceInv(s, e);
    }
  }

  lemma ClientTraceInv(s: System, c: nat, e: ClientEvent)
    requires ErrorInv(s) && TraceInv(s) && (e.CallService? ==> e.msg.weight >= 1)
    ensures TraceInv(ClientStep(s, c, e))
  {
    hide ErrorInv, Items, Cut, OkMessages, WellCut, Weight;
  }

  /** Every request has a weight of at least one. */
  predicate PositiveWeights(es: seq<Event>) {
    forall i :: 0 <= i < |es| && es[i].OfClient? && es[i].c.CallService? ==> es[i].c.msg.weight >= 1
  }

  lemma {:induction false} RunTraceInv(cfg: Config, es: seq<Event>)
    requires cfg.maxWeight >= 1 && PositiveWeights(es)
    ensures TraceInv(Run(Init(cfg), es))
  {
    if es == [] {
      assert Cut([]) == ([], []);
    } else {
      hide TraceInv, Step;
      var n := |es| - 1;
      assert PositiveWeights(es[..n]) by { assert forall i :: 0 <= i < n ==> es[..n][i] == es[i]; }
      RunTraceInv(cfg, es[..n]);
      RunInv(cfg, es[..n]);
      StepTraceInv(Run(Init(cfg), es[..n]), es[n]);
    }
  }

  lemma StepTraceInv(s: System, e: Event)
    requires Inv(s) && TraceInv(s) && s.cfg.maxWeight >= 1
    requires e.OfClient? && e.c.CallService? ==> e.c.msg.weight >= 1
    ensures TraceInv(Step(s, e))
  {
    hide TraceInv, ErrorInv, PermitInv, MessageInv, RunningInv, WorkerStep, ClientStep;
    match e
    case OfWorker(w) => WorkerTraceInv(s, w);
    case OfClient(client, c) => ClientTraceInv(s, client, c);
  }

  /**
   With request weights of at least one, in every reachable state the flushed batches, followed by the open
   one, hold exactly the requests answered without an error, in order; every flushed batch is non-empty and
   was below the limit before its last request. As long as nothing has failed these are all answered requests,
   in arrival order, and between steps the timer is armed exactly when some weight is pending.
   */
  lemma InnerServiceSeesBatches(cfg: Config, es: seq<Event>)
    requires cfg.maxWeight >= 1 && PositiveWeights(es)
    ensures var s := Run(Init(cfg), es);
            var (done, open) := Cut(s.trace);
            && Concat(done) + open == OkMessages(s.answers)
            && (forall i :: 0 <= i < |done| ==> WellCut(done[i], cfg.maxWeight))
            && Weight(open) == s.pendingWeight
            && (s.handle.None? ==> Concat(done) + open == Messages(s.answers) <= s.accepted)
            && (s.handle.None? && s.pc.Select? ==>
                  (s.timer != Off <==> s.pendingWeight > 0) && s.pendingWeight < cfg.maxWeight)
  {
    hide ErrorInv, MessageInv, PermitInv, RunningInv, Run;
    RunInv(cfg, es);
    RunTraceInv(cfg, es);
    var s := Run(Init(cfg), es);
    CutCovers(s.trace);
    if s.handle.None? {
      AnsweredOnceInOrder(cfg, es);
      NoErrorYet(s);
      AllOk(s.answers);
    }
  }
}
