/**
 When a worker that has not failed comes to its end by itself: exactly when all handles are gone. It has then
 answered every request.
 */
module BatchEnd {
  import opened Prelude
  import opened BatchModel
  import opened BatchInvariants
  import opened BatchService
  import opened BatchTimer
  import opened BatchProgress

  /** A smooth step, or one in which time passes or the worker looks for the end of its channel. */
  predicate Gentle(e: Event) {
    Smooth(e) || e == OfWorker(ReceiveNone) || e == OfWorker(TimeoutElapses)
  }

  predicate AllGentle(es: seq<Event>) {
    forall i :: 0 <= i < |es| ==> Gentle(es[i])
  }

  lemma FailViews(s: System, error: Error, after: Then)
    ensures Fail(s, error, after).views == s.views
  {
  }

  /** The worker makes and drops no handles. */
  lemma WorkerViews(s: System, e: WorkerEvent)
    ensures WorkerStep(s, e).views == s.views
  {
    hide Fail;
    FailViews(s, Closed, DrainQueue);
    match e
    case BatchFinished(error) =>
      if s.running > 0 && error.Some? { FailViews(s.(running := s.running - 1), error.value, EndArm(false)); }
    case Cancel =>
      if s.pc.Flushing? { FailViews(FinishArm(s, s.pc.holdsPermit), Closed, DrainQueue); }
    case ServiceReady(error) =>
      if error.Some? && s.pc.Receiving? { FailViews(s, error.value, AnswerMessage(s.pc.msg, s.pc.isNew)); }
      if error.Some? && s.pc.Flushing? { FailViews(s, error.value, EndArm(s.pc.holdsPermit)); }
    case _ =>
  }

  lemma {:induction false} GentleViews(s: System, es: seq<Event>)
    requires AllGentle(es)
    ensures Run(s, es).views == s.views
  {
    hide WorkerStep;
    if es != [] {
      var n := |es| - 1;
      GentleViews(s, es[..n]);
      assert Gentle(es[n]);
      WorkerViews(Run(s, es[..n]), es[n].w);
    }
  }

  // ---------------------------------------------------------------- a worker in use goes on

  lemma InUseStep(s: System, e: Event)
    requires ErrorInv(s) && s.handle.None? && s.views != map[] && Gentle(e)
    ensures Step(s, e).handle.None?
  {
  }

  /** While there is a handle and nothing fails, the worker stays. */
  lemma {:induction false} InUseStays(s: System, es: seq<Event>)
    requires Inv(s) && s.handle.None? && s.views != map[] && AllGentle(es)
    ensures Run(s, es).handle.None? && !Run(s, es).pc.Dropped?
  {
    hide Inv, Step, Gentle;
    RunKeepsInv(s, es);
    if es != [] {
      var n := |es| - 1;
      InUseStays(s, es[..n]);
      RunKeepsInv(s, es[..n]);
      GentleViews(s, es[..n]);
      assert Gentle(es[n]);
      InvErrors(Run(s, es[..n]));
      InUseStep(Run(s, es[..n]), es[n]);
    }
    NotGone(Run(s, es));
  }

  lemma InvErrors(s: System)
    requires Inv(s)
    ensures ErrorInv(s)
  {
  }

  lemma NotGone(s: System)
    requires Inv(s) && s.handle.None?
    ensures !s.pc.Dropped? && !s.pc.Draining?
  {
  }

  // ---------------------------------------------------------------- an unused worker can end

  /** The steps of leaving the select statement for good, taken together. */
  const EXIT: seq<Event> := [OfWorker(ReceiveNone)] + PUBLISH + DrainEvents(1)

  lemma ExitRun(s: System)
    requires Quiet(s) && Receives(s) && s.queue == []
    ensures s.channelClosed || s.views == map[] ==> Run(s, EXIT) == Published(s, Closed).(pc := Dropped)
    ensures !s.channelClosed && s.views != map[] ==> Run(s, EXIT) == s
  {
    hide Run, Fail;
    RunAppend(s, [OfWorker(ReceiveNone)] + PUBLISH, DrainEvents(1));
    RunAppend(s, [OfWorker(ReceiveNone)], PUBLISH);
    RunOne(s, OfWorker(ReceiveNone));
    assert DrainEvents(1) == [OfWorker(Drain)];
    if s.channelClosed || s.views == map[] {
      FailRun(s, Closed, DrainQueue);
      RunOne(Published(s, Closed).(pc := Draining), OfWorker(Drain));
    } else {
      PublishIs(s);
      RunOne(s, OfWorker(Drain));
    }
  }

  lemma SmoothIsGentle(es: seq<Event>)
    requires AllSmooth(es)
    ensures AllGentle(es)
  {
  }

  lemma ExitIsGentle(es: seq<Event>)
    requires AllSmooth(es)
    ensures AllGentle(es + EXIT)
  {
    assert forall i :: 0 <= i < |EXIT| ==> Gentle(EXIT[i]);
  }

  /** Serve what is queued, flush, make room, and the worker is ready to leave. */
  lemma Finishes(s: System) returns (es: seq<Event>)
    requires Inv(s) && TimerInv(s) && s.cfg.maxWeight >= 1 && s.cfg.maxBatches >= 1
    requires s.pc.Select? && !Starved(s)
    ensures AllSmooth(es) && Receives(Run(s, es)) && Run(s, es).queue == []
  {
    hide Inv, TimerInv, Starved, Run, Receives, Smooth;
    var all := ServeAll(s);
    var t := Run(s, all);
    RunTimerInv(s, all);
    SmoothRunFree(s, all);
    SmoothRun(s, all);
    var flush := FlushFirst(t);
    RunKeepsInv(t, flush);
    SmoothRun(t, flush);
    var room := RoomFirst(Run(t, flush));
    es := all + flush + room;
    SmoothAppend(all, flush);
    SmoothAppend(all + flush, room);
    RunAppend(s, all, flush);
    RunAppend(s, all + flush, room);
  }

  /** The worker is gone, and every request accepted before was answered with a response. */
  ghost predicate EndsWell(cfg: Config, es: seq<Event>, more: seq<Event>) {
    var s' := Run(Init(cfg), es + more);
    && AllGentle(more) && s'.pc.Dropped? && s'.handle == Some(Closed)
    && Messages(s'.answers) == Run(Init(cfg), es).accepted
    && forall i :: 0 <= i < |s'.answers| ==> s'.answers[i].error.None?
  }

  lemma NotStarved(s: System)
    requires Inv(s) && s.handle.None?
    ensures !Starved(s)
  {
  }

  lemma UnusedEnds(cfg: Config, es: seq<Event>) returns (more: seq<Event>)
    requires cfg.maxWeight >= 1 && cfg.maxBatches >= 1
    requires Run(Init(cfg), es).handle.None? && Run(Init(cfg), es).views == map[]
    ensures EndsWell(cfg, es, more)
  {
    hide Inv, TimerInv, Starved, Run, Smooth, Receives, Published;
    var s := Run(Init(cfg), es);
    Reachable(cfg, es);
    NotStarved(s);
    Settles(s);
    SettleIsSmooth();
    var t := Run(s, SETTLE);
    RunTimerInv(s, SETTLE);
    RunKeepsInv(s, SETTLE);
    SmoothRun(s, SETTLE);
    NotGone(t);
    NotStarved(t);
    var rest := Finishes(t);
    var work := SETTLE + rest;
    SmoothAppend(SETTLE, rest);
    RunAppend(s, SETTLE, rest);
    LeavesWell(s, work);
    more := work + EXIT;
    RunAppend(Init(cfg), es, more);
    ExitIsGentle(work);
  }

  /** What smooth steps to the point of leaving, and leaving, come to. */
  lemma LeavesWell(s: System, work: seq<Event>)
    requires Inv(s) && s.handle.None? && s.views == map[] && AllSmooth(work)
    requires Receives(Run(s, work)) && Run(s, work).queue == []
    ensures var s' := Run(s, work + EXIT);
            && s'.pc.Dropped? && s'.handle == Some(Closed) && Messages(s'.answers) == s.accepted
            && forall i :: 0 <= i < |s'.answers| ==> s'.answers[i].error.None?
  {
    hide Inv, Run, Smooth;
    var u := Run(s, work);
    RunAppend(s, work, EXIT);
    RunKeepsInv(s, work);
    SmoothRun(s, work);
    SmoothIsGentle(work);
    GentleViews(s, work);
    InvIsQuiet(u);
    ExitRun(u);
    AllAnswered(u);
    InvErrors(u);
    NoErrorYet(u);
  }

  /**
   A worker that has not failed can end by its own steps and successes of the inner service if and only if all handles
   are gone; every request accepted before then has its response.
   */
  lemma EndsExactlyUnused(cfg: Config, es: seq<Event>)
    requires cfg.maxWeight >= 1 && cfg.maxBatches >= 1 && Run(Init(cfg), es).handle.None?
    ensures Run(Init(cfg), es).views == map[] ==> exists more :: EndsWell(cfg, es, more)
    ensures Run(Init(cfg), es).views != map[] ==>
              forall more :: AllGentle(more) ==> !Run(Init(cfg), es + more).pc.Dropped?
  {
    hide Inv, Run, EndsWell, Gentle;
    var s := Run(Init(cfg), es);
    if s.views == map[] {
      var more := UnusedEnds(cfg, es);
    } else {
      RunInv(cfg, es);
      forall more | AllGentle(more) ensures !Run(Init(cfg), es + more).pc.Dropped? {
        RunAppend(Init(cfg), es, more);
        InUseStays(s, more);
      }
    }
  }
}
