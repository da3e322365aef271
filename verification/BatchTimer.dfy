/** When exactly a failed worker has its timer armed, although failing stops it. */
module BatchTimer {
  import opened Prelude
  import opened BatchModel
  import opened BatchInvariants

  /** Some request was answered with an error. */
  ghost predicate HasError(a: seq<Answer>) {
    exists i :: 0 <= i < |a| && a[i].error.Some?
  }

  lemma HasErrorSnoc(a: seq<Answer>, x: Answer)
    ensures HasError(a + [x]) <==> HasError(a) || x.error.Some?
  {
    if HasError(a) {
      var i :| 0 <= i < |a| && a[i].error.Some?;
      assert (a + [x])[i].error.Some?;
    }
    if x.error.Some? {
      assert (a + [x])[|a|].error.Some?;
    }
  }

  /** Whether a request opened a batch is still known when it is answered with an error. */
  ghost predicate TimerInv(s: System) {
    && (HasError(s.answers) ==> s.failed.Some?)
    && (s.pc.Receiving? ==> (s.pc.isNew <==> s.pendingWeight == 0))
    && (s.pc.Publishing? && s.pc.after.AnswerMessage? ==> (s.pc.after.isNew <==> s.pendingWeight == 0))
    && (s.failed.Some? && s.pc.Select? ==> (s.timer != Off <==> s.pendingWeight == 0 && HasError(s.answers)))
    && (s.failed.Some? && s.pc.Received? ==>
          && (s.pc.isNew <==> s.pendingWeight == 0) && HasError(s.answers)
          && (s.timer != Off ==> s.pendingWeight == 0))
  }

  lemma FailTimerInv(s: System, error: Error, after: Then)
    requires TimerInv(s) && s.failed == s.handle && (s.handle.Some? ==> s.pc.Select? && !after.AnswerMessage?)
    requires after.AnswerMessage? ==> (after.isNew <==> s.pendingWeight == 0)
    ensures TimerInv(Fail(s, error, after))
  {
    hide HasError;
  }

  lemma PublishTimerInv(s: System)
    requires ErrorInv(s) && TimerInv(s) && s.pc.Publishing?
    ensures TimerInv(PublishStep(s))
  {
    hide HasError, ErrorInv;
    ErrorKnown(s);
    if s.pc.after.AnswerMessage? { HasErrorSnoc(s.answers, Answer(s.pc.after.msg, Some(s.pc.error))); }
  }

  lemma TakeTimerInv(s: System)
    requires TimerInv(s) && s.queue != []
    ensures s.pc.Select? ==> TimerInv(StartRequest(s))
    ensures s.pc.Draining? && s.failed.Some? ==> TimerInv(DrainStep(s))
  {
    hide HasError;
    HasErrorSnoc(s.answers, Answer(s.queue[0], s.failed));
  }

  lemma ServiceTimerInv(s: System, error: Option<Error>)
    requires ErrorInv(s) && TimerInv(s)
    ensures TimerInv(ServiceStep(s, error))
  {
    hide HasError, ErrorInv, Fail;
    ErrorKnown(s);
    if s.pc.Receiving? {
      HasErrorSnoc(s.answers, Answer(s.pc.msg, None));
      if error.Some? { FailTimerInv(s, error.value, AnswerMessage(s.pc.msg, s.pc.isNew)); }
    } else if s.pc.Flushing? && error.Some? {
      FailTimerInv(s, error.value, EndArm(s.pc.holdsPermit));
    }
  }

  lemma WorkerTimerInv(s: System, e: WorkerEvent)
    requires ErrorInv(s) && TimerInv(s) && s.cfg.maxWeight >= 1
    ensures TimerInv(WorkerStep(s, e))
  {
    hide HasError, ErrorInv, Fail, PublishStep, StartRequest, ServiceStep;
    ErrorKnown(s);
    match e
    case BatchFinished(error) =>
      if s.pc.Select? && s.running > 0 && error.Some? {
        FailTimerInv(s.(running := s.running - 1), error.value, EndArm(false));
      }
    case ReceiveNone => if s.pc.Select? { FailTimerInv(s, Closed, DrainQueue); }
    case Cancel =>
      if s.pc.Select? {
        FailTimerInv(s, Closed, DrainQueue);
      } else if s.pc.Flushing? {
        FailTimerInv(FinishArm(s, s.pc.holdsPermit), Closed, DrainQueue);
      }
    case ReceiveMessage => if s.queue != [] { TakeTimerInv(s); }
    case Drain => if s.queue != [] { TakeTimerInv(s); } else { }
    case ServiceReady(error) => ServiceTimerInv(s, error);
    case Publish => if s.pc.Publishing? { PublishTimerInv(s); }
    case TimeoutElapses =>
    case TimerExpired =>
    case AfterRequest =>
  }

  /** Clients leave the worker alone. */
  lemma ClientLeavesWorker(s: System, c: nat, e: ClientEvent)
    ensures var s' := ClientStep(s, c, e);
            && s'.pc == s.pc && s'.pendingWeight == s.pendingWeight && s'.timer == s.timer && s'.failed == s.failed
            && s'.answers == s.answers
  {
  }

  lemma StepTimerInv(s: System, e: Event)
    requires Inv(s) && TimerInv(s) && s.cfg.maxWeight >= 1
    ensures TimerInv(Step(s, e))
  {
    hide ErrorInv, PermitInv, MessageInv, RunningInv, HasError, WorkerStep, ClientStep;
    match e
    case OfWorker(w) => WorkerTimerInv(s, w);
    case OfClient(client, c) => ClientLeavesWorker(s, client, c);
  }

  lemma {:induction false} RunTimerInv(s: System, es: seq<Event>)
    requires Inv(s) && TimerInv(s) && s.cfg.maxWeight >= 1
    ensures Inv(Run(s, es)) && TimerInv(Run(s, es)) && Run(s, es).cfg == s.cfg
  {
    hide Inv, TimerInv, Step;
    if es != [] {
      var t := Run(s, es[..|es| - 1]);
      RunTimerInv(s, es[..|es| - 1]);
      StepInv(t, es[|es| - 1]);
      StepTimerInv(t, es[|es| - 1]);
      StepHandle(t, es[|es| - 1]);
    }
  }

  lemma InitTimerInv(cfg: Config)
    ensures TimerInv(Init(cfg))
  {
  }

  /**
   In every reachable state, a failed worker at its select statement has its timer armed exactly when no weight
   was pending at the failure and it has answered a request with the error since.
   */
  lemma FailedTimerArmed(cfg: Config, es: seq<Event>)
    requires cfg.maxWeight >= 1
    ensures var s := Run(Init(cfg), es);
            s.failed.Some? && s.pc.Select? ==>
              (s.timer != Off <==> s.pendingWeight == 0 && exists i :: 0 <= i < |s.answers| && s.answers[i].error.Some?)
  {
    hide Inv, Run;
    RunInv(cfg, []);
    RunNothing(Init(cfg));
    InitTimerInv(cfg);
    RunTimerInv(Init(cfg), es);
  }
}
