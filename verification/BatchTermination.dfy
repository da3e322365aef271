/**
 Every way of going on gets there: from a state that is not starved, the worker's own steps and successes of the inner
 service cannot go on for ever, and when none is possible any more, every accepted request has its answer.
 */
module BatchTermination {
  import opened Prelude
  import opened BatchModel
  import opened BatchInvariants
  import opened BatchService
  import opened BatchTimer
  import opened BatchProgress

  /** What is left to do where the worker is. */
  function PcRank(pc: Pc): nat {
    match pc
    case Select => 0
    case Receiving(_, _) => 5
    case Received(_) => 4
    case Flushing(_) => 2
    case Publishing(_, _, _) => PublishRank(pc) + 4
    case Draining => 1
    case Dropped => 0
  }

  /** An elapsed timer costs a flush, unless one is on its way. */
  function TimerRank(s: System): nat {
    if TimerReady(s) && !s.pc.Flushing? then 4 else 0
  }

  /** A bound on the smooth steps that change something. */
  function Rank(s: System): nat {
    8 * |s.queue| + PcRank(s.pc) + TimerRank(s) + s.running
  }

  /** Every step changes something. */
  predicate Effective(s: System, es: seq<Event>) {
    es == [] || (Effective(s, es[..|es| - 1]) && Run(s, es) != Run(s, es[..|es| - 1]))
  }

  lemma PublishRanks(s: System)
    requires s.pc.Publishing?
    ensures Rank(PublishStep(s)) < Rank(s)
  {
  }

  lemma TakeRanks(s: System)
    requires s.queue != []
    ensures s.pc.Select? ==> Rank(StartRequest(s)) < Rank(s)
    ensures s.pc.Draining? && s.failed.Some? ==> Rank(DrainStep(s)) < Rank(s)
  {
  }

  lemma SmoothRanks(s: System, e: WorkerEvent)
    requires ErrorInv(s) && !Starved(s) && Smooth(OfWorker(e)) && WorkerStep(s, e) != s
    ensures Rank(WorkerStep(s, e)) < Rank(s)
  {
    hide ErrorInv, PublishStep, StartRequest, Fail;
    ErrorKnown(s);
    if s.pc.Publishing? { PublishRanks(s); }
    if s.queue != [] { TakeRanks(s); }
  }

  lemma {:induction false} EffectiveRanks(s: System, es: seq<Event>)
    requires Inv(s) && TimerInv(s) && !Starved(s) && s.cfg.maxWeight >= 1 && AllSmooth(es) && Effective(s, es)
    ensures Rank(Run(s, es)) + |es| <= Rank(s)
  {
    hide ErrorInv, PermitInv, MessageInv, RunningInv, TimerInv, Starved, WorkerStep, Rank;
    if es != [] {
      var n := |es| - 1;
      EffectiveRanks(s, es[..n]);
      SmoothRunFree(s, es[..n]);
      RunTimerInv(s, es[..n]);
      assert Smooth(es[n]);
      SmoothRanks(Run(s, es[..n]), es[n].w);
    }
  }

  /** No smooth step changes anything. */
  ghost predicate AtRest(s: System) {
    forall e :: Smooth(OfWorker(e)) ==> WorkerStep(s, e) == s
  }

  /** A worker at rest waits for messages or is gone, and has nothing queued. */
  lemma RestIsDone(s: System)
    requires Inv(s) && !Starved(s) && s.cfg.maxBatches >= 1 && AtRest(s)
    ensures Idle(s) && s.queue == []
  {
    hide PermitInv, MessageInv, ErrorInv;
    ErrorKnown(s);
    assert WorkerStep(s, Publish) == s && WorkerStep(s, ServiceReady(None)) == s && WorkerStep(s, AfterRequest) == s;
    assert WorkerStep(s, BatchFinished(None)) == s && WorkerStep(s, TimerExpired) == s;
    assert WorkerStep(s, ReceiveMessage) == s && WorkerStep(s, Drain) == s;
    if s.pc.Dropped? { GoneIsEmpty(s); }
  }

  /**
   From every reachable state that is not starved, every run of smooth steps that change something is bounded by the
   rank of the state, and once no such step is left, every request accepted so far has its answer, without a new
   failure.
   */
  lemma SmoothRunsAnswer(cfg: Config, es: seq<Event>, more: seq<Event>)
    requires cfg.maxWeight >= 1 && cfg.maxBatches >= 1 && !Starved(Run(Init(cfg), es))
    requires AllSmooth(more) && Effective(Run(Init(cfg), es), more)
    ensures |more| <= Rank(Run(Init(cfg), es))
    ensures var s := Run(Init(cfg), es);
            var s' := Run(s, more);
            AtRest(s') ==> Messages(s'.answers) == s'.accepted == s.accepted && s'.handle == s.handle
  {
    hide Inv, TimerInv, Starved, Run, Rank, AtRest, Effective, Idle;
    var s := Run(Init(cfg), es);
    Reachable(cfg, es);
    EffectiveRanks(s, more);
    SmoothRun(s, more);
    var s' := Run(s, more);
    if AtRest(s') {
      SmoothRunFree(s, more);
      RunTimerInv(s, more);
      RestIsDone(s');
      AllAnswered(s');
    }
  }
}
