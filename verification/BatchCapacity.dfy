/**
 How many handles of a fresh batch service can be ready at once: as many as the arguments of `pair` say.
 */
module BatchCapacity {
  import opened Prelude
  import opened BatchModel
  import opened BatchInvariants
  import opened BatchService

  /** Handles 0, 1, .. n - 1 are made, and each is polled once. */
  function Arrivals(n: nat): seq<Event> {
    if n == 0 then []
    else if n == 1 then PollEvents(0)
    else Arrivals(n - 1) + ([OfClient(0, CloneInto(n - 1))] + PollEvents(n - 1))
  }

  /** The handles below `n` were polled: the first ones got the permits, the others wait. */
  ghost predicate Handed(s: System, cfg: Config, n: nat) {
    && s.cfg == cfg && !s.channelClosed && !s.semaphoreClosed && n > 0
    && (forall c: nat :: c in s.views <==> c < n)
    && (forall c: nat :: c in s.held <==> c < n && c < cfg.permits)
    && (forall c: nat :: c in s.views ==> s.views[c] == if c < cfg.permits then Working else Polling)
    && s.available == if n < cfg.permits then cfg.permits - n else 0
  }

  /** One more handle. */
  lemma HandNext(s: System, cfg: Config, n: nat)
    requires Handed(s, cfg, n)
    ensures Handed(Run(s, [OfClient(0, CloneInto(n))] + PollEvents(n)), cfg, n + 1)
  {
    hide Run;
    var e := OfClient(0, CloneInto(n));
    RunAppend(s, [e], PollEvents(n));
    RunOne(s, e);
    PollRun(Run(s, [e]), n);
  }

  lemma {:induction false} HandAll(cfg: Config, n: nat)
    requires n > 0
    ensures Handed(Run(Init(cfg), Arrivals(n)), cfg, n)
  {
    hide Run, Handed;
    if n == 1 {
      PollRun(Init(cfg), 0);
      HandFirst(cfg);
    } else {
      HandAll(cfg, n - 1);
      RunAppend(Init(cfg), Arrivals(n - 1), [OfClient(0, CloneInto(n - 1))] + PollEvents(n - 1));
      HandNext(Run(Init(cfg), Arrivals(n - 1)), cfg, n - 1);
    }
  }

  lemma HandFirst(cfg: Config)
    ensures Handed(Polled(Init(cfg), 0), cfg, 1)
  {
  }

  /** A handle that `poll_ready` made ready. */
  predicate IsReady(s: System, c: nat) {
    c in s.held && c in s.views && s.views[c] == Working
  }

  /** A handle that waits for a permit. */
  predicate IsPending(s: System, c: nat) {
    c !in s.held && c in s.views && s.views[c] == Polling
  }

  /**
   Of any number of handles of a fresh service that are polled in turn, exactly the first ones are ready, as many as
   the maximum weight times the number of batches, and all others are pending. The weight counts as at least 1 and
   the batches as at least 1 and at most 64.
   */
  lemma FreshHandlesReady(maxItemsWeight: nat, maxBatches: nat, n: nat, c: nat)
    requires c < n
    ensures var s := Run(Init(Pair(maxItemsWeight, maxBatches)), Arrivals(n));
            var weight := if maxItemsWeight == 0 then 1 else maxItemsWeight;
            && (maxBatches == 0 ==> if c < weight then IsReady(s, c) else IsPending(s, c))
            && (1 <= maxBatches <= 64 ==> if c < weight * maxBatches then IsReady(s, c) else IsPending(s, c))
            && (maxBatches > 64 ==> if c < weight * 64 then IsReady(s, c) else IsPending(s, c))
  {
    hide Run;
    HandAll(Pair(maxItemsWeight, maxBatches), n);
  }
}
