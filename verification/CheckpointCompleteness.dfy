/**
 Completeness of checkpoint verification and the handoff to full verification: whatever the order in which
 the blocks of the chain arrive, once all of them up to a checkpoint have arrived every one has been answered
 `Ok`, the queue is empty and the progress is at that checkpoint. The height at which the router hands over
 to the semantic verifier is always such a checkpoint.
 */
module CheckpointCompleteness {
  import opened Prelude
  import opened CheckpointModel
  import opened CheckpointInvariants
  import opened CheckpointSafety
  import Tickets = CheckpointTickets

  // ---------------------------------------------------------------- deliveries

  /** A call that delivers a block of the chain with a height in `lo < height <= hi`. */
  predicate Delivery(tr: Truth, lo: int, hi: int, e: Event) {
    && e.reset.None? && Honest(tr, e.block) && OnChain(tr, e.block) && e.block.basicChecks
    && lo < e.block.coinbaseHeight.value <= hi
  }

  /** The blocks delivered so far, by height. */
  function Delivered(es: seq<Event>): map<Height, Block> {
    if es == [] then map[]
    else
      var b := es[|es| - 1].block;
      var d := Delivered(es[..|es| - 1]);
      if b.coinbaseHeight.Some? then d[b.coinbaseHeight.value := b] else d
  }

  /** Each height in `lo < height <= hi` is delivered exactly once, in any order. */
  ghost predicate DeliversAll(tr: Truth, lo: int, hi: int, es: seq<Event>) {
    && (forall e :: e in es ==> Delivery(tr, lo, hi, e))
    && (forall i, j :: 0 <= i < j < |es| ==> es[i].block.coinbaseHeight != es[j].block.coinbaseHeight)
    && (forall h :: lo < h <= hi ==> h in Delivered(es))
  }

  ghost predicate AnsweredOk(answers: seq<Answer>, b: Block) {
    exists i :: 0 <= i < |answers| && answers[i].block == b && answers[i].result == Ok(b.hash)
  }

  lemma AnsweredOkGrows(a: seq<Answer>, b: seq<Answer>, x: Block)
    requires AnsweredOk(a, x) && a <= b
    ensures AnsweredOk(b, x)
  {
    var i :| 0 <= i < |a| && a[i].block == x && a[i].result == Ok(x.hash);
    assert b[i] == a[i];
  }

  // ---------------------------------------------------------------- what holds between deliveries

  /** Delivered blocks up to the progress are answered `Ok`, those above are alone at their heights. */
  ghost predicate Holding(tr: Truth, st0: State, st: State, hi: int, d: map<Height, Block>)
    requires 0 in st0.list
  {
    && Sound(tr, st) && st.list == st0.list
    && Base(st0) <= Base(st) <= hi
    && (st.progress == st0.progress
        || st.progress == if Base(st) == MaxHeight(st.list) then FinalCheckpoint else PreviousCheckpoint(Base(st)))
    && (forall h :: h in d ==> Base(st0) < h <= hi && OnChain(tr, d[h]) && d[h].coinbaseHeight == Some(h))
    && (forall h :: Base(st0) < h <= Base(st) ==> h in d && AnsweredOk(st.answers, d[h]))
    && (forall h :: h in st.queued <==> h in d && Base(st) < h)
    && (forall h :: h in st.queued ==> |st.queued[h]| == 1 && st.queued[h][0].block == d[h])
    && st0.answers <= st.answers
    && (forall i :: |st0.answers| <= i < |st.answers| ==> st.answers[i].result.Ok?)
  }

  /** The calls that are answered or queued. */
  function Handled(st: State): nat
    requires 0 in st.list
  {
    |st.answers| + Tickets.Queued(st, Tickets.All())
  }

  lemma HandledEmpty(st: State)
    requires 0 in st.list && st.queued == map[]
    ensures Handled(st) == |st.answers|
  {
    Tickets.NothingQueued(MaxHeight(st.list) + 1, Tickets.All());
  }

  /** An accepted call is queued or answered once, and nothing else is answered. */
  lemma CallHandles(st: State, e: Event)
    requires Valid(st) && e.reset.None? && Call(st, e).Next? && Call(st, e).value.1.Accepted?
    ensures Call(st, e).value.0.list == st.list && Handled(Call(st, e).value.0) == Handled(st) + 1
  {
    hide Process, QueueBlock, Tickets.QueueTickets, Tickets.Answered;
    var st2 := QueueBlock(st, e.block).value;
    var st' := Call(st, e).value.0;
    EnqueueValid(st, e.block);
    Tickets.EnqueueConserves(st, e.block, Tickets.All());
    Tickets.ProcessConserves(st2, st', Tickets.All());
    Tickets.AnsweredSize(st.answers);
    Tickets.AnsweredSize(st2.answers);
    Tickets.AnsweredSize(st'.answers);
  }

  /** A walk over single blocks of the chain reaches the bottom and refuses nobody. */
  lemma {:induction false} SinglesReach(
    tr: Truth, list: map<Height, Hash>, queued: Queue, lo: int, h: int, expected: Hash, w: Walked)
    requires -1 <= tr.floor <= lo <= h < |tr.chain| && Grounded(tr, list)
    requires QueueInv(list, queued) && HonestQueue(tr, queued)
    requires forall k :: lo < k <= h ==> k in queued && |queued[k]| == 1 && OnChain(tr, queued[k][0].block)
    requires expected == HashAt(tr, h) && w == Walk(list, queued, lo, h, expected)
    ensures w.outcome.Reached? && w.refused == []
    decreases h - lo
  {
    hide Matching, Refusals, Walk, Grounded, HashAt;
    if h == lo {
      WalkEnd(list, queued, lo, expected);
    } else {
      GroundedAt(tr, list, h);
      var qb := queued[h][0];
      assert qb in queued[h] && Honest(tr, qb.block);
      SingleMatches(queued[h], expected);
      WalkStep(list, queued, lo, h, expected, w);
      var w' := Walk(list, queued - {h}, lo, h - 1, qb.block.parent);
      SinglesReach(tr, list, queued - {h}, lo, h - 1, qb.block.parent, w');
    }
  }

  lemma SingleMatches(l: seq<QueuedBlock>, expected: Hash)
    requires |l| == 1 && l[0].block.hash == expected
    ensures Matching(l, expected) == Some(l[0]) && Refusals(l, expected) == []
  {
    assert l[..0] == [];
  }

  /** Processing a queue of single blocks of the chain never breaks, and answers only `Ok`. */
  lemma ProcessSingles(tr: Truth, st: State)
    requires Sound(tr, st) && !Waits(st)
    requires forall h :: h in st.queued ==> |st.queued[h]| == 1 && OnChain(tr, st.queued[h][0].block)
    ensures Succeeds(st)
    ensures st.answers <= Process(st).value.answers
    ensures forall i :: |st.answers| <= i < |Process(st).value.answers| ==> Process(st).value.answers[i].result.Ok?
  {
    hide Walk, Restore, Target, QueueInv, HonestQueue;
    TargetRange(st);
    ProcessSound(tr, st);
    var t := Target(st).height;
    var w := WalkFromTarget(st, t);
    SinglesReach(tr, st.list, st.queued, Base(st), t, st.list[t], w);
  }

  /** An undelivered block of the chain passes the checks, and nothing is queued at its height. */
  lemma UndeliveredPasses(tr: Truth, st0: State, st: State, hi: int, d: map<Height, Block>, b: Block)
    requires Valid(st0) && hi in st0.list && Holding(tr, st0, st, hi, d)
    requires Delivery(tr, Base(st0), hi, Event(None, b)) && b.coinbaseHeight.value !in d
    ensures st.progress != FinalCheckpoint && Base(st) < b.coinbaseHeight.value
    ensures CheckBlock(st, b) == Ok(b.coinbaseHeight.value) && b.coinbaseHeight.value !in st.queued
  {
  }

  /** A block of the chain that has not been delivered yet is queued alone at its height. */
  lemma EnqueueHolding(tr: Truth, st0: State, st: State, hi: int, d: map<Height, Block>, b: Block)
    requires Valid(st0) && hi in st0.list && Holding(tr, st0, st, hi, d)
    requires Delivery(tr, Base(st0), hi, Event(None, b)) && b.coinbaseHeight.value !in d
    ensures st.progress != FinalCheckpoint && QueueBlock(st, b).Ok?
    ensures Holding(tr, st0, QueueBlock(st, b).value, hi, d[b.coinbaseHeight.value := b])
  {
    hide AnsweredOk, QueueBlock, CheckBlock, Grounded, HonestQueue, QueueInv, Honest;
    UndeliveredPasses(tr, st0, st, hi, d, b);
    HoldingSound(tr, st0, st, hi, d);
    QueueFresh(st, b);
    EnqueueSound(tr, st, b);
  }

  /** Completing a range: the blocks that were waiting in it are now answered. */
  lemma RangeAnswered(tr: Truth, st0: State, st: State, st': State, hi: int, d: map<Height, Block>)
    requires Valid(st0) && hi in st0.list && Holding(tr, st0, st, hi, d)
    requires Succeeds(st) && Process(st) == Next(st') && st.answers <= st'.answers
    ensures Base(st') <= hi
    ensures forall h :: Base(st0) < h <= Base(st') ==> h in d && AnsweredOk(st'.answers, d[h])
  {
    hide Process, Target, AnsweredOk;
    TargetRange(st);
    SuccessfulProcess(st, st');
    assert Base(st') in st.queued;
    forall h | Base(st0) < h <= Base(st') ensures h in d && AnsweredOk(st'.answers, d[h]) {
      if h <= Base(st) {
        AnsweredOkGrows(st.answers, st'.answers, d[h]);
      } else {
        assert h in st.queued;
        NewlyAnswered(tr, st, h);
      }
    }
  }

  /** Processing answers the waiting blocks of a completed range. */
  lemma ProcessHolding(tr: Truth, st0: State, st: State, hi: int, d: map<Height, Block>)
    requires Valid(st0) && hi in st0.list && Holding(tr, st0, st, hi, d)
    ensures Process(st).Next? && Holding(tr, st0, Process(st).value, hi, d) && Waits(Process(st).value)
  {
    hide Process, Target, AnsweredOk, Without, Grounded, HonestQueue, QueueInv;
    ProcessSound(tr, st);
    if Waits(st) {
      WaitsUnchanged(st);
    } else {
      var st' := Process(st).value;
      ProcessSingles(tr, st);
      SuccessfulProcess(st, st');
      RangeAnswered(tr, st0, st, st', hi, d);
      WithoutIs(st.queued, Base(st), Base(st'));
    }
  }

  lemma WaitsUnchanged(st: State)
    requires Valid(st) && Waits(st)
    ensures Process(st) == Next(st)
  {
  }

  /** Delivering one more block of the chain: it is accepted and the same holds again. */
  lemma DeliverOne(tr: Truth, st0: State, st: State, hi: int, d: map<Height, Block>, e: Event)
    requires Valid(st0) && hi in st0.list && Holding(tr, st0, st, hi, d)
    requires Delivery(tr, Base(st0), hi, e) && e.block.coinbaseHeight.value !in d
    ensures Call(st, e).Next? && Call(st, e).value.1.Accepted?
    ensures Holding(tr, st0, Call(st, e).value.0, hi, d[e.block.coinbaseHeight.value := e.block])
    ensures Waits(Call(st, e).value.0) && Handled(Call(st, e).value.0) == Handled(st) + 1
  {
    hide Process, Holding, QueueBlock, Waits, Handled;
    EnqueueHolding(tr, st0, st, hi, d, e.block);
    HoldingSound(tr, st0, st, hi, d);
    HoldingSound(tr, st0, QueueBlock(st, e.block).value, hi, d[e.block.coinbaseHeight.value := e.block]);
    ProcessHolding(tr, st0, QueueBlock(st, e.block).value, hi, d[e.block.coinbaseHeight.value := e.block]);
    CallHandles(st, e);
  }

  lemma HoldingSound(tr: Truth, st0: State, st: State, hi: int, d: map<Height, Block>)
    requires 0 in st0.list && Holding(tr, st0, st, hi, d)
    ensures Sound(tr, st) && st.list == st0.list
  {
  }

  lemma NewlyAnswered(tr: Truth, st: State, h: Height)
    requires Sound(tr, st) && Succeeds(st) && h in st.queued && Base(st) < h <= Base(Process(st).value)
    requires |st.queued[h]| == 1 && OnChain(tr, st.queued[h][0].block)
    ensures AnsweredOk(Process(st).value.answers, st.queued[h][0].block)
  {
    hide Process;
    var qb := st.queued[h][0];
    assert qb in st.queued[h];
    TrueBlockSurvivesSuccess(tr, st, h, qb);
    var i :| 0 <= i < |Process(st).value.answers| &&
             Process(st).value.answers[i] == Answer(qb.ticket, qb.block, Ok(qb.block.hash));
  }

  /** Without repeated heights, `Delivered` maps each height to its block. */
  lemma {:induction false} DeliveredIs(es: seq<Event>)
    requires forall i :: 0 <= i < |es| ==> es[i].block.coinbaseHeight.Some?
    requires forall i, j :: 0 <= i < j < |es| ==> es[i].block.coinbaseHeight != es[j].block.coinbaseHeight
    ensures forall i :: 0 <= i < |es| ==>
              var h := es[i].block.coinbaseHeight.value; h in Delivered(es) && Delivered(es)[h] == es[i].block
    ensures forall h :: h in Delivered(es) ==> exists i :: 0 <= i < |es| && es[i].block.coinbaseHeight == Some(h)
  {
    if es != [] {
      var n := |es| - 1;
      assert forall i :: 0 <= i < n ==> es[..n][i] == es[i];
      DeliveredIs(es[..n]);
      forall h | h in Delivered(es) ensures exists i :: 0 <= i < |es| && es[i].block.coinbaseHeight == Some(h) {
        if h in Delivered(es[..n]) {
          var i :| 0 <= i < n && es[..n][i].block.coinbaseHeight == Some(h);
          assert es[i].block.coinbaseHeight == Some(h);
        } else {
          assert es[n].block.coinbaseHeight == Some(h);
        }
      }
    }
  }

  lemma {:induction false} DeliverSome(tr: Truth, st: State, hi: int, es: seq<Event>)
    requires Sound(tr, st) && st.queued == map[] && hi in st.list && Base(st) < hi
    requires forall i :: 0 <= i < |es| ==> Delivery(tr, Base(st), hi, es[i])
    requires forall i, j :: 0 <= i < j < |es| ==> es[i].block.coinbaseHeight != es[j].block.coinbaseHeight
    ensures Run(st, es).Next? && Holding(tr, st, Run(st, es).value, hi, Delivered(es))
    ensures Waits(Run(st, es).value) && Handled(Run(st, es).value) == Handled(st) + |es|
  {
    hide Run, Call, Holding, Waits, Delivery, Handled;
    if es == [] {
      NothingDelivered(tr, st, hi);
    } else {
      var n := |es| - 1;
      assert forall i :: 0 <= i < n ==> es[..n][i] == es[i];
      DeliverSome(tr, st, hi, es[..n]);
      var mid := Run(st, es[..n]).value;
      HoldingSound(tr, st, mid, hi, Delivered(es[..n]));
      DeliveryHeight(tr, Base(st), hi, es);
      DeliveredIs(es[..n]);
      DeliverOne(tr, st, mid, hi, Delivered(es[..n]), es[n]);
      RunSnoc(st, es[..n], es[n]);
      assert es[..n] + [es[n]] == es;
    }
  }

  lemma NothingDelivered(tr: Truth, st: State, hi: int)
    requires Sound(tr, st) && st.queued == map[] && hi in st.list && Base(st) < hi
    ensures Run(st, []) == Next(st) && Holding(tr, st, st, hi, map[]) && Waits(st)
  {
  }

  lemma DeliveryHeight(tr: Truth, lo: int, hi: int, es: seq<Event>)
    requires forall i :: 0 <= i < |es| ==> Delivery(tr, lo, hi, es[i])
    ensures forall i :: 0 <= i < |es| ==> es[i].block.coinbaseHeight.Some?
  {
  }

  /**
   Any-order completeness. Starting from an empty queue below a checkpoint `hi`, delivering each block of the
   chain up to `hi` exactly once, in any order and without a reset, ends with progress at `hi`, an empty
   queue, and every delivered block answered `Ok`; no other answer was sent.
   */
  lemma AnyOrderCompletes(tr: Truth, st: State, hi: Height, es: seq<Event>)
    requires Sound(tr, st) && st.queued == map[] && hi in st.list && Base(st) < hi
    requires DeliversAll(tr, Base(st), hi, es)
    ensures Run(st, es).Next?
    ensures var st' := Run(st, es).value;
            && st'.progress == (if hi == MaxHeight(st.list) then FinalCheckpoint else PreviousCheckpoint(hi))
            && st'.queued == map[]
            && (forall e :: e in es ==> AnsweredOk(st'.answers, e.block))
            && (forall i :: |st.answers| <= i < |st'.answers| ==> st'.answers[i].result.Ok?)
            && |st'.answers| == |st.answers| + |es|
  {
    hide Run, AnsweredOk, Delivered, Handled;
    DeliverSome(tr, st, hi, es);
    HandledEmpty(st);
    DeliveredIs(es);
    var st' := Run(st, es).value;
    if Base(st') < hi {
      NoWaitBelow(st', hi);
    }
    HandledEmpty(st');
  }

  /** A verifier that has every block up to a checkpoint has a target. */
  lemma NoWaitBelow(st: State, hi: Height)
    requires Valid(st) && Base(st) < hi && hi in st.list
    requires forall k :: Base(st) < k <= hi ==> k in st.queued
    ensures !Waits(st)
  {
    var e := ContiguousEnd(st.queued, Base(st));
    assert e < hi ==> e + 1 in st.queued;
  }

  // ---------------------------------------------------------------- router

  datatype Request = Request(block: Block, isProposal: bool)

  datatype Route = RejectProposal | ToCheckpoint | ToSemantic

  /** The lowest checkpoint at or above `from`. */
  function MinHeightFrom(list: map<Height, Hash>, from: Height): (r: Option<Height>)
    requires 0 in list
    ensures r.Some? ==> from <= r.value && r.value in list
    ensures forall h :: h in list && from <= h ==> r.Some? && r.value <= h
    decreases MaxHeight(list) + 1 - from
  {
    if from > MaxHeight(list) then None
    else if from in list then Some(from)
    else MinHeightFrom(list, from + 1)
  }

  /**
   `init_checkpoint_list`: the handoff height is a checkpoint. With `checkpoint_sync` no checkpoint is above it;
   without, it is the first one from the mandatory height on. `None` is the panic for a list that ends too early.
   */
  function HandoffHeight(list: map<Height, Hash>, checkpointSync: bool, mandatory: Height): (r: Option<Height>)
    requires 0 in list
    ensures r.Some? ==> r.value in list
    ensures r.None? <==> !checkpointSync && forall h :: h in list ==> h < mandatory
    ensures checkpointSync && r.Some? ==> forall h :: h in list ==> h <= r.value
    ensures !checkpointSync && r.Some? ==> mandatory <= r.value && forall h :: mandatory <= h < r.value ==> h !in list
  {
    if checkpointSync then Some(MaxHeight(list)) else MinHeightFrom(list, mandatory)
  }

  /** `BlockVerifierRouter::call`. */
  function RouteOf(handoff: Height, r: Request): Route {
    match r.block.coinbaseHeight
    case Some(height) =>
      if height <= handoff && r.isProposal then RejectProposal
      else if height <= handoff then ToCheckpoint
      else ToSemantic
    case None => ToSemantic
  }

  /** Proposals up to the handoff height are rejected; other blocks up to it are checkpointed, all others are not. */
  lemma RoutesExactly(handoff: Height, r: Request)
    ensures var below := r.block.coinbaseHeight.Some? && r.block.coinbaseHeight.value <= handoff;
            && (RouteOf(handoff, r) == RejectProposal <==> below && r.isProposal)
            && (RouteOf(handoff, r) == ToCheckpoint <==> below && !r.isProposal)
            && (RouteOf(handoff, r) == ToSemantic <==> !below)
  {
  }

  /** The calls that reach the checkpoint verifier, in order. */
  function CheckpointCalls(handoff: Height, rs: seq<Request>): seq<Event> {
    if rs == [] then []
    else
      var r := rs[|rs| - 1];
      CheckpointCalls(handoff, rs[..|rs| - 1]) +
      if RouteOf(handoff, r) == ToCheckpoint then [Event(None, r.block)] else []
  }

  /** Exactly the commit requests up to the handoff height reach the checkpoint verifier. */
  lemma {:induction false} RoutedCalls(handoff: Height, rs: seq<Request>, e: Event)
    ensures e in CheckpointCalls(handoff, rs) <==>
            && e.reset.None? && Request(e.block, false) in rs
            && e.block.coinbaseHeight.Some? && e.block.coinbaseHeight.value <= handoff
  {
    if rs != [] {
      RoutedCalls(handoff, rs[..|rs| - 1], e);
      assert forall r :: r in rs <==> r in rs[..|rs| - 1] || r == rs[|rs| - 1];
    }
  }

  /**
   Gapless handoff, with or without `checkpoint_sync`: a verifier started at a tip of the chain below the
   handoff height, and a router that sees each block of the chain from there to the handoff height once, in
   any order, mixed with any proposals and any blocks above the handoff height, reach exactly the handoff
   height. Every block above it goes to the semantic verifier.
   */
  lemma GaplessHandoff(
    tr: Truth, list: map<Height, Hash>, tip: Tip, checkpointSync: bool, mandatory: Height, rs: seq<Request>,
    handoff: Height)
    requires Grounded(tr, list) && HandoffHeight(list, checkpointSync, mandatory) == Some(handoff)
    requires tr.floor <= Base(New(list, tip))
    requires tip.Some? ==> tip.value.0 < |tr.chain| && tip.value.1 == tr.chain[tip.value.0]
    requires Base(New(list, tip)) < handoff
    requires DeliversAll(tr, Base(New(list, tip)), handoff, CheckpointCalls(handoff, rs))
    ensures var run := Run(New(list, tip), CheckpointCalls(handoff, rs));
            && run.Next? && Base(run.value) == handoff && run.value.queued == map[]
            && (forall r :: r in rs && RouteOf(handoff, r) == ToCheckpoint ==> AnsweredOk(run.value.answers, r.block))
            && (forall r :: r in rs && r.block.coinbaseHeight.Some? ==>
                  (RouteOf(handoff, r) == ToSemantic <==> r.block.coinbaseHeight.value > handoff))
  {
    hide Run, AnsweredOk, CheckpointCalls, DeliversAll;
    var st := New(list, tip);
    var es := CheckpointCalls(handoff, rs);
    AnyOrderCompletes(tr, st, handoff, es);
    forall r | r in rs && RouteOf(handoff, r) == ToCheckpoint ensures AnsweredOk(Run(st, es).value.answers, r.block) {
      RoutedCalls(handoff, rs, Event(None, r.block));
      assert Event(None, r.block) in es;
    }
  }
}
