/**
 Blocks above a checkpoint can delay it: the walk starts at the highest checkpoint that the queue reaches, and when it
 breaks there, nothing is verified until the next call. This is exactly when it happens, an input that shows it, and
 that processing again, or sending a block of the chain again, always gets there.
 */
module CheckpointStall {
  import opened Prelude
  import opened CheckpointModel
  import opened CheckpointInvariants
  import opened CheckpointSafety
  import opened CheckpointLists
  import opened CheckpointCompleteness
  import opened CheckpointNoise
  import Tickets = CheckpointTickets

  /** A block of the chain is queued at height `k`. */
  ghost predicate ChainQueued(tr: Truth, queued: Queue, k: Height) {
    k in queued && exists qb :: qb in queued[k] && OnChain(tr, qb.block)
  }

  /** The blocks of the chain above the progress are queued, up to `hi`. */
  ghost predicate AllQueued(tr: Truth, st: State, hi: int)
    requires 0 in st.list
  {
    forall k :: Base(st) < k <= hi ==> ChainQueued(tr, st.queued, k)
  }

  // ---------------------------------------------------------------- one processing step

  /** The target is then at least `hi`. */
  lemma TargetCovers(tr: Truth, st: State, hi: Height)
    requires Valid(st) && hi in st.list && Base(st) < hi && AllQueued(tr, st, hi)
    ensures Target(st).Checkpoint? && hi <= Target(st).height
  {
    var e := ContiguousEnd(st.queued, Base(st));
    assert e < hi ==> ChainQueued(tr, st.queued, e + 1);
    assert st.progress != FinalCheckpoint;
  }

  /** A walk that reached the bottom kept a block of the chain at every height. */
  lemma RangeIsQueued(tr: Truth, st: State, k: Height)
    requires Sound(tr, st) && Succeeds(st) && Base(st) < k <= Target(st).height
    ensures ChainQueued(tr, st.queued, k)
  {
    hide Walk, Target, Process, OnChain, QueueInv, HonestQueue, Grounded;
    TargetRange(st);
    var t := Target(st).height;
    var w := WalkFromTarget(st, t);
    TargetGrounded(tr, st, t);
    WalkStaysOnChain(tr, st.list, st.queued, Base(st), t, st.list[t], w);
    WalkKeeps(st.list, st.queued, Base(st), t, st.list[t], w);
    WalkRemoves(st.list, st.queued, Base(st), t, st.list[t], w);
    assert w.kept[k - Base(st) - 1] in st.queued[k];
  }

  lemma TargetGrounded(tr: Truth, st: State, t: Height)
    requires Sound(tr, st) && t in st.list && Base(st) < t
    ensures -1 <= tr.floor <= Base(st) && t < |tr.chain| && st.list[t] == HashAt(tr, t)
  {
  }

  /** A walk that broke found no block of the chain at some height up to the target. */
  lemma BreakIsMissing(tr: Truth, st: State) returns (c: Height)
    requires Sound(tr, st) && Fails(st)
    ensures Base(st) < c <= Target(st).height && !ChainQueued(tr, st.queued, c)
    ensures Process(st).Next? && Process(st).value.progress == st.progress && Process(st).value.list == st.list
  {
    hide Walk, Target, Restore, OnChain, QueueInv, HonestQueue, Grounded;
    TargetRange(st);
    var t := Target(st).height;
    var w := WalkFromTarget(st, t);
    TargetGrounded(tr, st, t);
    WalkStaysOnChain(tr, st.list, st.queued, Base(st), t, st.list[t], w);
    FailedProcess(st, w);
    c := w.outcome.at;
  }

  lemma FailureKeepsAll(tr: Truth, st: State, hi: int)
    requires Sound(tr, st) && Fails(st) && AllQueued(tr, st, hi) && Process(st).Next?
    requires Process(st).value.progress == st.progress && Process(st).value.list == st.list
    ensures AllQueued(tr, Process(st).value, hi)
  {
    hide Process, Target, Fails, OnChain, Grounded, HonestQueue, QueueInv;
    var st' := Process(st).value;
    forall k | Base(st') < k <= hi ensures ChainQueued(tr, st'.queued, k) {
      assert ChainQueued(tr, st.queued, k);
      var qb :| qb in st.queued[k] && OnChain(tr, qb.block);
      TrueBlockSurvivesFailure(tr, st, k, qb);
    }
  }

  /**
   With all blocks of the chain up to a checkpoint `hi` queued, one processing step reaches it if and only if the
   blocks of the chain from there up to the target are queued as well. Otherwise the progress and these blocks stay.
   */
  lemma ProcessReachesExactly(tr: Truth, st: State, hi: Height)
    requires Sound(tr, st) && hi in st.list && Base(st) < hi && AllQueued(tr, st, hi)
    ensures Target(st).Checkpoint? && hi <= Target(st).height && Process(st).Next? && 0 in Process(st).value.list
    ensures Base(Process(st).value) >= hi <==>
              forall k :: hi < k <= Target(st).height ==> ChainQueued(tr, st.queued, k)
    ensures Base(Process(st).value) < hi ==>
              Fails(st) && Process(st).value.progress == st.progress && AllQueued(tr, Process(st).value, hi)
  {
    hide Process, Target, ChainQueued, Grounded, HonestQueue, QueueInv, Fails, Succeeds;
    TargetCovers(tr, st, hi);
    ProcessSound(tr, st);
    ProcessValid(st, Process(st).value);
    Outcomes(tr, st);
    if Fails(st) {
      var c := BreakIsMissing(tr, st);
      FailureKeepsAll(tr, st, hi);
    } else {
      SuccessfulProcess(st, Process(st).value);
      forall k | hi < k <= Target(st).height ensures ChainQueued(tr, st.queued, k) {
        RangeIsQueued(tr, st, k);
      }
    }
  }

  // ---------------------------------------------------------------- processing again

  lemma {:induction false} SettleSound(tr: Truth, st: State)
    requires Sound(tr, st)
    ensures Tickets.Settle(st).Next? && Sound(tr, Tickets.Settle(st).value)
    ensures st.answers <= Tickets.Settle(st).value.answers
    ensures Base(st) <= Base(Tickets.Settle(st).value)
    decreases Tickets.Queued(st, Tickets.All())
  {
    hide Process, Grounded, HonestQueue, QueueInv, Tickets.Queued, Waits;
    SettleStep(st);
    if !Waits(st) {
      ProcessSound(tr, st);
      var st' := Process(st).value;
      ProcessMonotone(tr, st);
      Tickets.ProcessShrinksQueue(st, st');
      SettleSound(tr, st');
    }
  }

  lemma SettleStep(st: State)
    requires Valid(st)
    ensures Waits(st) ==> Tickets.Settle(st) == Next(st)
    ensures !Waits(st) && Process(st).Next? ==>
              Valid(Process(st).value) && Tickets.Settle(st) == Tickets.Settle(Process(st).value)
  {
    hide Process, Waits, Tickets.Queued;
    if Process(st).Next? { ProcessValid(st, Process(st).value); }
  }

  lemma ProcessMonotone(tr: Truth, st: State)
    requires Sound(tr, st) && Process(st).Next? && 0 in Process(st).value.list
    ensures st.answers <= Process(st).value.answers && Base(st) <= Base(Process(st).value)
  {
    hide Process, Grounded, HonestQueue, QueueInv, Waits, Succeeds, Fails, Target;
    AnswersGrow(st);
    Outcomes(tr, st);
    if Waits(st) {
      WaitsUnchanged(st);
    } else if Fails(st) {
      FailedProgress(st);
    } else {
      SuccessfulProcess(st, Process(st).value);
    }
  }

  /** Processing until nothing is left to do reaches the checkpoint. */
  lemma {:induction false} SettleReaches(tr: Truth, st: State, hi: Height)
    requires Sound(tr, st) && hi in st.list && AllQueued(tr, st, hi)
    ensures Tickets.Settle(st).Next? && 0 in Tickets.Settle(st).value.list && Base(Tickets.Settle(st).value) >= hi
    decreases Tickets.Queued(st, Tickets.All())
  {
    hide Process, Grounded, HonestQueue, QueueInv, Tickets.Queued, Tickets.Settle, Waits, Fails, Target, ChainQueued;
    SettleSound(tr, st);
    if Base(st) < hi {
      ProcessReachesExactly(tr, st, hi);
      HasTarget(st);
      var st' := Process(st).value;
      SettleStep(st);
      ProcessSound(tr, st);
      if Base(st') >= hi {
        SettleSound(tr, st');
      } else {
        Tickets.ProcessShrinksQueue(st, st');
        SettleReaches(tr, st', hi);
      }
    }
  }

  lemma HasTarget(st: State)
    requires 0 in st.list && Target(st).Checkpoint?
    ensures !Waits(st)
  {
  }

  /** And it answers `Ok` to every block of the chain that was queued below it. */
  lemma {:induction false} SettleAnswers(tr: Truth, st: State, hi: Height, h: Height, qb: QueuedBlock)
    requires Sound(tr, st) && hi in st.list && AllQueued(tr, st, hi)
    requires Base(st) < h <= hi && h in st.queued && qb in st.queued[h] && OnChain(tr, qb.block)
    ensures Tickets.Settle(st).Next?
    ensures Answer(qb.ticket, qb.block, Ok(qb.block.hash)) in Tickets.Settle(st).value.answers
    decreases Tickets.Queued(st, Tickets.All())
  {
    hide Process, Grounded, HonestQueue, QueueInv, Tickets.Queued, Tickets.Settle, Waits, Fails, Target;
    hide ChainQueued, OnChain;
    SettleSound(tr, st);
    ProcessReachesExactly(tr, st, hi);
    HasTarget(st);
    var st' := Process(st).value;
    SettleStep(st);
    ProcessSound(tr, st);
    if Base(st') < hi {
      TrueBlockSurvivesFailure(tr, st, h, qb);
      Tickets.ProcessShrinksQueue(st, st');
      SettleAnswers(tr, st', hi, h, qb);
    } else {
      ReachedSucceeds(tr, st, hi);
      TrueBlockSurvivesSuccess(tr, st, h, qb);
      SettleSound(tr, st');
    }
  }

  lemma ReachedSucceeds(tr: Truth, st: State, hi: Height)
    requires Sound(tr, st) && Process(st).Next? && 0 in Process(st).value.list
    requires Base(st) < hi <= Base(Process(st).value)
    ensures Succeeds(st)
  {
    hide Process, Grounded, HonestQueue, QueueInv, Waits, Succeeds, Fails, Target;
    Outcomes(tr, st);
    if Waits(st) {
      WaitsUnchanged(st);
    } else if Fails(st) {
      FailedProgress(st);
    }
  }

  // ---------------------------------------------------------------- whole runs

  /** An arrival at any height. */
  predicate AnyArrival(tr: Truth, e: Event) {
    e.reset.None? && Honest(tr, e.block)
  }

  /** Each block of the chain at a height in `lo < h <= hi` arrives at least once. */
  predicate ArrivedUpTo(tr: Truth, es: seq<Event>, lo: int, hi: int) {
    -1 <= lo <= hi < |tr.chain| && forall h :: lo < h <= hi ==> Arrived(tr, es, h)
  }

  /** What holds after the arrivals: each block of the chain is answered or waits. */
  lemma ArrivalsKept(tr: Truth, st: State, hi: Height, es: seq<Event>)
    requires Sound(tr, st) && st.queued == map[] && hi in st.list && Base(st) < hi
    requires LeavesRoom(tr, es, Base(st), hi)
    requires forall i :: 0 <= i < |es| ==> AnyArrival(tr, es[i])
    requires ArrivedUpTo(tr, es, Base(st), hi)
    ensures Run(st, es).Next? && Sound(tr, Run(st, es).value) && hi in Run(st, es).value.list
    ensures Base(st) <= Base(Run(st, es).value) && hi < |tr.chain|
    ensures forall h :: Base(st) < h <= hi ==>
              if h <= Base(Run(st, es).value) then AnsweredOk(Run(st, es).value.answers, BlockAt(tr, h))
              else Waiting(tr, Run(st, es).value.queued, h)
  {
    hide Run, AnsweredOk, Waiting, QueueKnown, LeavesRoom, Grounded, HonestQueue, QueueInv;
    var top := MaxHeight(st.list);
    assert forall i :: 0 <= i < |es| ==> Arrival(tr, st.list, top, es[i]);
    ArriveSome(tr, st, top, hi, es, |es|);
    assert es[..|es|] == es;
  }

  lemma WaitingIsQueued(tr: Truth, queued: Queue, h: Height)
    requires h < |tr.chain| && Waiting(tr, queued, h)
    ensures ChainQueued(tr, queued, h)
  {
    var qb :| qb in queued[h] && qb.block == BlockAt(tr, h);
    BlockAtOnChain(tr, h);
  }

  lemma SettleAnswersBlock(tr: Truth, st: State, hi: Height, h: Height)
    requires Sound(tr, st) && hi in st.list && AllQueued(tr, st, hi)
    requires Base(st) < h <= hi && h < |tr.chain| && Waiting(tr, st.queued, h)
    ensures Tickets.Settle(st).Next? && AnsweredOk(Tickets.Settle(st).value.answers, BlockAt(tr, h))
  {
    hide Tickets.Settle, AllQueued, Sound;
    SoundValid(tr, st);
    var qb :| qb in st.queued[h] && qb.block == BlockAt(tr, h);
    BlockAtOnChain(tr, h);
    SettleAnswers(tr, st, hi, h, qb);
    var a := Tickets.Settle(st).value.answers;
    var i :| 0 <= i < |a| && a[i] == Answer(qb.ticket, qb.block, Ok(qb.block.hash));
  }

  /**
   Completeness among other blocks at any height. Let blocks with honest parents arrive in any order, without a
   reset: each block of the chain up to a checkpoint `hi` at least once, and at every height up to `hi` at most three
   different checked blocks off the chain. Then processing until nothing is left to do ends at `hi` or above, with
   every block of the chain up to `hi` answered `Ok`.
   */
  lemma ArrivalsSettle(tr: Truth, st: State, hi: Height, es: seq<Event>)
    requires Sound(tr, st) && st.queued == map[] && hi in st.list && Base(st) < hi
    requires LeavesRoom(tr, es, Base(st), hi)
    requires forall i :: 0 <= i < |es| ==> AnyArrival(tr, es[i])
    requires ArrivedUpTo(tr, es, Base(st), hi)
    ensures Run(st, es).Next? && Tickets.Settle(Run(st, es).value).Next?
    ensures var st' := Tickets.Settle(Run(st, es).value).value;
            && Valid(st') && Base(st') >= hi
            && forall h :: Base(st) < h <= hi ==> AnsweredOk(st'.answers, BlockAt(tr, h))
  {
    hide Run, AnsweredOk, Waiting, LeavesRoom, Grounded, HonestQueue, QueueInv, Tickets.Settle, ChainQueued;
    ArrivalsKept(tr, st, hi, es);
    var mid := Run(st, es).value;
    forall k | Base(mid) < k <= hi ensures ChainQueued(tr, mid.queued, k) {
      WaitingIsQueued(tr, mid.queued, k);
    }
    SettleSound(tr, mid);
    SettleReaches(tr, mid, hi);
    var st' := Tickets.Settle(mid).value;
    forall h | Base(st) < h <= hi ensures AnsweredOk(st'.answers, BlockAt(tr, h)) {
      if h <= Base(mid) {
        AnsweredOkGrows(mid.answers, st'.answers, BlockAt(tr, h));
      } else {
        SettleAnswersBlock(tr, mid, hi, h);
      }
    }
  }

  // ---------------------------------------------------------------- sending a block again

  /** A block of the chain that is queued is replaced when it is sent again; the queue stays as long. */
  lemma ResendReplaces(tr: Truth, st: State, h: Height)
    requires Sound(tr, st) && Base(st) < h <= MaxHeight(st.list) && h < |tr.chain| && ChainQueued(tr, st.queued, h)
    ensures st.progress != FinalCheckpoint && QueueBlock(st, BlockAt(tr, h)).Ok?
    ensures |QueueBlock(st, BlockAt(tr, h)).value.answers| == |st.answers| + 1
  {
    var qb :| qb in st.queued[h] && OnChain(tr, qb.block);
    QueuedBlockIs(tr, st, h, qb);
    var l := st.queued[h];
    assert IndexOf(l, tr.chain[h]) < |l|;
  }

  lemma ResendKeeps(tr: Truth, st: State, hi: int, h: Height, st2: State)
    requires Sound(tr, st) && AllQueued(tr, st, hi) && h < |tr.chain| && QueueBlock(st, BlockAt(tr, h)) == Ok(st2)
    ensures st2.list == st.list && st2.progress == st.progress && AllQueued(tr, st2, hi)
  {
    hide QueueBlock, OnChain, Grounded, HonestQueue, QueueInv;
    var b := BlockAt(tr, h);
    EnqueueMembers(st, b, st2);
    BlockAtOnChain(tr, h);
    forall k | Base(st2) < k <= hi ensures ChainQueued(tr, st2.queued, k) {
      assert ChainQueued(tr, st.queued, k);
      if k == h {
        assert QueuedBlock(b, st.issued) in st2.queued[h];
      }
    }
  }

  /** Sending a block of the chain again reaches the checkpoint, or leaves fewer blocks in the way. */
  lemma ResendOnce(tr: Truth, st: State, hi: Height, h: Height)
    requires Sound(tr, st) && hi in st.list && Base(st) < h <= hi < |tr.chain| && AllQueued(tr, st, hi)
    ensures Call(st, Event(None, BlockAt(tr, h))).Next?
    ensures var st' := Call(st, Event(None, BlockAt(tr, h))).value.0;
            && Sound(tr, st') && st'.list == st.list
            && (Base(st') < hi ==>
                  && Base(st') == Base(st) && AllQueued(tr, st', hi)
                  && Tickets.Queued(st', Tickets.All()) < Tickets.Queued(st, Tickets.All()))
  {
    hide Process, QueueBlock, Grounded, HonestQueue, QueueInv, ChainQueued, Fails, Target, Tickets.Queued;
    assert ChainQueued(tr, st.queued, h);
    ResendReplaces(tr, st, h);
    var b := BlockAt(tr, h);
    var st2 := QueueBlock(st, b).value;
    BlockAtOnChain(tr, h);
    EnqueueValid(st, b);
    EnqueueSound(tr, st, b);
    ResendKeeps(tr, st, hi, h, st2);
    Tickets.EnqueueConserves(st, b, Tickets.All());
    Tickets.AnsweredSize(st.answers);
    Tickets.AnsweredSize(st2.answers);
    ProcessReachesExactly(tr, st2, hi);
    ProcessSound(tr, st2);
    ProcessValid(st2, Process(st2).value);
    HasTarget(st2);
    Tickets.ProcessShrinksQueue(st2, Process(st2).value);
  }

  function Repeat(e: Event, n: nat): seq<Event> {
    if n == 0 then [] else Repeat(e, n - 1) + [e]
  }

  lemma {:induction false} RunFirst(st: State, e: Event, n: nat)
    requires Valid(st) && Call(st, e).Next? && Valid(Call(st, e).value.0)
    requires Run(Call(st, e).value.0, Repeat(e, n)).Next?
    ensures Run(st, Repeat(e, n + 1)) == Run(Call(st, e).value.0, Repeat(e, n))
  {
    hide Call, Run;
    var st' := Call(st, e).value.0;
    if n == 0 {
      RunNothing(st);
      RunNothing(st');
      RunSnoc(st, [], e);
    } else {
      RunLast(st', Repeat(e, n - 1), e);
      RunFirst(st, e, n - 1);
      RunSnoc(st, Repeat(e, n), e);
      RunSnoc(st', Repeat(e, n - 1), e);
    }
  }

  /** So sending it again, at most as often as blocks are queued, is enough. */
  lemma {:induction false} ResendingReaches(tr: Truth, st: State, hi: Height, h: Height) returns (n: nat)
    requires Sound(tr, st) && hi in st.list && Base(st) < h <= hi < |tr.chain| && AllQueued(tr, st, hi)
    ensures 1 <= n <= Tickets.Queued(st, Tickets.All()) + 1
    ensures var r := Run(st, Repeat(Event(None, BlockAt(tr, h)), n)); r.Next? && Base(r.value) >= hi
    decreases Tickets.Queued(st, Tickets.All())
  {
    hide Call, Run, Repeat, AllQueued, Grounded, HonestQueue, QueueInv, Tickets.Queued;
    var e := Event(None, BlockAt(tr, h));
    ResendOnce(tr, st, hi, h);
    var st' := Call(st, e).value.0;
    if Base(st') >= hi {
      n := 1;
      NoRepeat(st', e);
      RunFirst(st, e, 0);
    } else {
      var m := ResendingReaches(tr, st', hi, h);
      n := m + 1;
      RunFirst(st, e, m);
    }
  }

  lemma NoRepeat(st: State, e: Event)
    requires Valid(st)
    ensures Run(st, Repeat(e, 0)) == Next(st)
  {
  }

  // ---------------------------------------------------------------- an input that stalls

  const STALL_LIST: map<Height, Hash> := map[0 := Hash(1), 1 := Hash(2), 2 := Hash(3)]

  function StallParent(hash: Hash): Hash {
    if hash == Hash(9) then Hash(8)
    else if hash == Hash(3) then Hash(2)
    else if hash == Hash(2) then Hash(1)
    else GENESIS_PREVIOUS_BLOCK_HASH
  }

  const STALL_TRUTH: Truth := Truth(-1, [Hash(1), Hash(2), Hash(3)], StallParent)

  /** A block off the chain at the highest checkpoint, then the blocks of the chain up to the first one. */
  const STALL_OTHER: Block := Block(Some(2), Hash(9), Hash(8), true)
  const STALL_EVENTS: seq<Event> :=
    [Event(None, STALL_OTHER), Event(None, BlockAt(STALL_TRUTH, 1)), Event(None, BlockAt(STALL_TRUTH, 0))]

  lemma StallSetting()
    ensures 0 in STALL_LIST && 1 in STALL_LIST && MaxHeight(STALL_LIST) == 2 && Grounded(STALL_TRUTH, STALL_LIST)
    ensures New(STALL_LIST, None) == State(STALL_LIST, None, map[], BeforeGenesis, [], 0)
    ensures Valid(New(STALL_LIST, None)) && Sound(STALL_TRUTH, New(STALL_LIST, None))
    ensures forall i :: 0 <= i < |STALL_EVENTS| ==> AnyArrival(STALL_TRUTH, STALL_EVENTS[i])
    ensures Arrived(STALL_TRUTH, STALL_EVENTS, 0) && Arrived(STALL_TRUTH, STALL_EVENTS, 1)
  {
    assert 2 in STALL_LIST;
    assert STALL_EVENTS[1] in STALL_EVENTS && STALL_EVENTS[2] in STALL_EVENTS;
  }

  lemma OneOther()
    ensures LeavesRoom(STALL_TRUTH, STALL_EVENTS, -1, 1)
  {
    forall h: Height | -1 < h <= 1
      ensures |OffChain(STALL_TRUTH, STALL_EVENTS, h)| < MAX_QUEUED_BLOCKS_PER_HEIGHT
    {
      assert OffChain(STALL_TRUTH, STALL_EVENTS, h) == {};
    }
  }

  /** What the stalled verifier still has queued. */
  const STALLED: State := State(
    STALL_LIST, None,
    map[1 := [QueuedBlock(BlockAt(STALL_TRUTH, 1), 1)], 0 := [QueuedBlock(BlockAt(STALL_TRUTH, 0), 2)]], BeforeGenesis,
    [Answer(0, STALL_OTHER, Err(UnexpectedSideChain(Hash(9), Hash(3))))], 3)

  /** Processing a queue that reaches the highest checkpoint with only the other block there. */
  lemma OtherBreaks(st: State)
    requires st.list == STALL_LIST && st.progress == BeforeGenesis && st.answers == [] && MaxHeight(st.list) == 2
    requires Valid(st) && 0 in st.queued && 1 in st.queued && 2 in st.queued && 3 !in st.queued
    requires st.queued[2] == [QueuedBlock(STALL_OTHER, 0)]
    ensures Process(st) == Next(st.(queued := st.queued - {2},
                                    answers := [Answer(0, STALL_OTHER, Err(UnexpectedSideChain(Hash(9), Hash(3))))]))
  {
    ContiguousEndIs(st.queued, -1, 2);
    assert 2 in st.list && Target(st) == Checkpoint(2);
    hide Walk;
    var w := WalkFromTarget(st, 2);
    WalkStep(st.list, st.queued, -1, 2, Hash(3), w);
    MatchingIs(st.queued[2], Hash(3));
    assert st.queued[2][..0] == [];
    assert Refusals(st.queued[2], Hash(3)) == [Answer(0, STALL_OTHER, Err(UnexpectedSideChain(Hash(9), Hash(3))))];
    assert st.answers + w.refused == w.refused;
  }

  /** The state before the last call. */
  function BeforeLast(): State {
    State(STALL_LIST, None, map[2 := [QueuedBlock(STALL_OTHER, 0)]][1 := [QueuedBlock(BlockAt(STALL_TRUTH, 1), 1)]],
          BeforeGenesis, [], 2)
  }

  lemma FirstCalls()
    requires Valid(New(STALL_LIST, None))
    ensures Run(New(STALL_LIST, None), STALL_EVENTS[..2]) == Next(BeforeLast())
  {
    hide Call, Run;
    StallSetting();
    var st0 := New(STALL_LIST, None);
    var e0, e1 := STALL_EVENTS[0], STALL_EVENTS[1];
    RunNothing(st0);
    NextMissing(st0, e0.block);
    RunSnoc(st0, [], e0);
    assert [] + [e0] == [e0];
    var st1 := Call(st0, e0).value.0;
    NextMissing(st1, e1.block);
    RunSnoc(st0, [e0], e1);
    assert [e0] + [e1] == STALL_EVENTS[..2];
  }

  lemma LastCall()
    requires Valid(BeforeLast())
    ensures Call(BeforeLast(), STALL_EVENTS[2]).Next? && Call(BeforeLast(), STALL_EVENTS[2]).value.0 == STALLED
  {
    hide Process, Enqueue;
    StallSetting();
    var st, b := BeforeLast(), STALL_EVENTS[2].block;
    QueueFresh(st, b);
    var st3 := QueueBlock(st, b).value;
    EnqueueValid(st, b);
    OtherBreaks(st3);
    assert st3.queued - {2} == STALLED.queued;
  }

  /**
   All conditions for checkpoint 1 are met, but the run ends before genesis: the only answer is the refusal of the
   other block, and the two blocks of the chain are still queued.
   */
  lemma StallingRun()
    ensures Sound(STALL_TRUTH, New(STALL_LIST, None)) && 1 in STALL_LIST && LeavesRoom(STALL_TRUTH, STALL_EVENTS, -1, 1)
    ensures forall i :: 0 <= i < |STALL_EVENTS| ==> AnyArrival(STALL_TRUTH, STALL_EVENTS[i])
    ensures ArrivedUpTo(STALL_TRUTH, STALL_EVENTS, -1, 1)
    ensures Run(New(STALL_LIST, None), STALL_EVENTS) == Next(STALLED)
  {
    hide Run, Call;
    StallSetting();
    OneOther();
    FirstCalls();
    LastCall();
    RunSnoc(New(STALL_LIST, None), STALL_EVENTS[..2], STALL_EVENTS[2]);
    assert STALL_EVENTS[..2] + [STALL_EVENTS[2]] == STALL_EVENTS;
  }
}
