/**
 Completeness among other blocks up to a checkpoint: the blocks of the chain may arrive in any order and any number of
 times, mixed with blocks off the chain. As long as these cannot fill a height of the queue, and nothing arrives above
 the checkpoint unless it is the last one, every block of the chain is answered `Ok` and the progress reaches the
 checkpoint.
 */
module CheckpointNoise {
  import opened Prelude
  import opened CheckpointModel
  import opened CheckpointInvariants
  import opened CheckpointSafety
  import opened CheckpointLists
  import opened CheckpointCompleteness

  // ---------------------------------------------------------------- arrivals

  /** Any block with an honest parent, at a height up to `hi`; above the last checkpoint heights are rejected anyway. */
  predicate Arrival(tr: Truth, list: map<Height, Hash>, hi: Height, e: Event)
    requires 0 in list
  {
    && e.reset.None? && Honest(tr, e.block)
    && (e.block.coinbaseHeight.Some? && hi < MaxHeight(list) ==> e.block.coinbaseHeight.value <= hi)
  }

  /** The hashes of all arriving blocks that pass their basic checks and are off the chain, by height. */
  ghost function OffChain(tr: Truth, es: seq<Event>, h: Height): set<Hash> {
    set e | e in es && e.block.coinbaseHeight == Some(h) && e.block.basicChecks && !OnChain(tr, e.block) :: e.block.hash
  }

  /** They leave room for the block of the chain at every height in `lo < h <= hi`. */
  ghost predicate LeavesRoom(tr: Truth, es: seq<Event>, lo: int, hi: int) {
    forall h: Height :: lo < h <= hi ==> |OffChain(tr, es, h)| < MAX_QUEUED_BLOCKS_PER_HEIGHT
  }

  /** The block of the chain at height `h` has arrived. */
  predicate Arrived(tr: Truth, es: seq<Event>, h: Height)
    requires h < |tr.chain|
  {
    Event(None, BlockAt(tr, h)) in es
  }

  lemma {:induction false} DistinctFit(l: seq<QueuedBlock>, hashes: set<Hash>)
    requires forall i, j :: 0 <= i < j < |l| ==> l[i].block.hash != l[j].block.hash
    requires forall qb :: qb in l ==> qb.block.hash in hashes
    ensures |l| <= |hashes|
  {
    if l != [] {
      var n := |l| - 1;
      var last := l[n].block.hash;
      assert l[n] in l;
      forall qb | qb in l[..n] ensures qb.block.hash in hashes - {last} {
        var i :| 0 <= i < n && l[i] == qb;
      }
      DistinctFit(l[..n], hashes - {last});
    }
  }

  // ---------------------------------------------------------------- what holds between arrivals

  /** A checked block in the range, on the chain or one of the known other blocks. */
  ghost predicate Known(tr: Truth, lo: int, hi: int, es: seq<Event>, h: Height, qb: QueuedBlock) {
    lo < h <= hi && qb.block.basicChecks && (OnChain(tr, qb.block) || qb.block.hash in OffChain(tr, es, h))
  }

  ghost predicate QueueKnown(tr: Truth, queued: Queue, lo: int, hi: int, es: seq<Event>) {
    forall h, qb :: h in queued && qb in queued[h] ==> Known(tr, lo, hi, es, h, qb)
  }

  /** A block of the chain that has arrived waits in the queue above the progress. */
  ghost predicate Waiting(tr: Truth, queued: Queue, h: Height)
    requires h < |tr.chain|
  {
    h in queued && exists qb :: qb in queued[h] && qb.block == BlockAt(tr, h)
  }

  /** Some height of the range is missing, so that it waits for it. */
  ghost predicate Incomplete(st: State, hi: int)
    requires 0 in st.list
  {
    Base(st) < hi ==> exists h :: Base(st) < h <= hi && h !in st.queued
  }

  /** `es` are all events, `n` of them have been handled. */
  ghost predicate Keeping(tr: Truth, st0: State, st: State, hi: int, room: int, es: seq<Event>, n: nat)
    requires 0 in st0.list && n <= |es|
  {
    && Sound(tr, st) && st.list == st0.list && room <= hi < |tr.chain|
    && Base(st0) <= Base(st) <= hi
    && (st.progress == st0.progress
        || st.progress == if Base(st) == MaxHeight(st.list) then FinalCheckpoint else PreviousCheckpoint(Base(st)))
    && QueueKnown(tr, st.queued, Base(st), hi, es)
    && (forall h :: Base(st) < h <= room && Arrived(tr, es[..n], h) ==> Waiting(tr, st.queued, h))
    && (forall h :: Base(st0) < h <= Base(st) ==> AnsweredOk(st.answers, BlockAt(tr, h)))
  }

  lemma KeepingSound(tr: Truth, st0: State, st: State, hi: int, room: int, es: seq<Event>, n: nat)
    requires 0 in st0.list && n <= |es| && Keeping(tr, st0, st, hi, room, es, n)
    ensures Sound(tr, st) && st.list == st0.list && Base(st) <= hi
  {
  }

  // ---------------------------------------------------------------- processing

  /** Nothing new is queued. */
  ghost predicate Within(q: Queue, queued: Queue) {
    forall h, qb :: h in q && qb in q[h] ==> h in queued && qb in queued[h]
  }

  lemma RestoredWithin(queued: Queue, q: Queue, kept: seq<QueuedBlock>, c: Height)
    requires RestoredFrom(queued, q, kept, c)
    requires forall i :: 0 <= i < |kept| ==> c + 1 + i in queued && kept[i] in queued[c + 1 + i]
    ensures Within(q, queued)
  {
    forall h: Height, qb: QueuedBlock | h in q && qb in q[h] ensures h in queued && qb in queued[h] {
      if c < h <= c + |kept| {
        assert q[c + 1 + (h - c - 1)] == [kept[h - c - 1]];
      }
    }
  }

  /** A failed walk queues nothing new. */
  lemma FailedWithin(st: State)
    requires Valid(st) && Fails(st)
    ensures Process(st).Next? && Within(Process(st).value.queued, st.queued)
  {
    hide Walk, Restore, Process, Target, RestoredFrom, QueueInv;
    TargetRange(st);
    var t := Target(st).height;
    var w := WalkFromTarget(st, t);
    FailedProcess(st, w);
    WalkKeeps(st.list, st.queued, Base(st), t, st.list[t], w);
    RestoredWithin(st.queued, Process(st).value.queued, w.kept, w.outcome.at);
  }

  lemma KnownWithin(tr: Truth, q: Queue, queued: Queue, lo: int, hi: int, es: seq<Event>)
    requires QueueKnown(tr, queued, lo, hi, es) && Within(q, queued)
    ensures QueueKnown(tr, q, lo, hi, es)
  {
    hide OnChain, OffChain;
    forall h: Height, qb: QueuedBlock | h in q && qb in q[h] ensures Known(tr, lo, hi, es, h, qb) {
      assert Known(tr, lo, hi, es, h, qb);
    }
  }

  /** What is on the chain and passed the checks is the block of the chain. */
  lemma OnlyBlockAt(tr: Truth, h: Height, b: Block)
    requires OnChain(tr, b) && Honest(tr, b) && b.basicChecks && b.coinbaseHeight == Some(h)
    ensures b == BlockAt(tr, h)
  {
  }

  lemma BlockAtOnChain(tr: Truth, h: Height)
    requires h < |tr.chain|
    ensures OnChain(tr, BlockAt(tr, h)) && Honest(tr, BlockAt(tr, h))
  {
  }

  lemma QueuedBlockIs(tr: Truth, st: State, h: Height, qb: QueuedBlock)
    requires Sound(tr, st) && h in st.queued && qb in st.queued[h]
    ensures qb.block.coinbaseHeight == Some(h) && Honest(tr, qb.block)
  {
  }

  /** A walk that reached the bottom kept a block of the chain at every height. */
  lemma RangeHasBlock(tr: Truth, st: State, hi: int, es: seq<Event>, h: Height) returns (qb: QueuedBlock)
    requires Sound(tr, st) && Succeeds(st) && QueueKnown(tr, st.queued, Base(st), hi, es)
    requires Base(st) < h <= Target(st).height < |tr.chain|
    ensures h in st.queued && qb in st.queued[h] && qb.block == BlockAt(tr, h)
  {
    hide Walk, Target, Process, OffChain, OnChain, QueueInv, HonestQueue, Grounded;
    TargetRange(st);
    var t := Target(st).height;
    var w := WalkFromTarget(st, t);
    GroundedAt(tr, st.list, t);
    WalkStaysOnChain(tr, st.list, st.queued, Base(st), t, st.list[t], w);
    WalkKeeps(st.list, st.queued, Base(st), t, st.list[t], w);
    WalkRemoves(st.list, st.queued, Base(st), t, st.list[t], w);
    qb := w.kept[h - Base(st) - 1];
    assert qb in st.queued[h] && Known(tr, Base(st), hi, es, h, qb);
    QueuedBlockIs(tr, st, h, qb);
    OnlyBlockAt(tr, h, qb.block);
  }

  /** The block of the chain at a height of a verified range is answered `Ok`. */
  lemma RangeBlockAnswered(tr: Truth, st: State, hi: int, es: seq<Event>, h: Height)
    requires Sound(tr, st) && Succeeds(st) && QueueKnown(tr, st.queued, Base(st), hi, es)
    requires Base(st) < h <= Base(Process(st).value) && Base(Process(st).value) < |tr.chain|
    ensures AnsweredOk(Process(st).value.answers, BlockAt(tr, h))
  {
    hide Target, Process, QueueKnown, OnChain;
    var st' := Process(st).value;
    SuccessfulProcess(st, st');
    var qb := RangeHasBlock(tr, st, hi, es, h);
    BlockAtOnChain(tr, h);
    TrueBlockSurvivesSuccess(tr, st, h, qb);
    var i :| 0 <= i < |st'.answers| && st'.answers[i] == Answer(qb.ticket, qb.block, Ok(qb.block.hash));
  }

  lemma AnswersGrow(st: State)
    requires Valid(st) && Process(st).Next?
    ensures st.answers <= Process(st).value.answers
  {
    hide WalkFromTarget, Target, Restore;
  }

  /** A block of the chain above the new progress still waits after processing. */
  lemma StillWaiting(tr: Truth, st: State, h: Height)
    requires Sound(tr, st) && Process(st).Next? && h < |tr.chain| && Waiting(tr, st.queued, h)
    requires Base(Process(st).value) < h
    ensures Waiting(tr, Process(st).value.queued, h)
  {
    hide Target, Process, Waits, OnChain;
    var qb :| qb in st.queued[h] && qb.block == BlockAt(tr, h);
    BlockAtOnChain(tr, h);
    Outcomes(tr, st);
    if Waits(st) {
      WaitsUnchanged(st);
    } else if Fails(st) {
      TrueBlockSurvivesFailure(tr, st, h, qb);
    } else {
      TrueBlockSurvivesSuccess(tr, st, h, qb);
    }
  }

  /** On the chain there are no other outcomes. */
  lemma Outcomes(tr: Truth, st: State)
    requires Sound(tr, st)
    ensures Waits(st) || Succeeds(st) || Fails(st)
  {
    hide Walk, Target, Process;
    ProcessSound(tr, st);
    if !Waits(st) {
      TargetRange(st);
      var t := Target(st).height;
      GroundedAt(tr, st.list, t);
      WalkStaysOnChain(tr, st.list, st.queued, Base(st), t, st.list[t], WalkFromTarget(st, t));
    }
  }

  /** After processing, some height up to `hi` is missing from the queue. */
  lemma ProcessIncomplete(tr: Truth, st: State, hi: Height)
    requires Sound(tr, st) && hi in st.list && Process(st).Next?
    requires forall h :: h in st.queued ==> h <= hi
    ensures 0 in Process(st).value.list && Incomplete(Process(st).value, hi)
  {
    hide Walk, Target, Process, Waits;
    var st' := Process(st).value;
    ProcessValid(st, st');
    Outcomes(tr, st);
    if Waits(st) {
      WaitsUnchanged(st);
      WaitsIncomplete(st', hi);
    } else if Succeeds(st) {
      SuccessfulProcess(st, st');
      WaitsIncomplete(st', hi);
    } else {
      var w := FailedAt(st, hi);
    }
  }

  lemma WaitsIncomplete(st: State, hi: Height)
    requires Valid(st) && hi in st.list && Waits(st)
    ensures Incomplete(st, hi)
  {
    if Base(st) < hi && forall h :: Base(st) < h <= hi ==> h in st.queued {
      NoWaitBelow(st, hi);
    }
  }

  /** A failed walk leaves the height at which it broke without blocks. */
  lemma FailedAt(st: State, hi: Height) returns (c: Height)
    requires Valid(st) && Fails(st) && forall h :: h in st.queued ==> h <= hi
    ensures Process(st).Next? && Base(Process(st).value) == Base(st) < c <= hi && c !in Process(st).value.queued
  {
    hide Walk, Target, Restore;
    TargetRange(st);
    var w := WalkFromTarget(st, Target(st).height);
    FailedProcess(st, w);
    c := w.outcome.at;
    assert c in st.queued;
  }

  /** Processing keeps what holds between arrivals. */
  lemma ProcessKeeping(tr: Truth, st0: State, st: State, hi: Height, room: int, es: seq<Event>, n: nat)
    requires Valid(st0) && hi in st0.list && n <= |es| && Keeping(tr, st0, st, hi, room, es, n)
    ensures Process(st).Next? && Keeping(tr, st0, Process(st).value, hi, room, es, n)
    ensures Incomplete(Process(st).value, hi)
  {
    hide Process, Target, Waits, QueueKnown, Waiting, AnsweredOk, Grounded, HonestQueue, QueueInv, Arrived;
    ProcessSound(tr, st);
    var st' := Process(st).value;
    ProcessValid(st, st');
    AnswersGrow(st);
    KnownBelow(tr, st, hi, es);
    ProcessIncomplete(tr, st, hi);
    ProcessRange(tr, st, hi, es);
    forall h | Base(st') < h <= room && Arrived(tr, es[..n], h) ensures Waiting(tr, st'.queued, h) {
      StillWaiting(tr, st, h);
    }
    forall h | Base(st0) < h <= Base(st') ensures AnsweredOk(st'.answers, BlockAt(tr, h)) {
      if h <= Base(st) { AnsweredOkGrows(st.answers, st'.answers, BlockAt(tr, h)); }
    }
  }

  lemma KnownBelow(tr: Truth, st: State, hi: int, es: seq<Event>)
    requires Valid(st) && QueueKnown(tr, st.queued, Base(st), hi, es)
    ensures forall h :: h in st.queued ==> Base(st) < h <= hi
  {
    forall h | h in st.queued ensures Base(st) < h <= hi {
      assert st.queued[h][0] in st.queued[h];
      assert Known(tr, Base(st), hi, es, h, st.queued[h][0]);
    }
  }

  /** Where processing leads: the progress, the queue and the new answers. */
  lemma ProcessRange(tr: Truth, st: State, hi: int, es: seq<Event>)
    requires Sound(tr, st) && QueueKnown(tr, st.queued, Base(st), hi, es) && Base(st) <= hi < |tr.chain|
    requires Process(st).Next? && 0 in Process(st).value.list
    ensures var st' := Process(st).value;
            && Base(st) <= Base(st') <= hi && QueueKnown(tr, st'.queued, Base(st'), hi, es)
            && (st'.progress == st.progress
                || st'.progress ==
                     if Base(st') == MaxHeight(st'.list) then FinalCheckpoint else PreviousCheckpoint(Base(st')))
            && (forall h :: Base(st) < h <= Base(st') ==> AnsweredOk(st'.answers, BlockAt(tr, h)))
  {
    hide Process, Target, Waits, Waiting, AnsweredOk, Grounded, HonestQueue, QueueInv, QueueKnown;
    var st' := Process(st).value;
    Outcomes(tr, st);
    if Waits(st) {
      WaitsUnchanged(st);
    } else if Fails(st) {
      FailedWithin(st);
      KnownWithin(tr, st'.queued, st.queued, Base(st), hi, es);
      FailedProgress(st);
    } else {
      SuccessfulProcess(st, st');
      KnownBelow(tr, st, hi, es);
      TargetRange(st);
      assert Base(st') in st.queued;
      WithoutKnown(tr, st.queued, Base(st), Base(st'), hi, es);
      forall h | Base(st) < h <= Base(st') ensures AnsweredOk(st'.answers, BlockAt(tr, h)) {
        RangeBlockAnswered(tr, st, hi, es, h);
      }
    }
  }

  lemma FailedProgress(st: State)
    requires Valid(st) && Fails(st)
    ensures Process(st).Next? && Process(st).value.progress == st.progress && Process(st).value.list == st.list
  {
    hide Walk, Target, Restore;
    FailedProcess(st, WalkFromTarget(st, Target(st).height));
  }

  lemma WithoutKnown(tr: Truth, queued: Queue, lo: int, t: int, hi: int, es: seq<Event>)
    requires QueueKnown(tr, queued, lo, hi, es) && lo <= t
    ensures QueueKnown(tr, Without(queued, lo, t), t, hi, es)
  {
    hide OnChain, OffChain;
    var q := Without(queued, lo, t);
    forall h: Height, qb: QueuedBlock | h in q && qb in q[h] ensures Known(tr, t, hi, es, h, qb) {
      assert Known(tr, lo, hi, es, h, qb);
    }
  }

  // ---------------------------------------------------------------- queueing

  /** The queue after a block was added, replacing an older one with its hash. */
  lemma EnqueueMembers(st: State, b: Block, st2: State)
    requires Valid(st) && QueueBlock(st, b) == Ok(st2)
    ensures b.coinbaseHeight.Some? && b.basicChecks && Base(st) < b.coinbaseHeight.value <= MaxHeight(st.list)
    ensures st2.progress == st.progress && st2.list == st.list && st.answers <= st2.answers
    ensures var h0 := b.coinbaseHeight.value; var new' := QueuedBlock(b, st.issued);
            && (forall h :: h != h0 ==> (h in st2.queued <==> h in st.queued))
            && (forall h :: h != h0 && h in st.queued ==> st2.queued[h] == st.queued[h])
            && h0 in st2.queued && new' in st2.queued[h0]
            && (forall qb :: qb in st2.queued[h0] ==> qb == new' || (h0 in st.queued && qb in st.queued[h0]))
            && (h0 in st.queued ==>
                  forall qb :: qb in st.queued[h0] && qb.block.hash != b.hash ==> qb in st2.queued[h0])
  {
    var l := ListAt(st.queued, b.coinbaseHeight.value);
    var i := IndexOf(l, b.hash);
    var new' := QueuedBlock(b, st.issued);
    if i < |l| {
      assert l[i := new'][i] == new';
      forall qb | qb in l && qb.block.hash != b.hash ensures qb in l[i := new'] {
        var j :| 0 <= j < |l| && l[j] == qb;
        assert l[i := new'][j] == qb;
      }
    }
  }

  /** A height has room for the block of the chain. */
  lemma RoomForTrue(tr: Truth, st: State, lo: int, hi: int, es: seq<Event>, h: Height)
    requires Sound(tr, st) && QueueKnown(tr, st.queued, lo, hi, es) && h < |tr.chain|
    requires |OffChain(tr, es, h)| < MAX_QUEUED_BLOCKS_PER_HEIGHT
    ensures var l := ListAt(st.queued, h);
            IndexOf(l, tr.chain[h]) < |l| || |l| < MAX_QUEUED_BLOCKS_PER_HEIGHT
  {
    hide OffChain;
    var l := ListAt(st.queued, h);
    if h in st.queued && IndexOf(l, tr.chain[h]) == |l| {
      forall qb | qb in l ensures qb.block.hash in OffChain(tr, es, h) {
        assert Known(tr, lo, hi, es, h, qb);
        QueuedBlockIs(tr, st, h, qb);
      }
      assert ListInv(h, l);
      DistinctFit(l, OffChain(tr, es, h));
    }
  }

  /** The block of the chain is queued when it arrives above the progress. */
  lemma TrueIsQueued(tr: Truth, st: State, hi: Height, es: seq<Event>, h: Height)
    requires Sound(tr, st) && QueueKnown(tr, st.queued, Base(st), hi, es)
    requires |OffChain(tr, es, h)| < MAX_QUEUED_BLOCKS_PER_HEIGHT
    requires Base(st) < h <= hi <= MaxHeight(st.list) && h < |tr.chain|
    ensures st.progress != FinalCheckpoint && QueueBlock(st, BlockAt(tr, h)).Ok?
  {
    hide OffChain, QueueKnown;
    RoomForTrue(tr, st, Base(st), hi, es, h);
  }

  /** Queueing an arrival keeps what holds between arrivals. */
  lemma EnqueueKeeping(tr: Truth, st0: State, st: State, hi: Height, room: int, es: seq<Event>, n: nat, st2: State)
    requires Valid(st0) && hi in st0.list && n < |es| && Keeping(tr, st0, st, hi, room, es, n)
    requires Arrival(tr, st0.list, hi, es[n]) && QueueBlock(st, es[n].block) == Ok(st2)
    ensures Keeping(tr, st0, st2, hi, room, es, n + 1)
  {
    hide QueueBlock, Waiting, AnsweredOk, Grounded, HonestQueue, QueueInv, QueueKnown, OnChain;
    var b := es[n].block;
    EnqueueSound(tr, st, b);
    EnqueueMembers(st, b, st2);
    EnqueueKnown(tr, st, hi, es, n, st2);
    forall h | Base(st) < h <= room && Arrived(tr, es[..n + 1], h) ensures Waiting(tr, st2.queued, h) {
      EnqueueWaiting(tr, st, hi, es, n, st2, h);
    }
    forall h | Base(st0) < h <= Base(st) ensures AnsweredOk(st2.answers, BlockAt(tr, h)) {
      AnsweredOkGrows(st.answers, st2.answers, BlockAt(tr, h));
    }
  }

  lemma EnqueueKnown(tr: Truth, st: State, hi: Height, es: seq<Event>, n: nat, st2: State)
    requires Sound(tr, st) && QueueKnown(tr, st.queued, Base(st), hi, es) && n < |es| && hi <= MaxHeight(st.list)
    requires Arrival(tr, st.list, hi, es[n]) && QueueBlock(st, es[n].block) == Ok(st2)
    ensures 0 in st2.list && QueueKnown(tr, st2.queued, Base(st2), hi, es)
  {
    hide QueueBlock, OnChain, Grounded, HonestQueue, QueueInv;
    var b := es[n].block;
    EnqueueMembers(st, b, st2);
    forall h: Height, qb: QueuedBlock | h in st2.queued && qb in st2.queued[h]
      ensures Known(tr, Base(st2), hi, es, h, qb)
    {
      if h in st.queued && qb in st.queued[h] {
        assert Known(tr, Base(st), hi, es, h, qb);
      } else {
        assert qb.block == b && es[n] in es;
      }
    }
  }

  lemma EnqueueWaiting(tr: Truth, st: State, hi: Height, es: seq<Event>, n: nat, st2: State, h: Height)
    requires Sound(tr, st) && n < |es| && h < |tr.chain|
    requires QueueBlock(st, es[n].block) == Ok(st2) && Honest(tr, es[n].block)
    requires Arrived(tr, es[..n], h) ==> Waiting(tr, st.queued, h)
    requires Arrived(tr, es[..n + 1], h)
    ensures Waiting(tr, st2.queued, h)
  {
    hide QueueBlock, OnChain, Grounded, HonestQueue, QueueInv;
    var b := es[n].block;
    EnqueueMembers(st, b, st2);
    if b == BlockAt(tr, h) {
      assert QueuedBlock(b, st.issued) in st2.queued[h];
    } else {
      assert es[..n + 1] == es[..n] + [es[n]];
      var qb :| qb in st.queued[h] && qb.block == BlockAt(tr, h);
      SameHashSameBlock(tr, h, b);
      assert qb in st2.queued[h];
    }
  }

  lemma SameHashSameBlock(tr: Truth, h: Height, b: Block)
    requires h < |tr.chain| && Honest(tr, b) && b.basicChecks
    ensures b.coinbaseHeight == Some(h) && b.hash == tr.chain[h] ==> b == BlockAt(tr, h)
  {
  }

  // ---------------------------------------------------------------- whole runs

  /** An arrival that is rejected was not the block of the chain above the progress. */
  lemma RejectedKeeping(tr: Truth, st0: State, st: State, hi: Height, room: int, es: seq<Event>, n: nat)
    requires Valid(st0) && hi in st0.list && n < |es| && Keeping(tr, st0, st, hi, room, es, n)
    requires LeavesRoom(tr, es, Base(st0), room)
    requires st.progress == FinalCheckpoint || QueueBlock(st, es[n].block).Err?
    ensures Keeping(tr, st0, st, hi, room, es, n + 1)
  {
    hide QueueBlock, Waiting, AnsweredOk, Grounded, HonestQueue, QueueInv, QueueKnown, OnChain, OffChain;
    assert es[..n + 1] == es[..n] + [es[n]];
    forall h | Base(st) < h <= room && Arrived(tr, es[..n + 1], h) ensures Waiting(tr, st.queued, h) {
      TrueIsQueued(tr, st, hi, es, h);
      assert es[n].block != BlockAt(tr, h);
    }
  }

  lemma CallKeeping(tr: Truth, st0: State, st: State, hi: Height, room: int, es: seq<Event>, n: nat)
    requires Valid(st0) && hi in st0.list && n < |es| && Keeping(tr, st0, st, hi, room, es, n)
    requires LeavesRoom(tr, es, Base(st0), room)
    requires Arrival(tr, st0.list, hi, es[n]) && Valid(st) && Incomplete(st, hi)
    ensures Call(st, es[n]).Next? && Keeping(tr, st0, Call(st, es[n]).value.0, hi, room, es, n + 1)
    ensures Incomplete(Call(st, es[n]).value.0, hi)
  {
    hide Process, Keeping, QueueBlock, LeavesRoom, Incomplete;
    if st.progress == FinalCheckpoint || QueueBlock(st, es[n].block).Err? {
      RejectedKeeping(tr, st0, st, hi, room, es, n);
    } else {
      var st2 := QueueBlock(st, es[n].block).value;
      EnqueueValid(st, es[n].block);
      EnqueueKeeping(tr, st0, st, hi, room, es, n, st2);
      KeepingSound(tr, st0, st2, hi, room, es, n + 1);
      ProcessKeeping(tr, st0, st2, hi, room, es, n + 1);
    }
  }

  lemma NothingArrived(tr: Truth, st: State, hi: Height, room: int, es: seq<Event>)
    requires Sound(tr, st) && st.queued == map[] && hi in st.list && Base(st) < hi && room <= hi
    ensures Run(st, es[..0]) == Next(st) && Keeping(tr, st, st, hi, room, es, 0) && Incomplete(st, hi)
  {
    assert hi !in st.queued;
  }

  lemma {:induction false} ArriveSome(tr: Truth, st: State, hi: Height, room: int, es: seq<Event>, n: nat)
    requires Sound(tr, st) && st.queued == map[] && hi in st.list && Base(st) < hi && n <= |es|
    requires room <= hi && LeavesRoom(tr, es, Base(st), room)
    requires forall i :: 0 <= i < |es| ==> Arrival(tr, st.list, hi, es[i])
    ensures Run(st, es[..n]).Next? && Keeping(tr, st, Run(st, es[..n]).value, hi, room, es, n)
    ensures Incomplete(Run(st, es[..n]).value, hi)
  {
    hide Run, Call, Keeping, LeavesRoom, Incomplete;
    if n == 0 {
      NothingArrived(tr, st, hi, room, es);
    } else {
      ArriveSome(tr, st, hi, room, es, n - 1);
      var mid := Run(st, es[..n - 1]).value;
      KeepingSound(tr, st, mid, hi, room, es, n - 1);
      CallKeeping(tr, st, mid, hi, room, es, n - 1);
      RunSnoc(st, es[..n - 1], es[n - 1]);
      assert es[..n - 1] + [es[n - 1]] == es[..n];
    }
  }

  /**
   Completeness among other blocks up to a checkpoint. From an empty queue below a checkpoint `hi`, let blocks with
   honest parents arrive, without a reset and with no block above `hi` unless it is the last checkpoint: each block of
   the chain up to `hi` at least once, and at every height at most three different checked blocks off the chain. In
   whatever order they come, the run ends with progress at `hi`, an empty queue, and every block of the chain up to
   `hi` answered `Ok`.
   */
  lemma NoiseDoesNotStop(tr: Truth, st: State, hi: Height, es: seq<Event>)
    requires Sound(tr, st) && st.queued == map[] && hi in st.list && Base(st) < hi
    requires forall i :: 0 <= i < |es| ==> Arrival(tr, st.list, hi, es[i])
    requires LeavesRoom(tr, es, Base(st), hi)
    requires forall h :: Base(st) < h <= hi ==> h < |tr.chain| && Arrived(tr, es, h)
    ensures Run(st, es).Next?
    ensures var st' := Run(st, es).value;
            && st'.progress == (if hi == MaxHeight(st.list) then FinalCheckpoint else PreviousCheckpoint(hi))
            && st'.queued == map[]
            && (forall h :: Base(st) < h <= hi ==> AnsweredOk(st'.answers, BlockAt(tr, h)))
  {
    hide Run, AnsweredOk, Keeping, Incomplete, LeavesRoom, Arrived;
    ArriveSome(tr, st, hi, hi, es, |es|);
    assert es[..|es|] == es;
    AllArrived(tr, st, Run(st, es).value, hi, es);
  }

  lemma AllArrived(tr: Truth, st0: State, st: State, hi: Height, es: seq<Event>)
    requires Valid(st0) && Keeping(tr, st0, st, hi, hi, es, |es|) && Incomplete(st, hi) && Base(st0) < hi
    requires forall h :: Base(st0) < h <= hi ==> h < |tr.chain| && Arrived(tr, es, h)
    ensures st.progress == (if hi == MaxHeight(st0.list) then FinalCheckpoint else PreviousCheckpoint(hi))
    ensures st.queued == map[] && forall h :: Base(st0) < h <= hi ==> AnsweredOk(st.answers, BlockAt(tr, h))
  {
    hide AnsweredOk, Arrived, Sound, QueueKnown;
    KeepingSound(tr, st0, st, hi, hi, es, |es|);
    SoundValid(tr, st);
    KnownBelow(tr, st, hi, es);
    assert es[..|es|] == es;
    forall h | Base(st) < h <= hi ensures h in st.queued {
      assert Waiting(tr, st.queued, h);
    }
    assert Base(st) == hi;
    assert forall h :: h !in st.queued;
  }

  lemma SoundValid(tr: Truth, st: State)
    requires Sound(tr, st)
    ensures Valid(st)
  {
  }

  /**
   Gapless handoff among other blocks: a router that sees any requests with honest parents, among them each block of
   the chain up to the handoff height as a commit request at least once, and at most three different blocks off the
   chain at each of these heights, takes the checkpoint verifier to exactly the handoff height.
   */
  lemma HandoffAmongNoise(
    tr: Truth, list: map<Height, Hash>, tip: Tip, checkpointSync: bool, mandatory: Height, rs: seq<Request>,
    handoff: Height)
    requires Grounded(tr, list) && HandoffHeight(list, checkpointSync, mandatory) == Some(handoff)
    requires tr.floor <= Base(New(list, tip))
    requires tip.Some? ==> tip.value.0 < |tr.chain| && tip.value.1 == tr.chain[tip.value.0]
    requires Base(New(list, tip)) < handoff
    requires forall r :: r in rs ==> Honest(tr, r.block)
    requires LeavesRoom(tr, CheckpointCalls(handoff, rs), Base(New(list, tip)), handoff)
    requires forall h :: Base(New(list, tip)) < h <= handoff ==> h < |tr.chain| && Request(BlockAt(tr, h), false) in rs
    ensures var run := Run(New(list, tip), CheckpointCalls(handoff, rs));
            && run.Next? && Base(run.value) == handoff && run.value.queued == map[]
            && (forall h :: Base(New(list, tip)) < h <= handoff ==> AnsweredOk(run.value.answers, BlockAt(tr, h)))
            && (forall r :: r in rs && r.block.coinbaseHeight.Some? ==>
                  (RouteOf(handoff, r) == ToSemantic <==> r.block.coinbaseHeight.value > handoff))
  {
    hide Run, AnsweredOk, CheckpointCalls, LeavesRoom, BlockAt;
    var st, es := New(list, tip), CheckpointCalls(handoff, rs);
    forall i | 0 <= i < |es| ensures Arrival(tr, list, handoff, es[i]) {
      RoutedCalls(handoff, rs, es[i]);
      assert es[i] in es && Honest(tr, Request(es[i].block, false).block);
    }
    forall h | Base(st) < h <= handoff ensures Arrived(tr, es, h) {
      BlockAtHeight(tr, h);
      RoutedCalls(handoff, rs, Event(None, BlockAt(tr, h)));
    }
    NoiseDoesNotStop(tr, st, handoff, es);
  }

  lemma BlockAtHeight(tr: Truth, h: Height)
    requires h < |tr.chain|
    ensures BlockAt(tr, h).coinbaseHeight == Some(h)
  {
  }
}
