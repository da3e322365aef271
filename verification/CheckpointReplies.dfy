/**
 What a call answers at once, from the request and the height that the verifier has reached; what a reset makes of
 that height; and the chain of `Ok` answers after a reset.
 */
module CheckpointReplies {
  import opened Prelude
  import opened CheckpointModel
  import opened CheckpointInvariants
  import opened CheckpointSafety

  // ---------------------------------------------------------------- replies

  /** The call is rejected with an error, and nothing is queued or answered. */
  predicate Refused(st: State, c: Step<(State, Reply)>, error: VerifyError) {
    && c.Next? && c.value.1 == Rejected(error)
    && c.value.0.queued == st.queued && c.value.0.answers == st.answers && c.value.0.issued == st.issued
  }

  /** No more blocks fit at a height, and the block is not a newer request for one of those there. */
  predicate Full(queued: Queue, height: Height, hash: Hash) {
    height in queued && |queued[height]| >= 4 && forall qb :: qb in queued[height] ==> qb.block.hash != hash
  }

  /** The reply to a block at an open height depends only on its own checks and on the room in the queue. */
  predicate Open(st: State, c: Step<(State, Reply)>, block: Block, height: Height) {
    if !block.basicChecks then Refused(st, c, BasicCheckFailed(block.hash))
    else if Full(st.queued, height, block.hash) then Refused(st, c, QueuedLimit)
    else c.Next? ==> c.value.1 == Accepted(st.issued)
  }

  /** The reply when every height up to `base` is verified, but not the last checkpoint. */
  predicate RepliesAbove(st: State, c: Step<(State, Reply)>, block: Block, base: int)
    requires 0 in st.list
  {
    match block.coinbaseHeight
    case None => Refused(st, c, CoinbaseHeight(block.hash))
    case Some(k) =>
      if k > MaxHeight(st.list) then Refused(st, c, TooHigh(k, MaxHeight(st.list)))
      else if k <= base then base >= 0 && Refused(st, c, AlreadyVerified(k, base))
      else Open(st, c, block, k)
  }

  lemma EnqueueReplies(st: State, height: Height, block: Block)
    ensures if Full(st.queued, height, block.hash) then Enqueue(st, height, block) == Err(QueuedLimit)
            else Enqueue(st, height, block).Ok?
  {
  }

  /** Without a reset, the reply depends on the progress. */
  lemma CallReplies(st: State, e: Event)
    requires Valid(st) && e.reset.None?
    ensures if st.progress == FinalCheckpoint then Refused(st, Call(st, e), Finished)
            else RepliesAbove(st, Call(st, e), e.block, Base(st))
  {
    hide Process, Enqueue;
    if e.block.coinbaseHeight.Some? { EnqueueReplies(st, e.block.coinbaseHeight.value, e.block); }
  }

  // ---------------------------------------------------------------- resets

  /** A reset is a call on the verifier that starts over at the tip with the same queue. */
  lemma ResetFirst(st: State, e: Event, st1: State)
    requires Valid(st) && e.reset.Some? && st1 == AfterReset(st, e.reset)
    ensures Valid(st1) && st1.list == st.list && Call(st, e) == Call(st1, Event(None, e.block))
    ensures st1.queued == st.queued && st1.answers == st.answers && st1.issued == st.issued
    ensures match e.reset.value
            case None =>
              st1.progress.BeforeGenesis? && Base(st1) == -1 && PreviousHash(st1) == GENESIS_PREVIOUS_BLOCK_HASH
            case Some((h, hash)) =>
              if h >= MaxHeight(st.list) then st1.progress.FinalCheckpoint?
              else Base(st1) == h && PreviousHash(st1) == hash && st1.progress.InitialTip?
  {
    hide Process, Enqueue, CheckBlock;
  }

  /**
   A reset decides the reply, whatever the progress was. With a tip at or above the last checkpoint the verifier has
   finished. With any other tip, heights up to the tip are already verified, and every height above it is open, also
   one that was verified before. Without a tip, every height is open.
   */
  lemma ResetReplies(st: State, e: Event)
    requires Valid(st) && e.reset.Some?
    ensures match e.reset.value
            case None => RepliesAbove(st, Call(st, e), e.block, -1)
            case Some((h, _)) =>
              if h >= MaxHeight(st.list) then Refused(st, Call(st, e), Finished)
              else RepliesAbove(st, Call(st, e), e.block, h)
  {
    hide Call, AfterReset;
    var st1 := AfterReset(st, e.reset);
    ResetFirst(st, e, st1);
    CallReplies(st1, Event(None, e.block));
  }

  // ---------------------------------------------------------------- the chain after a reset

  /** A run that begins with a reset is a run of the verifier that starts over. */
  lemma ResetRun(st: State, e: Event, es: seq<Event>, st1: State)
    requires Valid(st) && e.reset.Some? && Run(st, [e] + es).Next? && st1 == AfterReset(st, e.reset)
    ensures Valid(st1) && Run(st1, [Event(None, e.block)] + es) == Run(st, [e] + es)
  {
    hide Call, AfterReset;
    ResetFirst(st, e, st1);
    RunsAlike(st, e, st1, Event(None, e.block), es);
  }

  lemma {:induction false} RunsAlike(a: State, d: Event, b: State, e: Event, es: seq<Event>)
    requires Valid(a) && Valid(b) && Call(a, d) == Call(b, e)
    ensures Run(a, [d] + es) == Run(b, [e] + es)
  {
    hide Call;
    if es == [] {
      assert ([d] + es)[..0] == ([e] + es)[..0] == [];
    } else {
      RunsAlike(a, d, b, e, es[..|es| - 1]);
      assert ([d] + es)[..|es|] == [d] + es[..|es| - 1];
      assert ([e] + es)[..|es|] == [e] + es[..|es| - 1];
    }
  }

  /** From `st` to `st'` the new `Ok` blocks continue the block `prev` at height `base`, up to the height reached. */
  ghost predicate ContinuesFrom(base: int, prev: Hash, st: State, st': State)
    requires 0 in st'.list
  {
    var was, now := OkBlocks(st.answers), OkBlocks(st'.answers);
    && was <= now
    && Linked(st.list, base, prev, now[|was|..])
    && Base(st') == base + |now| - |was|
  }

  lemma ExtendsFrom(st: State, st1: State, st': State)
    requires ProgressInv(st1) && ProgressInv(st') && Extends(st1, st')
    requires st1.answers == st.answers && st1.list == st.list
    ensures ContinuesFrom(Base(st1), PreviousHash(st1), st, st')
    ensures st1.progress.FinalCheckpoint? ==> OkBlocks(st'.answers) == OkBlocks(st.answers)
  {
    assert Base(st') <= MaxHeight(st'.list);
  }

  /**
   The chain across a reset: the `Ok` answers of a call with a reset, and of any calls without one after it, form one
   gap-free hash-linked chain that continues the tip of the reset, or the genesis parent hash if it has no tip. A
   reset to the last checkpoint or above ends it: no block is answered `Ok` any more.
   */
  lemma ResetStartsNewChain(st: State, e: Event, es: seq<Event>)
    requires Valid(st) && e.reset.Some? && Run(st, [e] + es).Next?
    requires forall x :: x in es ==> x.reset.None?
    ensures var st' := Run(st, [e] + es).value;
            match e.reset.value
            case None => ContinuesFrom(-1, GENESIS_PREVIOUS_BLOCK_HASH, st, st')
            case Some((h, hash)) =>
              if h >= MaxHeight(st.list) then OkBlocks(st'.answers) == OkBlocks(st.answers)
              else ContinuesFrom(h, hash, st, st')
  {
    hide Run, Call, AfterReset, Extends, ContinuesFrom, PreviousHash, Base;
    var st1 := AfterReset(st, e.reset);
    ResetFirst(st, e, st1);
    ResetRun(st, e, es, st1);
    OkAnswersFormOneChain(st1, [Event(None, e.block)] + es);
    ExtendsFrom(st, st1, Run(st, [e] + es).value);
  }
}
