/**
 Safety of the checkpoint verifier over whole runs.

 Without any assumption about checkpoints or blocks: as long as the verifier does not panic, the blocks it
 answers `Ok` between resets form one gap-free, hash-linked chain that agrees with every checkpoint.

 With checkpoints, tips and blocks drawn from one chain, in which a hash fixes its parent hash: no assertion
 can fire, and no block of that chain is ever refused or lost.
 */
module CheckpointSafety {
  import opened Prelude
  import opened CheckpointModel
  import opened CheckpointInvariants

  // ---------------------------------------------------------------- chains of answered blocks

  /** The blocks answered `Ok`, in answer order. */
  function OkBlocks(a: seq<Answer>): seq<Block> {
    if a == [] then []
    else OkBlocks(a[..|a| - 1]) + if a[|a| - 1].result.Ok? then [a[|a| - 1].block] else []
  }

  function Blocks(l: seq<QueuedBlock>): seq<Block> {
    seq(|l|, i requires 0 <= i < |l| => l[i].block)
  }

  /** The hash of the block before index `i` of `bs`, when `bs` continues a block with hash `prev`. */
  function HashBefore(prev: Hash, bs: seq<Block>, i: nat): Hash
    requires i <= |bs|
  {
    if i == 0 then prev else bs[i - 1].hash
  }

  function EndHash(prev: Hash, bs: seq<Block>): Hash {
    HashBefore(prev, bs, |bs|)
  }

  /** `bs` continues the block `prev` at height `base`: consecutive heights, linked hashes, no checkpoint violated. */
  ghost predicate Linked(list: map<Height, Hash>, base: int, prev: Hash, bs: seq<Block>) {
    -1 <= base && forall i :: 0 <= i < |bs| ==>
      && bs[i].coinbaseHeight == Some(base + 1 + i)
      && bs[i].parent == HashBefore(prev, bs, i)
      && (base + 1 + i in list ==> list[base + 1 + i] == bs[i].hash)
  }

  lemma LinkedAppend(list: map<Height, Hash>, base: int, prev: Hash, a: seq<Block>, b: seq<Block>)
    requires Linked(list, base, prev, a) && Linked(list, base + |a|, EndHash(prev, a), b)
    ensures Linked(list, base, prev, a + b)
    ensures EndHash(prev, a + b) == EndHash(EndHash(prev, a), b)
  {
    forall i | 0 <= i < |a + b|
      ensures (a + b)[i].coinbaseHeight == Some(base + 1 + i)
      ensures (a + b)[i].parent == HashBefore(prev, a + b, i)
      ensures base + 1 + i in list ==> list[base + 1 + i] == (a + b)[i].hash
    {
      if i < |a| {
        assert (a + b)[i] == a[i];
      } else {
        assert (a + b)[i] == b[i - |a|];
      }
    }
  }

  lemma {:induction false} OkBlocksAppend(a: seq<Answer>, b: seq<Answer>)
    ensures OkBlocks(a + b) == OkBlocks(a) + OkBlocks(b)
  {
    if b == [] {
      assert a + b == a;
    } else {
      OkBlocksAppend(a, b[..|b| - 1]);
      assert (a + b)[..|a + b| - 1] == a + b[..|b| - 1];
    }
  }

  lemma {:induction false} RefusalsNotOk(l: seq<QueuedBlock>, expected: Hash)
    ensures forall a :: a in Refusals(l, expected) ==> a.result.Err?
  {
    if l != [] { RefusalsNotOk(l[..|l| - 1], expected); }
  }

  lemma {:induction false} NoOk(a: seq<Answer>)
    requires forall x :: x in a ==> x.result.Err?
    ensures OkBlocks(a) == []
  {
    if a != [] { NoOk(a[..|a| - 1]); }
  }

  lemma {:induction false} AcceptsOk(kept: seq<QueuedBlock>)
    ensures OkBlocks(Accepts(kept)) == Blocks(kept)
  {
    if kept != [] {
      AcceptsOk(kept[..|kept| - 1]);
      assert Accepts(kept)[..|kept| - 1] == Accepts(kept[..|kept| - 1]);
      assert Blocks(kept) == Blocks(kept[..|kept| - 1]) + [kept[|kept| - 1].block];
    }
  }

  lemma LinkedNone(list: map<Height, Hash>, base: int, prev: Hash)
    requires -1 <= base
    ensures Linked(list, base, prev, Blocks([])) && EndHash(prev, Blocks([])) == prev
  {
  }

  /** One more block on top of a linked chain. */
  lemma LinkedSnoc(list: map<Height, Hash>, base: int, prev: Hash, kept: seq<QueuedBlock>, qb: QueuedBlock)
    requires -1 <= base && Linked(list, base, prev, Blocks(kept)) && qb.block.parent == EndHash(prev, Blocks(kept))
    requires qb.block.coinbaseHeight == Some(base + 1 + |kept|)
    requires base + 1 + |kept| in list ==> list[base + 1 + |kept|] == qb.block.hash
    ensures Linked(list, base, prev, Blocks(kept + [qb])) && EndHash(prev, Blocks(kept + [qb])) == qb.block.hash
  {
    hide Linked, EndHash;
    LinkedOne(list, base + |kept|, EndHash(prev, Blocks(kept)), qb.block);
    LinkedAppend(list, base, prev, Blocks(kept), [qb.block]);
    assert Blocks(kept + [qb]) == Blocks(kept) + [qb.block];
  }

  lemma LinkedOne(list: map<Height, Hash>, base: int, prev: Hash, b: Block)
    requires -1 <= base && b.parent == prev && b.coinbaseHeight == Some(base + 1)
    requires base + 1 in list ==> list[base + 1] == b.hash
    ensures Linked(list, base, prev, [b]) && EndHash(prev, [b]) == b.hash
  {
  }

  /** A walk that reaches the bottom has found a linked chain from there up to the expected hash. */
  lemma {:induction false} WalkLinks(
    list: map<Height, Hash>, queued: Queue, lo: int, h: int, expected: Hash, w: Walked)
    requires -1 <= lo <= h && 0 in list && QueueInv(list, queued)
    requires forall k :: lo < k <= h ==> k in queued
    requires w == Walk(list, queued, lo, h, expected)
    ensures forall a :: a in w.refused ==> a.result.Err?
    ensures w.outcome.Reached? ==>
              && |w.kept| == h - lo
              && Linked(list, lo, w.outcome.parent, Blocks(w.kept))
              && EndHash(w.outcome.parent, Blocks(w.kept)) == expected
    decreases h - lo
  {
    hide Linked, EndHash, Blocks, Matching, Refusals, Walk;
    if h == lo {
      WalkEnd(list, queued, lo, expected);
      LinkedNone(list, lo, expected);
    } else {
      WalkStep(list, queued, lo, h, expected, w);
      RefusalsNotOk(queued[h], expected);
      MatchingIs(queued[h], expected);
      if Matching(queued[h], expected).Some? {
        var qb := Matching(queued[h], expected).value;
        var w' := Walk(list, queued - {h}, lo, h - 1, qb.block.parent);
        WalkLinks(list, queued - {h}, lo, h - 1, qb.block.parent, w');
        if w.outcome.Reached? {
          LinkedSnoc(list, lo, w.outcome.parent, w'.kept, qb);
        }
      }
    }
  }

  // ---------------------------------------------------------------- safety between resets

  /** From `st` to `st'` the new `Ok` answers are exactly a chain from the one progress point to the other. */
  ghost predicate Extends(st: State, st': State)
    requires ProgressInv(st) && ProgressInv(st')
  {
    var was := OkBlocks(st.answers);
    var now := OkBlocks(st'.answers);
    && was <= now
    && st'.list == st.list
    && Linked(st.list, Base(st), PreviousHash(st), now[|was|..])
    && Base(st') == Base(st) + |now| - |was|
    && PreviousHash(st') == EndHash(PreviousHash(st), now[|was|..])
  }

  lemma ExtendsBy(st: State, st': State, bs: seq<Block>)
    requires ProgressInv(st) && ProgressInv(st') && st'.list == st.list
    requires OkBlocks(st'.answers) == OkBlocks(st.answers) + bs
    requires Linked(st.list, Base(st), PreviousHash(st), bs)
    requires Base(st') == Base(st) + |bs| && PreviousHash(st') == EndHash(PreviousHash(st), bs)
    ensures Extends(st, st')
  {
    assert OkBlocks(st'.answers)[|OkBlocks(st.answers)|..] == bs;
  }

  lemma ExtendsTrans(a: State, b: State, c: State)
    requires ProgressInv(a) && ProgressInv(b) && ProgressInv(c)
    requires Extends(a, b) && Extends(b, c)
    ensures Extends(a, c)
  {
    hide Linked, OkBlocks, EndHash;
    var oa, ob, oc := OkBlocks(a.answers), OkBlocks(b.answers), OkBlocks(c.answers);
    LinkedAppend(a.list, Base(a), PreviousHash(a), ob[|oa|..], oc[|ob|..]);
    assert oc[|oa|..] == ob[|oa|..] + oc[|ob|..];
  }

  lemma ExtendsNothing(st: State, st': State)
    requires ProgressInv(st) && ProgressInv(st') && st'.list == st.list
    requires OkBlocks(st'.answers) == OkBlocks(st.answers)
    requires Base(st') == Base(st) && PreviousHash(st') == PreviousHash(st)
    ensures Extends(st, st')
  {
    ExtendsBy(st, st', []);
  }

  lemma ProcessExtends(st: State, st': State)
    requires Valid(st) && Process(st) == Next(st')
    ensures Valid(st') && Extends(st, st')
  {
    hide Walk, Restore, Linked, Extends, OkBlocks, Blocks, Accepts, EndHash, QueueInv;
    ProcessValid(st, st');
    if Waits(st) {
      ExtendsNothing(st, st');
    } else {
      var t := Target(st).height;
      var w := WalkFromTarget(st, t);
      WalkLinks(st.list, st.queued, Base(st), t, st.list[t], w);
      OkBlocksAppend(st.answers, w.refused);
      NoOk(w.refused);
      assert OkBlocks(st.answers) + [] == OkBlocks(st.answers);
      if w.outcome.Broken? {
        ExtendsNothing(st, st');
      } else {
        OkBlocksAppend(st.answers + w.refused, Accepts(w.kept));
        AcceptsOk(w.kept);
        SuccessfulProcess(st, st');
        BlocksSize(w.kept);
        ExtendsBy(st, st', Blocks(w.kept));
      }
    }
  }

  lemma BlocksSize(l: seq<QueuedBlock>)
    ensures |Blocks(l)| == |l|
  {
  }

  /** Queueing a block answers nobody `Ok` and moves no progress. */
  lemma EnqueueExtends(st: State, block: Block)
    requires Valid(st) && QueueBlock(st, block).Ok?
    ensures Valid(QueueBlock(st, block).value) && Extends(st, QueueBlock(st, block).value)
  {
    EnqueueValid(st, block);
    var st2 := QueueBlock(st, block).value;
    var new' := st2.answers[|st.answers|..];
    assert st2.answers == st.answers + new';
    OkBlocksAppend(st.answers, new');
    NoOk(new');
    assert OkBlocks(st.answers) + [] == OkBlocks(st.answers);
    ExtendsNothing(st, st2);
  }

  lemma CallExtends(st: State, e: Event)
    requires Valid(st) && e.reset.None? && Call(st, e).Next?
    ensures Valid(Call(st, e).value.0) && Extends(st, Call(st, e).value.0)
  {
    hide Process, Extends, OkBlocks, Enqueue, CheckBlock;
    CallValid(st, e);
    var st' := Call(st, e).value.0;
    if st.progress != FinalCheckpoint && QueueBlock(st, e.block).Ok? {
      var st2 := QueueBlock(st, e.block).value;
      EnqueueExtends(st, e.block);
      ProcessExtends(st2, st');
      ExtendsTrans(st, st2, st');
    } else {
      ExtendsNothing(st, st');
    }
  }

  /**
   Safety: in any run of calls without a reset, the blocks answered `Ok`, in answer order, form one gap-free
   hash-linked chain from the block the verifier started at to the block its progress now names, and the
   chain has the listed hash at each checkpoint height.
   */
  lemma {:induction false} OkAnswersFormOneChain(st: State, es: seq<Event>)
    requires Valid(st) && Run(st, es).Next?
    requires forall e :: e in es ==> e.reset.None?
    ensures Extends(st, Run(st, es).value)
  {
    if es == [] {
      ExtendsBy(st, st, []);
    } else {
      var mid := Run(st, es[..|es| - 1]).value;
      OkAnswersFormOneChain(st, es[..|es| - 1]);
      CallExtends(mid, es[|es| - 1]);
      ExtendsTrans(st, mid, Run(st, es).value);
    }
  }

  // ---------------------------------------------------------------- one true chain

  /**
   The hashes of one chain by height, and the parent hash that every hash commits to. What lies below the `floor`
   does not matter: a verifier that starts at a tip knows nothing below it. A floor of -1 is the whole chain.
   */
  datatype Truth = Truth(floor: int, chain: seq<Hash>, parentOf: Hash -> Hash)

  function HashAt(tr: Truth, h: int): Hash
    requires -1 <= h < |tr.chain|
  {
    if h == -1 then GENESIS_PREVIOUS_BLOCK_HASH else tr.chain[h]
  }

  /** All checkpoints above the floor lie on the chain, and its blocks there are linked by parent hashes. */
  ghost predicate Grounded(tr: Truth, list: map<Height, Hash>) {
    && 0 in list && MaxHeight(list) < |tr.chain| && -1 <= tr.floor
    && tr.chain[MaxHeight(list)] == list[MaxHeight(list)]
    && (forall h :: h in list && tr.floor < h ==> list[h] == tr.chain[h])
    && (forall h :: tr.floor < h < |tr.chain| ==> tr.parentOf(tr.chain[h]) == HashAt(tr, h - 1))
  }

  /** A block is honest about its parent: hashes cannot collide. */
  predicate Honest(tr: Truth, b: Block) {
    b.parent == tr.parentOf(b.hash)
  }

  predicate OnChain(tr: Truth, b: Block) {
    b.coinbaseHeight.Some? && b.coinbaseHeight.value < |tr.chain| && b.hash == tr.chain[b.coinbaseHeight.value]
  }

  predicate HonestQueue(tr: Truth, queued: Queue) {
    forall h, qb :: h in queued && qb in queued[h] ==> Honest(tr, qb.block)
  }

  /** The verifier's own knowledge lies on the chain. */
  ghost predicate Sound(tr: Truth, st: State) {
    && Valid(st) && Grounded(tr, st.list) && tr.floor <= Base(st)
    && HonestQueue(tr, st.queued)
    && PreviousHash(st) == HashAt(tr, Base(st))
  }

  /** Resets name a block of the chain, and blocks have honest parents. They may still be off the chain. */
  predicate SoundEvent(tr: Truth, e: Event) {
    && Honest(tr, e.block)
    && (e.reset.Some? && e.reset.value.None? ==> tr.floor == -1)
    && (e.reset.Some? && e.reset.value.Some? ==>
          var (height, hash) := e.reset.value.value;
          tr.floor <= height && (height < |tr.chain| ==> hash == tr.chain[height]))
  }

  lemma {:induction false} RefusalsOffChain(tr: Truth, h: Height, l: seq<QueuedBlock>, expected: Hash)
    requires h < |tr.chain| && expected == tr.chain[h]
    requires forall i :: 0 <= i < |l| ==> l[i].block.coinbaseHeight == Some(h)
    ensures forall a :: a in Refusals(l, expected) ==> !OnChain(tr, a.block)
  {
    if l != [] { RefusalsOffChain(tr, h, l[..|l| - 1], expected); }
  }

  /** Walking down from a hash of the chain stays on the chain and refuses only blocks off it. */
  lemma {:induction false} WalkStaysOnChain(
    tr: Truth, list: map<Height, Hash>, queued: Queue, lo: int, h: int, expected: Hash, w: Walked)
    requires -1 <= tr.floor <= lo <= h && Grounded(tr, list) && QueueInv(list, queued) && HonestQueue(tr, queued)
    requires forall k :: lo < k <= h ==> k in queued
    requires h < |tr.chain| && expected == HashAt(tr, h)
    requires w == Walk(list, queued, lo, h, expected)
    ensures !w.outcome.BadCheckpoint?
    ensures w.outcome.Reached? ==> w.outcome.parent == HashAt(tr, lo)
    ensures w.outcome.Broken? ==>
              lo < w.outcome.at <= h && forall qb :: qb in queued[w.outcome.at] ==> !OnChain(tr, qb.block)
    ensures forall a :: a in w.refused ==> !OnChain(tr, a.block)
    ensures forall qb :: qb in w.kept ==> OnChain(tr, qb.block)
    decreases h - lo
  {
    hide Matching, Refusals, Grounded, HashAt, Walk;
    if h == lo {
      WalkEnd(list, queued, lo, expected);
    } else {
      WalkStep(list, queued, lo, h, expected, w);
      GroundedAt(tr, list, h);
      RefusalsOffChain(tr, h, queued[h], expected);
      MatchingIs(queued[h], expected);
      if Matching(queued[h], expected).Some? {
        var qb := Matching(queued[h], expected).value;
        assert Honest(tr, qb.block) && OnChain(tr, qb.block);
        var w' := Walk(list, queued - {h}, lo, h - 1, qb.block.parent);
        WalkStaysOnChain(tr, list, queued - {h}, lo, h - 1, qb.block.parent, w');
      }
    }
  }

  lemma GroundedAt(tr: Truth, list: map<Height, Hash>, h: int)
    requires Grounded(tr, list) && tr.floor < h < |tr.chain| && 0 <= h
    ensures -1 <= tr.floor && HashAt(tr, h) == tr.chain[h] && tr.parentOf(tr.chain[h]) == HashAt(tr, h - 1)
    ensures h in list ==> list[h] == tr.chain[h]
    ensures 0 in list
  {
  }

  /** Only blocks off the chain are told that they are on an unexpected side chain. */
  predicate RefusesOnlyOffChain(tr: Truth, a: seq<Answer>) {
    forall x :: x in a && x.result.Err? && x.result.error.UnexpectedSideChain? ==> !OnChain(tr, x.block)
  }

  /** No assertion fires while processing, and the new state is sound again. */
  lemma ProcessSound(tr: Truth, st: State)
    requires Sound(tr, st)
    ensures Process(st).Next? && Sound(tr, Process(st).value)
    ensures RefusesOnlyOffChain(tr, st.answers) ==> RefusesOnlyOffChain(tr, Process(st).value.answers)
  {
    hide Walk, Restore, Target, QueueInv, OnChain;
    if !Waits(st) {
      TargetRange(st);
      var t := Target(st).height;
      var w := WalkFromTarget(st, t);
      WalkStaysOnChain(tr, st.list, st.queued, Base(st), t, st.list[t], w);
      if w.outcome.Reached? {
        SuccessfulSound(tr, st, w);
      } else {
        FailedProcess(st, w);
        BrokenWalkHonest(tr, st, w);
      }
    }
  }

  lemma SuccessfulSound(tr: Truth, st: State, w: Walked)
    requires Sound(tr, st) && Target(st).Checkpoint? && w == WalkFromTarget(st, Target(st).height)
    requires w.outcome == Reached(PreviousHash(st)) && forall a :: a in w.refused ==> !OnChain(tr, a.block)
    ensures Process(st).Next? && Sound(tr, Process(st).value)
    ensures RefusesOnlyOffChain(tr, st.answers) ==> RefusesOnlyOffChain(tr, Process(st).value.answers)
  {
    hide Walk, Restore, Target, QueueInv, OnChain;
    TargetRange(st);
    SuccessfulProcess(st, Process(st).value);
    WithoutIs(st.queued, Base(st), Target(st).height);
  }

  lemma BrokenWalkHonest(tr: Truth, st: State, w: Walked)
    requires Sound(tr, st) && Fails(st) && w == WalkFromTarget(st, Target(st).height)
    requires RestoredFrom(st.queued, Restore(w.queued, w.kept), w.kept, w.outcome.at)
    requires Target(st).height == w.outcome.at + |w.kept|
    ensures HonestQueue(tr, Restore(w.queued, w.kept))
  {
    hide Walk, Restore, Target, QueueInv, Grounded, PreviousHash, HashAt;
    TargetRange(st);
    var t := Target(st).height;
    var q := Restore(w.queued, w.kept);
    WalkKeeps(st.list, st.queued, Base(st), t, st.list[t], w);
    forall h: Height, qb: QueuedBlock | h in q && qb in q[h] ensures Honest(tr, qb.block) {
      if w.outcome.at < h <= t {
        var i := h - w.outcome.at - 1;
        assert q[w.outcome.at + 1 + i] == [w.kept[i]];
        assert w.kept[i] in st.queued[t - |w.kept| + 1 + i];
      }
    }
  }

  lemma ResetSound(tr: Truth, st: State, e: Event)
    requires Sound(tr, st) && SoundEvent(tr, e)
    ensures Sound(tr, AfterReset(st, e.reset))
  {
  }

  lemma EnqueueSound(tr: Truth, st: State, block: Block)
    requires Sound(tr, st) && Honest(tr, block) && QueueBlock(st, block).Ok?
    ensures Sound(tr, QueueBlock(st, block).value)
    ensures RefusesOnlyOffChain(tr, st.answers) ==> RefusesOnlyOffChain(tr, QueueBlock(st, block).value.answers)
  {
    EnqueueValid(st, block);
    var st' := QueueBlock(st, block).value;
    var height := block.coinbaseHeight.value;
    var l := ListAt(st.queued, height);
    forall h: Height, qb: QueuedBlock | h in st'.queued && qb in st'.queued[h] ensures Honest(tr, qb.block) {
      if h == height { assert qb == QueuedBlock(block, st.issued) || qb in l; }
    }
  }

  lemma CallSound(tr: Truth, st: State, e: Event)
    requires Sound(tr, st) && SoundEvent(tr, e)
    ensures Call(st, e).Next? && Sound(tr, Call(st, e).value.0)
    ensures RefusesOnlyOffChain(tr, st.answers) ==> RefusesOnlyOffChain(tr, Call(st, e).value.0.answers)
  {
    hide Process, Enqueue;
    ResetSound(tr, st, e);
    var st1 := AfterReset(st, e.reset);
    if st1.progress != FinalCheckpoint && QueueBlock(st1, e.block).Ok? {
      EnqueueSound(tr, st1, e.block);
      ProcessSound(tr, QueueBlock(st1, e.block).value);
    }
  }

  /**
   With checkpoints and tips on one chain and honest parent hashes, no assertion can fire in any run,
   whatever blocks arrive and whatever resets happen, and only blocks off the chain are refused as side chain
   blocks.
   */
  lemma {:induction false} RunNeverPanics(tr: Truth, st: State, es: seq<Event>)
    requires Sound(tr, st) && RefusesOnlyOffChain(tr, st.answers)
    requires forall e :: e in es ==> SoundEvent(tr, e)
    ensures Run(st, es).Next? && Sound(tr, Run(st, es).value)
    ensures RefusesOnlyOffChain(tr, Run(st, es).value.answers)
  {
    if es != [] {
      RunNeverPanics(tr, st, es[..|es| - 1]);
      CallSound(tr, Run(st, es[..|es| - 1]).value, es[|es| - 1]);
    }
  }

  /** A queue with one block, whose parent is not the previous checkpoint. */
  lemma BadLinkPanics(st: State, qb: QueuedBlock)
    requires st.list == map[0 := Hash(1), 1 := Hash(2)] && st.progress == InitialTip(0)
    requires Valid(st) && st.queued == map[1 := [qb]] && qb.block.hash == Hash(2) && qb.block.parent == Hash(3)
    requires PreviousHash(st) == Hash(1)
    ensures Process(st).Panic?
  {
    assert 1 in st.list && MaxHeight(st.list) == 1;
    ContiguousEndIs(st.queued, 0, 1);
    assert Target(st) == Checkpoint(1);
  }

  /**
   With these two checkpoints and this tip, a block at the second checkpoint whose parent is not the tip makes the
   verifier panic.
   */
  lemma BadListPanics()
    ensures var st := New(map[0 := Hash(1), 1 := Hash(2)], Some((0, Hash(1))));
            Valid(st) && Call(st, Event(None, Block(Some(1), Hash(2), Hash(3), true))).Panic?
  {
    var list := map[0 := Hash(1), 1 := Hash(2)];
    var st := New(list, Some((0, Hash(1))));
    var e := Event(None, Block(Some(1), Hash(2), Hash(3), true));
    assert 0 in list && 1 in list && MaxHeight(list) == 1;
    assert CheckBlock(st, e.block) == Ok(1);
    hide Process, Enqueue;
    QueueFresh(st, e.block);
    var st2 := QueueBlock(st, e.block).value;
    EnqueueValid(st, e.block);
    BadLinkPanics(st2, QueuedBlock(e.block, 0));
  }

  lemma OnlyOneOnChain(tr: Truth, h: Height, l: seq<QueuedBlock>, a: QueuedBlock, b: QueuedBlock)
    requires ListInv(h, l) && a in l && b in l && OnChain(tr, a.block) && OnChain(tr, b.block)
    ensures a == b
  {
  }

  /** At every height above the break of a walk, the kept block is the queued block of the chain. */
  lemma KeptIsOnChain(
    tr: Truth, list: map<Height, Hash>, queued: Queue, lo: int, t: int, w: Walked, i: nat, qb: QueuedBlock)
    requires -1 <= tr.floor <= lo <= t < |tr.chain| && Grounded(tr, list)
    requires QueueInv(list, queued) && HonestQueue(tr, queued)
    requires forall k :: lo < k <= t ==> k in queued
    requires w == Walk(list, queued, lo, t, HashAt(tr, t))
    requires i < |w.kept| <= t - lo && qb in queued[t - |w.kept| + 1 + i] && OnChain(tr, qb.block)
    ensures w.kept[i] == qb
  {
    hide Walk;
    WalkStaysOnChain(tr, list, queued, lo, t, HashAt(tr, t), w);
    WalkKeeps(list, queued, lo, t, HashAt(tr, t), w);
    var h := t - |w.kept| + 1 + i;
    OnlyOneOnChain(tr, h, queued[h], w.kept[i], qb);
  }

  /**
   A failed walk loses nothing true: every queued block of the chain is still queued, with the same ticket.
   */
  lemma TrueBlockSurvivesFailure(tr: Truth, st: State, h: Height, qb: QueuedBlock)
    requires Sound(tr, st) && Fails(st) && h in st.queued && qb in st.queued[h] && OnChain(tr, qb.block)
    ensures Process(st).Next? && h in Process(st).value.queued && qb in Process(st).value.queued[h]
  {
    hide Walk, Restore, Process, Target;
    TargetRange(st);
    var t := Target(st).height;
    var w := WalkFromTarget(st, t);
    FailedProcess(st, w);
    WalkStaysOnChain(tr, st.list, st.queued, Base(st), t, st.list[t], w);
    if w.outcome.at < h <= t {
      KeptIsOnChain(tr, st.list, st.queued, Base(st), t, w, h - w.outcome.at - 1, qb);
    }
  }

  /** A successful walk answers `Ok` to every queued block of the chain in its range, and keeps the others. */
  lemma TrueBlockSurvivesSuccess(tr: Truth, st: State, h: Height, qb: QueuedBlock)
    requires Sound(tr, st) && Succeeds(st) && h in st.queued && qb in st.queued[h] && OnChain(tr, qb.block)
    ensures var st' := Process(st).value;
            if Base(st) < h <= Base(st') then Answer(qb.ticket, qb.block, Ok(qb.block.hash)) in st'.answers
            else h in st'.queued && qb in st'.queued[h]
  {
    hide Walk, Restore, Target, Refusals, QueueInv, HonestQueue;
    TargetRange(st);
    var t := Target(st).height;
    var w := WalkFromTarget(st, t);
    SuccessfulProcess(st, Process(st).value);
    WalkRemoves(st.list, st.queued, Base(st), t, st.list[t], w);
    if Base(st) < h <= t {
      var i := h - Base(st) - 1;
      KeptIsOnChain(tr, st.list, st.queued, Base(st), t, w, i, qb);
      assert Accepts(w.kept)[i] == Answer(qb.ticket, qb.block, Ok(qb.block.hash));
    }
  }
}
