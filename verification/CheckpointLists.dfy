/**
 Which checkpoint lists are safe, for a verifier that starts at a tip or before genesis: exactly those whose
 checkpoints above the start all lie on the chain that the highest one commits to, with the start on that chain as
 well. With any other list, blocks with honest parents make the verifier panic.
 */
module CheckpointLists {
  import opened Prelude
  import opened CheckpointModel
  import opened CheckpointInvariants
  import opened CheckpointSafety

  /** The hash that `n` steps of `parentOf` lead to. */
  function Ancestor(parentOf: Hash -> Hash, hash: Hash, n: nat): Hash {
    if n == 0 then hash else parentOf(Ancestor(parentOf, hash, n - 1))
  }

  /** The chain from the highest checkpoint down, by following parent hashes. */
  function ChainOf(parentOf: Hash -> Hash, list: map<Height, Hash>, floor: int): (tr: Truth)
    requires 0 in list
    ensures tr.parentOf == parentOf && tr.floor == floor && |tr.chain| == MaxHeight(list) + 1
    ensures tr.chain[MaxHeight(list)] == list[MaxHeight(list)]
    ensures forall h :: 0 < h <= MaxHeight(list) ==> parentOf(tr.chain[h]) == HashAt(tr, h - 1)
  {
    var top := MaxHeight(list);
    Truth(floor, seq(top + 1, h requires 0 <= h <= top => Ancestor(parentOf, list[top], top - h)), parentOf)
  }

  /** The chain that a verifier started at `tip` depends on. */
  function ChainAbove(parentOf: Hash -> Hash, list: map<Height, Hash>, tip: Tip): Truth
    requires 0 in list
  {
    ChainOf(parentOf, list, Base(New(list, tip)))
  }

  /** Blocks that are honest about their parents, and no resets. */
  predicate HonestEvents(parentOf: Hash -> Hash, es: seq<Event>) {
    forall e :: e in es ==> e.reset.None? && e.block.parent == parentOf(e.block.hash)
  }

  lemma NewValid(list: map<Height, Hash>, tip: Tip)
    requires 0 in list
    ensures Valid(New(list, tip)) && New(list, tip).list == list && New(list, tip).queued == map[]
    ensures -1 <= Base(New(list, tip)) <= MaxHeight(list)
    ensures New(list, tip).progress == FinalCheckpoint <==> Base(New(list, tip)) == MaxHeight(list)
  {
  }

  /** A verifier started at `tip` does not panic on these events. */
  ghost predicate Survives(list: map<Height, Hash>, tip: Tip, es: seq<Event>)
    requires 0 in list
  {
    NewValid(list, tip);
    Run(New(list, tip), es).Next?
  }

  // ---------------------------------------------------------------- delivering the chain of a list

  /** The block of a chain at a height. */
  function BlockAt(tr: Truth, h: Height): Block
    requires h < |tr.chain|
  {
    Block(Some(h), tr.chain[h], tr.parentOf(tr.chain[h]), true)
  }

  /** The blocks at the heights `lo < h <= n`, in order. */
  function Above(tr: Truth, lo: nat, n: nat): (es: seq<Event>)
    requires n < |tr.chain|
  {
    if n <= lo then [] else Above(tr, lo, n - 1) + [Event(None, BlockAt(tr, n))]
  }

  /** The queue they leave behind. */
  function QueueAbove(tr: Truth, lo: nat, n: nat): (q: Queue)
    requires lo <= n < |tr.chain|
    ensures forall h :: h in q <==> lo < h <= n
    ensures forall h :: h in q ==> |q[h]| == 1 && q[h][0].block == BlockAt(tr, h)
  {
    if n == lo then map[] else QueueAbove(tr, lo, n - 1)[n := [QueuedBlock(BlockAt(tr, n), n - 1 - lo)]]
  }

  /** While the next height is missing, everything waits. */
  lemma {:induction false} AboveWaits(st: State, tr: Truth, lo: nat, n: nat)
    requires Valid(st) && st.progress != FinalCheckpoint && st.queued == map[] && st.issued == 0
    requires lo == Base(st) + 1 <= n <= MaxHeight(st.list) < |tr.chain|
    ensures Run(st, Above(tr, lo, n)) == Next(st.(queued := QueueAbove(tr, lo, n), issued := n - lo))
  {
    hide Call, Run, QueueInv, Above, QueueAbove;
    if n == lo {
      AboveNone(tr, lo);
      RunNothing(st);
    } else {
      AboveNext(tr, lo, n);
      AboveWaits(st, tr, lo, n - 1);
      var mid := st.(queued := QueueAbove(tr, lo, n - 1), issued := n - 1 - lo);
      NextMissing(mid, BlockAt(tr, n));
      RunSnoc(st, Above(tr, lo, n - 1), Event(None, BlockAt(tr, n)));
    }
  }

  lemma AboveNone(tr: Truth, lo: nat)
    requires lo < |tr.chain|
    ensures Above(tr, lo, lo) == [] && QueueAbove(tr, lo, lo) == map[]
  {
  }

  lemma AboveNext(tr: Truth, lo: nat, n: nat)
    requires lo < n < |tr.chain|
    ensures Above(tr, lo, n) == Above(tr, lo, n - 1) + [Event(None, BlockAt(tr, n))]
    ensures QueueAbove(tr, lo, n) == QueueAbove(tr, lo, n - 1)[n := [QueuedBlock(BlockAt(tr, n), n - 1 - lo)]]
  {
  }

  lemma RunNothing(st: State)
    requires Valid(st)
    ensures Run(st, []) == Next(st)
  {
  }

  lemma NextMissing(st: State, b: Block)
    requires Valid(st) && st.progress != FinalCheckpoint && Base(st) + 1 !in st.queued && b.basicChecks
    requires b.coinbaseHeight.Some? && Base(st) + 1 < b.coinbaseHeight.value <= MaxHeight(st.list)
    requires b.coinbaseHeight.value !in st.queued
    ensures Call(st, Event(None, b)).Next?
    ensures Call(st, Event(None, b)).value.0 ==
              st.(queued := st.queued[b.coinbaseHeight.value := [QueuedBlock(b, st.issued)]], issued := st.issued + 1)
  {
    hide Enqueue, WalkFromTarget;
    QueueFresh(st, b);
    var st2 := QueueBlock(st, b).value;
    EnqueueValid(st, b);
    ContiguousEndIs(st2.queued, Base(st), Base(st));
    assert Target(st2) == WaitingForBlocks;
  }

  /** The hash at a height of the walk; at its bottom, the parent hash of the block above. */
  function HashDown(tr: Truth, lo: int, h: int): Hash
    requires -1 <= lo <= h < |tr.chain| && lo + 1 < |tr.chain|
  {
    if h == lo then tr.parentOf(tr.chain[lo + 1]) else tr.chain[h]
  }

  lemma BlockBelow(tr: Truth, lo: int, h: int)
    requires -1 <= lo < h < |tr.chain|
    requires forall k :: 0 < k < |tr.chain| ==> tr.parentOf(tr.chain[k]) == HashAt(tr, k - 1)
    ensures BlockAt(tr, h).hash == HashDown(tr, lo, h) == tr.chain[h]
    ensures BlockAt(tr, h).parent == HashDown(tr, lo, h - 1)
  {
  }

  /** Walking down the delivered chain meets a checkpoint that is not on it, or reaches the bottom. */
  lemma {:induction false} WalkDown(
    tr: Truth, list: map<Height, Hash>, queued: Queue, lo: int, h: int, expected: Hash, w: Walked)
    requires -1 <= lo <= h < |tr.chain| && lo + 1 < |tr.chain|
    requires forall k :: lo < k <= h ==> k in queued && |queued[k]| == 1 && queued[k][0].block == BlockAt(tr, k)
    requires forall k :: 0 < k < |tr.chain| ==> tr.parentOf(tr.chain[k]) == HashAt(tr, k - 1)
    requires expected == HashDown(tr, lo, h) && w == Walk(list, queued, lo, h, expected)
    ensures w.outcome == Reached(HashDown(tr, lo, lo)) || w.outcome.BadCheckpoint?
    ensures w.outcome.Reached? ==> forall k :: k in list && lo < k <= h ==> list[k] == tr.chain[k]
    decreases h - lo
  {
    hide Matching, Refusals, Walk, BlockAt, HashDown;
    if h == lo {
      WalkEnd(list, queued, lo, expected);
    } else {
      WalkStep(list, queued, lo, h, expected, w);
      MatchingIs(queued[h], expected);
      BlockBelow(tr, lo, h);
      assert queued[h][0] in queued[h];
      if Matching(queued[h], expected).Some? {
        var parent := Matching(queued[h], expected).value.block.parent;
        WalkDown(tr, list, queued - {h}, lo, h - 1, parent, Walk(list, queued - {h}, lo, h - 1, parent));
      }
    }
  }

  /** The verifier starts on the chain, and so do all checkpoints above it. */
  ghost predicate Fitting(tr: Truth, st: State)
    requires Valid(st)
  {
    Grounded(tr, st.list) && tr.floor == Base(st) && PreviousHash(st) == HashAt(tr, Base(st))
  }

  /** With the next height as well, the whole range is processed. */
  lemma RangePanics(st: State, tr: Truth)
    requires Valid(st) && st.progress != FinalCheckpoint && Base(st) < MaxHeight(st.list)
    requires tr.floor == Base(st) && |tr.chain| == MaxHeight(st.list) + 1
    requires forall h :: h in st.queued <==> Base(st) < h <= MaxHeight(st.list)
    requires forall h :: h in st.queued ==> |st.queued[h]| == 1 && st.queued[h][0].block == BlockAt(tr, h)
    requires forall h :: 0 < h < |tr.chain| ==> tr.parentOf(tr.chain[h]) == HashAt(tr, h - 1)
    requires tr.chain[MaxHeight(st.list)] == st.list[MaxHeight(st.list)]
    ensures Process(st).Panic? || Fitting(tr, st)
  {
    hide Walk;
    var n := MaxHeight(st.list);
    ContiguousEndIs(st.queued, Base(st), n);
    assert Target(st) == Checkpoint(n);
    WalkDown(tr, st.list, st.queued, Base(st), n, st.list[n], WalkFromTarget(st, n));
  }

  /** The chain above the start, the lowest block last. */
  function AllBlocks(tr: Truth): seq<Event>
    requires -1 <= tr.floor < |tr.chain| - 1
  {
    Above(tr, tr.floor + 1, |tr.chain| - 1) + [Event(None, BlockAt(tr, tr.floor + 1))]
  }

  lemma {:induction false} AboveHonest(tr: Truth, lo: nat, n: nat)
    requires n < |tr.chain|
    ensures HonestEvents(tr.parentOf, Above(tr, lo, n))
  {
    if n > lo { AboveHonest(tr, lo, n - 1); }
  }

  /** A verifier that survives the delivery of that chain has its start and all its checkpoints on it. */
  lemma SurvivorIsGrounded(parentOf: Hash -> Hash, list: map<Height, Hash>, tip: Tip, tr: Truth)
    requires 0 in list && Base(New(list, tip)) < MaxHeight(list) && tr == ChainAbove(parentOf, list, tip)
    requires Survives(list, tip, AllBlocks(tr))
    ensures Valid(New(list, tip)) && Fitting(tr, New(list, tip))
  {
    hide Call, Run, New, Grounded, QueueAbove, Above, QueueInv, Fitting;
    NewValid(list, tip);
    var start := New(list, tip);
    NewFresh(list, tip);
    var lo, n := Base(start) + 1, MaxHeight(list);
    AboveWaits(start, tr, lo, n);
    var st := start.(queued := QueueAbove(tr, lo, n), issued := n - lo);
    RunLast(start, Above(tr, lo, n), Event(None, BlockAt(tr, lo)));
    LastBlock(st, tr, lo);
    FittingSame(tr, st, start);
  }

  lemma FittingSame(tr: Truth, st: State, st': State)
    requires Valid(st) && Valid(st') && st'.list == st.list && st'.progress == st.progress && st'.tipHash == st.tipHash
    ensures Fitting(tr, st') == Fitting(tr, st)
  {
  }

  /** The lowest block completes the range. */
  lemma LastBlock(st: State, tr: Truth, lo: nat)
    requires Valid(st) && st.progress != FinalCheckpoint && lo == Base(st) + 1 <= MaxHeight(st.list)
    requires tr.floor == Base(st) && |tr.chain| == MaxHeight(st.list) + 1
    requires st.queued == QueueAbove(tr, lo, MaxHeight(st.list))
    requires forall h :: 0 < h < |tr.chain| ==> tr.parentOf(tr.chain[h]) == HashAt(tr, h - 1)
    requires tr.chain[MaxHeight(st.list)] == st.list[MaxHeight(st.list)]
    ensures Call(st, Event(None, BlockAt(tr, lo))).Panic? || Fitting(tr, st)
  {
    hide Process, Enqueue, Grounded, QueueAbove, QueueInv;
    var b := BlockAt(tr, lo);
    assert CheckBlock(st, b) == Ok(lo);
    QueueFresh(st, b);
    EnqueueValid(st, b);
    RangePanics(QueueBlock(st, b).value, tr);
  }

  lemma NewFresh(list: map<Height, Hash>, tip: Tip)
    requires 0 in list
    ensures New(list, tip).issued == 0 && New(list, tip).answers == []
  {
  }

  lemma RunLast(st: State, es: seq<Event>, e: Event)
    requires Valid(st) && Run(st, es + [e]).Next?
    ensures Run(st, es).Next? && Call(Run(st, es).value, e).Next?
  {
    assert (es + [e])[..|es|] == es;
  }

  // ---------------------------------------------------------------- exactly the safe lists

  /** The start and all checkpoints above it lie on the chain of the highest checkpoint. */
  ghost predicate OneChain(parentOf: Hash -> Hash, list: map<Height, Hash>, tip: Tip)
    requires 0 in list
  {
    NewValid(list, tip);
    Fitting(ChainAbove(parentOf, list, tip), New(list, tip))
  }

  /**
   From any tip, or from before genesis, a verifier survives every run of blocks with honest parents if and only if
   the checkpoints above the start lie on the chain that the highest checkpoint commits to, and that chain has the
   start: the hash of the tip at its height, or the genesis parent below genesis. Checkpoints up to the start do not
   matter, and a tip at or above the highest checkpoint is always safe.
   */
  lemma SafeListsExactly(parentOf: Hash -> Hash, list: map<Height, Hash>, tip: Tip)
    requires 0 in list
    ensures (forall es :: HonestEvents(parentOf, es) ==> Survives(list, tip, es)) <==> OneChain(parentOf, list, tip)
  {
    hide Run, Survives, HonestEvents, New, Fitting, ChainAbove;
    NewValid(list, tip);
    var tr := ChainAbove(parentOf, list, tip);
    if Fitting(tr, New(list, tip)) {
      forall es | HonestEvents(parentOf, es) ensures Survives(list, tip, es) {
        FittingSurvives(parentOf, list, tip, es);
      }
    } else if Base(New(list, tip)) == MaxHeight(list) {
      FinishedFits(parentOf, list, tip);
    } else {
      AllBlocksHonest(parentOf, list, tip);
      if Survives(list, tip, AllBlocks(tr)) {
        SurvivorIsGrounded(parentOf, list, tip, tr);
      }
    }
  }

  lemma FinishedFits(parentOf: Hash -> Hash, list: map<Height, Hash>, tip: Tip)
    requires 0 in list && Valid(New(list, tip)) && Base(New(list, tip)) == MaxHeight(list)
    ensures Fitting(ChainAbove(parentOf, list, tip), New(list, tip))
  {
  }

  lemma AllBlocksHonest(parentOf: Hash -> Hash, list: map<Height, Hash>, tip: Tip)
    requires 0 in list && Base(New(list, tip)) < MaxHeight(list)
    ensures var tr := ChainAbove(parentOf, list, tip);
            -1 <= tr.floor < |tr.chain| - 1 && HonestEvents(parentOf, AllBlocks(tr))
  {
    var tr := ChainAbove(parentOf, list, tip);
    AboveHonest(tr, tr.floor + 1, |tr.chain| - 1);
  }

  lemma FittingSurvives(parentOf: Hash -> Hash, list: map<Height, Hash>, tip: Tip, es: seq<Event>)
    requires 0 in list && Valid(New(list, tip)) && Fitting(ChainAbove(parentOf, list, tip), New(list, tip))
    requires HonestEvents(parentOf, es)
    ensures Survives(list, tip, es)
  {
    NewValid(list, tip);
    NewFresh(list, tip);
    RunNeverPanics(ChainAbove(parentOf, list, tip), New(list, tip), es);
  }
}
