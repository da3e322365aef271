/**
 What every step of the checkpoint verifier keeps: the shape of the queue, the agreement of progress and
 tip hash, the conservation of tickets, and the movement of the target.
 */
module CheckpointInvariants {
  import opened Prelude
  import opened CheckpointModel

  // ---------------------------------------------------------------- the queue after a walk

  /** The queue without the heights `lo < k <= h`. */
  function Without(queued: Queue, lo: int, h: int): Queue {
    map k | k in queued && !(lo < k <= h) :: queued[k]
  }

  /** The lowest height a walk left behind: `lo` when it reached the bottom, else one below the break. */
  function Cut(w: Walked, lo: int): int {
    match w.outcome
    case Reached(_) => lo
    case Broken(c) => c - 1
    case BadCheckpoint(c) => c
  }

  /** A walk removes exactly the heights it visited, and keeps one block above each but the last. */
  lemma {:induction false} WalkRemoves(
    list: map<Height, Hash>, queued: Queue, lo: int, h: int, expected: Hash, w: Walked)
    requires -1 <= lo <= h
    requires forall k :: lo < k <= h ==> k in queued
    requires w == Walk(list, queued, lo, h, expected)
    ensures lo <= Cut(w, lo) <= h
    ensures w.queued == Without(queued, Cut(w, lo), h)
    ensures |w.kept| == h - Cut(w, lo) - (if w.outcome.Broken? then 1 else 0)
    decreases h - lo
  {
    hide Matching, Refusals, Walk;
    var c := Cut(w, lo);
    if h == lo {
      WalkEnd(list, queued, lo, expected);
    } else {
      WalkStep(list, queued, lo, h, expected, w);
    }
    if h == lo || (h in list && list[h] != expected) {
      assert w.queued == queued == Without(queued, h, h);
    } else if Matching(queued[h], expected).None? {
      assert w.queued == queued - {h} == Without(queued, h - 1, h);
    } else {
      var qb := Matching(queued[h], expected).value;
      var w' := Walk(list, queued - {h}, lo, h - 1, qb.block.parent);
      WalkRemoves(list, queued - {h}, lo, h - 1, qb.block.parent, w');
      assert Without(queued - {h}, c, h - 1) == Without(queued, c, h);
    }
  }

  /** Every kept block comes from the queue, at its own height. */
  lemma {:induction false} WalkKeeps(
    list: map<Height, Hash>, queued: Queue, lo: int, h: int, expected: Hash, w: Walked)
    requires -1 <= lo <= h
    requires forall k :: lo < k <= h ==> k in queued
    requires w == Walk(list, queued, lo, h, expected)
    ensures |w.kept| <= h - lo
    ensures forall i :: 0 <= i < |w.kept| ==> w.kept[i] in queued[h - |w.kept| + 1 + i]
    decreases h - lo
  {
    hide Matching, Refusals, Walk;
    if h == lo {
      WalkEnd(list, queued, lo, expected);
    } else {
      WalkStep(list, queued, lo, h, expected, w);
      MatchingIs(queued[h], expected);
      match Matching(queued[h], expected)
      case None =>
      case Some(qb) =>
        WalkKeeps(list, queued - {h}, lo, h - 1, qb.block.parent,
                  Walk(list, queued - {h}, lo, h - 1, qb.block.parent));
    }
  }

  /** Putting kept blocks back gives each of their heights a list with just that block. */
  lemma {:induction false} RestoreLists(queued: Queue, kept: seq<QueuedBlock>, c: int)
    requires -1 <= c
    requires forall i :: 0 <= i < |kept| ==> kept[i].block.coinbaseHeight == Some(c + 1 + i)
    requires forall k :: c < k <= c + |kept| ==> k !in queued
    ensures var q := Restore(queued, kept);
            && (forall k :: k in q <==> k in queued || c < k <= c + |kept|)
            && (forall k :: k in queued ==> q[k] == queued[k])
            && (forall i :: 0 <= i < |kept| ==> q[c + 1 + i] == [kept[i]])
  {
    if kept != [] {
      RestoreLists(queued, kept[..|kept| - 1], c);
    }
  }

  /** `q` is `queued` without height `c`, and with one kept block left at each of the heights above it. */
  ghost predicate RestoredFrom(queued: Queue, q: Queue, kept: seq<QueuedBlock>, c: Height) {
    && (forall k :: k in q <==> k in queued && k != c)
    && (forall k :: k in q && !(c < k <= c + |kept|) ==> q[k] == queued[k])
    && (forall i :: 0 <= i < |kept| ==> c + 1 + i in q && q[c + 1 + i] == [kept[i]])
  }

  lemma RestoreAfterBreak(queued: Queue, kept: seq<QueuedBlock>, c: Height)
    requires forall k :: c <= k <= c + |kept| ==> k in queued
    requires forall i :: 0 <= i < |kept| ==> kept[i].block.coinbaseHeight == Some(c + 1 + i)
    ensures RestoredFrom(queued, Restore(Without(queued, c - 1, c + |kept|), kept), kept, c)
  {
    hide Restore, Without;
    var rest := Without(queued, c - 1, c + |kept|);
    WithoutIs(queued, c - 1, c + |kept|);
    RestoreLists(rest, kept, c);
  }

  lemma WithoutIs(queued: Queue, lo: int, h: int)
    ensures forall k :: k in Without(queued, lo, h) <==> k in queued && !(lo < k <= h)
    ensures forall k :: k in Without(queued, lo, h) ==> Without(queued, lo, h)[k] == queued[k]
  {
  }

  lemma RestoredValid(list: map<Height, Hash>, queued: Queue, q: Queue, kept: seq<QueuedBlock>, c: Height)
    requires 0 in list && QueueInv(list, queued) && RestoredFrom(queued, q, kept, c)
    requires forall i :: 0 <= i < |kept| ==> kept[i].block.coinbaseHeight == Some(c + 1 + i)
    ensures QueueInv(list, q)
  {
    forall k | k in q ensures k <= MaxHeight(list) && ListInv(k, q[k]) {
      if c < k <= c + |kept| {
        assert q[c + 1 + (k - c - 1)] == [kept[k - c - 1]];
      }
    }
  }

  lemma BrokenWalk(list: map<Height, Hash>, queued: Queue, lo: int, h: int, expected: Hash, w: Walked)
    requires -1 <= lo <= h && 0 in list && QueueInv(list, queued)
    requires forall k :: lo < k <= h ==> k in queued
    requires w == Walk(list, queued, lo, h, expected) && w.outcome.Broken?
    ensures lo < w.outcome.at <= h == w.outcome.at + |w.kept|
    ensures forall i :: 0 <= i < |w.kept| ==> w.kept[i].block.coinbaseHeight == Some(w.outcome.at + 1 + i)
    ensures w.queued == Without(queued, w.outcome.at - 1, h)
  {
    hide Walk;
    WalkRemoves(list, queued, lo, h, expected, w);
    KeptHaveHeights(list, queued, lo, h, expected, w);
  }

  lemma BrokenQueue(list: map<Height, Hash>, queued: Queue, lo: int, h: int, expected: Hash, w: Walked)
    requires -1 <= lo <= h && 0 in list && QueueInv(list, queued)
    requires forall k :: lo < k <= h ==> k in queued
    requires w == Walk(list, queued, lo, h, expected) && w.outcome.Broken?
    ensures lo < w.outcome.at <= h == w.outcome.at + |w.kept|
    ensures forall qb :: qb in w.kept ==> qb.block.coinbaseHeight.Some?
    ensures RestoredFrom(queued, Restore(w.queued, w.kept), w.kept, w.outcome.at)
    ensures QueueInv(list, Restore(w.queued, w.kept))
  {
    hide Walk, Restore, Without, RestoredFrom, QueueInv;
    BrokenWalk(list, queued, lo, h, expected, w);
    RestoreAfterBreak(queued, w.kept, w.outcome.at);
    RestoredValid(list, queued, Restore(w.queued, w.kept), w.kept, w.outcome.at);
  }

  // ---------------------------------------------------------------- targets

  lemma {:induction false} ContiguousEndIs(queued: Queue, from: int, r: int)
    requires -1 <= from <= r
    requires forall k :: from < k <= r ==> k in queued
    requires r + 1 !in queued
    ensures ContiguousEnd(queued, from) == r
  {
    var e := ContiguousEnd(queued, from);
    assert e < r ==> e + 1 in queued;
    assert e > r ==> r + 1 in queued;
  }

  /** A target is a checkpoint above the progress, and every height up to it is queued. */
  lemma TargetRange(st: State)
    requires 0 in st.list && Target(st).Checkpoint?
    ensures st.progress != FinalCheckpoint
    ensures Base(st) < Target(st).height <= MaxHeight(st.list) && Target(st).height in st.list
    ensures forall k :: Base(st) < k <= Target(st).height ==> k in st.queued
  {
  }

  /** Once a range up to the highest available checkpoint is gone, no target is left. */
  lemma NoTargetLeft(st: State, st': State, t: Height)
    requires 0 in st.list && st.progress != FinalCheckpoint
    requires Target(st) == Checkpoint(t)
    requires st'.list == st.list && st'.queued == Without(st.queued, Base(st), t)
    requires st'.progress == PreviousCheckpoint(t)
    ensures Target(st') == WaitingForBlocks
  {
    var e := ContiguousEnd(st.queued, Base(st));
    ContiguousEndIs(st'.queued, t, e);
  }

  /** Removing one height of the range pulls the target below that height. */
  lemma TargetDrops(st: State, st': State, t: Height, c: Height)
    requires 0 in st.list && st.progress != FinalCheckpoint
    requires Base(st) < c <= t
    requires st'.list == st.list && st'.progress == st.progress
    requires c !in st'.queued
    ensures Target(st') == WaitingForBlocks || (Target(st').Checkpoint? && Target(st').height < c)
  {
    var e := ContiguousEnd(st'.queued, Base(st));
    assert e >= c ==> c in st'.queued;
  }

  // ---------------------------------------------------------------- one processing step

  /** The three ways `process_checkpoint_range` can end. */
  predicate Waits(st: State)
    requires 0 in st.list
  {
    !Target(st).Checkpoint?
  }

  predicate Succeeds(st: State)
    requires Valid(st)
  {
    Target(st).Checkpoint? && Process(st).Next? && WalkFromTarget(st, Target(st).height).outcome.Reached?
  }

  predicate Fails(st: State)
    requires Valid(st)
  {
    Target(st).Checkpoint? && WalkFromTarget(st, Target(st).height).outcome.Broken?
  }

  /**
   A verified range: the progress moves strictly up, exactly to the target, exactly the range leaves the
   queue, and no further target is available. These are the assertions at the end of
   `process_checkpoint_range`.
   */
  lemma SuccessfulProcess(st: State, st': State)
    requires Valid(st) && Succeeds(st) && Process(st) == Next(st')
    ensures Valid(st') && st'.list == st.list && st'.issued == st.issued
    ensures Base(st) < Base(st') == Target(st).height
    ensures ProgressLess(st.progress, st'.progress)
    ensures st'.progress == if Base(st') == MaxHeight(st.list) then FinalCheckpoint else PreviousCheckpoint(Base(st'))
    ensures st'.queued == Without(st.queued, Base(st), Base(st'))
    ensures PreviousHash(st') == st.list[Target(st).height]
    ensures st'.progress.PreviousCheckpoint? ==> st'.tipHash.None?
    ensures Waits(st')
  {
    hide Walk;
    var t := Target(st).height;
    WalkRemoves(st.list, st.queued, Base(st), t, st.list[t], WalkFromTarget(st, t));
    if t != MaxHeight(st.list) {
      NoTargetLeft(st, st', t);
    }
  }

  /**
   A broken range: the progress stays, only the refused blocks leave the queue, every matching block is
   queued again, and the target drops below the height that had no matching block.
   */
  lemma FailedProcess(st: State, w: Walked)
    requires Valid(st) && Fails(st) && w == WalkFromTarget(st, Target(st).height)
    ensures Process(st) == Next(st.(queued := Restore(w.queued, w.kept), answers := st.answers + w.refused))
    ensures Valid(Process(st).value)
    ensures Base(st) < w.outcome.at <= Target(st).height == w.outcome.at + |w.kept|
    ensures RestoredFrom(st.queued, Process(st).value.queued, w.kept, w.outcome.at)
    ensures Waits(Process(st).value) || Target(Process(st).value).height < w.outcome.at
  {
    hide Walk, Restore;
    var t := Target(st).height;
    BrokenQueue(st.list, st.queued, Base(st), t, st.list[t], w);
    TargetDrops(st, Process(st).value, t, w.outcome.at);
  }

  lemma ProcessValid(st: State, st': State)
    requires Valid(st) && Process(st) == Next(st')
    ensures Valid(st') && st'.list == st.list && st'.issued == st.issued
  {
    if Succeeds(st) { SuccessfulProcess(st, st'); }
    if Fails(st) { FailedProcess(st, WalkFromTarget(st, Target(st).height)); }
  }

  lemma CallValid(st: State, e: Event)
    requires Valid(st) && Call(st, e).Next?
    ensures Valid(Call(st, e).value.0) && Call(st, e).value.0.list == st.list
  {
    var st1 := AfterReset(st, e.reset);
    if st1.progress != FinalCheckpoint && QueueBlock(st1, e.block).Ok? {
      EnqueueValid(st1, e.block);
      ProcessValid(QueueBlock(st1, e.block).value, Call(st, e).value.0);
    }
  }

  /** A whole run of calls, with any resets in between; the replies are those of the calls, in order. */
  function Run(st: State, es: seq<Event>): (r: Step<State>)
    requires Valid(st)
    ensures r.Next? ==> Valid(r.value) && r.value.list == st.list
  {
    if es == [] then Next(st)
    else
      match Run(st, es[..|es| - 1])
      case Panic => Panic
      case Next(mid) =>
        match Call(mid, es[|es| - 1])
        case Panic => Panic
        case Next((st', _)) => CallValid(mid, es[|es| - 1]); Next(st')
  }

  lemma RunSnoc(st: State, es: seq<Event>, e: Event)
    requires Valid(st) && Run(st, es).Next? && Call(Run(st, es).value, e).Next?
    ensures Run(st, es + [e]) == Next(Call(Run(st, es).value, e).value.0)
  {
    assert (es + [e])[..|es|] == es;
  }

  /** A block at a height with nothing queued is queued alone. */
  lemma QueueFresh(st: State, b: Block)
    requires 0 in st.list && CheckBlock(st, b).Ok? && CheckBlock(st, b).value !in st.queued
    ensures QueueBlock(st, b) ==
            Ok(st.(queued := st.queued[CheckBlock(st, b).value := [QueuedBlock(b, st.issued)]],
                   issued := st.issued + 1))
  {
    assert [] + [QueuedBlock(b, st.issued)] == [QueuedBlock(b, st.issued)];
  }
}
