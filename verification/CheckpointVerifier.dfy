/**
 The checkpoint verifier in its own form: an object whose methods update its queue, progress and tip hash in
 place. Each method is proved to compute the corresponding function of CheckpointModel, and each Rust
 assertion is a Dafny assertion at the same place.
 */
module CheckpointVerifier {
  import opened Prelude
  import opened CheckpointModel
  import opened CheckpointInvariants
  import Tickets = CheckpointTickets
  import Answers = CheckpointAnswers

  /** The least queued height above `h`, as iterating over the ordered map yields it. */
  function KeyAbove(queued: Queue, h: int, bound: nat): (r: Option<Height>)
    requires -1 <= h
    ensures r.Some? ==> h < r.value < bound && r.value in queued
    ensures forall k :: k in queued && h < k < bound ==> r.Some? && r.value <= k
    decreases bound - h
  {
    if h + 1 >= bound then None
    else if h + 1 in queued then Some(h + 1)
    else KeyAbove(queued, h + 1, bound)
  }

  /** The queued heights in `lo < k <= h`, from the highest down. */
  function KeysDown(queued: Queue, lo: int, h: int): seq<Height>
    requires -1 <= lo
    decreases h - lo
  {
    if h <= lo then []
    else (if h in queued then [h] else []) + KeysDown(queued, lo, h - 1)
  }

  lemma {:induction false} KeysDownContiguous(queued: Queue, lo: int, h: int)
    requires -1 <= lo <= h
    requires forall k :: lo < k <= h ==> k in queued
    ensures |KeysDown(queued, lo, h)| == h - lo
    ensures forall i :: 0 <= i < h - lo ==> KeysDown(queued, lo, h)[i] == h - i
    decreases h - lo
  {
    if lo < h { KeysDownContiguous(queued, lo, h - 1); }
  }

  function Reversed(s: seq<QueuedBlock>): (r: seq<QueuedBlock>)
    ensures |r| == |s| && forall i :: 0 <= i < |s| ==> r[i] == s[|s| - 1 - i]
  {
    if s == [] then [] else [s[|s| - 1]] + Reversed(s[..|s| - 1])
  }

  /** Part way through the walk `w`, at height `h`: what is done, and what walking on from here will add. */
  ghost predicate Walking(
    list: map<Height, Hash>, queued: Queue, base: int, h: int, expected: Hash, revValid: seq<QueuedBlock>,
    refused: seq<Answer>, w: Walked)
  {
    && -1 <= base <= h && 0 in list && QueueInv(list, queued)
    && (forall k :: base < k <= h ==> k in queued)
    && (forall qb :: qb in revValid ==> qb.block.coinbaseHeight.Some?)
    && var rest := Walk(list, queued, base, h, expected);
    w == Walked(rest.queued, rest.kept + Reversed(revValid), refused + rest.refused, rest.outcome)
  }

  lemma WalkingStep(
    list: map<Height, Hash>, queued: Queue, base: int, h: Height, expected: Hash, revValid: seq<QueuedBlock>,
    refused: seq<Answer>, w: Walked)
    requires Walking(list, queued, base, h, expected, revValid, refused, w) && base < h
    ensures h in queued && ListInv(h, queued[h])
    ensures forall qb :: qb in revValid ==> qb.block.coinbaseHeight.Some?
    ensures var valid := Matching(queued[h], expected);
            var refused' := refused + Refusals(queued[h], expected);
            if h in list && list[h] != expected then
              w.outcome == BadCheckpoint(h)
            else if valid.Some? then
              Walking(list, queued - {h}, base, h - 1, valid.value.block.parent, revValid + [valid.value], refused', w)
            else
              w == Walked(queued - {h}, Reversed(revValid), refused', Broken(h))
  {
    hide Refusals, Matching, Walk;
    var valid := Matching(queued[h], expected);
    WalkStep(list, queued, base, h, expected, Walk(list, queued, base, h, expected));
    MatchingIs(queued[h], expected);
    if valid.Some? {
      assert Reversed(revValid + [valid.value]) == [valid.value] + Reversed(revValid);
    }
  }

  lemma WalkingStart(st: State, t: Height, w: Walked)
    requires Valid(st) && Target(st) == Checkpoint(t) && w == WalkFromTarget(st, t)
    ensures 0 in st.list && t in st.list && -1 <= Base(st) < t
    ensures forall k :: Base(st) < k <= t ==> k in st.queued
    ensures Walking(st.list, st.queued, Base(st), t, st.list[t], [], [], w)
  {
    hide Target, Walk;
    TargetRange(st);
    assert Reversed([]) == [];
  }

  lemma WalkingEnd(
    list: map<Height, Hash>, queued: Queue, base: int, expected: Hash, revValid: seq<QueuedBlock>,
    refused: seq<Answer>, w: Walked)
    requires Walking(list, queued, base, base, expected, revValid, refused, w)
    ensures w == Walked(queued, Reversed(revValid), refused, Reached(expected))
    ensures forall qb :: qb in revValid ==> qb.block.coinbaseHeight.Some?
  {
    assert [] + Reversed(revValid) == Reversed(revValid) && refused + [] == refused;
  }

  lemma NothingToDo(st: State)
    requires Valid(st)
    ensures Target(st) == FinishedVerifying <==> st.progress == FinalCheckpoint
    ensures !Target(st).Checkpoint? ==> Process(st) == Next(st)
  {
  }

  /** What a walk means for the processing step. */
  lemma ProcessIs(st: State, t: Height, w: Walked)
    requires Valid(st) && Target(st) == Checkpoint(t) && w == WalkFromTarget(st, t)
    ensures match w.outcome
            case BadCheckpoint(_) => Process(st).Panic?
            case Broken(_) => Fails(st)
            case Reached(parent) =>
              if parent != PreviousHash(st) then Process(st).Panic?
              else
                var answered := st.(queued := w.queued, answers := st.answers + w.refused + Accepts(w.kept));
                Succeeds(st) && Process(st) == Next(UpdateProgress(answered, t))
  {
    hide Walk, Target, Restore;
  }

  class Verifier {
    const list: map<Height, Hash>
    var tipHash: Option<Hash>
    var queued: Queue
    var progress: Progress
    var answers: seq<Answer>
    var issued: nat

    function Abs(): State
      reads this
    {
      State(list, tipHash, queued, progress, answers, issued)
    }

    /** The progress and the tip hash are those of a verifier that has reached `tip` and nothing else. */
    predicate StartsAt(tip: Tip)
      requires 0 in list
      reads this
    {
      match tip
      case None => progress == BeforeGenesis && tipHash == None
      case Some((height, hash)) =>
        if height < MaxHeight(list) then progress == InitialTip(height) && tipHash == Some(hash)
        else progress == FinalCheckpoint && tipHash == None
    }

    constructor (list: map<Height, Hash>, tip: Tip)
      requires 0 in list
      ensures Abs() == New(list, tip) && StartsAt(tip)
      ensures queued == map[] && answers == [] && issued == 0
    {
      this.list := list;
      var (hash, progress) := ProgressFromTip(list, tip);
      this.tipHash := hash;
      this.progress := progress;
      this.queued := map[];
      this.answers := [];
      this.issued := 0;
    }

    method ResetProgress(tip: Tip)
      requires 0 in list
      modifies this
      ensures Abs() == Reset(old(Abs()), tip) && StartsAt(tip)
      ensures unchanged(`queued) && unchanged(`answers) && unchanged(`issued)
    {
      var (hash, p) := ProgressFromTip(list, tip);
      tipHash := hash;
      progress := p;
    }

    method TargetCheckpointHeight() returns (t: TargetHeight)
      requires Valid(Abs())
      ensures t == Target(Abs())
    {
      var start: Height := 0;
      match progress {
        case BeforeGenesis =>
          if 0 !in queued {
            ContiguousEndIs(queued, -1, -1);
            return WaitingForBlocks;
          }
        case InitialTip(h) => start := h;
        case PreviousCheckpoint(h) => start := h;
        case FinalCheckpoint => return FinishedVerifying;
      }
      ghost var base := Base(Abs());
      var bound := MaxHeight(list) + 1;
      var pending := start;
      var next := KeyAbove(queued, pending, bound);
      while next.Some? && next.value == pending + 1
        invariant base <= pending && next == KeyAbove(queued, pending, bound)
        invariant forall k :: base < k <= pending ==> k in queued
        decreases bound - pending
      {
        pending := next.value;
        next := KeyAbove(queued, pending, bound);
      }
      assert pending + 1 !in queued;
      ContiguousEndIs(queued, base, pending);
      var lo := if progress == BeforeGenesis then -1 else start;
      match MaxHeightIn(list, lo, pending) {
        case Some(h) => t := Checkpoint(h);
        case None => t := WaitingForBlocks;
      }
    }

    method QueueBlock(block: Block) returns (r: Result<nat, VerifyError>)
      requires Valid(Abs())
      modifies this
      ensures var q := CheckpointModel.QueueBlock(old(Abs()), block);
              if q.Ok? then r == Ok(old(issued)) && Abs() == q.value else r == Err(q.error) && Abs() == old(Abs())
    {
      var checked := CheckBlock(Abs(), block);
      if checked.Err? {
        return Err(checked.error);
      }
      var height := checked.value;
      var qblocks := ListAt(queued, height);
      var new' := QueuedBlock(block, issued);
      // Replace older requests with newer ones.
      var i := 0;
      while i < |qblocks|
        invariant 0 <= i <= |qblocks|
        invariant forall j :: 0 <= j < i ==> qblocks[j].block.hash != block.hash
        invariant Abs() == old(Abs())
      {
        if qblocks[i].block.hash == block.hash {
          IndexOfIs(qblocks, block.hash, i);
          var older := qblocks[i];
          queued := queued[height := qblocks[i := new']];
          answers := answers + [Answer(older.ticket, older.block, Err(NewerRequest(height, block.hash)))];
          issued := issued + 1;
          return Ok(new'.ticket);
        }
        i := i + 1;
      }
      IndexOfIs(qblocks, block.hash, i);
      if |qblocks| >= MAX_QUEUED_BLOCKS_PER_HEIGHT {
        return Err(QueuedLimit);
      }
      queued := queued[height := qblocks + [new']];
      issued := issued + 1;
      return Ok(new'.ticket);
    }

    /**
     Take all blocks at `height` out of the queue, refuse those without the expected hash. It panics exactly at a
     checkpoint with another hash.
     */
    method ProcessHeight(height: Height, expected: Hash) returns (r: Step<Option<QueuedBlock>>)
      requires height in queued && ListInv(height, queued[height])
      modifies this`queued, this`answers
      ensures r.Panic? <==> height in list && list[height] != expected
      ensures r.Next? ==>
                && queued == old(queued) - {height}
                && r.value == Matching(old(queued[height]), expected)
                && answers == old(answers) + Refusals(old(queued[height]), expected)
    {
      var qblocks := queued[height];
      queued := queued - {height};
      assert qblocks != [];
      if height in list && list[height] != expected {
        return Panic;
      }
      var valid: Option<QueuedBlock> := None;
      var i := 0;
      while i < |qblocks|
        invariant 0 <= i <= |qblocks|
        invariant queued == old(queued) - {height}
        invariant valid == Matching(qblocks[..i], expected)
        invariant answers == old(answers) + Refusals(qblocks[..i], expected)
      {
        assert qblocks[..i + 1][..i] == qblocks[..i];
        Tickets.MatchingSnoc(qblocks[..i + 1], expected);
        if qblocks[i].block.hash == expected {
          // duplicate blocks are rejected before being queued
          assert valid.None?;
          valid := Some(qblocks[i]);
        } else {
          answers := answers +
            [Answer(qblocks[i].ticket, qblocks[i].block, Err(UnexpectedSideChain(qblocks[i].block.hash, expected)))];
        }
        i := i + 1;
      }
      assert qblocks[..i] == qblocks;
      return Next(valid);
    }

    /** Put the kept blocks back in the queue, in height order. */
    method RequeueBlocks(revValid: seq<QueuedBlock>)
      requires forall qb :: qb in revValid ==> qb.block.coinbaseHeight.Some?
      modifies this`queued
      ensures forall qb :: qb in Reversed(revValid) ==> qb.block.coinbaseHeight.Some?
      ensures queued == Restore(old(queued), Reversed(revValid))
    {
      ghost var kept := Reversed(revValid);
      var m := 0;
      while m < |revValid|
        invariant 0 <= m <= |revValid|
        invariant queued == Restore(old(queued), kept[..m])
      {
        assert kept[..m + 1][..m] == kept[..m];
        queued := PutBack(queued, revValid[|revValid| - 1 - m]);
        m := m + 1;
      }
      assert kept[..m] == kept;
    }

    /** Answer `Ok` to the kept blocks, in height order. */
    method AcceptBlocks(revValid: seq<QueuedBlock>)
      modifies this`answers
      ensures answers == old(answers) + Accepts(Reversed(revValid))
    {
      ghost var kept := Reversed(revValid);
      var m := 0;
      while m < |revValid|
        invariant 0 <= m <= |revValid|
        invariant answers == old(answers) + Accepts(kept[..m])
      {
        assert Accepts(kept[..m + 1])
            == Accepts(kept[..m]) + [Answer(kept[m].ticket, kept[m].block, Ok(kept[m].block.hash))];
        var qb := revValid[|revValid| - 1 - m];
        answers := answers + [Answer(qb.ticket, qb.block, Ok(qb.block.hash))];
        m := m + 1;
      }
      assert kept[..m] == kept;
    }

    method UpdateProgress(verified: Height)
      requires 0 in list
      modifies this
      ensures Abs() == CheckpointModel.UpdateProgress(old(Abs()), verified)
    {
      if CheckHeight(Abs(), verified).Some? {
        return;
      }
      if verified == MaxHeight(list) {
        progress := FinalCheckpoint;
      } else if verified in list {
        progress := PreviousCheckpoint(verified);
        tipHash := None;
      }
    }

    /** The backward walk of `process_checkpoint_range`; it panics at a checkpoint that the walk does not meet. */
    method WalkRange(t: Height, ghost w: Walked) returns (outcome: Outcome, revValid: seq<QueuedBlock>)
      requires Valid(Abs()) && Target(Abs()) == Checkpoint(t) && w == WalkFromTarget(Abs(), t)
      modifies this`queued, this`answers
      ensures outcome == w.outcome
      ensures !outcome.BadCheckpoint? ==>
                && answers == old(answers) + w.refused && queued == w.queued && Reversed(revValid) == w.kept
                && forall qb :: qb in revValid ==> qb.block.coinbaseHeight.Some?
    {
      hide Refusals, Matching, Target, KeysDown, Walk, Valid, Walking, Reversed;
      WalkingStart(Abs(), t, w);
      var base := Base(Abs());
      var expected := list[t];
      revValid := [];
      var heights := KeysDown(queued, base, t);
      KeysDownContiguous(queued, base, t);
      ghost var refused: seq<Answer> := [];
      var i := 0;
      while i < |heights|
        invariant 0 <= i <= |heights| == t - base
        invariant answers == old(answers) + refused
        invariant Walking(list, queued, base, t - i, expected, revValid, refused, w)
      {
        var height := heights[i];
        WalkingStep(list, queued, base, height, expected, revValid, refused, w);
        refused := refused + Refusals(queued[height], expected);
        var valid := ProcessHeight(height, expected);
        if valid.Panic? {
          return BadCheckpoint(height), revValid;
        }
        if valid.value.None? {
          return Broken(height), revValid;
        }
        expected := valid.value.value.block.parent;
        revValid := revValid + [valid.value.value];
        i := i + 1;
      }
      WalkingEnd(list, queued, base, expected, revValid, refused, w);
      return Reached(expected), revValid;
    }

    /** `process_checkpoint_range`: it panics exactly if the walk does not fit the checkpoints. */
    method ProcessCheckpointRange() returns (panicked: bool)
      requires Valid(Abs())
      modifies this
      ensures panicked <==> Process(old(Abs())).Panic?
      ensures !panicked ==> Abs() == Process(old(Abs())).value
    {
      hide Process, Walk, Target, Restore, QueueInv, Succeeds, Fails, Accepts;
      panicked := false;
      if progress == FinalCheckpoint {
        NothingToDo(Abs());
        return;
      }
      var previousHash := PreviousHash(Abs());
      var target := TargetCheckpointHeight();
      NothingToDo(Abs());
      if target == WaitingForBlocks {
        return;
      }
      assert target.Checkpoint?;
      ghost var st := Abs();
      ghost var w := WalkFromTarget(st, target.height);
      ProcessIs(st, target.height, w);
      var oldProgress := progress;
      var outcome, revValid := WalkRange(target.height, w);
      if outcome.BadCheckpoint? {
        return true;
      }
      if outcome.Broken? {
        RequeueBlocks(revValid);
        FailedProcess(st, w);
        // we must not change the previous checkpoint on failure
        assert progress == oldProgress;
        // we must decrease or eliminate our target on failure
        NothingToDo(Abs());
        var current := TargetCheckpointHeight();
        assert current == WaitingForBlocks || (current.Checkpoint? && current.height < target.height);
        return;
      }
      // the previous checkpoint should match
      if outcome.parent != previousHash {
        return true;
      }
      AcceptBlocks(revValid);
      UpdateProgress(target.height);
      SuccessfulProcess(st, Abs());
      // we must make progress on success, up to the old target
      assert ProgressLess(oldProgress, progress);
      assert if progress == FinalCheckpoint then target.height == MaxHeight(list)
             else progress == PreviousCheckpoint(target.height);
      // processing must cover all available checkpoints
      var newTarget := TargetCheckpointHeight();
      assert newTarget == WaitingForBlocks || newTarget == FinishedVerifying;
    }

    /** `call`, with the reset message that was waiting in the channel, up to spawning the commit task. */
    method Call(reset: Option<Tip>, block: Block) returns (reply: Step<Reply>)
      requires Valid(Abs())
      modifies this
      ensures reply.Panic? <==> CheckpointModel.Call(old(Abs()), Event(reset, block)).Panic?
      ensures reply.Next? ==> CheckpointModel.Call(old(Abs()), Event(reset, block)) == Next((Abs(), reply.value))
      ensures reply.Next? ==> Valid(Abs())
    {
      hide Process, Enqueue;
      ghost var event := Event(reset, block);
      if CheckpointModel.Call(Abs(), event).Next? { CallValid(Abs(), event); }
      if reset.Some? {
        ResetProgress(reset.value);
      }
      if progress == FinalCheckpoint {
        return Next(Rejected(Finished));
      }
      assert Abs() == AfterReset(old(Abs()), reset);
      ghost var st1 := Abs();
      var ticket := QueueBlock(block);
      if ticket.Err? {
        return Next(Rejected(ticket.error));
      }
      EnqueueValid(st1, block);
      var panicked := ProcessCheckpointRange();
      if panicked {
        return Panic;
      }
      return Next(Accepted(ticket.value));
    }

    method DropHeight(h: Height)
      requires h in queued
      modifies this`queued, this`answers
      ensures queued == old(queued) - {h}
      ensures answers == old(answers) + Tickets.DropList(old(queued[h]))
    {
      var qblocks := queued[h];
      queued := queued - {h};
      var i := 0;
      while i < |qblocks|
        invariant 0 <= i <= |qblocks|
        invariant queued == old(queued) - {h}
        invariant answers == old(answers) + Tickets.DropList(qblocks[..i])
      {
        assert qblocks[..i + 1][..i] == qblocks[..i];
        answers := answers + [Answer(qblocks[i].ticket, qblocks[i].block, Err(Dropped))];
        i := i + 1;
      }
      assert qblocks[..i] == qblocks;
    }

    /** Answer every queued block with an error, in height order. */
    method Drop()
      requires Valid(Abs())
      modifies this
      ensures Abs() == Tickets.Drop(old(Abs()))
      ensures queued == map[] && old(answers) <= answers
      ensures Answers.DropsBelow(old(queued), MaxHeight(list) + 1, answers[|old(answers)|..])
    {
      hide ListInv, Answers.DropsBelow;
      ghost var st := Abs();
      var h := 0;
      while h <= MaxHeight(list)
        invariant 0 <= h <= MaxHeight(list) + 1
        invariant queued == Without(old(queued), -1, h - 1)
        invariant answers == old(answers) + Tickets.DropAnswers(old(queued), h)
        invariant tipHash == old(tipHash) && progress == old(progress) && issued == old(issued)
      {
        if h in queued {
          DropHeight(h);
        }
        h := h + 1;
      }
      assert queued == map[];
      DropSends(st);
    }
  }

  lemma DropSends(st: State)
    requires Valid(st)
    ensures st.answers <= Tickets.Drop(st).answers
    ensures Answers.DropsBelow(st.queued, MaxHeight(st.list) + 1, Tickets.Drop(st).answers[|st.answers|..])
  {
    hide Tickets.Drop, Answers.DropsBelow;
    Answers.DropOnlyRefuses(st);
  }

  lemma IndexOfIs(l: seq<QueuedBlock>, hash: Hash, i: nat)
    requires i <= |l| && (i < |l| ==> l[i].block.hash == hash)
    requires forall j :: 0 <= j < i ==> l[j].block.hash != hash
    ensures IndexOf(l, hash) == i
  {
  }
}
