/**
 The checkpoint verifier as a pure state machine: what `target_checkpoint_height`, `check_height`,
 `queue_block`, `process_checkpoint_range`, `update_progress`, `reset_progress` and the synchronous part
 of `call` do to the verifier's fields. Every Rust `assert!`, `expect` or `unreachable!` that depends on
 hashes is an explicit `Panic` here. The class in CheckpointVerifier.dfy refines these functions.
 */
module CheckpointModel {
  import opened Prelude

  type Height = nat

  /** A 32-byte block hash; only equality matters. */
  datatype Hash = Hash(id: nat)

  /** The parent hash of every genesis block. */
  const GENESIS_PREVIOUS_BLOCK_HASH: Hash := Hash(0)

  const MAX_QUEUED_BLOCKS_PER_HEIGHT: nat := 4

  /** `basicChecks` stands for the proof of work, subsidy and Merkle root checks of `check_block`. */
  datatype Block = Block(coinbaseHeight: Option<Height>, hash: Hash, parent: Hash, basicChecks: bool)

  datatype Progress =
    | BeforeGenesis
    | InitialTip(height: Height)
    | PreviousCheckpoint(height: Height)
    | FinalCheckpoint

  datatype TargetHeight = WaitingForBlocks | Checkpoint(height: Height) | FinishedVerifying

  datatype VerifyError =
    | Finished
    | TooHigh(height: Height, maxHeight: Height)
    | AlreadyVerified(height: Height, verifiedHeight: Height)
    | NewerRequest(height: Height, hash: Hash)
    | CoinbaseHeight(hash: Hash)
    | BasicCheckFailed(hash: Hash)
    | QueuedLimit
    | UnexpectedSideChain(found: Hash, expected: Hash)
    | Dropped

  /** A queued block and the one-shot channel of its caller, named by a ticket number. */
  datatype QueuedBlock = QueuedBlock(block: Block, ticket: nat)

  type Queue = map<Height, seq<QueuedBlock>>

  /** One message sent on a one-shot channel. */
  datatype Answer = Answer(ticket: nat, block: Block, result: Result<Hash, VerifyError>)

  /** `answers` are all messages sent so far, in order; `issued` tickets have been handed out. */
  datatype State = State(
    list: map<Height, Hash>,
    tipHash: Option<Hash>,
    queued: Queue,
    progress: Progress,
    answers: seq<Answer>,
    issued: nat)

  type Tip = Option<(Height, Hash)>

  /** The verifier either goes on or panics. */
  datatype Step<+T> = Next(value: T) | Panic

  // ---------------------------------------------------------------- checkpoint list

  lemma {:induction false} MaxOf(s: set<nat>) returns (m: nat)
    requires s != {}
    ensures m in s && forall x :: x in s ==> x <= m
    decreases |s|
  {
    m :| m in s;
    var y, t := m, s - {m};
    assert forall x :: x in s ==> x == y || x in t;
    if t != {} {
      var k := MaxOf(t);
      m := if k > y then k else y;
    }
  }

  lemma MaxExists(s: set<nat>)
    requires s != {}
    ensures exists m :: m in s && forall x :: x in s ==> x <= m
  {
    var m := MaxOf(s);
  }

  /** The height of the highest checkpoint. */
  function MaxHeight(list: map<Height, Hash>): (m: Height)
    requires 0 in list
    ensures m in list && forall h :: h in list ==> h <= m
  {
    MaxExists(list.Keys);
    var m :| m in list.Keys && forall x :: x in list.Keys ==> x <= m;
    m
  }

  /** The highest checkpoint in the range `lo < height <= hi`. */
  function MaxHeightIn(list: map<Height, Hash>, lo: int, hi: int): (r: Option<Height>)
    requires -1 <= lo
    ensures r.Some? ==> lo < r.value <= hi && r.value in list
    ensures forall h :: h in list && lo < h <= hi ==> r.Some? && h <= r.value
    decreases hi - lo
  {
    if hi <= lo then None
    else if hi in list then Some(hi)
    else MaxHeightIn(list, lo, hi - 1)
  }

  // ---------------------------------------------------------------- progress

  /** The height the verifier has reached; -1 before genesis. */
  function Base(st: State): (b: int)
    requires 0 in st.list
    ensures -1 <= b
  {
    match st.progress
    case BeforeGenesis => -1
    case InitialTip(h) => h
    case PreviousCheckpoint(h) => h
    case FinalCheckpoint => MaxHeight(st.list)
  }

  /** `Progress<Height>` ordering: by height between the two ends. */
  predicate ProgressLess(a: Progress, b: Progress) {
    match (a, b)
    case (BeforeGenesis, _) => b != BeforeGenesis
    case (_, BeforeGenesis) => false
    case (FinalCheckpoint, _) => false
    case (_, FinalCheckpoint) => true
    case (_, _) => a.height < b.height
  }

  function ProgressFromTip(list: map<Height, Hash>, tip: Tip): (Option<Hash>, Progress)
    requires 0 in list
  {
    match tip
    case None => (None, BeforeGenesis)
    case Some((height, hash)) =>
      if height >= MaxHeight(list) then (None, FinalCheckpoint) else (Some(hash), InitialTip(height))
  }

  function New(list: map<Height, Hash>, tip: Tip): State
    requires 0 in list
  {
    var (hash, progress) := ProgressFromTip(list, tip);
    State(list, hash, map[], progress, [], 0)
  }

  function Reset(st: State, tip: Tip): State
    requires 0 in st.list
  {
    var (hash, progress) := ProgressFromTip(st.list, tip);
    st.(tipHash := hash, progress := progress)
  }

  /** The fields agree with the progress they describe. */
  predicate ProgressInv(st: State) {
    && 0 in st.list
    && (st.progress.InitialTip? ==> st.tipHash.Some? && st.progress.height < MaxHeight(st.list))
    && (st.progress.PreviousCheckpoint? ==>
          st.progress.height in st.list && st.progress.height < MaxHeight(st.list))
  }

  /** The hash of the block at `Base(st)`. */
  function PreviousHash(st: State): Hash
    requires ProgressInv(st)
  {
    match st.progress
    case BeforeGenesis => GENESIS_PREVIOUS_BLOCK_HASH
    case InitialTip(_) => st.tipHash.value
    case PreviousCheckpoint(h) => st.list[h]
    case FinalCheckpoint => st.list[MaxHeight(st.list)]
  }

  // ---------------------------------------------------------------- target

  /** The last height of the gap-free run of queued heights that starts above `from`. */
  function ContiguousEnd(queued: Queue, from: int): (r: int)
    requires -1 <= from
    ensures from <= r
    ensures forall k :: from < k <= r ==> k in queued
    ensures r + 1 !in queued
    decreases |set k | k in queued && from < k|
  {
    if from + 1 in queued then
      assert (set k | k in queued && from + 1 < k) == (set k | k in queued && from < k) - {from + 1};
      ContiguousEnd(queued, from + 1)
    else from
  }

  function Target(st: State): TargetHeight
    requires 0 in st.list
  {
    if st.progress == FinalCheckpoint then FinishedVerifying
    else match MaxHeightIn(st.list, Base(st), ContiguousEnd(st.queued, Base(st)))
      case Some(h) => Checkpoint(h)
      case None => WaitingForBlocks
  }

  // ---------------------------------------------------------------- queueing

  function CheckHeight(st: State, height: Height): Option<VerifyError>
    requires 0 in st.list
  {
    if height > MaxHeight(st.list) then Some(TooHigh(height, MaxHeight(st.list)))
    else match st.progress
      case BeforeGenesis => None
      case InitialTip(h) => if height <= h then Some(AlreadyVerified(height, h)) else None
      case PreviousCheckpoint(h) => if height <= h then Some(AlreadyVerified(height, h)) else None
      case FinalCheckpoint => Some(Finished)
  }

  function CheckBlock(st: State, block: Block): Result<Height, VerifyError>
    requires 0 in st.list
  {
    match block.coinbaseHeight
    case None => Err(CoinbaseHeight(block.hash))
    case Some(height) =>
      match CheckHeight(st, height)
      case Some(e) => Err(e)
      case None => if block.basicChecks then Ok(height) else Err(BasicCheckFailed(block.hash))
  }

  /** The first index of `hash` in `l`, or `|l|`. */
  function IndexOf(l: seq<QueuedBlock>, hash: Hash): (i: nat)
    ensures i <= |l|
    ensures i < |l| ==> l[i].block.hash == hash
    ensures forall j :: 0 <= j < i ==> l[j].block.hash != hash
  {
    if l == [] then 0
    else if l[0].block.hash == hash then 0
    else 1 + IndexOf(l[1..], hash)
  }

  function ListAt(queued: Queue, height: Height): seq<QueuedBlock> {
    if height in queued then queued[height] else []
  }

  /** `queue_block` after the basic checks: replace a duplicate, reject a full height, or append. */
  function Enqueue(st: State, height: Height, block: Block): Result<State, VerifyError> {
    var l := ListAt(st.queued, height);
    var i := IndexOf(l, block.hash);
    var qb := QueuedBlock(block, st.issued);
    if i < |l| then
      var refused := Answer(l[i].ticket, l[i].block, Err(NewerRequest(height, block.hash)));
      Ok(st.(queued := st.queued[height := l[i := qb]], answers := st.answers + [refused], issued := st.issued + 1))
    else if |l| >= MAX_QUEUED_BLOCKS_PER_HEIGHT then Err(QueuedLimit)
    else Ok(st.(queued := st.queued[height := l + [qb]], issued := st.issued + 1))
  }

  function QueueBlock(st: State, block: Block): Result<State, VerifyError>
    requires 0 in st.list
  {
    match CheckBlock(st, block)
    case Err(e) => Err(e)
    case Ok(height) => Enqueue(st, height, block)
  }

  // ---------------------------------------------------------------- processing

  /** The first queued block with the expected hash. */
  function Matching(l: seq<QueuedBlock>, expected: Hash): Option<QueuedBlock> {
    var i := IndexOf(l, expected);
    if i < |l| then Some(l[i]) else None
  }

  /** The refusals sent to all blocks without the expected hash, in queue order. */
  function Refusals(l: seq<QueuedBlock>, expected: Hash): seq<Answer> {
    if l == [] then []
    else
      var last := l[|l| - 1];
      Refusals(l[..|l| - 1], expected) +
      if last.block.hash == expected then []
      else [Answer(last.ticket, last.block, Err(UnexpectedSideChain(last.block.hash, expected)))]
  }

  datatype Outcome =
    | Reached(parent: Hash)
    | Broken(at: Height)
    | BadCheckpoint(at: Height)

  /** The remaining queue, the matching blocks in height order, the refusals, and how the walk ended. */
  datatype Walked = Walked(queued: Queue, kept: seq<QueuedBlock>, refused: seq<Answer>, outcome: Outcome)

  /** Walk down the heights `h, h - 1, .., lo + 1`, following parent hashes from `expected`. */
  function Walk(list: map<Height, Hash>, queued: Queue, lo: int, h: int, expected: Hash): Walked
    requires -1 <= lo <= h
    requires forall k :: lo < k <= h ==> k in queued
    decreases h - lo
  {
    if h == lo then Walked(queued, [], [], Reached(expected))
    else if h in list && list[h] != expected then Walked(queued, [], [], BadCheckpoint(h))
    else
      match Matching(queued[h], expected)
      case None => Walked(queued - {h}, [], Refusals(queued[h], expected), Broken(h))
      case Some(qb) =>
        var w := Walk(list, queued - {h}, lo, h - 1, qb.block.parent);
        Walked(w.queued, w.kept + [qb], Refusals(queued[h], expected) + w.refused, w.outcome)
  }

  /** One step of the walk, at height `h`. */
  lemma WalkStep(list: map<Height, Hash>, queued: Queue, lo: int, h: int, expected: Hash, w: Walked)
    requires -1 <= lo < h
    requires forall k :: lo < k <= h ==> k in queued
    requires w == Walk(list, queued, lo, h, expected)
    ensures if h in list && list[h] != expected then w == Walked(queued, [], [], BadCheckpoint(h))
            else
              match Matching(queued[h], expected)
              case None => w == Walked(queued - {h}, [], Refusals(queued[h], expected), Broken(h))
              case Some(qb) =>
                var w' := Walk(list, queued - {h}, lo, h - 1, qb.block.parent);
                w == Walked(w'.queued, w'.kept + [qb], Refusals(queued[h], expected) + w'.refused, w'.outcome)
  {
    hide Matching, Refusals;
  }

  /** The walk ends at its lower bound. */
  lemma WalkEnd(list: map<Height, Hash>, queued: Queue, lo: int, expected: Hash)
    requires -1 <= lo
    ensures Walk(list, queued, lo, lo, expected) == Walked(queued, [], [], Reached(expected))
  {
  }

  lemma MatchingIs(l: seq<QueuedBlock>, expected: Hash)
    ensures Matching(l, expected).Some? ==>
              Matching(l, expected).value in l && Matching(l, expected).value.block.hash == expected
    ensures Matching(l, expected).None? ==> forall qb :: qb in l ==> qb.block.hash != expected
  {
  }

  function PutBack(queued: Queue, qb: QueuedBlock): Queue
    requires qb.block.coinbaseHeight.Some?
  {
    var h := qb.block.coinbaseHeight.value;
    queued[h := ListAt(queued, h) + [qb]]
  }

  /** Put matching blocks back after a broken walk, in height order. */
  function Restore(queued: Queue, kept: seq<QueuedBlock>): Queue
    requires forall qb :: qb in kept ==> qb.block.coinbaseHeight.Some?
  {
    if kept == [] then queued
    else PutBack(Restore(queued, kept[..|kept| - 1]), kept[|kept| - 1])
  }

  /** The acceptances sent to the kept blocks, in height order. */
  function Accepts(kept: seq<QueuedBlock>): (r: seq<Answer>)
    ensures |r| == |kept|
  {
    seq(|kept|, i requires 0 <= i < |kept| => Answer(kept[i].ticket, kept[i].block, Ok(kept[i].block.hash)))
  }

  function UpdateProgress(st: State, verified: Height): State
    requires 0 in st.list
  {
    if CheckHeight(st, verified).Some? then st
    else if verified == MaxHeight(st.list) then st.(progress := FinalCheckpoint)
    else if verified in st.list then st.(progress := PreviousCheckpoint(verified), tipHash := None)
    else st
  }

  /** Every list holds one to four blocks of its own height, with distinct hashes. */
  predicate ListInv(height: Height, l: seq<QueuedBlock>) {
    && 0 < |l| <= MAX_QUEUED_BLOCKS_PER_HEIGHT
    && (forall i :: 0 <= i < |l| ==> l[i].block.coinbaseHeight == Some(height))
    && (forall i, j :: 0 <= i < j < |l| ==> l[i].block.hash != l[j].block.hash)
  }

  predicate QueueInv(list: map<Height, Hash>, queued: Queue)
    requires 0 in list
  {
    forall h :: h in queued ==> h <= MaxHeight(list) && ListInv(h, queued[h])
  }

  predicate Valid(st: State) {
    ProgressInv(st) && QueueInv(st.list, st.queued)
  }

  lemma {:induction false} KeptHaveHeights(
    list: map<Height, Hash>, queued: Queue, lo: int, h: int, expected: Hash, w: Walked)
    requires -1 <= lo <= h && 0 in list && QueueInv(list, queued)
    requires forall k :: lo < k <= h ==> k in queued
    requires w == Walk(list, queued, lo, h, expected)
    ensures |w.kept| <= h - lo
    ensures forall i :: 0 <= i < |w.kept| ==> w.kept[i].block.coinbaseHeight == Some(h - |w.kept| + 1 + i)
    decreases h - lo
  {
    hide Refusals, Matching, Walk;
    if lo == h {
      WalkEnd(list, queued, lo, expected);
    } else {
      WalkStep(list, queued, lo, h, expected, w);
      MatchingIs(queued[h], expected);
      match Matching(queued[h], expected)
      case None =>
      case Some(qb) =>
        KeptHaveHeights(list, queued - {h}, lo, h - 1, qb.block.parent,
                        Walk(list, queued - {h}, lo, h - 1, qb.block.parent));
    }
  }

  function WalkFromTarget(st: State, t: Height): (w: Walked)
    requires Valid(st) && Target(st) == Checkpoint(t)
    ensures forall qb :: qb in w.kept ==> qb.block.coinbaseHeight.Some?
  {
    var w := Walk(st.list, st.queued, Base(st), t, st.list[t]);
    KeptHaveHeights(st.list, st.queued, Base(st), t, st.list[t], w);
    w
  }

  /** `process_checkpoint_range`. */
  function Process(st: State): Step<State>
    requires Valid(st)
  {
    match Target(st)
    case WaitingForBlocks => Next(st)
    case FinishedVerifying => Next(st)
    case Checkpoint(t) =>
      var w := WalkFromTarget(st, t);
      match w.outcome
      case BadCheckpoint(_) => Panic
      case Broken(_) => Next(st.(queued := Restore(w.queued, w.kept), answers := st.answers + w.refused))
      case Reached(parent) =>
        if parent != PreviousHash(st) then Panic
        else
          var answered := st.(queued := w.queued, answers := st.answers + w.refused + Accepts(w.kept));
          Next(UpdateProgress(answered, t))
  }

  // ---------------------------------------------------------------- calls and runs

  /** One `call`: the reset message waiting in the channel, if any, and the block. */
  datatype Event = Event(reset: Option<Tip>, block: Block)

  datatype Reply = Rejected(error: VerifyError) | Accepted(ticket: nat)

  function AfterReset(st: State, reset: Option<Tip>): State
    requires 0 in st.list
  {
    if reset.Some? then Reset(st, reset.value) else st
  }

  lemma EnqueueValid(st: State, block: Block)
    requires Valid(st) && QueueBlock(st, block).Ok?
    ensures Valid(QueueBlock(st, block).value)
  {
    var height := block.coinbaseHeight.value;
    var l := ListAt(st.queued, height);
    var i := IndexOf(l, block.hash);
    var qb := QueuedBlock(block, st.issued);
    var l' := if i < |l| then l[i := qb] else l + [qb];
    assert height in st.queued ==> ListInv(height, l);
    assert ListInv(height, l');
  }

  /** `call` up to the point where the commit task is spawned. */
  function Call(st: State, e: Event): Step<(State, Reply)>
    requires Valid(st)
  {
    var st1 := AfterReset(st, e.reset);
    if st1.progress == FinalCheckpoint then Next((st1, Rejected(Finished)))
    else
      match QueueBlock(st1, e.block)
      case Err(error) => Next((st1, Rejected(error)))
      case Ok(st2) =>
        EnqueueValid(st1, e.block);
        match Process(st2)
        case Panic => Panic
        case Next(st3) => Next((st3, Accepted(st1.issued)))
  }
}
