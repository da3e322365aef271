/**
 What the answers say and whom they reach: in every run each answer goes to the call that sent its block, an `Ok`
 carries the hash of that block, and an error names what was wrong with it. Dropping the verifier answers every
 queued block with an error, and nobody else.
 */
module CheckpointAnswers {
  import opened Prelude
  import opened CheckpointModel
  import opened CheckpointInvariants
  import opened CheckpointSafety
  import Tickets = CheckpointTickets

  // ---------------------------------------------------------------- answers of one step

  /** The answer goes to a block that is queued at its own height. */
  predicate ToQueued(queued: Queue, a: Answer) {
    && a.block.coinbaseHeight.Some? && a.block.coinbaseHeight.value in queued
    && QueuedBlock(a.block, a.ticket) in queued[a.block.coinbaseHeight.value]
  }

  /** A queued block one height above has `hash` as its parent. */
  predicate ParentOfNext(queued: Queue, height: Height, hash: Hash) {
    height + 1 in queued && exists qb :: qb in queued[height + 1] && qb.block.parent == hash
  }

  /**
   A refusal names the block's own hash and the other hash that was expected: that of the walk at its top, and the
   parent hash of a queued block one height above everywhere else.
   */
  predicate Refusal(queued: Queue, top: int, expected: Hash, a: Answer) {
    && ToQueued(queued, a)
    && a.result.Err? && a.result.error.UnexpectedSideChain?
    && a.result.error.found == a.block.hash != a.result.error.expected
    && var k := a.block.coinbaseHeight.value;
    if k == top then a.result.error.expected == expected else ParentOfNext(queued, k, a.result.error.expected)
  }

  lemma {:induction false} RefusalsAre(l: seq<QueuedBlock>, expected: Hash, a: Answer)
    requires a in Refusals(l, expected)
    ensures QueuedBlock(a.block, a.ticket) in l
    ensures a.block.hash != expected && a.result == Err(UnexpectedSideChain(a.block.hash, expected))
  {
    var n := |l| - 1;
    if a in Refusals(l[..n], expected) {
      RefusalsAre(l[..n], expected, a);
    } else {
      assert l[n] in l;
    }
  }

  lemma {:induction false} WalkRefuses(
    list: map<Height, Hash>, queued: Queue, lo: int, h: int, expected: Hash, w: Walked, a: Answer)
    requires -1 <= lo <= h && 0 in list && QueueInv(list, queued)
    requires forall k :: lo < k <= h ==> k in queued
    requires w == Walk(list, queued, lo, h, expected) && a in w.refused
    ensures Refusal(queued, h, expected, a) && a.block.coinbaseHeight.value <= h
    decreases h - lo
  {
    hide Matching, Refusals, Walk;
    if h == lo { WalkEnd(list, queued, lo, expected); }
    WalkStep(list, queued, lo, h, expected, w);
    MatchingIs(queued[h], expected);
    if a in Refusals(queued[h], expected) {
      RefusalsAre(queued[h], expected, a);
    } else {
      var qb := Matching(queued[h], expected).value;
      WalkRefuses(list, queued - {h}, lo, h - 1, qb.block.parent,
                  Walk(list, queued - {h}, lo, h - 1, qb.block.parent), a);
    }
  }

  /** What processing may answer: `Ok` with the block's own hash, or a refusal below some checkpoint. */
  ghost predicate Processed(list: map<Height, Hash>, queued: Queue, a: Answer) {
    && ToQueued(queued, a)
    && (a.result == Ok(a.block.hash) || exists t: Height :: t in list && Refusal(queued, t, list[t], a))
  }

  lemma AcceptsAre(kept: seq<QueuedBlock>, a: Answer)
    requires a in Accepts(kept)
    ensures QueuedBlock(a.block, a.ticket) in kept && a.result == Ok(a.block.hash)
  {
  }

  /** Processing adds answers to queued blocks, and queues nothing that was not queued. */
  lemma ProcessAnswers(st: State, st': State)
    requires Valid(st) && Process(st) == Next(st')
    ensures st.answers <= st'.answers
    ensures forall a :: a in st'.answers ==> a in st.answers || Processed(st.list, st.queued, a)
    ensures forall h, qb :: h in st'.queued && qb in st'.queued[h] ==> h in st.queued && qb in st.queued[h]
  {
    hide Walk, Restore, Target, Accepts, Processed;
    if !Waits(st) {
      TargetRange(st);
      var t := Target(st).height;
      var w := WalkFromTarget(st, t);
      WalkKeeps(st.list, st.queued, Base(st), t, st.list[t], w);
      forall a | a in w.refused ensures Processed(st.list, st.queued, a) {
        WalkRefuses(st.list, st.queued, Base(st), t, st.list[t], w, a);
        IsProcessed(st.list, st.queued, t, a);
      }
      if w.outcome.Broken? {
        FailedProcess(st, w);
        RestoredQueue(st, w, st'.queued);
      } else {
        SuccessfulProcess(st, st');
        KeptAnswers(st, t, w);
      }
    }
  }

  lemma IsProcessed(list: map<Height, Hash>, queued: Queue, t: Height, a: Answer)
    requires t in list && Refusal(queued, t, list[t], a)
    ensures Processed(list, queued, a)
  {
  }

  lemma KeptAnswers(st: State, t: Height, w: Walked)
    requires Valid(st) && Target(st) == Checkpoint(t) && w == WalkFromTarget(st, t)
    ensures forall a :: a in Accepts(w.kept) ==> Processed(st.list, st.queued, a)
  {
    hide Walk, Accepts, Target;
    TargetRange(st);
    WalkKeeps(st.list, st.queued, Base(st), t, st.list[t], w);
    KeptHaveHeights(st.list, st.queued, Base(st), t, st.list[t], w);
    forall a | a in Accepts(w.kept) ensures Processed(st.list, st.queued, a) {
      AcceptsAre(w.kept, a);
    }
  }

  lemma RestoredQueue(st: State, w: Walked, q: Queue)
    requires Valid(st) && Fails(st) && w == WalkFromTarget(st, Target(st).height)
    requires RestoredFrom(st.queued, q, w.kept, w.outcome.at) && Target(st).height == w.outcome.at + |w.kept|
    ensures forall h, qb :: h in q && qb in q[h] ==> h in st.queued && qb in st.queued[h]
  {
    hide Walk, Target;
    TargetRange(st);
    var t := Target(st).height;
    WalkKeeps(st.list, st.queued, Base(st), t, st.list[t], w);
    forall h: Height, qb: QueuedBlock | h in q && qb in q[h] ensures h in st.queued && qb in st.queued[h] {
      if w.outcome.at < h <= t {
        var i := h - w.outcome.at - 1;
        assert q[w.outcome.at + 1 + i] == [w.kept[i]];
        assert w.kept[i] in st.queued[t - |w.kept| + 1 + i];
      }
    }
  }

  /** A replaced request: its own height and hash are named. */
  predicate Replaced(queued: Queue, a: Answer) {
    && ToQueued(queued, a)
    && a.result == Err(NewerRequest(a.block.coinbaseHeight.value, a.block.hash))
  }

  /** Every block with another hash keeps its place in the list. */
  predicate OthersStay(l: seq<QueuedBlock>, l': seq<QueuedBlock>, hash: Hash) {
    |l| <= |l'| && forall i :: 0 <= i < |l| && l[i].block.hash != hash ==> l'[i] == l[i]
  }

  /** Queueing a block adds at most one answer, to an older request for the same block; only this block is new. */
  lemma EnqueueAnswers(st: State, block: Block)
    requires Valid(st) && QueueBlock(st, block).Ok?
    ensures var st' := QueueBlock(st, block).value;
            && st.answers <= st'.answers && st'.issued == st.issued + 1
            && (forall a :: a in st'.answers ==>
                  a in st.answers || (Replaced(st.queued, a) && a.block.hash == block.hash))
            && (forall h, qb :: h in st'.queued && qb in st'.queued[h] ==>
                  qb == QueuedBlock(block, st.issued) || (h in st.queued && qb in st.queued[h]))
            && block.coinbaseHeight.Some? && block.coinbaseHeight.value in st'.queued
            && QueuedBlock(block, st.issued) in st'.queued[block.coinbaseHeight.value]
            && (forall h :: h in st.queued ==> h in st'.queued && OthersStay(st.queued[h], st'.queued[h], block.hash))
  {
    var st' := QueueBlock(st, block).value;
    var height := block.coinbaseHeight.value;
    var l := ListAt(st.queued, height);
    var i := IndexOf(l, block.hash);
    var qb := QueuedBlock(block, st.issued);
    if i < |l| {
      assert ListInv(height, l) && l[i] in l;
      assert l[i] == QueuedBlock(l[i].block, l[i].ticket);
      assert l[i := qb][i] == qb;
    } else {
      assert (l + [qb])[|l|] == qb;
    }
  }

  // ---------------------------------------------------------------- answers of a run

  /** Call number `j` of the run was accepted with this ticket and sent this block. */
  ghost predicate SentAt(st: State, es: seq<Event>, j: nat, ticket: nat, block: Block) {
    && Valid(st) && j < |es| && es[j].block == block
    && Run(st, es[..j]).Next? && Call(Run(st, es[..j]).value, es[j]).Next?
    && Call(Run(st, es[..j]).value, es[j]).value.1 == Accepted(ticket)
  }

  ghost predicate Sent(st: State, es: seq<Event>, ticket: nat, block: Block) {
    exists j: nat :: SentAt(st, es, j, ticket, block)
  }

  lemma SentMore(st: State, es: seq<Event>, e: Event, ticket: nat, block: Block)
    requires Sent(st, es, ticket, block)
    ensures Sent(st, es + [e], ticket, block)
  {
    hide Run, Call;
    var j: nat :| SentAt(st, es, j, ticket, block);
    assert (es + [e])[..j] == es[..j] && (es + [e])[j] == es[j];
    assert SentAt(st, es + [e], j, ticket, block);
  }

  /** A block at the next height with this parent hash was sent. */
  ghost predicate SentNext(es: seq<Event>, height: Height, hash: Hash) {
    exists j :: 0 <= j < |es| && es[j].block.coinbaseHeight == Some(height + 1) && es[j].block.parent == hash
  }

  /**
   An answer says what happened to its block: `Ok` carries the block's own hash; a newer request has the same height
   and hash; a side chain block has another hash than the listed one, or than the parent hash of a block sent for the
   next height.
   */
  ghost predicate Truthful(list: map<Height, Hash>, es: seq<Event>, a: Answer) {
    a.block.coinbaseHeight.Some? &&
    var height := a.block.coinbaseHeight.value;
    match a.result
    case Ok(hash) => hash == a.block.hash
    case Err(NewerRequest(h, hash)) => h == height && hash == a.block.hash
    case Err(UnexpectedSideChain(found, expected)) =>
      && found == a.block.hash != expected
      && ((height in list && list[height] == expected) || SentNext(es, height, expected))
    case Err(_) => false
  }

  /** Every answer and every queued block belongs to an accepted call. */
  ghost predicate Attributed(st0: State, es: seq<Event>, st: State) {
    && (forall a :: a in st.answers ==> Sent(st0, es, a.ticket, a.block) && Truthful(st.list, es, a))
    && (forall h, qb :: h in st.queued && qb in st.queued[h] ==> Sent(st0, es, qb.ticket, qb.block))
  }

  lemma AttributedMore(st0: State, es: seq<Event>, e: Event, st: State)
    requires Attributed(st0, es, st)
    ensures Attributed(st0, es + [e], st)
  {
    hide Sent;
    forall a | a in st.answers
      ensures Sent(st0, es + [e], a.ticket, a.block) && Truthful(st.list, es + [e], a)
    {
      SentMore(st0, es, e, a.ticket, a.block);
      TruthfulMore(st.list, es, e, a);
    }
    forall h, qb | h in st.queued && qb in st.queued[h] ensures Sent(st0, es + [e], qb.ticket, qb.block) {
      SentMore(st0, es, e, qb.ticket, qb.block);
    }
  }

  lemma TruthfulMore(list: map<Height, Hash>, es: seq<Event>, e: Event, a: Answer)
    requires Truthful(list, es, a)
    ensures Truthful(list, es + [e], a)
  {
    if a.result.Err? && a.result.error.UnexpectedSideChain? {
      var height, expected := a.block.coinbaseHeight.value, a.result.error.expected;
      if SentNext(es, height, expected) {
        var j :| 0 <= j < |es| && es[j].block.coinbaseHeight == Some(height + 1) && es[j].block.parent == expected;
        assert (es + [e])[j] == es[j];
      }
    }
  }

  /** Queueing the block of an accepted call keeps everything attributed. */
  lemma EnqueueAttributed(st0: State, es: seq<Event>, st: State, block: Block)
    requires Valid(st) && QueueBlock(st, block).Ok? && Attributed(st0, es, st) && Sent(st0, es, st.issued, block)
    ensures Attributed(st0, es, QueueBlock(st, block).value)
  {
    hide Sent, QueueBlock;
    QueueKeepsList(st, block);
    EnqueueAnswers(st, block);
    var st' := QueueBlock(st, block).value;
    forall a | a in st'.answers ensures Sent(st0, es, a.ticket, a.block) && Truthful(st.list, es, a) {
      assert a !in st.answers ==> Replaced(st.queued, a) && ToQueued(st.queued, a);
      var qb := QueuedBlock(a.block, a.ticket);
      assert a !in st.answers ==> Sent(st0, es, qb.ticket, qb.block);
    }
  }

  lemma QueueKeepsList(st: State, block: Block)
    requires 0 in st.list && QueueBlock(st, block).Ok?
    ensures QueueBlock(st, block).value.list == st.list
  {
  }

  lemma ProcessAttributed(st0: State, es: seq<Event>, st: State, st': State)
    requires Valid(st) && Process(st) == Next(st') && Attributed(st0, es, st)
    ensures Attributed(st0, es, st')
  {
    hide Sent, Process, Truthful, Processed;
    ProcessValid(st, st');
    ProcessAnswers(st, st');
    forall a | a in st'.answers ensures Sent(st0, es, a.ticket, a.block) && Truthful(st'.list, es, a) {
      if a !in st.answers { ProcessedTruthful(st0, es, st, a); }
    }
  }

  lemma ProcessedTruthful(st0: State, es: seq<Event>, st: State, a: Answer)
    requires Valid(st) && Attributed(st0, es, st) && Processed(st.list, st.queued, a)
    ensures Sent(st0, es, a.ticket, a.block) && Truthful(st.list, es, a)
  {
    hide Sent;
    var height := a.block.coinbaseHeight.value;
    assert Sent(st0, es, QueuedBlock(a.block, a.ticket).ticket, QueuedBlock(a.block, a.ticket).block);
    if a.result.Err? {
      var t: Height :| t in st.list && Refusal(st.queued, t, st.list[t], a);
      if height != t {
        var qb :| qb in st.queued[height + 1] && qb.block.parent == a.result.error.expected;
        assert ListInv(height + 1, st.queued[height + 1]);
        SentBlock(st0, es, qb, height + 1);
      }
    }
  }

  lemma SentBlock(st0: State, es: seq<Event>, qb: QueuedBlock, height: Height)
    requires Sent(st0, es, qb.ticket, qb.block) && qb.block.coinbaseHeight == Some(height) && height > 0
    ensures SentNext(es, height - 1, qb.block.parent)
  {
    hide Run, Call;
    var j: nat :| SentAt(st0, es, j, qb.ticket, qb.block);
    assert es[j].block.parent == qb.block.parent;
  }

  lemma CallAttributed(st0: State, es: seq<Event>, e: Event)
    requires Valid(st0) && Run(st0, es).Next? && Attributed(st0, es, Run(st0, es).value)
    requires Call(Run(st0, es).value, e).Next?
    ensures Attributed(st0, es + [e], Call(Run(st0, es).value, e).value.0)
  {
    hide Run, Process, Enqueue, CheckBlock, Sent, Truthful;
    var st := Run(st0, es).value;
    AttributedMore(st0, es, e, st);
    var st1 := AfterReset(st, e.reset);
    if st1.progress != FinalCheckpoint && QueueBlock(st1, e.block).Ok? {
      EnqueueValid(st1, e.block);
      NowSent(st0, es, e, st1.issued);
      EnqueueAttributed(st0, es + [e], st1, e.block);
      ProcessAttributed(st0, es + [e], QueueBlock(st1, e.block).value, Call(st, e).value.0);
    }
  }

  lemma NowSent(st0: State, es: seq<Event>, e: Event, ticket: nat)
    requires Valid(st0) && Run(st0, es).Next? && Call(Run(st0, es).value, e).Next?
    requires Call(Run(st0, es).value, e).value.1 == Accepted(ticket)
    ensures Sent(st0, es + [e], ticket, e.block)
  {
    hide Run, Call;
    assert (es + [e])[..|es|] == es && (es + [e])[|es|] == e;
    assert SentAt(st0, es + [e], |es|, ticket, e.block);
  }

  lemma {:induction false} RunAttributed(st0: State, es: seq<Event>)
    requires Valid(st0) && st0.answers == [] && st0.queued == map[] && Run(st0, es).Next?
    ensures Attributed(st0, es, Run(st0, es).value)
  {
    hide Sent, Truthful, Call;
    if es != [] {
      var n := |es| - 1;
      RunAttributed(st0, es[..n]);
      CallAttributed(st0, es[..n], es[n]);
      assert es[..n] + [es[n]] == es;
    }
  }

  // ---------------------------------------------------------------- one ticket per call

  lemma CallIssues(st: State, e: Event)
    requires Valid(st) && Call(st, e).Next?
    ensures var (st', reply) := Call(st, e).value;
            if reply.Accepted? then reply.ticket == st.issued && st'.issued == st.issued + 1
            else st'.issued == st.issued
  {
    hide Process;
    var st1 := AfterReset(st, e.reset);
    if st1.progress != FinalCheckpoint && QueueBlock(st1, e.block).Ok? {
      EnqueueValid(st1, e.block);
      ProcessValid(QueueBlock(st1, e.block).value, Call(st, e).value.0);
    }
  }

  /** A later call gets a later ticket. */
  lemma {:induction false} TicketsIncrease(st: State, es: seq<Event>, i: nat, j: nat)
    requires Valid(st) && i < j <= |es| && Run(st, es[..j]).Next? && Run(st, es[..i]).Next?
    requires Call(Run(st, es[..i]).value, es[i]).Next? && Call(Run(st, es[..i]).value, es[i]).value.1.Accepted?
    ensures Call(Run(st, es[..i]).value, es[i]).value.1.ticket < Run(st, es[..j]).value.issued
    decreases j
  {
    hide Call;
    var before := es[..j - 1];
    assert es[..j][..j - 1] == before;
    assert Run(st, before).Next?;
    CallIssues(Run(st, before).value, es[j - 1]);
    if i < j - 1 { TicketsIncrease(st, es, i, j - 1); }
  }

  lemma OneCallPerTicket(st: State, es: seq<Event>, i: nat, j: nat, ticket: nat, b: Block, c: Block)
    requires SentAt(st, es, i, ticket, b) && SentAt(st, es, j, ticket, c)
    ensures i == j && b == c
  {
    hide Run, Call;
    CallIssues(Run(st, es[..i]).value, es[i]);
    CallIssues(Run(st, es[..j]).value, es[j]);
    if i < j { TicketsIncrease(st, es, i, j); }
    if j < i { TicketsIncrease(st, es, j, i); }
  }

  // ---------------------------------------------------------------- drop

  lemma {:induction false} DropListIs(l: seq<QueuedBlock>)
    ensures |Tickets.DropList(l)| == |l|
    ensures forall i :: 0 <= i < |l| ==> Tickets.DropList(l)[i] == Answer(l[i].ticket, l[i].block, Err(Dropped))
  {
    if l != [] { DropListIs(l[..|l| - 1]); }
  }

  /** The answers of a drop below height `n`: only errors, only to queued blocks, in height order. */
  ghost predicate DropsBelow(queued: Queue, n: nat, answers: seq<Answer>) {
    && (forall a :: a in answers ==>
          a.result == Err(Dropped) && ToQueued(queued, a) && a.block.coinbaseHeight.value < n)
    && (forall i, j :: 0 <= i < j < |answers| && answers[i].block.coinbaseHeight.Some?
                       && answers[j].block.coinbaseHeight.Some? ==>
          answers[i].block.coinbaseHeight.value <= answers[j].block.coinbaseHeight.value)
    && (forall h, qb :: h in queued && h < n && qb in queued[h] ==>
          Answer(qb.ticket, qb.block, Err(Dropped)) in answers)
  }

  lemma {:induction false} DropAnswersAre(list: map<Height, Hash>, queued: Queue, n: nat)
    requires 0 in list && QueueInv(list, queued)
    ensures DropsBelow(queued, n, Tickets.DropAnswers(queued, n))
  {
    hide Tickets.DropAnswers, Tickets.DropList, DropsBelow, QueueInv, ListAt;
    if n == 0 {
      DropsNothing(queued);
    } else {
      DropAnswersAre(list, queued, n - 1);
      DropListIs(ListAt(queued, n - 1));
      DropsNext(list, queued, n - 1, Tickets.DropAnswers(queued, n - 1), Tickets.DropList(ListAt(queued, n - 1)));
      DropAnswersNext(queued, n);
    }
  }

  lemma DropsNothing(queued: Queue)
    ensures DropsBelow(queued, 0, Tickets.DropAnswers(queued, 0))
  {
  }

  lemma DropAnswersNext(queued: Queue, n: nat)
    requires n > 0
    ensures Tickets.DropAnswers(queued, n)
         == Tickets.DropAnswers(queued, n - 1) + Tickets.DropList(ListAt(queued, n - 1))
  {
  }

  lemma DropsNext(list: map<Height, Hash>, queued: Queue, h: Height, below: seq<Answer>, at: seq<Answer>)
    requires 0 in list && QueueInv(list, queued) && DropsBelow(queued, h, below)
    requires |at| == |ListAt(queued, h)|
    requires forall i :: 0 <= i < |at| ==>
               at[i] == Answer(ListAt(queued, h)[i].ticket, ListAt(queued, h)[i].block, Err(Dropped))
    ensures DropsBelow(queued, h + 1, below + at)
  {
    var l := ListAt(queued, h);
    assert h in queued ==> ListInv(h, l);
    forall i | 0 <= i < |at|
      ensures at[i].block.coinbaseHeight == Some(h) && ToQueued(queued, at[i]) && at[i].result == Err(Dropped)
    {
      assert l[i] == QueuedBlock(at[i].block, at[i].ticket) && l[i] in l;
    }
    forall a | a in below + at
      ensures a.result == Err(Dropped) && ToQueued(queued, a) && a.block.coinbaseHeight.value < h + 1
    {
      assert a in below || a in at;
    }
    forall k, qb | k in queued && k < h + 1 && qb in queued[k]
      ensures Answer(qb.ticket, qb.block, Err(Dropped)) in below + at
    {
      if k == h {
        var i :| 0 <= i < |l| && l[i] == qb;
        assert at[i] in below + at;
      }
    }
  }

  /**
   Dropping the verifier: all earlier answers stay, every queued block is answered that the verifier was dropped, in
   height order, nobody else is answered, and no block is told that it was verified.
   */
  lemma DropOnlyRefuses(st: State)
    requires Valid(st)
    ensures var st' := Tickets.Drop(st);
            && st.answers <= st'.answers && st'.queued == map[]
            && DropsBelow(st.queued, MaxHeight(st.list) + 1, st'.answers[|st.answers|..])
            && OkBlocks(st'.answers) == OkBlocks(st.answers)
  {
    hide Tickets.DropAnswers;
    var n := MaxHeight(st.list) + 1;
    var dropped := Tickets.DropAnswers(st.queued, n);
    DropAnswersAre(st.list, st.queued, n);
    assert (st.answers + dropped)[|st.answers|..] == dropped;
    OkBlocksAppend(st.answers, dropped);
    NoOk(dropped);
    assert OkBlocks(st.answers) + [] == OkBlocks(st.answers);
  }

  // ---------------------------------------------------------------- main results

  /**
   In every run from a fresh verifier, with any resets, and also when the verifier is dropped at the end, every answer
   reaches the call that sent its block and says what happened to it: a drop is announced only by the drop.
   */
  lemma AnswersReachTheirCalls(list: map<Height, Hash>, tip: Tip, es: seq<Event>, a: Answer)
    requires 0 in list && Run(New(list, tip), es).Next?
    ensures var st := Run(New(list, tip), es).value;
            && (a in Tickets.Drop(st).answers ==> Sent(New(list, tip), es, a.ticket, a.block))
            && (a in st.answers ==> Truthful(list, es, a))
            && (a in Tickets.Drop(st).answers && a !in st.answers ==> a.result == Err(Dropped))
  {
    hide Run, Sent, Truthful, Tickets.Drop, OkBlocks;
    var st0 := New(list, tip);
    RunAttributed(st0, es);
    var st := Run(st0, es).value;
    DropOnlyRefuses(st);
    var all, new' := Tickets.Drop(st).answers, Tickets.Drop(st).answers[|st.answers|..];
    assert all == st.answers + new';
    if a in all && a !in st.answers {
      assert a in new';
      assert ToQueued(st.queued, a);
      var qb := QueuedBlock(a.block, a.ticket);
      assert Sent(st0, es, qb.ticket, qb.block);
    }
  }

  /** An answer with the ticket of an accepted call is about the block of that call. */
  lemma AnswerIsForItsCall(list: map<Height, Hash>, tip: Tip, es: seq<Event>, j: nat, a: Answer)
    requires 0 in list && Run(New(list, tip), es).Next?
    requires j < |es| && SentAt(New(list, tip), es, j, a.ticket, es[j].block)
    requires a in Tickets.Drop(Run(New(list, tip), es).value).answers
    ensures a.block == es[j].block
  {
    hide Run, SentAt;
    AnswersReachTheirCalls(list, tip, es, a);
    var i: nat :| SentAt(New(list, tip), es, i, a.ticket, a.block);
    OneCallPerTicket(New(list, tip), es, i, j, a.ticket, a.block, es[j].block);
  }

  /** A run without resets that ends with a drop: the `Ok` answers still form one chain. */
  lemma ChainSurvivesDrop(st: State, es: seq<Event>)
    requires Valid(st) && Run(st, es).Next? && forall e :: e in es ==> e.reset.None?
    ensures var was, now := OkBlocks(st.answers), OkBlocks(Tickets.Drop(Run(st, es).value).answers);
            was <= now && Linked(st.list, Base(st), PreviousHash(st), now[|was|..])
  {
    hide Run, Tickets.Drop, OkBlocks, Linked;
    OkAnswersFormOneChain(st, es);
    DropOnlyRefuses(Run(st, es).value);
  }
}
