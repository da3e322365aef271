/**
 Tickets are linear: in every run, including resets, each accepted block is either still queued or has
 been answered, and never twice. The queue and the answers together always hold each issued ticket once.
 */
module CheckpointTickets {
  import opened Prelude
  import opened CheckpointModel
  import opened CheckpointInvariants

  // ---------------------------------------------------------------- counting tickets

  /** Which tickets to count. */
  type Filter = nat -> bool

  function Bit(b: bool): nat { if b then 1 else 0 }

  function Is(ticket: nat): Filter { t => t == ticket }

  function All(): Filter { t => true }

  function Tickets(l: seq<QueuedBlock>, p: Filter): nat {
    if l == [] then 0 else Tickets(l[..|l| - 1], p) + Bit(p(l[|l| - 1].ticket))
  }

  function Answered(a: seq<Answer>, p: Filter): nat {
    if a == [] then 0 else Answered(a[..|a| - 1], p) + Bit(p(a[|a| - 1].ticket))
  }

  /** The tickets queued at heights below `n`. */
  function QueueTickets(queued: Queue, n: nat, p: Filter): nat {
    if n == 0 then 0 else QueueTickets(queued, n - 1, p) + Tickets(ListAt(queued, n - 1), p)
  }

  function Queued(st: State, p: Filter): nat
    requires 0 in st.list
  {
    QueueTickets(st.queued, MaxHeight(st.list) + 1, p)
  }

  /** Each issued ticket is answered once or queued once; no other ticket exists. */
  ghost predicate Conserved(st: State)
    requires 0 in st.list
  {
    forall t: nat :: Answered(st.answers, Is(t)) + Queued(st, Is(t)) == Bit(t < st.issued)
  }

  lemma {:induction false} AnsweredAppend(a: seq<Answer>, b: seq<Answer>, p: Filter)
    ensures Answered(a + b, p) == Answered(a, p) + Answered(b, p)
  {
    if b == [] {
      assert a + b == a;
    } else {
      AnsweredAppend(a, b[..|b| - 1], p);
      assert (a + b)[..|a + b| - 1] == a + b[..|b| - 1];
    }
  }

  lemma {:induction false} AnsweredSize(a: seq<Answer>)
    ensures Answered(a, All()) == |a|
  {
    if a != [] { AnsweredSize(a[..|a| - 1]); }
  }

  lemma TicketsSnoc(l: seq<QueuedBlock>, qb: QueuedBlock, p: Filter)
    ensures Tickets(l + [qb], p) == Tickets(l, p) + Bit(p(qb.ticket))
  {
    assert (l + [qb])[..|l|] == l;
  }

  lemma {:induction false} TicketsReplace(l: seq<QueuedBlock>, i: nat, qb: QueuedBlock, p: Filter)
    requires i < |l|
    ensures Tickets(l[i := qb], p) + Bit(p(l[i].ticket)) == Tickets(l, p) + Bit(p(qb.ticket))
  {
    var n := |l| - 1;
    if i == n {
      assert l[i := qb][..n] == l[..n];
    } else {
      TicketsReplace(l[..n], i, qb, p);
      assert l[i := qb][..n] == l[..n][i := qb];
    }
  }

  lemma {:induction false} AcceptsTickets(kept: seq<QueuedBlock>, p: Filter)
    ensures Answered(Accepts(kept), p) == Tickets(kept, p)
  {
    if kept != [] {
      AcceptsTickets(kept[..|kept| - 1], p);
      assert Accepts(kept)[..|kept| - 1] == Accepts(kept[..|kept| - 1]);
    }
  }

  /** Changing the list at one height changes the tickets by the difference of the two lists. */
  lemma {:induction false} QueueTicketsUpdate(q: Queue, q': Queue, h: Height, n: nat, p: Filter)
    requires forall k :: k != h ==> ListAt(q', k) == ListAt(q, k)
    ensures h < n ==>
              QueueTickets(q', n, p) + Tickets(ListAt(q, h), p) == QueueTickets(q, n, p) + Tickets(ListAt(q', h), p)
    ensures n <= h ==> QueueTickets(q', n, p) == QueueTickets(q, n, p)
  {
    if n > 0 { QueueTicketsUpdate(q, q', h, n - 1, p); }
  }

  // ---------------------------------------------------------------- conservation by each step

  /** Blocks at one height: at most one matches the expected hash, all others are refused. */
  lemma {:induction false} RefusalsSplit(l: seq<QueuedBlock>, expected: Hash, p: Filter)
    requires forall i, j :: 0 <= i < j < |l| ==> l[i].block.hash != l[j].block.hash
    ensures Tickets(l, p) == Answered(Refusals(l, expected), p) +
            (if Matching(l, expected).Some? then Bit(p(Matching(l, expected).value.ticket)) else 0)
  {
    if l != [] {
      var n := |l| - 1;
      var r := Refusals(l[..n], expected);
      RefusalsSplit(l[..n], expected, p);
      MatchingSnoc(l, expected);
      if l[n].block.hash != expected {
        assert Refusals(l, expected)[..|r|] == r;
      } else {
        assert forall j :: 0 <= j < n ==> l[..n][j] == l[j];
        assert Refusals(l, expected) == r;
      }
    }
  }

  lemma MatchingSnoc(l: seq<QueuedBlock>, expected: Hash)
    requires l != []
    ensures Matching(l, expected) ==
            if Matching(l[..|l| - 1], expected).Some? then Matching(l[..|l| - 1], expected)
            else if l[|l| - 1].block.hash == expected then Some(l[|l| - 1]) else None
  {
    var n := |l| - 1;
    var i, k := IndexOf(l[..n], expected), IndexOf(l, expected);
    assert forall j :: 0 <= j < n ==> l[j] == l[..n][j];
    assert k < n ==> l[..n][k].block.hash == expected;
    assert i < n ==> l[i].block.hash == expected;
  }

  lemma {:induction false} WalkConserves(
    list: map<Height, Hash>, queued: Queue, lo: int, h: int, expected: Hash, w: Walked, n: nat, p: Filter)
    requires -1 <= lo <= h < n && 0 in list && QueueInv(list, queued)
    requires forall k :: lo < k <= h ==> k in queued
    requires w == Walk(list, queued, lo, h, expected)
    ensures QueueTickets(queued, n, p) == QueueTickets(w.queued, n, p) + Tickets(w.kept, p) + Answered(w.refused, p)
    decreases h - lo
  {
    hide QueueTickets, Refusals, Matching, Walk;
    if h == lo {
      WalkEnd(list, queued, lo, expected);
    } else {
      WalkStep(list, queued, lo, h, expected, w);
      var r := Refusals(queued[h], expected);
      QueueTicketsUpdate(queued, queued - {h}, h, n, p);
      RefusalsSplit(queued[h], expected, p);
      match Matching(queued[h], expected)
      case None =>
      case Some(qb) =>
        var w' := Walk(list, queued - {h}, lo, h - 1, qb.block.parent);
        WalkConserves(list, queued - {h}, lo, h - 1, qb.block.parent, w', n, p);
        AnsweredAppend(r, w'.refused, p);
        TicketsSnoc(w'.kept, qb, p);
    }
  }

  /** A walk that breaks refuses at least one block. */
  lemma {:induction false} BrokenRefuses(
    list: map<Height, Hash>, queued: Queue, lo: int, h: int, expected: Hash, w: Walked)
    requires -1 <= lo <= h && 0 in list && QueueInv(list, queued)
    requires forall k :: lo < k <= h ==> k in queued
    requires w == Walk(list, queued, lo, h, expected) && w.outcome.Broken?
    ensures w.refused != []
    decreases h - lo
  {
    hide Matching, Refusals, Walk;
    if h == lo { WalkEnd(list, queued, lo, expected); }
    WalkStep(list, queued, lo, h, expected, w);
    MatchingIs(queued[h], expected);
    match Matching(queued[h], expected)
    case None =>
      SomeRefused(queued[h], expected);
    case Some(qb) =>
      BrokenRefuses(list, queued - {h}, lo, h - 1, qb.block.parent,
                    Walk(list, queued - {h}, lo, h - 1, qb.block.parent));
  }

  lemma SomeRefused(l: seq<QueuedBlock>, expected: Hash)
    requires l != [] && forall qb :: qb in l ==> qb.block.hash != expected
    ensures Refusals(l, expected) != []
  {
    assert l[|l| - 1] in l;
  }

  lemma {:induction false} RestoreConserves(queued: Queue, kept: seq<QueuedBlock>, n: nat, p: Filter)
    requires forall qb :: qb in kept ==> qb.block.coinbaseHeight.Some? && qb.block.coinbaseHeight.value < n
    ensures QueueTickets(Restore(queued, kept), n, p) == QueueTickets(queued, n, p) + Tickets(kept, p)
  {
    if kept != [] {
      var last := kept[|kept| - 1];
      var q := Restore(queued, kept[..|kept| - 1]);
      RestoreConserves(queued, kept[..|kept| - 1], n, p);
      var h := last.block.coinbaseHeight.value;
      QueueTicketsUpdate(q, PutBack(q, last), h, n, p);
      TicketsSnoc(ListAt(q, h), last, p);
    }
  }

  /** Processing moves tickets from the queue to the answers, one for one. */
  lemma ProcessConserves(st: State, st': State, p: Filter)
    requires Valid(st) && Process(st) == Next(st')
    ensures st'.list == st.list && st'.issued == st.issued
    ensures Answered(st'.answers, p) + Queued(st', p) == Answered(st.answers, p) + Queued(st, p)
  {
    hide Walk, Restore, QueueTickets, Tickets, Answered;
    ProcessValid(st, st');
    if !Waits(st) {
      var t := Target(st).height;
      var w := WalkFromTarget(st, t);
      var n := MaxHeight(st.list) + 1;
      WalkConserves(st.list, st.queued, Base(st), t, st.list[t], w, n, p);
      AnsweredAppend(st.answers, w.refused, p);
      if w.outcome.Broken? {
        KeptHaveHeights(st.list, st.queued, Base(st), t, st.list[t], w);
        RestoreConserves(w.queued, w.kept, n, p);
      } else {
        AnsweredAppend(st.answers + w.refused, Accepts(w.kept), p);
        AcceptsTickets(w.kept, p);
      }
    }
  }

  /** Queueing a block adds its new ticket; a replaced duplicate moves to the answers. */
  lemma EnqueueConserves(st: State, block: Block, p: Filter)
    requires Valid(st) && QueueBlock(st, block).Ok?
    ensures var st' := QueueBlock(st, block).value;
            && st'.list == st.list && st'.issued == st.issued + 1
            && Answered(st'.answers, p) + Queued(st', p) == Answered(st.answers, p) + Queued(st, p) + Bit(p(st.issued))
  {
    var st' := QueueBlock(st, block).value;
    var h := block.coinbaseHeight.value;
    var l := ListAt(st.queued, h);
    var i := IndexOf(l, block.hash);
    var qb := QueuedBlock(block, st.issued);
    QueueTicketsUpdate(st.queued, st'.queued, h, MaxHeight(st.list) + 1, p);
    if i < |l| {
      TicketsReplace(l, i, qb, p);
      assert st'.answers[..|st.answers|] == st.answers;
    } else {
      TicketsSnoc(l, qb, p);
    }
  }

  lemma CallConserves(st: State, e: Event)
    requires Valid(st) && Conserved(st) && Call(st, e).Next?
    ensures Call(st, e).value.0.list == st.list && Conserved(Call(st, e).value.0)
  {
    hide Process, Enqueue, CheckBlock;
    CallValid(st, e);
    var st1 := AfterReset(st, e.reset);
    var st' := Call(st, e).value.0;
    forall t: nat ensures Answered(st'.answers, Is(t)) + Queued(st', Is(t)) == Bit(t < st'.issued) {
      assert Answered(st.answers, Is(t)) + Queued(st, Is(t)) == Bit(t < st.issued);
      if st1.progress != FinalCheckpoint && QueueBlock(st1, e.block).Ok? {
        EnqueueValid(st1, e.block);
        EnqueueConserves(st1, e.block, Is(t));
        ProcessConserves(QueueBlock(st1, e.block).value, st', Is(t));
      }
    }
  }

  lemma {:induction false} RunConserves(st: State, es: seq<Event>)
    requires Valid(st) && Conserved(st) && Run(st, es).Next?
    ensures Conserved(Run(st, es).value)
  {
    if es != [] {
      RunConserves(st, es[..|es| - 1]);
      CallConserves(Run(st, es[..|es| - 1]).value, es[|es| - 1]);
    }
  }

  lemma {:induction false} NothingQueued(n: nat, p: Filter)
    ensures QueueTickets(map[], n, p) == 0
  {
    if n > 0 { NothingQueued(n - 1, p); }
  }

  lemma NewConserves(list: map<Height, Hash>, tip: Tip)
    requires 0 in list
    ensures Valid(New(list, tip)) && Conserved(New(list, tip))
  {
    forall t: nat { NothingQueued(MaxHeight(list) + 1, Is(t)); }
  }

  // ---------------------------------------------------------------- drop

  /** What `drop` sends to the blocks at heights below `n`, in height order. */
  function DropAnswers(queued: Queue, n: nat): seq<Answer> {
    if n == 0 then [] else DropAnswers(queued, n - 1) + DropList(ListAt(queued, n - 1))
  }

  function DropList(l: seq<QueuedBlock>): seq<Answer> {
    if l == [] then []
    else DropList(l[..|l| - 1]) + [Answer(l[|l| - 1].ticket, l[|l| - 1].block, Err(Dropped))]
  }

  function Drop(st: State): State
    requires 0 in st.list
  {
    st.(queued := map[], answers := st.answers + DropAnswers(st.queued, MaxHeight(st.list) + 1))
  }

  lemma {:induction false} DropListTickets(l: seq<QueuedBlock>, p: Filter)
    ensures Answered(DropList(l), p) == Tickets(l, p)
  {
    if l != [] {
      DropListTickets(l[..|l| - 1], p);
      assert DropList(l)[..|DropList(l)| - 1] == DropList(l[..|l| - 1]);
    }
  }

  lemma {:induction false} DropTickets(queued: Queue, n: nat, p: Filter)
    ensures Answered(DropAnswers(queued, n), p) == QueueTickets(queued, n, p)
  {
    if n > 0 {
      DropTickets(queued, n - 1, p);
      DropListTickets(ListAt(queued, n - 1), p);
      AnsweredAppend(DropAnswers(queued, n - 1), DropList(ListAt(queued, n - 1)), p);
    }
  }

  // ---------------------------------------------------------------- main results

  /**
   After any run of calls and resets from a fresh verifier, every issued ticket is answered once or queued
   once, but not both, and no other ticket appears anywhere. After `drop` every issued ticket has exactly one
   answer.
   */
  lemma TicketsAreLinear(list: map<Height, Hash>, tip: Tip, es: seq<Event>, ticket: nat)
    requires 0 in list && Run(New(list, tip), es).Next?
    ensures var st := Run(New(list, tip), es).value;
            && Answered(st.answers, Is(ticket)) + Queued(st, Is(ticket)) == Bit(ticket < st.issued)
            && Answered(Drop(st).answers, Is(ticket)) == Bit(ticket < st.issued)
  {
    hide Run, New, DropAnswers, QueueTickets, Answered;
    NewConserves(list, tip);
    RunConserves(New(list, tip), es);
    var st := Run(New(list, tip), es).value;
    DropTickets(st.queued, MaxHeight(st.list) + 1, Is(ticket));
    AnsweredAppend(st.answers, DropAnswers(st.queued, MaxHeight(st.list) + 1), Is(ticket));
  }

  /** Every processing step that finds a target removes at least one block from the queue. */
  lemma ProcessShrinksQueue(st: State, st': State)
    requires Valid(st) && Process(st) == Next(st') && !Waits(st)
    ensures st'.list == st.list
    ensures Queued(st', All()) < Queued(st, All())
  {
    hide Walk, Restore, QueueTickets;
    var t := Target(st).height;
    var w := WalkFromTarget(st, t);
    ProcessConserves(st, st', All());
    if w.outcome.Broken? {
      BrokenRefuses(st.list, st.queued, Base(st), t, st.list[t], w);
    } else {
      WalkRemoves(st.list, st.queued, Base(st), t, st.list[t], w);
    }
    AnsweredSize(st.answers);
    AnsweredSize(st'.answers);
  }

  /** Processing over and over with no new input comes to rest, unless it panics. */
  function Settle(st: State): (r: Step<State>)
    requires Valid(st)
    ensures r.Next? ==> Valid(r.value) && Waits(r.value) && r.value.list == st.list
    decreases Queued(st, All())
  {
    if Waits(st) then Next(st)
    else
      match Process(st)
      case Panic => Panic
      case Next(st') => ProcessValid(st, st'); ProcessShrinksQueue(st, st'); Settle(st')
  }
}
