/**
 Looking up the outputs a transaction spends: a first pass over the inputs asks the block's own outputs and the
 chain, a second one asks the mempool for what is missing. Slots keep the input order. The reply that a service
 would give to the query for each input is a parameter.
 */
module SpentUtxos {
  import opened Prelude
  import opened Transactions

  datatype Output = Output(value: Amount.NonNeg, lockScript: nat)

  datatype Utxo = Utxo(output: Output, height: nat, fromCoinbase: bool)

  datatype TransactionError = TransparentInputNotFound | Other(id: nat)

  /** A service's reply, or the timeout, or its error. */
  datatype Reply<T> = Reply(value: T) | Elapsed | Failed(id: nat)

  datatype Query = Query(
    inputs: seq<Input>, isMempool: bool, knownUtxos: map<OutPoint, Utxo>, height: nat,
    bestChain: seq<Reply<Option<Utxo>>>, awaited: seq<Reply<Utxo>>, mempool: Option<seq<Reply<Output>>>)

  /** There is a reply for each input. */
  predicate Answered(q: Query) {
    && |q.bestChain| == |q.awaited| == |q.inputs|
    && (q.mempool.Some? ==> |q.mempool.value| == |q.inputs|)
  }

  datatype Spent = Spent(utxos: map<OutPoint, Utxo>, outputs: seq<Output>, mempoolOutpoints: seq<OutPoint>)

  // ---------------------------------------------------------------- what the replies mean

  /** An input that spends an output which no earlier transaction of the block created. */
  ghost predicate Unknown(q: Query, i: nat)
    requires Answered(q) && i < |q.inputs|
  {
    q.inputs[i].PrevOut? && q.inputs[i].outpoint !in q.knownUtxos
  }

  /** A mempool transaction's input that the best chain does not know. */
  ghost predicate AsksMempool(q: Query, i: nat)
    requires Answered(q) && i < |q.inputs|
  {
    Unknown(q, i) && q.isMempool && q.bestChain[i] == Reply(None)
  }

  /**
   What an input spends: the block's own output if it has one; else, outside the mempool, the awaited output; else
   the best chain's output; else the mempool's output, as of the next height.
   */
  ghost predicate Source(q: Query, i: nat, utxo: Utxo)
    requires Answered(q) && i < |q.inputs|
  {
    && q.inputs[i].PrevOut?
    && (!Unknown(q, i) ==> q.knownUtxos[q.inputs[i].outpoint] == utxo)
    && (Unknown(q, i) && !q.isMempool ==> q.awaited[i] == Reply(utxo))
    && (Unknown(q, i) && q.isMempool && !AsksMempool(q, i) ==> q.bestChain[i] == Reply(Some(utxo)))
    && (AsksMempool(q, i) ==>
          && q.mempool.Some? && q.mempool.value[i] == Reply(utxo.output)
          && utxo.height == q.height && !utxo.fromCoinbase)
  }

  /** The chain's reply for an input is the error. */
  ghost predicate ChainFails(q: Query, i: nat, error: TransactionError)
    requires Answered(q) && i < |q.inputs|
  {
    && Unknown(q, i)
    && if q.isMempool then !q.bestChain[i].Reply? && error == TransparentInputNotFound
       else
         || (q.awaited[i] == Elapsed && error == TransparentInputNotFound)
         || (q.awaited[i].Failed? && error == Other(q.awaited[i].id))
  }

  /** The mempool's reply for an input is the error, or there is no mempool to ask. */
  ghost predicate MempoolFails(q: Query, i: nat, error: TransactionError)
    requires Answered(q) && i < |q.inputs|
  {
    && AsksMempool(q, i)
    && if q.mempool.None? then error == TransparentInputNotFound
       else
         || (q.mempool.value[i] == Elapsed && error == TransparentInputNotFound)
         || (q.mempool.value[i].Failed? && error == Other(q.mempool.value[i].id))
  }

  ghost predicate FailsInChain(q: Query, i: nat)
    requires Answered(q) && i < |q.inputs|
  {
    exists error :: ChainFails(q, i, error)
  }

  ghost predicate FailsInMempool(q: Query, i: nat)
    requires Answered(q) && i < |q.inputs|
  {
    exists error :: MempoolFails(q, i, error)
  }

  ghost predicate HasSource(q: Query, i: nat)
    requires Answered(q) && i < |q.inputs|
  {
    exists utxo :: Source(q, i, utxo)
  }

  /** An output is the one that an input spends. */
  ghost predicate Spends(q: Query, i: nat, output: Output)
    requires Answered(q) && i < |q.inputs|
  {
    exists utxo :: Source(q, i, utxo) && utxo.output == output
  }

  /** An input that spends an output has one source, or one error in one of the passes. */
  lemma OneOutcome(q: Query, i: nat)
    requires Answered(q) && i < |q.inputs| && q.inputs[i].PrevOut?
    ensures HasSource(q, i) <==> !FailsInChain(q, i) && !FailsInMempool(q, i)
    ensures FailsInChain(q, i) ==> !AsksMempool(q, i) && !FailsInMempool(q, i)
    ensures forall u, v :: Source(q, i, u) && Source(q, i, v) ==> u == v
  {
    ChainOutcome(q, i);
    if AsksMempool(q, i) { MempoolOutcome(q, i); }
  }

  lemma ChainOutcome(q: Query, i: nat)
    requires Answered(q) && i < |q.inputs| && q.inputs[i].PrevOut?
    ensures !AsksMempool(q, i) ==> (HasSource(q, i) <==> !FailsInChain(q, i))
    ensures FailsInChain(q, i) ==> !AsksMempool(q, i)
  {
    if !Unknown(q, i) {
      assert Source(q, i, q.knownUtxos[q.inputs[i].outpoint]);
    } else if q.isMempool {
      if q.bestChain[i].Reply? && q.bestChain[i].value.Some? {
        assert Source(q, i, q.bestChain[i].value.value);
      } else if !q.bestChain[i].Reply? {
        assert ChainFails(q, i, TransparentInputNotFound);
      }
    } else {
      match q.awaited[i]
      case Reply(utxo) => assert Source(q, i, utxo);
      case Elapsed => assert ChainFails(q, i, TransparentInputNotFound);
      case Failed(id) => assert ChainFails(q, i, Other(id));
    }
  }

  lemma MempoolOutcome(q: Query, i: nat)
    requires Answered(q) && i < |q.inputs| && AsksMempool(q, i)
    ensures HasSource(q, i) <==> !FailsInMempool(q, i)
  {
    if q.mempool.None? {
      assert MempoolFails(q, i, TransparentInputNotFound);
    } else {
      match q.mempool.value[i]
      case Reply(output) => assert Source(q, i, Utxo(output, q.height, false));
      case Elapsed => assert MempoolFails(q, i, TransparentInputNotFound);
      case Failed(id) => assert MempoolFails(q, i, Other(id));
    }
  }

  // ---------------------------------------------------------------- lists of inputs

  /** The inputs among the first n that spend an output, in order. */
  ghost function SpendingInputs(inputs: seq<Input>, n: nat): (r: seq<nat>)
    requires n <= |inputs|
    ensures forall k :: 0 <= k < |r| ==> r[k] < n && inputs[r[k]].PrevOut?
    ensures forall j, k :: 0 <= j < k < |r| ==> r[j] < r[k]
    ensures forall i :: 0 <= i < n && inputs[i].PrevOut? ==> i in r
  {
    if n == 0 then [] else SpendingInputs(inputs, n - 1) + if inputs[n - 1].PrevOut? then [n - 1] else []
  }

  /** The inputs among the first n that are left to the mempool, in order. */
  ghost function AskingInputs(q: Query, n: nat): (r: seq<nat>)
    requires Answered(q) && n <= |q.inputs|
    ensures forall k :: 0 <= k < |r| ==> r[k] < n && AsksMempool(q, r[k])
    ensures forall j, k :: 0 <= j < k < |r| ==> r[j] < r[k]
    ensures forall i :: 0 <= i < n && AsksMempool(q, i) ==> i in r
  {
    if n == 0 then [] else AskingInputs(q, n - 1) + if AsksMempool(q, n - 1) then [n - 1] else []
  }

  /** The map has exactly the outpoints of the inputs in a set, each with what one of them spends. */
  ghost predicate Holds(q: Query, utxos: map<OutPoint, Utxo>, inputs: set<nat>)
    requires Answered(q)
  {
    && (forall i :: i in inputs ==> i < |q.inputs| && q.inputs[i].PrevOut? && q.inputs[i].outpoint in utxos)
    && (forall op :: op in utxos ==>
          exists i :: i in inputs && i < |q.inputs| && q.inputs[i] == PrevOut(op) && Source(q, i, utxos[op]))
  }

  lemma HoldsMore(q: Query, utxos: map<OutPoint, Utxo>, inputs: set<nat>, i: nat, utxo: Utxo)
    requires Answered(q) && Holds(q, utxos, inputs) && i < |q.inputs| && Source(q, i, utxo)
    ensures q.inputs[i].PrevOut? && Holds(q, utxos[q.inputs[i].outpoint := utxo], inputs + {i})
  {
    assert q.inputs[i].PrevOut?;
    hide Source;
    var op := q.inputs[i].outpoint;
    var utxos' := utxos[op := utxo];
    forall o | o in utxos'
      ensures exists j ::
                j in inputs + {i} && j < |q.inputs| && q.inputs[j] == PrevOut(o) && Source(q, j, utxos'[o])
    {
      if o == op {
        assert i in inputs + {i};
      } else {
        var j :| j in inputs && j < |q.inputs| && q.inputs[j] == PrevOut(o) && Source(q, j, utxos[o]);
        assert j in inputs + {i};
      }
    }
  }

  /** What a pass leaves in the slots: the outputs that the inputs in a set spend. */
  ghost predicate Slots(q: Query, slots: seq<Option<Output>>, done: set<nat>)
    requires Answered(q)
  {
    && |slots| == |q.inputs|
    && forall i :: 0 <= i < |slots| ==>
         if i in done then slots[i].Some? && Spends(q, i, slots[i].value) else slots[i].None?
  }

  lemma SlotsMore(q: Query, slots: seq<Option<Output>>, done: set<nat>, i: nat, utxo: Utxo)
    requires Answered(q) && Slots(q, slots, done) && i < |q.inputs| && Source(q, i, utxo)
    ensures i < |slots| && Slots(q, slots[i := Some(utxo.output)], done + {i})
  {
    hide Source;
    assert Spends(q, i, utxo.output);
    hide Spends;
  }

  /** The list for the second pass: the inputs left to the mempool, in order, with their outpoints. */
  ghost predicate Listed(q: Query, later: seq<(nat, OutPoint)>, n: nat)
    requires Answered(q) && n <= |q.inputs|
  {
    && |later| == |AskingInputs(q, n)|
    && forall k :: 0 <= k < |later| ==>
         later[k].0 == AskingInputs(q, n)[k] && later[k].0 < n && q.inputs[later[k].0] == PrevOut(later[k].1)
  }

  lemma ListedNext(q: Query, later: seq<(nat, OutPoint)>, n: nat)
    requires Answered(q) && n < |q.inputs| && Listed(q, later, n)
    ensures !AsksMempool(q, n) ==> Listed(q, later, n + 1)
    ensures AsksMempool(q, n) ==> q.inputs[n].PrevOut? && Listed(q, later + [(n, q.inputs[n].outpoint)], n + 1)
  {
    assert AsksMempool(q, n) ==> q.inputs[n].PrevOut?;
    hide AsksMempool;
  }

  /** The inputs among the first n that the first pass resolves. */
  ghost function ChainInputs(q: Query, n: nat): set<nat>
    requires Answered(q) && n <= |q.inputs|
  {
    set i | 0 <= i < n && q.inputs[i].PrevOut? && !AsksMempool(q, i)
  }

  lemma ChainInputsNext(q: Query, n: nat)
    requires Answered(q) && n < |q.inputs|
    ensures ChainInputs(q, n + 1) ==
            if q.inputs[n].PrevOut? && !AsksMempool(q, n) then ChainInputs(q, n) + {n} else ChainInputs(q, n)
  {
    hide AsksMempool;
  }

  // ---------------------------------------------------------------- the lookup

  datatype Pass = Pass(utxos: map<OutPoint, Utxo>, later: seq<(nat, OutPoint)>)

  /** What the first pass finds for one input. */
  datatype Lookup = NoOutPoint | Now(utxo: Utxo) | Later | Fails(error: TransactionError)

  /** One input of the first pass. */
  method LookUp(q: Query, i: nat) returns (r: Lookup)
    requires Answered(q) && i < |q.inputs|
    ensures r.NoOutPoint? <==> q.inputs[i].Coinbase?
    ensures r.Later? <==> AsksMempool(q, i)
    ensures r.Now? ==> Source(q, i, r.utxo)
    ensures r.Fails? <==> FailsInChain(q, i)
    ensures r.Fails? ==> ChainFails(q, i, r.error)
  {
    if q.inputs[i].Coinbase? {
      return NoOutPoint;
    }
    OneOutcome(q, i);
    if q.inputs[i].outpoint in q.knownUtxos {
      return Now(q.knownUtxos[q.inputs[i].outpoint]);
    }
    if q.isMempool {
      match q.bestChain[i]
      case Reply(utxo) => return if utxo.Some? then Now(utxo.value) else Later;
      case _ => r := Fails(TransparentInputNotFound);
    } else {
      match q.awaited[i]
      case Reply(utxo) => return Now(utxo);
      case Elapsed => r := Fails(TransparentInputNotFound);
      case Failed(id) => r := Fails(Other(id));
    }
    assert ChainFails(q, i, r.error);
  }

  /** An input fails in the first pass, and no earlier one does. */
  ghost predicate FirstFailure(q: Query, i: nat, error: TransactionError)
    requires Answered(q)
  {
    i < |q.inputs| && ChainFails(q, i, error) && forall j :: 0 <= j < i ==> !FailsInChain(q, j)
  }

  /** No input fails in the first pass; an input fails in the second one, and no earlier one does. */
  ghost predicate SecondFailure(q: Query, i: nat, error: TransactionError)
    requires Answered(q)
  {
    && (forall j :: 0 <= j < |q.inputs| ==> !FailsInChain(q, j))
    && i < |q.inputs| && MempoolFails(q, i, error)
    && forall j :: 0 <= j < i ==> !FailsInMempool(q, j)
  }

  /**
   The first pass over the inputs: it stops at the first input whose reply is an error; else the inputs that the
   block or the chain can resolve are resolved, and the others are listed.
   */
  method FirstPass(q: Query, slots: array<Option<Output>>) returns (r: Result<Pass, TransactionError>)
    requires Answered(q) && Slots(q, slots[..], {})
    modifies slots
    ensures r.Ok? <==> forall i :: 0 <= i < |q.inputs| ==> !FailsInChain(q, i)
    ensures r.Err? ==> exists i :: FirstFailure(q, i, r.error)
    ensures r.Ok? ==>
              Slots(q, slots[..], ChainInputs(q, |q.inputs|)) && Holds(q, r.value.utxos, ChainInputs(q, |q.inputs|))
    ensures r.Ok? ==> Listed(q, r.value.later, |q.inputs|)
  {
    hide Slots, Holds, Listed, ChainInputs, AsksMempool, Source, ChainFails, FailsInChain;
    var utxos: map<OutPoint, Utxo>, later: seq<(nat, OutPoint)> := map[], [];
    NothingYet(q, slots[..]);
    for n := 0 to |q.inputs|
      invariant forall i :: 0 <= i < n ==> !FailsInChain(q, i)
      invariant Slots(q, slots[..], ChainInputs(q, n)) && Holds(q, utxos, ChainInputs(q, n))
      invariant Listed(q, later, n)
    {
      ChainInputsNext(q, n);
      ListedNext(q, later, n);
      ghost var before := slots[..];
      var found := LookUp(q, n);
      match found
      case Now(utxo) =>
        SlotsMore(q, before, ChainInputs(q, n), n, utxo);
        HoldsMore(q, utxos, ChainInputs(q, n), n, utxo);
        slots[n] := Some(utxo.output);
        assert slots[..] == before[n := Some(utxo.output)];
        utxos := utxos[q.inputs[n].outpoint := utxo];
      case Later =>
        later := later + [(n, q.inputs[n].outpoint)];
      case Fails(error) =>
        assert FirstFailure(q, n, error);
        return Err(error);
      case NoOutPoint =>
    }
    return Ok(Pass(utxos, later));
  }

  lemma NothingYet(q: Query, slots: seq<Option<Output>>)
    requires Answered(q) && Slots(q, slots, {})
    ensures |slots| == |q.inputs|
    ensures Slots(q, slots, ChainInputs(q, 0)) && Holds(q, map[], ChainInputs(q, 0)) && Listed(q, [], 0)
  {
    assert ChainInputs(q, 0) == {};
  }

  /** The inputs that spend an output. */
  ghost function SpentInputs(q: Query): set<nat> {
    set i | 0 <= i < |q.inputs| && q.inputs[i].PrevOut?
  }

  /** The inputs resolved when the second pass has handled part of its list. */
  ghost function Done(q: Query, later: seq<(nat, OutPoint)>, k: nat): set<nat>
    requires Answered(q) && k <= |later|
  {
    ChainInputs(q, |q.inputs|) + set j | 0 <= j < k :: later[j].0
  }

  /** The next input on the list asks the mempool. */
  lemma NextOnList(q: Query, later: seq<(nat, OutPoint)>, k: nat)
    requires Answered(q) && Listed(q, later, |q.inputs|) && k < |later|
    ensures later[k].0 < |q.inputs| && q.inputs[later[k].0] == PrevOut(later[k].1) && AsksMempool(q, later[k].0)
    ensures Done(q, later, k + 1) == Done(q, later, k) + {later[k].0}
  {
    hide AsksMempool, ChainInputs;
  }

  lemma NoneDone(q: Query, later: seq<(nat, OutPoint)>)
    requires Answered(q)
    ensures Done(q, later, 0) == ChainInputs(q, |q.inputs|)
  {
  }

  /** An input that asks the mempool is on the list. */
  lemma OnList(q: Query, later: seq<(nat, OutPoint)>, i: nat) returns (k: nat)
    requires Answered(q) && Listed(q, later, |q.inputs|) && i < |q.inputs| && AsksMempool(q, i)
    ensures k < |later| && later[k].0 == i
  {
    hide AsksMempool;
    assert i in AskingInputs(q, |q.inputs|);
    k :| 0 <= k < |later| && AskingInputs(q, |q.inputs|)[k] == i;
  }

  lemma InListOrder(q: Query, later: seq<(nat, OutPoint)>, j: nat, k: nat)
    requires Answered(q) && Listed(q, later, |q.inputs|) && j < |later| && k < |later| && later[j].0 < later[k].0
    ensures j < k
  {
  }

  /** An input that fails in the second pass asks the mempool. */
  lemma FailsAsking(q: Query, i: nat)
    requires Answered(q) && i < |q.inputs|
    ensures FailsInMempool(q, i) ==> AsksMempool(q, i)
    ensures AsksMempool(q, i) ==> q.inputs[i].PrevOut?
  {
  }

  /** The first failure on the list is the first failure of the second pass. */
  lemma FailsLater(q: Query, later: seq<(nat, OutPoint)>, k: nat, error: TransactionError)
    requires Answered(q) && Listed(q, later, |q.inputs|) && k < |later| && later[k].0 < |q.inputs|
    requires forall i :: 0 <= i < |q.inputs| ==> !FailsInChain(q, i)
    requires forall j :: 0 <= j < k ==> later[j].0 < |q.inputs| && !FailsInMempool(q, later[j].0)
    requires MempoolFails(q, later[k].0, error)
    ensures SecondFailure(q, later[k].0, error) && FailsInMempool(q, later[k].0)
  {
    hide Listed, AsksMempool, FailsInChain;
    assert FailsInMempool(q, later[k].0);
    hide MempoolFails, FailsInMempool;
    forall i | 0 <= i < later[k].0 ensures !FailsInMempool(q, i) {
      FailsAsking(q, i);
      if AsksMempool(q, i) {
        var j := OnList(q, later, i);
        InListOrder(q, later, j, k);
      }
    }
  }

  /** When nothing on the list fails, every input that spends an output is resolved. */
  lemma AllFound(q: Query, later: seq<(nat, OutPoint)>)
    requires Answered(q) && Listed(q, later, |q.inputs|)
    requires forall j :: 0 <= j < |later| ==> later[j].0 < |q.inputs| && !FailsInMempool(q, later[j].0)
    ensures forall i :: 0 <= i < |q.inputs| ==> !FailsInMempool(q, i)
    ensures Done(q, later, |later|) == SpentInputs(q)
  {
    hide AsksMempool, Listed, FailsInMempool;
    forall i | 0 <= i < |q.inputs|
      ensures !FailsInMempool(q, i)
      ensures i in Done(q, later, |later|) <==> i in SpentInputs(q)
    {
      FailsAsking(q, i);
      if AsksMempool(q, i) {
        var j := OnList(q, later, i);
        assert later[j].0 == i;
      }
      if i in Done(q, later, |later|) && i !in ChainInputs(q, |q.inputs|) {
        var j :| 0 <= j < |later| && later[j].0 == i;
        NextOnList(q, later, j);
      }
    }
  }

  /** Without a mempool, an input that asks it is a failure. */
  lemma NoMempool(q: Query, later: seq<(nat, OutPoint)>)
    requires Answered(q) && Listed(q, later, |q.inputs|) && q.mempool.None?
    requires forall i :: 0 <= i < |q.inputs| ==> !FailsInChain(q, i)
    ensures later != [] ==>
              SecondFailure(q, later[0].0, TransparentInputNotFound) && FailsInMempool(q, later[0].0)
    ensures later == [] ==> forall i :: 0 <= i < |q.inputs| ==> !FailsInMempool(q, i)
    ensures later == [] ==> ChainInputs(q, |q.inputs|) == SpentInputs(q)
  {
    hide FailsInChain, FailsInMempool, SecondFailure, ChainInputs;
    if later == [] {
      AllFound(q, later);
      NoneDone(q, later);
    } else {
      NextOnList(q, later, 0);
      FailsLater(q, later, 0, TransparentInputNotFound);
    }
  }

  /** One input of the second pass. */
  method AskMempool(q: Query, i: nat) returns (r: Result<Utxo, TransactionError>)
    requires Answered(q) && i < |q.inputs| && AsksMempool(q, i) && q.mempool.Some?
    ensures r.Ok? ==> Source(q, i, r.value)
    ensures r.Ok? <==> !FailsInMempool(q, i)
    ensures r.Err? ==> MempoolFails(q, i, r.error)
  {
    OneOutcome(q, i);
    match q.mempool.value[i]
    case Reply(output) =>
      r := Ok(Utxo(output, q.height, false));
      assert Source(q, i, r.value);
    case Elapsed =>
      r := Err(TransparentInputNotFound);
      assert MempoolFails(q, i, r.error);
    case Failed(id) =>
      r := Err(Other(id));
      assert MempoolFails(q, i, r.error);
  }

  /** The second pass, over the inputs that the first one left over. */
  method SecondPass(q: Query, slots: array<Option<Output>>, pass: Pass)
    returns (r: Result<map<OutPoint, Utxo>, TransactionError>)
    requires Answered(q) && (forall i :: 0 <= i < |q.inputs| ==> !FailsInChain(q, i))
    requires Slots(q, slots[..], ChainInputs(q, |q.inputs|)) && Holds(q, pass.utxos, ChainInputs(q, |q.inputs|))
    requires Listed(q, pass.later, |q.inputs|)
    modifies slots
    ensures r.Ok? <==> forall i :: 0 <= i < |q.inputs| ==> !FailsInMempool(q, i)
    ensures r.Err? ==> exists i :: SecondFailure(q, i, r.error)
    ensures r.Ok? ==> Slots(q, slots[..], SpentInputs(q)) && Holds(q, r.value, SpentInputs(q))
  {
    hide Slots, Holds, Source, AsksMempool, ChainInputs, SpentInputs, Listed, Done, SecondFailure;
    hide MempoolFails, FailsInMempool, FailsInChain;
    var utxos := pass.utxos;
    if q.mempool.None? {
      NoMempool(q, pass.later);
      if pass.later != [] {
        NextOnList(q, pass.later, 0);
        return Err(TransparentInputNotFound);
      }
    } else {
      ghost var done := ChainInputs(q, |q.inputs|);
      NoneDone(q, pass.later);
      for k := 0 to |pass.later|
        invariant Slots(q, slots[..], done) && Holds(q, utxos, done)
        invariant done == Done(q, pass.later, k)
        invariant forall j :: 0 <= j < k ==> pass.later[j].0 < |q.inputs| && !FailsInMempool(q, pass.later[j].0)
      {
        var (i, outpoint) := pass.later[k];
        ghost var before := slots[..];
        NextOnList(q, pass.later, k);
        var reply := AskMempool(q, i);
        match reply
        case Ok(utxo) =>
          SlotsMore(q, before, done, i, utxo);
          HoldsMore(q, utxos, done, i, utxo);
          slots[i] := Some(utxo.output);
          assert slots[..] == before[i := Some(utxo.output)];
          utxos := utxos[outpoint := utxo];
          done := done + {i};
        case Err(error) =>
          FailsLater(q, pass.later, k, error);
          return Err(error);
      }
      AllFound(q, pass.later);
    }
    return Ok(utxos);
  }

  /** The outputs that the inputs spend, in input order, one for each input that spends one. */
  ghost predicate InInputOrder(q: Query, outputs: seq<Output>, n: nat)
    requires Answered(q) && n <= |q.inputs|
  {
    && |outputs| == |SpendingInputs(q.inputs, n)|
    && forall k :: 0 <= k < |outputs| ==> Spends(q, SpendingInputs(q.inputs, n)[k], outputs[k])
  }

  /** Collecting the filled slots, in order. */
  method Flatten(q: Query, slots: array<Option<Output>>) returns (outputs: seq<Output>)
    requires Answered(q) && Slots(q, slots[..], SpentInputs(q))
    ensures InInputOrder(q, outputs, |q.inputs|)
  {
    hide Spends;
    outputs := [];
    for n := 0 to slots.Length
      invariant slots.Length == |q.inputs| && InInputOrder(q, outputs, n)
    {
      assert slots[..][n] == slots[n];
      if slots[n].Some? {
        outputs := outputs + [slots[n].value];
      }
    }
  }

  /**
   The lookup succeeds exactly when every input that spends an output has a source. The outputs are then those of
   the sources, one per such input and in input order, the map has exactly the spent outpoints, each with the source
   of an input that spends it, and the list has the outpoints of the inputs that ask the mempool, in input order.
   Otherwise the error is that of the first failing input of the first failing pass.
   */
  method SpentOutputs(q: Query) returns (r: Result<Spent, TransactionError>)
    requires Answered(q)
    ensures r.Ok? <==> forall i :: 0 <= i < |q.inputs| && q.inputs[i].PrevOut? ==> HasSource(q, i)
    ensures r.Ok? ==> InInputOrder(q, r.value.outputs, |q.inputs|)
    ensures r.Ok? ==> Holds(q, r.value.utxos, SpentInputs(q))
    ensures r.Ok? ==> forall op :: op in r.value.utxos && op in q.knownUtxos ==> r.value.utxos[op] == q.knownUtxos[op]
    ensures r.Ok? ==>
              var asking := AskingInputs(q, |q.inputs|);
              && |r.value.mempoolOutpoints| == |asking|
              && forall k :: 0 <= k < |asking| ==> q.inputs[asking[k]] == PrevOut(r.value.mempoolOutpoints[k])
    ensures r.Err? ==> exists i :: FirstFailure(q, i, r.error) || SecondFailure(q, i, r.error)
  {
    hide Holds, Slots, Source, ChainFails, MempoolFails, AsksMempool, SpentInputs, InInputOrder;
    hide HasSource, FailsInChain, FailsInMempool;
    SourcesOrFailures(q);
    var slots := new Option<Output>[|q.inputs|](_ => None);
    EmptySlots(q, slots[..]);
    var first := FirstPass(q, slots);
    if first.Err? {
      return Err(first.error);
    }
    var second := SecondPass(q, slots, first.value);
    if second.Err? {
      return Err(second.error);
    }
    var outputs := Flatten(q, slots);
    var outpoints: seq<OutPoint> := [];
    for k := 0 to |first.value.later|
      invariant |outpoints| == k && forall j :: 0 <= j < k ==> outpoints[j] == first.value.later[j].1
    {
      outpoints := outpoints + [first.value.later[k].1];
    }
    KnownFirst(q, second.value);
    return Ok(Spent(second.value, outputs, outpoints));
  }

  /** Every input has a source exactly when none fails in either pass. */
  lemma SourcesOrFailures(q: Query)
    requires Answered(q)
    ensures (forall i :: 0 <= i < |q.inputs| && q.inputs[i].PrevOut? ==> HasSource(q, i))
       <==> && (forall i :: 0 <= i < |q.inputs| ==> !FailsInChain(q, i))
            && (forall i :: 0 <= i < |q.inputs| ==> !FailsInMempool(q, i))
  {
    hide HasSource, AsksMempool;
    forall i | 0 <= i < |q.inputs|
      ensures q.inputs[i].PrevOut? ==> (HasSource(q, i) <==> !FailsInChain(q, i) && !FailsInMempool(q, i))
      ensures q.inputs[i].Coinbase? ==> !FailsInChain(q, i) && !FailsInMempool(q, i)
    {
      FailsAsking(q, i);
      if q.inputs[i].PrevOut? { OneOutcome(q, i); }
    }
  }

  lemma KnownFirst(q: Query, utxos: map<OutPoint, Utxo>)
    requires Answered(q) && Holds(q, utxos, SpentInputs(q))
    ensures forall op :: op in utxos && op in q.knownUtxos ==> utxos[op] == q.knownUtxos[op]
  {
  }

  lemma EmptySlots(q: Query, slots: seq<Option<Output>>)
    requires Answered(q) && |slots| == |q.inputs| && forall i :: 0 <= i < |slots| ==> slots[i] == None
    ensures Slots(q, slots, {})
  {
  }

  lemma {:induction false} AllSpending(inputs: seq<Input>, n: nat)
    requires n <= |inputs| && forall i :: 0 <= i < n ==> inputs[i].PrevOut?
    ensures |SpendingInputs(inputs, n)| == n && forall i :: 0 <= i < n ==> SpendingInputs(inputs, n)[i] == i
  {
    if n > 0 { AllSpending(inputs, n - 1); }
  }

  /** Without coinbase inputs, output i is the one that input i spends. */
  lemma OneOutputPerInput(q: Query, outputs: seq<Output>)
    requires Answered(q) && (forall i :: 0 <= i < |q.inputs| ==> q.inputs[i].PrevOut?)
    requires InInputOrder(q, outputs, |q.inputs|)
    ensures |outputs| == |q.inputs| && forall i :: 0 <= i < |q.inputs| ==> Spends(q, i, outputs[i])
  {
    hide Spends;
    AllSpending(q.inputs, |q.inputs|);
  }
}
