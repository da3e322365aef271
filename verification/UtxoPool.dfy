/**
 The transparent pool counter and the set of unspent outputs: over every run of blocks, the counter is the sum of
 the set, so the rule against a negative transparent pool never rejects a block.
 */
module UtxoPool {
  import opened Prelude
  import opened Amount
  import opened ValueBalances
  import opened Transactions

  // ---------------------------------------------------------------- sums over a map

  ghost function MapTotal(m: Utxos): int
    decreases |m|
  {
    if m == map[] then 0
    else
      var k :| k in m;
      m[k] + MapTotal(m - {k})
  }

  lemma {:induction false} MapTotalRemove(m: Utxos, k: OutPoint)
    requires k in m
    ensures MapTotal(m) == m[k] + MapTotal(m - {k})
    decreases |m|
  {
    var j :| j in m && MapTotal(m) == m[j] + MapTotal(m - {j});
    if j != k {
      MapTotalRemove(m - {j}, k);
      MapTotalRemove(m - {k}, j);
      assert m - {j} - {k} == m - {k} - {j};
    }
  }

  lemma MapTotalAdd(m: Utxos, k: OutPoint, v: NonNeg)
    requires k !in m
    ensures MapTotal(m[k := v]) == MapTotal(m) + v
  {
    MapTotalRemove(m[k := v], k);
    assert m[k := v] - {k} == m;
  }

  lemma {:induction false} MapTotalNonNegative(m: Utxos)
    ensures MapTotal(m) >= 0
    decreases |m|
  {
    if m != map[] {
      var j :| j in m;
      MapTotalRemove(m, j);
      MapTotalNonNegative(m - {j});
    }
  }

  // ---------------------------------------------------------------- spending and creating

  /** Removes the spent outputs in turn; fails unless each is unspent at that point. */
  function Spend(unspent: Utxos, inputs: seq<Input>): Option<Utxos>
    decreases |inputs|
  {
    if inputs == [] then Some(unspent)
    else if inputs[0].Coinbase? then Spend(unspent, inputs[1..])
    else if inputs[0].outpoint in unspent then Spend(unspent - {inputs[0].outpoint}, inputs[1..])
    else None
  }

  /** The unspent outputs, and those the block may refer to: unspent before it, or created in it. */
  datatype View = View(unspent: Utxos, known: Utxos)

  /** Adds the outputs of a transaction; fails unless each outpoint is new. */
  function Create(v: View, id: nat, outputs: seq<NonNeg>, index: nat): Option<View>
    decreases |outputs|
  {
    if outputs == [] then Some(v)
    else
      var op := OutPoint(id, index);
      if op in v.known || op in v.unspent then None
      else Create(View(v.unspent[op := outputs[0]], v.known[op := outputs[0]]), id, outputs[1..], index + 1)
  }

  function ApplyTx(v: View, tx: Tx): Option<View> {
    var unspent := Spend(v.unspent, tx.inputs);
    if unspent.None? then None else Create(View(unspent.value, v.known), tx.id, tx.outputs, 0)
  }

  function ApplyTxs(v: View, txs: seq<Tx>): Option<View>
    decreases |txs|
  {
    if txs == [] then Some(v)
    else
      var v' := ApplyTx(v, txs[0]);
      if v'.None? then None else ApplyTxs(v'.value, txs[1..])
  }

  /** One map has every entry of another. */
  ghost predicate Within(small: Utxos, big: Utxos) {
    forall k :: k in small ==> k in big && big[k] == small[k]
  }

  /** Spending finds every input in any larger map, and takes exactly their values. */
  lemma {:induction false} SpendIs(unspent: Utxos, inputs: seq<Input>, known: Utxos)
    requires Spend(unspent, inputs).Some? && Within(unspent, known)
    ensures Covers(known, inputs) && Within(Spend(unspent, inputs).value, unspent)
    ensures MapTotal(Spend(unspent, inputs).value) == MapTotal(unspent) - Total(InputValues(inputs, known))
    decreases |inputs|
  {
    hide MapTotal;
    if inputs != [] {
      var rest := inputs[1..];
      if inputs[0].Coinbase? {
        SpendIs(unspent, rest, known);
      } else {
        MapTotalRemove(unspent, inputs[0].outpoint);
        SpendIs(unspent - {inputs[0].outpoint}, rest, known);
      }
      CoversCons(known, inputs);
    }
  }

  lemma CoversCons(known: Utxos, inputs: seq<Input>)
    requires inputs != [] && Covers(known, inputs[1..]) && (inputs[0].PrevOut? ==> inputs[0].outpoint in known)
    ensures Covers(known, inputs)
    ensures InputValues(inputs, known)[1..] == InputValues(inputs[1..], known)
  {
    forall i | 0 <= i < |inputs| && inputs[i].PrevOut? ensures inputs[i].outpoint in known {
      assert i > 0 ==> inputs[i] == inputs[1..][i - 1];
    }
  }

  lemma {:induction false} CreateIs(v: View, id: nat, outputs: seq<NonNeg>, index: nat)
    requires Create(v, id, outputs, index).Some? && Within(v.unspent, v.known)
    ensures var v' := Create(v, id, outputs, index).value;
            && MapTotal(v'.unspent) == MapTotal(v.unspent) + Total(outputs)
            && Within(v'.unspent, v'.known) && Within(v.known, v'.known)
    decreases |outputs|
  {
    hide MapTotal;
    if outputs != [] {
      var op := OutPoint(id, index);
      MapTotalAdd(v.unspent, op, outputs[0]);
      CreateIs(View(v.unspent[op := outputs[0]], v.known[op := outputs[0]]), id, outputs[1..], index + 1);
    }
  }

  /** A transaction changes the sum of the unspent outputs by its outputs minus its inputs. */
  lemma ApplyTxIs(v: View, tx: Tx, known: Utxos)
    requires ApplyTx(v, tx).Some? && Within(v.unspent, v.known) && Within(v.known, known)
    ensures var v' := ApplyTx(v, tx).value;
            && Covers(known, tx.inputs)
            && MapTotal(v'.unspent) == MapTotal(v.unspent) - Total(InputValues(tx.inputs, known)) + Total(tx.outputs)
            && Within(v'.unspent, v'.known) && Within(v.known, v'.known)
  {
    hide MapTotal, Spend, Create, Total;
    SpendIs(v.unspent, tx.inputs, known);
    CreateIs(View(Spend(v.unspent, tx.inputs).value, v.known), tx.id, tx.outputs, 0);
  }

  lemma {:induction false} KnownGrows(v: View, txs: seq<Tx>)
    requires ApplyTxs(v, txs).Some? && Within(v.unspent, v.known)
    ensures Within(v.known, ApplyTxs(v, txs).value.known)
    decreases |txs|
  {
    hide ApplyTx, MapTotal;
    if txs != [] {
      ApplyTxIs(v, txs[0], v.known);
      KnownGrows(ApplyTx(v, txs[0]).value, txs[1..]);
    }
  }

  /** The transparent part of each transaction's balance. */
  function TransparentValues(txs: seq<Tx>, known: Utxos): (r: seq<int>)
    requires CoversBlock(known, txs)
    ensures |r| == |txs|
  {
    seq(|txs|, i requires 0 <= i < |txs| => Total(InputValues(txs[i].inputs, known)) - Total(txs[i].outputs))
  }

  lemma {:induction false} ApplyTxsIs(v: View, txs: seq<Tx>, known: Utxos)
    requires ApplyTxs(v, txs).Some? && Within(v.unspent, v.known) && Within(ApplyTxs(v, txs).value.known, known)
    ensures CoversBlock(known, txs)
    ensures MapTotal(ApplyTxs(v, txs).value.unspent) == MapTotal(v.unspent) - Total(TransparentValues(txs, known))
    decreases |txs|
  {
    hide MapTotal, ApplyTx, Covers, InputValues;
    if txs != [] {
      KnownGrows(v, txs);
      ApplyTxIs(v, txs[0], known);
      var rest := txs[1..];
      ApplyTxsIs(ApplyTx(v, txs[0]).value, rest, known);
      assert forall i :: 0 < i < |txs| ==> txs[i] == rest[i - 1];
      assert CoversBlock(known, txs);
      assert TransparentValues(txs, known)[1..] == TransparentValues(rest, known);
    }
  }

  // ---------------------------------------------------------------- exactly which transactions apply

  /** The outpoints that the inputs spend. */
  function SpentBy(inputs: seq<Input>): set<OutPoint> {
    set i | 0 <= i < |inputs| && inputs[i].PrevOut? :: inputs[i].outpoint
  }

  /** Every input spends an unspent output, and no two the same. */
  ghost predicate Spendable(unspent: Utxos, inputs: seq<Input>) {
    && (forall i :: 0 <= i < |inputs| && inputs[i].PrevOut? ==> inputs[i].outpoint in unspent)
    && (forall i, j :: 0 <= i < j < |inputs| && inputs[i].PrevOut? ==> inputs[i] != inputs[j])
  }

  lemma SpentByCons(inputs: seq<Input>)
    requires inputs != []
    ensures SpentBy(inputs) ==
            (if inputs[0].PrevOut? then {inputs[0].outpoint} else {}) + SpentBy(inputs[1..])
  {
    forall op | op in SpentBy(inputs)
      ensures op in (if inputs[0].PrevOut? then {inputs[0].outpoint} else {}) + SpentBy(inputs[1..])
    {
      var i :| 0 <= i < |inputs| && inputs[i].PrevOut? && inputs[i].outpoint == op;
      if i > 0 { assert inputs[1..][i - 1] == inputs[i]; }
    }
    forall op | op in SpentBy(inputs[1..]) ensures op in SpentBy(inputs) {
      var i :| 0 <= i < |inputs[1..]| && inputs[1..][i].PrevOut? && inputs[1..][i].outpoint == op;
      assert inputs[i + 1] == inputs[1..][i];
    }
    if inputs[0].PrevOut? { assert inputs[0].outpoint in SpentBy(inputs); }
  }

  /** The first input can be spent, and the others after it. */
  lemma SpendableCons(unspent: Utxos, inputs: seq<Input>)
    requires inputs != []
    ensures Spendable(unspent, inputs) <==>
              if inputs[0].Coinbase? then Spendable(unspent, inputs[1..])
              else inputs[0].outpoint in unspent && Spendable(unspent - {inputs[0].outpoint}, inputs[1..])
  {
    var rest := inputs[1..];
    assert forall i :: 0 < i < |inputs| ==> inputs[i] == rest[i - 1];
    if inputs[0].PrevOut? && inputs[0].outpoint in unspent {
      var left := unspent - {inputs[0].outpoint};
      if Spendable(left, rest) {
        forall i, j | 0 <= i < j < |inputs| && inputs[i].PrevOut? ensures inputs[i] != inputs[j] {
          assert inputs[j] == rest[j - 1];
          if i > 0 { assert inputs[i] == rest[i - 1]; }
        }
      }
      if Spendable(unspent, inputs) {
        forall i | 0 <= i < |rest| && rest[i].PrevOut? ensures rest[i].outpoint in left {
          assert inputs[0] != inputs[i + 1];
        }
        forall i, j | 0 <= i < j < |rest| && rest[i].PrevOut? ensures rest[i] != rest[j] {
          assert inputs[i + 1] != inputs[j + 1];
        }
      }
    } else if inputs[0].Coinbase? {
      if Spendable(unspent, rest) {
        forall i, j | 0 <= i < j < |inputs| && inputs[i].PrevOut? ensures inputs[i] != inputs[j] {
          assert rest[i - 1] != rest[j - 1];
        }
      }
      if Spendable(unspent, inputs) {
        forall i, j | 0 <= i < j < |rest| && rest[i].PrevOut? ensures rest[i] != rest[j] {
          assert inputs[i + 1] != inputs[j + 1];
        }
      }
    }
  }

  /** Spending in turn succeeds exactly if the inputs spend different unspent outputs; exactly those are gone then. */
  lemma {:induction false} SpendExactly(unspent: Utxos, inputs: seq<Input>)
    ensures Spend(unspent, inputs).Some? <==> Spendable(unspent, inputs)
    ensures Spend(unspent, inputs).Some? ==> Spend(unspent, inputs).value == unspent - SpentBy(inputs)
    decreases |inputs|
  {
    hide Spendable, SpentBy;
    if inputs == [] {
      NothingSpent(unspent);
    } else {
      SpendableCons(unspent, inputs);
      SpentByCons(inputs);
      SpendExactly(unspent, inputs[1..]);
      if inputs[0].PrevOut? {
        SpendExactly(unspent - {inputs[0].outpoint}, inputs[1..]);
      }
    }
  }

  lemma NothingSpent(unspent: Utxos)
    ensures Spendable(unspent, []) && unspent - SpentBy([]) == unspent
  {
  }

  /** The outputs of a transaction from an index on, by outpoint. */
  function CreatedBy(id: nat, outputs: seq<NonNeg>, index: nat): Utxos {
    map i | index <= i < index + |outputs| :: OutPoint(id, i) := outputs[i - index]
  }

  lemma CreatedByCons(id: nat, outputs: seq<NonNeg>, index: nat, m: Utxos)
    requires outputs != []
    ensures m + CreatedBy(id, outputs, index)
         == m[OutPoint(id, index) := outputs[0]] + CreatedBy(id, outputs[1..], index + 1)
  {
  }

  /** Creating in turn succeeds exactly if all outpoints are new; exactly those are added then. */
  lemma {:induction false} CreateExactly(v: View, id: nat, outputs: seq<NonNeg>, index: nat)
    ensures Create(v, id, outputs, index).Some? <==>
              forall i :: index <= i < index + |outputs| ==>
                            OutPoint(id, i) !in v.known && OutPoint(id, i) !in v.unspent
    ensures Create(v, id, outputs, index).Some? ==>
              && Create(v, id, outputs, index).value.unspent == v.unspent + CreatedBy(id, outputs, index)
              && Create(v, id, outputs, index).value.known == v.known + CreatedBy(id, outputs, index)
    decreases |outputs|
  {
    hide CreatedBy;
    if outputs == [] {
      NothingCreated(id, index);
    } else {
      var op := OutPoint(id, index);
      CreatedByCons(id, outputs, index, v.unspent);
      CreatedByCons(id, outputs, index, v.known);
      CreateExactly(View(v.unspent[op := outputs[0]], v.known[op := outputs[0]]), id, outputs[1..], index + 1);
      assert op in v.known || op in v.unspent ==> OutPoint(id, index) in v.known || OutPoint(id, index) in v.unspent;
    }
  }

  lemma NothingCreated(id: nat, index: nat)
    ensures CreatedBy(id, [], index) == map[]
  {
  }

  /**
   A transaction applies exactly if its inputs spend different unspent outputs and none of its own outputs is known.
   Then exactly the spent outputs are gone, and exactly its own, numbered from 0, are new.
   */
  lemma ApplyTxExactly(v: View, tx: Tx)
    requires Within(v.unspent, v.known)
    ensures ApplyTx(v, tx).Some? <==>
              Spendable(v.unspent, tx.inputs) && forall i :: 0 <= i < |tx.outputs| ==> OutPoint(tx.id, i) !in v.known
    ensures ApplyTx(v, tx).Some? ==>
              && ApplyTx(v, tx).value.unspent == v.unspent - SpentBy(tx.inputs) + CreatedBy(tx.id, tx.outputs, 0)
              && ApplyTx(v, tx).value.known == v.known + CreatedBy(tx.id, tx.outputs, 0)
  {
    hide Spend, Create, Spendable, SpentBy, CreatedBy;
    SpendExactly(v.unspent, tx.inputs);
    if Spend(v.unspent, tx.inputs).Some? {
      CreateExactly(View(Spend(v.unspent, tx.inputs).value, v.known), tx.id, tx.outputs, 0);
    }
  }

  // ---------------------------------------------------------------- the chain

  datatype Block = Block(txs: seq<Tx>, deferred: Option<Signed>)

  datatype Chain = Chain(unspent: Utxos, pools: ValueBalance)

  datatype Rejected = BadSpend | BadBalance(error: BalanceError) | BadPools(error: BalanceError)

  /** A block is applied to the unspent outputs and to the pools, or is rejected. */
  function Commit(ch: Chain, b: Block): Result<Chain, Rejected> {
    var v := ApplyTxs(View(ch.unspent, ch.unspent), b.txs);
    if v.None? then Err(BadSpend)
    else
      ApplyTxsIs(View(ch.unspent, ch.unspent), b.txs, v.value.known);
      var change := ChainValuePoolChange(b.txs, v.value.known, b.deferred);
      if change.Err? then Err(BadBalance(change.error))
      else
        var pools := AddChainValuePoolChange(ch.pools, change.value);
        if pools.Err? then Err(BadPools(pools.error)) else Ok(Chain(v.value.unspent, pools.value))
  }

  /** Rejected blocks leave the chain as it is. */
  function CommitAll(ch: Chain, bs: seq<Block>): Chain {
    if bs == [] then ch
    else
      var ch' := CommitAll(ch, bs[..|bs| - 1]);
      var r := Commit(ch', bs[|bs| - 1]);
      if r.Ok? then r.value else ch'
  }

  ghost predicate Agrees(ch: Chain) {
    ch.pools.transparent == MapTotal(ch.unspent) && Fits(NonNegative, ch.pools)
  }

  /** The block's own change of the transparent pool is the change of the sum of the unspent outputs. */
  lemma TransparentChange(ch: Chain, txs: seq<Tx>, deferred: Option<Signed>)
    requires ApplyTxs(View(ch.unspent, ch.unspent), txs).Some?
    ensures var v := ApplyTxs(View(ch.unspent, ch.unspent), txs).value;
            && CoversBlock(v.known, txs)
            && (ChainValuePoolChange(txs, v.known, deferred).Ok? ==>
                  ChainValuePoolChange(txs, v.known, deferred).value.transparent ==
                    MapTotal(v.unspent) - MapTotal(ch.unspent))
  {
    hide MapTotal, ApplyTxs, ChainValuePoolChange, Balance, InputValues, ColumnsFit, Total;
    var v := ApplyTxs(View(ch.unspent, ch.unspent), txs).value;
    ApplyTxsIs(View(ch.unspent, ch.unspent), txs, v.known);
    var change := ChainValuePoolChange(txs, v.known, deferred);
    if change.Ok? {
      PoolChange(txs, v.known, deferred);
      var bs := Balances(txs, v.known);
      forall i | 0 <= i < |txs| ensures Column(bs, Transparent)[i] == TransparentValues(txs, v.known)[i] {
        BalanceIs(txs[i], v.known);
      }
      assert Column(bs, Transparent) == TransparentValues(txs, v.known);
      assert Get(change.value, Transparent) == change.value.transparent;
    }
  }

  /** The ways in which a balance of the transparent pool can be wrong. */
  predicate TransparentOverflow(e: BalanceError) {
    e.InPool? && e.pool.Transparent? ==>
      if e.error.SumOverflow? then e.error.partialSum > MAX_MONEY else e.error.value < -MAX_MONEY
  }

  /** Running totals of the transparent pool never exceed the sum of the unspent outputs before the block. */
  lemma {:induction false} FoldTransparent(v: View, txs: seq<Tx>, known: Utxos, acc: ValueBalance, before: NonNeg)
    requires ApplyTxs(v, txs).Some? && Within(v.unspent, v.known) && Within(ApplyTxs(v, txs).value.known, known)
    requires CoversBlock(known, txs) && acc.transparent == before - MapTotal(v.unspent)
    ensures var r := FoldBalances(acc, Balances(txs, known)); r.Err? ==> TransparentOverflow(r.error)
    decreases |txs|
  {
    hide MapTotal, ApplyTx, InputValues, Covers, Balance, Total;
    if txs != [] {
      var bs, rest := Balances(txs, known), txs[1..];
      KnownGrows(v, txs);
      ApplyTxIs(v, txs[0], known);
      var v' := ApplyTx(v, txs[0]).value;
      MapTotalNonNegative(v'.unspent);
      BalanceErrors(txs[0], known);
      BalanceIs(txs[0], known);
      assert forall i :: 0 <= i < |rest| ==> rest[i] == txs[i + 1];
      assert bs[1..] == Balances(rest, known);
      if bs[0].Ok? {
        var sum := Plus(acc, bs[0].value);
        ConstrainIs(NegativeAllowed, sum);
        FoldTransparent(v', rest, known, sum, before);
      }
    }
  }

  /**
   Accepting a block keeps the counter equal to the sum. A block that spends unspent outputs is rejected for its
   transparent pool only if that pool would exceed the maximum, never because it would be negative. It has no balance
   in the transparent pool only if one transaction's inputs or outputs exceed the maximum, or if a running total of
   the block falls below minus the maximum.
   */
  lemma CommitAgrees(ch: Chain, b: Block)
    requires Agrees(ch)
    ensures Commit(ch, b).Ok? ==> Agrees(Commit(ch, b).value)
    ensures Commit(ch, b).Err? && Commit(ch, b).error.BadPools? && Commit(ch, b).error.error.InPool?
            && Commit(ch, b).error.error.pool.Transparent? ==>
              Commit(ch, b).error.error.error.OutOfRange? && Commit(ch, b).error.error.error.value > MAX_MONEY
    ensures Commit(ch, b).Err? && Commit(ch, b).error.BadBalance? ==> TransparentOverflow(Commit(ch, b).error.error)
  {
    hide MapTotal, ApplyTxs, AddChainValuePoolChange, Fits, FoldBalances, Balances;
    var v := ApplyTxs(View(ch.unspent, ch.unspent), b.txs);
    if v.Some? {
      TransparentChange(ch, b.txs, b.deferred);
      var change := ChainValuePoolChange(b.txs, v.value.known, b.deferred);
      if change.Ok? {
        PoolChangeIs(ch.pools, change.value);
        MapTotalNonNegative(v.value.unspent);
        assert Get(Plus(ch.pools, change.value), Transparent) == ch.pools.transparent + change.value.transparent;
      } else {
        TransparentInRange(ch);
        FoldTransparent(View(ch.unspent, ch.unspent), b.txs, v.value.known, ZERO, ch.pools.transparent);
      }
    }
  }

  /** The change of one pool by a block with these balances. */
  ghost function PoolDelta(bs: seq<Result<ValueBalance, BalanceError>>, deferred: Option<Signed>, p: Pool): int {
    if p.Deferred? then (if deferred.Some? then deferred.value else 0) else -Total(Column(bs, p))
  }

  /**
   A block whose spends apply is committed exactly if each transaction has a balance, every running total of every
   pool is in range, and no pool becomes negative or exceeds the maximum. The chain then has the unspent outputs of
   the spends, and each pool has changed by its own total.
   */
  lemma CommitExactly(ch: Chain, b: Block)
    ensures var v := ApplyTxs(View(ch.unspent, ch.unspent), b.txs);
            if v.None? then Commit(ch, b) == Err(BadSpend)
            else
              && CoversBlock(v.value.known, b.txs)
              && var bs := Balances(b.txs, v.value.known);
              && (Commit(ch, b).Ok? <==>
                    && (forall i :: 0 <= i < |b.txs| ==> Balance(b.txs[i], v.value.known).Ok?)
                    && ColumnsFit(ZERO, bs)
                    && forall p: Pool :: InRange(NonNegative, Get(ch.pools, p) + PoolDelta(bs, b.deferred, p)))
              && (Commit(ch, b).Ok? ==>
                    && Commit(ch, b).value.unspent == v.value.unspent
                    && forall p: Pool ::
                         Get(Commit(ch, b).value.pools, p) == Get(ch.pools, p) + PoolDelta(bs, b.deferred, p))
  {
    hide ApplyTxs, Balance, ColumnsFit, Total, ChainValuePoolChange, AddChainValuePoolChange, MapTotal, Get, Plus;
    var v := ApplyTxs(View(ch.unspent, ch.unspent), b.txs);
    if v.Some? {
      TransparentChange(ch, b.txs, b.deferred);
      PoolChange(b.txs, v.value.known, b.deferred);
      var change := ChainValuePoolChange(b.txs, v.value.known, b.deferred);
      if change.Ok? {
        PoolChangeIs(ch.pools, change.value);
        forall p: Pool
          ensures Get(Plus(ch.pools, change.value), p)
               == Get(ch.pools, p) + PoolDelta(Balances(b.txs, v.value.known), b.deferred, p)
        {
          PlusIs(ch.pools, change.value, p);
          DeferredIs(change.value);
        }
      }
    }
  }

  lemma DeferredIs(v: ValueBalance)
    ensures Get(v, Deferred) == v.deferred
  {
  }

  /**
   For every run of blocks, accepted or rejected, from a chain whose transparent pool is the sum of its unspent
   outputs: it stays the sum, and no pool is ever negative.
   */
  lemma {:induction false} CounterAgreesWithSet(ch: Chain, bs: seq<Block>)
    requires Agrees(ch)
    ensures Agrees(CommitAll(ch, bs))
  {
    hide Agrees, Commit;
    if bs != [] {
      CounterAgreesWithSet(ch, bs[..|bs| - 1]);
      CommitAgrees(CommitAll(ch, bs[..|bs| - 1]), bs[|bs| - 1]);
    }
  }

  lemma TransparentInRange(ch: Chain)
    requires Agrees(ch)
    ensures 0 <= ch.pools.transparent <= MAX_MONEY && ch.pools.transparent == MapTotal(ch.unspent)
  {
    assert InRange(NonNegative, Get(ch.pools, Transparent));
  }

  /** The empty chain is such a chain. */
  lemma EmptyChainAgrees()
    ensures Agrees(Chain(map[], ZERO))
  {
  }

  /** What the committed blocks of a run move into the deferred pool. */
  ghost function DeferredTotal(ch: Chain, bs: seq<Block>): int {
    if bs == [] then 0
    else
      var n := |bs| - 1;
      DeferredTotal(ch, bs[..n]) +
      if Commit(CommitAll(ch, bs[..n]), bs[n]).Ok? && bs[n].deferred.Some? then bs[n].deferred.value else 0
  }

  /** Transactions do not touch the deferred pool: over every run it changes by what the committed blocks say. */
  lemma {:induction false} DeferredPoolIs(ch: Chain, bs: seq<Block>)
    ensures CommitAll(ch, bs).pools.deferred == ch.pools.deferred + DeferredTotal(ch, bs)
  {
    hide Commit;
    if bs != [] {
      var n := |bs| - 1;
      DeferredPoolIs(ch, bs[..n]);
      CommitDefers(CommitAll(ch, bs[..n]), bs[n]);
    }
  }

  lemma CommitDefers(ch: Chain, b: Block)
    ensures Commit(ch, b).Ok? ==>
              Commit(ch, b).value.pools.deferred
                == ch.pools.deferred + if b.deferred.Some? then b.deferred.value else 0
  {
    hide Commit, ApplyTxs, Balances, ColumnsFit;
    CommitExactly(ch, b);
    if Commit(ch, b).Ok? {
      DeferredIs(ch.pools);
      DeferredIs(Commit(ch, b).value.pools);
    }
  }
}
