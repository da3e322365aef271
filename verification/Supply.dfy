/**
 Issuance: the transaction fees, the coinbase check and the pool change together bound the value a block creates by
 its subsidy, and so bound all value in the chain's pools over every run of blocks.
 */
module Supply {
  import opened Prelude
  import opened Amount
  import opened ValueBalances
  import opened Transactions
  import opened BlockTotals
  import opened UtxoPool

  predicate IsCoinbase(tx: Tx) {
    tx.inputs == [Coinbase]
  }

  /** The result of a transaction check, as far as totals are concerned: only other transactions pay a fee. */
  function ResponseFor(tx: Tx, utxos: Utxos, sigops: U32): Option<Response>
    requires Covers(utxos, tx.inputs)
  {
    if IsCoinbase(tx) then Some(Response(sigops, None))
    else
      var balance := Balance(tx, utxos);
      if balance.Err? then None
      else
        var fee := RemainingTransactionValue(balance.value);
        if fee.Err? then None else Some(Response(sigops, Some(fee.value)))
  }

  /** A block with what its verification was given. */
  datatype Candidate = Candidate(txs: seq<Tx>, sigops: seq<U32>, completed: seq<Response>,
                                 subsidy: NonNeg, deferred: Signed, nu6: bool)

  /**
   The block verifier accepts: the coinbase transaction is first, alone and without JoinSplits, every transaction
   check succeeded, and the verdict on the results, in the order in which they completed, is favourable.
   */
  ghost predicate Verified(c: Candidate, utxos: Utxos) {
    && c.txs != [] && IsCoinbase(c.txs[0]) && c.txs[0].joinsplits == []
    && (forall i :: 1 <= i < |c.txs| ==> !IsCoinbase(c.txs[i]))
    && CoversBlock(utxos, c.txs) && |c.sigops| == |c.txs|
    && (forall i :: 0 <= i < |c.txs| ==> ResponseFor(c.txs[i], utxos, c.sigops[i]).Some?)
    && multiset(c.completed) == multiset(InOrder(c, utxos))
    && VerdictFor(c.completed, c.txs[0], c.subsidy, c.deferred, c.nu6) == Accepted
  }

  /** The results in block order. */
  ghost function InOrder(c: Candidate, utxos: Utxos): (r: seq<Response>)
    requires CoversBlock(utxos, c.txs) && |c.sigops| == |c.txs|
    requires forall i :: 0 <= i < |c.txs| ==> ResponseFor(c.txs[i], utxos, c.sigops[i]).Some?
    ensures |r| == |c.txs|
    ensures forall i :: 0 <= i < |c.txs| ==> r[i] == ResponseFor(c.txs[i], utxos, c.sigops[i]).value
  {
    seq(|c.txs|, i requires 0 <= i < |c.txs| => ResponseFor(c.txs[i], utxos, c.sigops[i]).value)
  }

  /** All value in the pools. */
  function Value(v: ValueBalance): int {
    TransactionTotal(v) + v.deferred
  }

  // ---------------------------------------------------------------- one block

  lemma {:induction false} TotalSnoc(xs: seq<int>, x: int)
    ensures Total(xs + [x]) == Total(xs) + x
  {
    if xs == [] {
      assert xs + [x] == [x];
    } else {
      TotalSnoc(xs[1..], x);
      assert (xs + [x])[1..] == xs[1..] + [x];
    }
  }

  lemma {:induction false} FeesAreTotal(rs: seq<Response>, xs: seq<int>)
    requires |rs| == |xs| && forall i :: 0 <= i < |rs| ==> FeeOf(rs[i]) == xs[i]
    ensures Fees(rs) == Total(xs)
  {
    if rs != [] {
      var n := |rs| - 1;
      FeesAreTotal(rs[..n], xs[..n]);
      TotalSnoc(xs[..n], xs[n]);
      assert xs[..n] + [xs[n]] == xs;
    }
  }

  /** The fee of a transaction is what its balance leaves over. */
  lemma FeeIsRemainder(tx: Tx, utxos: Utxos, sigops: U32)
    requires Covers(utxos, tx.inputs) && !IsCoinbase(tx) && ResponseFor(tx, utxos, sigops).Some?
    ensures Balance(tx, utxos).Ok?
    ensures FeeOf(ResponseFor(tx, utxos, sigops).value) == TransactionTotal(Balance(tx, utxos).value)
  {
    hide Balance, RemainingTransactionValue;
    RemainingIs(Balance(tx, utxos).value);
  }

  /**
   A transaction other than the coinbase pays a fee exactly when its sums stay in range and it leaves over an amount
   from zero to the maximum; that amount is the fee.
   */
  lemma FeeExactly(tx: Tx, utxos: Utxos, sigops: U32)
    requires Covers(utxos, tx.inputs) && !IsCoinbase(tx)
    ensures var transparent := Total(InputValues(tx.inputs, utxos)) - Total(tx.outputs);
            var sprout := NewTotal(tx.joinsplits) - OldTotal(tx.joinsplits);
            var fee := transparent + sprout + tx.sapling + tx.orchard + tx.ironwood;
            && (ResponseFor(tx, utxos, sigops).Some? <==>
                  && Total(InputValues(tx.inputs, utxos)) <= MAX_MONEY && Total(tx.outputs) <= MAX_MONEY
                  && PrefixesFit(NegativeAllowed, 0, JoinSplitValues(tx.joinsplits))
                  && RunningTotalsFit(ValueBalance(transparent, sprout, tx.sapling, tx.orchard, 0, tx.ironwood))
                  && 0 <= fee <= MAX_MONEY)
            && (ResponseFor(tx, utxos, sigops).Some? ==>
                  ResponseFor(tx, utxos, sigops).value == Response(sigops, Some(fee)))
  {
    hide Balance, RemainingTransactionValue, Total, InputValues, PrefixesFit, NewTotal, OldTotal, RunningTotalsFit;
    BalanceIs(tx, utxos);
    if Balance(tx, utxos).Ok? { RemainingIs(Balance(tx, utxos).value); }
  }

  /** The collected fees are what all transactions but the coinbase leave over. */
  lemma FeesAreRemainders(c: Candidate, utxos: Utxos)
    requires Verified(c, utxos)
    ensures Fees(c.completed) == Total(Remainders(Balances(c.txs, utxos))[1..])
  {
    hide VerdictFor, Fees, Sigops, Total, Balance, ResponseFor;
    var rs, bs := InOrder(c, utxos), Balances(c.txs, utxos);
    TotalsOfPermutation(c.completed, rs);
    assert rs == [rs[0]] + rs[1..];
    TotalsSplit([rs[0]], rs[1..]);
    CoinbaseHasNoFee(c.txs[0], utxos, c.sigops[0]);
    forall i | 1 <= i < |c.txs| ensures FeeOf(rs[i]) == Remainders(bs)[i] {
      FeeIsRemainder(c.txs[i], utxos, c.sigops[i]);
    }
    FeesAreTotal(rs[1..], Remainders(bs)[1..]);
  }

  lemma CoinbaseHasNoFee(tx: Tx, utxos: Utxos, sigops: U32)
    requires Covers(utxos, tx.inputs) && IsCoinbase(tx)
    ensures Fees([ResponseFor(tx, utxos, sigops).value]) == 0
  {
    var r := ResponseFor(tx, utxos, sigops).value;
    assert [r][..0] == [];
  }

  /** The value a coinbase transaction puts into the pools, the deferred one included. */
  function CoinbaseOutput(tx: Tx, deferred: Signed): int {
    Total(tx.outputs) - tx.sapling - tx.orchard - tx.ironwood + deferred
  }

  /** The running totals that the code forms on the way to it. */
  predicate CoinbaseTotalsFit(tx: Tx, deferred: Signed) {
    && Total(tx.outputs) <= MAX_MONEY
    && InRange(NegativeAllowed, Total(tx.outputs) - tx.sapling)
    && InRange(NegativeAllowed, Total(tx.outputs) - tx.sapling - tx.orchard)
    && InRange(NegativeAllowed, Total(tx.outputs) - tx.sapling - tx.orchard - tx.ironwood)
    && InRange(NegativeAllowed, CoinbaseOutput(tx, deferred))
  }

  /**
   A coinbase transaction is accepted exactly when no total leaves its range and it takes at most the subsidy and
   the fees, from NU6 exactly those.
   */
  lemma MinerFeesIs(coinbase: Tx, fees: NonNeg, subsidy: NonNeg, deferred: Signed, nu6: bool)
    ensures MinerFees(coinbase, fees, subsidy, deferred, nu6) == Accepted <==>
              && CoinbaseTotalsFit(coinbase, deferred) && subsidy + fees <= MAX_MONEY
              && CoinbaseOutput(coinbase, deferred) <= subsidy + fees
              && (nu6 ==> CoinbaseOutput(coinbase, deferred) == subsidy + fees)
  {
    hide Sum, Total;
    NonNegSum(coinbase.outputs);
  }

  lemma CoinbaseRemainder(tx: Tx, utxos: Utxos)
    requires Covers(utxos, tx.inputs) && IsCoinbase(tx) && tx.joinsplits == [] && Balance(tx, utxos).Ok?
    ensures TransactionTotal(Balance(tx, utxos).value) == tx.sapling + tx.orchard + tx.ironwood - Total(tx.outputs)
  {
    hide Balance;
    BalanceIs(tx, utxos);
    ZerosTotal(InputValues(tx.inputs, utxos));
    ZerosTotal(JoinSplitValues(tx.joinsplits));
  }

  /** A verified block adds at most its subsidy to the chain's pools, and exactly its subsidy from NU6. */
  lemma BlockIssuance(c: Candidate, utxos: Utxos)
    requires Verified(c, utxos) && ChainValuePoolChange(c.txs, utxos, Some(c.deferred)).Ok?
    ensures var change := ChainValuePoolChange(c.txs, utxos, Some(c.deferred)).value;
            Value(change) <= c.subsidy && (c.nu6 ==> Value(change) == c.subsidy)
  {
    hide Balance, FoldBalances, Fees, Sigops, ColumnsFit, Covers;
    var bs := Balances(c.txs, utxos);
    BlockConserves(c.txs, utxos, Some(c.deferred));
    PoolChange(c.txs, utxos, Some(c.deferred));
    FeesAreRemainders(c, utxos);
    TotalCons(Remainders(bs));
    CoinbaseRemainder(c.txs[0], utxos);
    MinerFeesIs(c.txs[0], Fees(c.completed), c.subsidy, c.deferred, c.nu6);
  }

  // ---------------------------------------------------------------- all runs

  /** A verified block is committed if it can be; any other block leaves the chain as it is. */
  ghost function Extend(ch: Chain, c: Candidate): Option<Chain> {
    var v := ApplyTxs(View(ch.unspent, ch.unspent), c.txs);
    if v.None? || !Verified(c, v.value.known) then None
    else
      var r := Commit(ch, Block(c.txs, Some(c.deferred)));
      if r.Ok? then Some(r.value) else None
  }

  ghost function ExtendAll(ch: Chain, cs: seq<Candidate>): Chain {
    if cs == [] then ch
    else
      var ch' := ExtendAll(ch, cs[..|cs| - 1]);
      var r := Extend(ch', cs[|cs| - 1]);
      if r.Some? then r.value else ch'
  }

  /** The subsidies of the blocks that were committed. */
  ghost function Subsidies(ch: Chain, cs: seq<Candidate>): nat {
    if cs == [] then 0
    else
      var n := |cs| - 1;
      Subsidies(ch, cs[..n]) + if Extend(ExtendAll(ch, cs[..n]), cs[n]).Some? then cs[n].subsidy else 0
  }

  lemma ExtendIssues(ch: Chain, c: Candidate)
    requires Extend(ch, c).Some?
    ensures Value(Extend(ch, c).value.pools) <= Value(ch.pools) + c.subsidy
    ensures c.nu6 ==> Value(Extend(ch, c).value.pools) == Value(ch.pools) + c.subsidy
  {
    hide Verified, ApplyTxs, ChainValuePoolChange, AddChainValuePoolChange;
    var v := ApplyTxs(View(ch.unspent, ch.unspent), c.txs).value;
    TransparentChange(ch, c.txs, Some(c.deferred));
    BlockIssuance(c, v.known);
    PoolChangeIs(ch.pools, ChainValuePoolChange(c.txs, v.known, Some(c.deferred)).value);
  }

  /**
   For every run of candidate blocks, the value in all pools is at most the value at the start plus the subsidies
   of the committed blocks; it is exactly that if all blocks are from NU6 on.
   */
  lemma {:induction false} SupplyIsIssued(ch: Chain, cs: seq<Candidate>)
    ensures Value(ExtendAll(ch, cs).pools) <= Value(ch.pools) + Subsidies(ch, cs)
    ensures (forall i :: 0 <= i < |cs| ==> cs[i].nu6) ==>
              Value(ExtendAll(ch, cs).pools) == Value(ch.pools) + Subsidies(ch, cs)
  {
    hide Extend, Value;
    if cs != [] {
      var n := |cs| - 1;
      SupplyIsIssued(ch, cs[..n]);
      assert (forall i :: 0 <= i < |cs| ==> cs[i].nu6) ==>
               cs[n].nu6 && forall i :: 0 <= i < |cs[..n]| ==> cs[..n][i].nu6;
      var ch' := ExtendAll(ch, cs[..n]);
      if Extend(ch', cs[n]).Some? { ExtendIssues(ch', cs[n]); }
    }
  }

  /** The transaction that pays a subsidy to one transparent output. */
  function SubsidyTx(id: nat, subsidy: NonNeg): Tx {
    Tx(id, [Coinbase], [subsidy], [], 0, 0, 0)
  }

  /** The block with only that transaction. */
  function SubsidyBlock(id: nat, subsidy: NonNeg, nu6: bool): Candidate {
    Candidate([SubsidyTx(id, subsidy)], [0], [Response(0, None)], subsidy, 0, nu6)
  }

  /** Such a block extends every chain that has room for its output, which is then the only new one. */
  lemma SubsidyBlockExtends(ch: Chain, id: nat, subsidy: NonNeg, nu6: bool)
    requires Agrees(ch) && OutPoint(id, 0) !in ch.unspent && ch.pools.transparent + subsidy <= MAX_MONEY
    ensures Extend(ch, SubsidyBlock(id, subsidy, nu6)) ==
            Some(Chain(ch.unspent[OutPoint(id, 0) := subsidy],
                       ch.pools.(transparent := ch.pools.transparent + subsidy)))
  {
    var c, tx := SubsidyBlock(id, subsidy, nu6), SubsidyTx(id, subsidy);
    var start := View(ch.unspent, ch.unspent);
    hide Verified, Commit, ApplyTxs, Agrees;
    SubsidySpends(ch, id, subsidy);
    var v := ApplyTxs(start, c.txs).value;
    SubsidyVerified(c, tx, v.known);
    SubsidyCommits(ch, tx, v);
  }

  lemma SubsidySpends(ch: Chain, id: nat, subsidy: NonNeg)
    requires OutPoint(id, 0) !in ch.unspent
    ensures var m := ch.unspent[OutPoint(id, 0) := subsidy];
            ApplyTxs(View(ch.unspent, ch.unspent), [SubsidyTx(id, subsidy)]) == Some(View(m, m))
  {
    var tx, v := SubsidyTx(id, subsidy), View(ch.unspent, ch.unspent);
    ApplyTxExactly(v, tx);
    assert Spendable(ch.unspent, tx.inputs) && SpentBy(tx.inputs) == {};
    assert CreatedBy(id, [subsidy], 0) == map[OutPoint(id, 0) := subsidy];
    var m := ch.unspent[OutPoint(id, 0) := subsidy];
    assert ch.unspent - SpentBy(tx.inputs) == ch.unspent;
    assert ch.unspent + map[OutPoint(id, 0) := subsidy] == m;
    assert ApplyTx(v, tx) == Some(View(m, m)) by { hide ApplyTx; }
    assert [tx][1..] == [];
  }

  lemma SubsidyVerified(c: Candidate, tx: Tx, utxos: Utxos)
    requires IsCoinbase(tx) && tx.joinsplits == [] && tx.sapling == tx.orchard == tx.ironwood == 0
    requires tx.outputs == [c.subsidy] && c.txs == [tx] && c.sigops == [0] && c.completed == [Response(0, None)]
    requires c.deferred == 0
    ensures Verified(c, utxos)
  {
    hide MinerFees;
    var r := Response(0, None);
    assert CoversBlock(utxos, c.txs) && ResponseFor(tx, utxos, 0) == Some(r);
    assert InOrder(c, utxos) == [r];
    assert Sigops([r]) == 0 && Fees([r]) == 0;
    assert Total([c.subsidy]) == c.subsidy;
    MinerFeesIs(tx, 0, c.subsidy, 0, c.nu6);
  }

  lemma SubsidyCommits(ch: Chain, tx: Tx, v: View)
    requires Agrees(ch) && ApplyTxs(View(ch.unspent, ch.unspent), [tx]) == Some(v)
    requires IsCoinbase(tx) && tx.joinsplits == [] && tx.sapling == tx.orchard == tx.ironwood == 0
    requires |tx.outputs| == 1 && ch.pools.transparent + tx.outputs[0] <= MAX_MONEY
    ensures Commit(ch, Block([tx], Some(0))) ==
            Ok(Chain(v.unspent, ch.pools.(transparent := ch.pools.transparent + tx.outputs[0])))
  {
    hide ApplyTxs, Balance, MapTotal, Commit, ChainValuePoolChange;
    var b: Block, subsidy: int := Block([tx], Some(0)), tx.outputs[0];
    CommitExactly(ch, b);
    BalanceIs(tx, v.known);
    assert InputValues(tx.inputs, v.known) == [0] && tx.outputs == [subsidy];
    assert Total([0]) == 0 && Total([subsidy]) == subsidy;
    var bs := Balances([tx], v.known);
    assert bs == [Ok(ZERO.(transparent := -subsidy))];
    OneBalance(bs, ZERO.(transparent := -subsidy));
    assert forall p: Pool :: InRange(NonNegative, Get(ch.pools, p));
    var pools' := ch.pools.(transparent := ch.pools.transparent + subsidy);
    forall p: Pool ensures Get(ch.pools, p) + PoolDelta(bs, Some(0), p) == Get(pools', p) {}
    forall p: Pool ensures InRange(NonNegative, Get(pools', p)) {
      assert InRange(NonNegative, Get(ch.pools, p));
    }
    SamePools(Commit(ch, b).value.pools, pools');
  }

  lemma SamePools(a: ValueBalance, b: ValueBalance)
    requires forall p: Pool :: Get(a, p) == Get(b, p)
    ensures a == b
  {
    assert Get(a, Transparent) == Get(b, Transparent) && Get(a, Sprout) == Get(b, Sprout);
    assert Get(a, Sapling) == Get(b, Sapling) && Get(a, Orchard) == Get(b, Orchard);
    assert Get(a, Deferred) == Get(b, Deferred) && Get(a, Ironwood) == Get(b, Ironwood);
  }

  lemma OneBalance(bs: seq<Result<ValueBalance, BalanceError>>, v: ValueBalance)
    requires bs == [Ok(v)] && Fits(NegativeAllowed, v)
    ensures ColumnsFit(ZERO, bs) && forall p: Pool :: Total(Column(bs, p)) == Get(v, p)
  {
    forall p: Pool
      ensures Total(Column(bs, p)) == Get(v, p) && PrefixesFit(NegativeAllowed, Get(ZERO, p), Column(bs, p))
    {
      assert Column(bs, p) == [Get(v, p)];
      assert [Get(v, p)][1..] == [] && Total([]) == 0;
      assert Column(bs, p)[..1] == Column(bs, p);
    }
  }
}
