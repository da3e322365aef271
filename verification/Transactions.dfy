/** The value balance of a transaction, and the change of the chain value pools by a block. */
module Transactions {
  import opened Prelude
  import opened Amount
  import opened ValueBalances

  datatype OutPoint = OutPoint(txid: nat, index: nat)

  datatype Input = PrevOut(outpoint: OutPoint) | Coinbase

  datatype JoinSplit = JoinSplit(vpubOld: NonNeg, vpubNew: NonNeg)

  datatype Tx = Tx(id: nat, inputs: seq<Input>, outputs: seq<NonNeg>, joinsplits: seq<JoinSplit>,
                   sapling: Signed, orchard: Signed, ironwood: Signed)

  type Utxos = map<OutPoint, NonNeg>

  /** The map has every output that the inputs spend; the code panics otherwise. */
  predicate Covers(utxos: Utxos, inputs: seq<Input>) {
    forall i :: 0 <= i < |inputs| && inputs[i].PrevOut? ==> inputs[i].outpoint in utxos
  }

  function InputValues(inputs: seq<Input>, utxos: Utxos): (r: seq<NonNeg>)
    requires Covers(utxos, inputs)
    ensures |r| == |inputs|
  {
    seq(|inputs|, i requires 0 <= i < |inputs| => if inputs[i].PrevOut? then utxos[inputs[i].outpoint] else 0)
  }

  function InTransparent(r: Result<int, Error>): Result<int, BalanceError> {
    if r.Ok? then Ok(r.value) else Err(InPool(Transparent, r.error))
  }

  function TransparentBalance(tx: Tx, utxos: Utxos): Result<ValueBalance, BalanceError>
    requires Covers(utxos, tx.inputs)
  {
    var input :- InTransparent(Sum(NonNegative, InputValues(tx.inputs, utxos)));
    var output :- InTransparent(Sum(NonNegative, tx.outputs));
    var balance :- InTransparent(Validate(NegativeAllowed, input - output));
    Ok(ZERO.(transparent := balance))
  }

  /** The balance of each JoinSplit. */
  function JoinSplitValues(js: seq<JoinSplit>): (r: seq<int>)
    ensures |r| == |js|
  {
    seq(|js|, i requires 0 <= i < |js| => js[i].vpubNew - js[i].vpubOld)
  }

  function JoinSplitBalances(js: seq<JoinSplit>): (r: seq<Result<ValueBalance, BalanceError>>)
    ensures |r| == |js|
  {
    seq(|js|, i requires 0 <= i < |js| => Ok(ZERO.(sprout := js[i].vpubNew - js[i].vpubOld)))
  }

  function SproutBalance(tx: Tx): Result<ValueBalance, BalanceError> {
    FoldBalances(ZERO, JoinSplitBalances(tx.joinsplits))
  }

  function Balance(tx: Tx, utxos: Utxos): Result<ValueBalance, BalanceError>
    requires Covers(utxos, tx.inputs)
  {
    var transparent :- TransparentBalance(tx, utxos);
    var sprout :- SproutBalance(tx);
    var a :- ValueBalances.Add(NegativeAllowed, transparent, sprout);
    var b :- ValueBalances.Add(NegativeAllowed, a, ZERO.(sapling := tx.sapling));
    var c :- ValueBalances.Add(NegativeAllowed, b, ZERO.(orchard := tx.orchard));
    ValueBalances.Add(NegativeAllowed, c, ZERO.(ironwood := tx.ironwood))
  }

  // ---------------------------------------------------------------- what a balance is

  lemma {:induction false} ZerosTotal(xs: seq<int>)
    requires forall i :: 0 <= i < |xs| ==> xs[i] == 0
    ensures Total(xs) == 0
  {
    if xs != [] {
      ZerosTotal(xs[1..]);
    }
  }

  lemma ZerosFit(xs: seq<int>)
    requires forall i :: 0 <= i < |xs| ==> xs[i] == 0
    ensures PrefixesFit(NegativeAllowed, 0, xs) && Total(xs) == 0
  {
    ZerosTotal(xs);
    forall k | 1 <= k <= |xs| ensures InRange(NegativeAllowed, Total(xs[..k])) {
      ZerosTotal(xs[..k]);
    }
  }

  /** What the JoinSplits move into the transaction value pool. */
  function NewTotal(js: seq<JoinSplit>): nat {
    if js == [] then 0 else js[0].vpubNew + NewTotal(js[1..])
  }

  /** What the JoinSplits move out of the transaction value pool. */
  function OldTotal(js: seq<JoinSplit>): nat {
    if js == [] then 0 else js[0].vpubOld + OldTotal(js[1..])
  }

  lemma {:induction false} JoinSplitTotal(js: seq<JoinSplit>)
    ensures Total(JoinSplitValues(js)) == NewTotal(js) - OldTotal(js)
  {
    if js != [] {
      JoinSplitTotal(js[1..]);
      assert JoinSplitValues(js)[1..] == JoinSplitValues(js[1..]);
    }
  }

  /** JoinSplits change one pool only, by what comes in less what goes out, so only its running totals matter. */
  lemma SproutIs(tx: Tx)
    ensures SproutBalance(tx).Ok? <==> PrefixesFit(NegativeAllowed, 0, JoinSplitValues(tx.joinsplits))
    ensures SproutBalance(tx).Ok? ==> SproutBalance(tx).value == ZERO.(sprout := Total(JoinSplitValues(tx.joinsplits)))
    ensures Total(JoinSplitValues(tx.joinsplits)) == NewTotal(tx.joinsplits) - OldTotal(tx.joinsplits)
  {
    hide PrefixesFit, Total, FoldBalances, InRange;
    JoinSplitTotal(tx.joinsplits);
    var vs := JoinSplitBalances(tx.joinsplits);
    FoldBalancesIs(ZERO, vs);
    forall p: Pool
      ensures p.Sprout? ==> Column(vs, p) == JoinSplitValues(tx.joinsplits)
      ensures !p.Sprout? ==> PrefixesFit(NegativeAllowed, 0, Column(vs, p)) && Total(Column(vs, p)) == 0
      ensures Get(ZERO, p) == 0
    {
      if p.Sprout? {
        assert Column(vs, p) == JoinSplitValues(tx.joinsplits);
      } else {
        ZerosFit(Column(vs, p));
      }
    }
    assert ColumnsFit(ZERO, vs) <==> PrefixesFit(NegativeAllowed, 0, Column(vs, Sprout));
    if SproutBalance(tx).Ok? {
      var v := SproutBalance(tx).value;
      assert Get(v, Transparent) == 0 && Get(v, Sapling) == 0 && Get(v, Orchard) == 0 && Get(v, Deferred) == 0;
      assert Get(v, Ironwood) == 0 && Get(v, Sprout) == Total(Column(vs, Sprout));
    }
  }

  lemma TransparentIs(tx: Tx, utxos: Utxos)
    requires Covers(utxos, tx.inputs)
    ensures TransparentBalance(tx, utxos).Ok? <==>
              Total(InputValues(tx.inputs, utxos)) <= MAX_MONEY && Total(tx.outputs) <= MAX_MONEY
    ensures TransparentBalance(tx, utxos).Ok? ==>
              TransparentBalance(tx, utxos).value ==
                ZERO.(transparent := Total(InputValues(tx.inputs, utxos)) - Total(tx.outputs))
  {
    hide Sum, Total, InputValues;
    NonNegSum(InputValues(tx.inputs, utxos));
    NonNegSum(tx.outputs);
  }

  lemma SproutInRange(tx: Tx)
    requires SproutBalance(tx).Ok?
    ensures InRange(NegativeAllowed, Total(JoinSplitValues(tx.joinsplits)))
  {
    hide FoldBalances;
    SproutIs(tx);
    var xs := JoinSplitValues(tx.joinsplits);
    assert xs[..|xs|] == xs;
    assert xs != [] ==> InRange(NegativeAllowed, 0 + Total(xs[..|xs|]));
  }

  /**
   A transaction has a balance exactly when its inputs, its outputs, and every running total of its JoinSplits
   stay in range. No pool is counted twice, and the deferred pool is untouched.
   */
  lemma BalanceIs(tx: Tx, utxos: Utxos)
    requires Covers(utxos, tx.inputs)
    ensures Balance(tx, utxos).Ok? <==>
              && Total(InputValues(tx.inputs, utxos)) <= MAX_MONEY && Total(tx.outputs) <= MAX_MONEY
              && PrefixesFit(NegativeAllowed, 0, JoinSplitValues(tx.joinsplits))
    ensures Balance(tx, utxos).Ok? ==>
              Balance(tx, utxos).value == ValueBalance(Total(InputValues(tx.inputs, utxos)) - Total(tx.outputs),
                                                       NewTotal(tx.joinsplits) - OldTotal(tx.joinsplits),
                                                       tx.sapling, tx.orchard, 0, tx.ironwood)
  {
    hide TransparentBalance, SproutBalance, PrefixesFit, Total, InputValues, JoinSplitValues;
    TransparentIs(tx, utxos);
    SproutIs(tx);
    if SproutBalance(tx).Ok? { SproutInRange(tx); }
    if TransparentBalance(tx, utxos).Ok? {
      NonNegSum(InputValues(tx.inputs, utxos));
      NonNegSum(tx.outputs);
    }
  }

  /** JoinSplits never cause an error in the transparent pool. */
  lemma {:induction false} SproutErrors(acc: ValueBalance, js: seq<JoinSplit>)
    requires acc.transparent == 0
    ensures var r := FoldBalances(acc, JoinSplitBalances(js)); r.Err? ==> r.error.InPool? && !r.error.pool.Transparent?
    decreases |js|
  {
    if js != [] {
      var vs := JoinSplitBalances(js);
      assert vs[1..] == JoinSplitBalances(js[1..]);
      SproutErrors(Plus(acc, vs[0].value), js[1..]);
    }
  }

  /** A transaction fails in its transparent pool only if its inputs or its outputs exceed the maximum. */
  lemma BalanceErrors(tx: Tx, utxos: Utxos)
    requires Covers(utxos, tx.inputs)
    ensures var r := Balance(tx, utxos);
            r.Err? && r.error.InPool? && r.error.pool.Transparent? ==>
              r.error.error.SumOverflow? && r.error.error.partialSum > MAX_MONEY
  {
    hide Sum, Total, InputValues, SproutBalance, FoldBalances;
    BalanceIs(tx, utxos);
    TransparentIs(tx, utxos);
    SproutIs(tx);
    SproutBalanceErrors(tx);
    if Sum(NonNegative, InputValues(tx.inputs, utxos)).Err? { NonNegSumFails(InputValues(tx.inputs, utxos)); }
    if Sum(NonNegative, tx.outputs).Err? { NonNegSumFails(tx.outputs); }
    NonNegSum(InputValues(tx.inputs, utxos));
    NonNegSum(tx.outputs);
  }

  lemma SproutBalanceErrors(tx: Tx)
    ensures SproutBalance(tx).Err? ==> SproutBalance(tx).error.InPool? && !SproutBalance(tx).error.pool.Transparent?
  {
    SproutErrors(ZERO, tx.joinsplits);
  }

  // ---------------------------------------------------------------- blocks

  predicate CoversBlock(utxos: Utxos, txs: seq<Tx>) {
    forall i :: 0 <= i < |txs| ==> Covers(utxos, txs[i].inputs)
  }

  function Balances(txs: seq<Tx>, utxos: Utxos): (r: seq<Result<ValueBalance, BalanceError>>)
    requires CoversBlock(utxos, txs)
    ensures |r| == |txs| && forall i :: 0 <= i < |txs| ==> r[i] == Balance(txs[i], utxos)
  {
    seq(|txs|, i requires 0 <= i < |txs| => Balance(txs[i], utxos))
  }

  function ChainValuePoolChange(
    txs: seq<Tx>, utxos: Utxos, deferred: Option<Signed>): Result<ValueBalance, BalanceError>
    requires CoversBlock(utxos, txs)
  {
    var sum :- FoldBalances(ZERO, Balances(txs, utxos));
    Ok(Neg(sum).(deferred := if deferred.Some? then deferred.value else 0))
  }

  /**
   A block has a pool change exactly when each of its transactions has a balance and every running total of
   every pool is in range. Each pool then changes by minus the total of the balances, except the deferred pool,
   which changes by the given amount; the value it replaces is always zero.
   */
  lemma PoolChange(txs: seq<Tx>, utxos: Utxos, deferred: Option<Signed>)
    requires CoversBlock(utxos, txs)
    ensures var bs := Balances(txs, utxos);
            var change := ChainValuePoolChange(txs, utxos, deferred);
            && (change.Ok? <==> (forall i :: 0 <= i < |txs| ==> Balance(txs[i], utxos).Ok?) && ColumnsFit(ZERO, bs))
            && (change.Ok? ==>
                  && (forall p: Pool :: !p.Deferred? ==> Get(change.value, p) == -Total(Column(bs, p)))
                  && change.value.deferred == (if deferred.Some? then deferred.value else 0)
                  && FoldBalances(ZERO, bs).Ok? && FoldBalances(ZERO, bs).value.deferred == 0)
  {
    hide Balance, FoldBalances, ColumnsFit, Total;
    var bs := Balances(txs, utxos);
    FoldBalancesIs(ZERO, bs);
    if FoldBalances(ZERO, bs).Ok? {
      var sum := FoldBalances(ZERO, bs).value;
      forall i | 0 <= i < |txs| ensures Column(bs, Deferred)[i] == 0 {
        BalanceIs(txs[i], utxos);
      }
      ZerosTotal(Column(bs, Deferred));
      forall p: Pool ensures Get(Neg(sum), p) == -Total(Column(bs, p)) {
        PlusIs(sum, sum, p);
      }
      assert Get(sum, Deferred) == sum.deferred;
    }
  }

  /** What each transaction leaves in, or takes from, the transaction value pool. */
  function Remainders(bs: seq<Result<ValueBalance, BalanceError>>): (r: seq<int>)
    ensures |r| == |bs|
    ensures forall i :: 0 <= i < |bs| ==> r[i] == if bs[i].Ok? then TransactionTotal(bs[i].value) else 0
  {
    seq(|bs|, i requires 0 <= i < |bs| => if bs[i].Ok? then TransactionTotal(bs[i].value) else 0)
  }

  lemma {:induction false} TotalOfRows(bs: seq<Result<ValueBalance, BalanceError>>)
    ensures Total(Remainders(bs)) == Total(Column(bs, Transparent)) + Total(Column(bs, Sprout))
                                   + Total(Column(bs, Sapling)) + Total(Column(bs, Orchard))
                                   + Total(Column(bs, Ironwood))
  {
    if bs != [] {
      TotalOfRows(bs[1..]);
      assert Remainders(bs)[1..] == Remainders(bs[1..]);
      ColumnTail(bs, Transparent);
      ColumnTail(bs, Sprout);
      ColumnTail(bs, Sapling);
      ColumnTail(bs, Orchard);
      ColumnTail(bs, Ironwood);
    }
  }

  /** Value conservation: what a block's transactions leave over is what the chain's pools lose together. */
  lemma BlockConserves(txs: seq<Tx>, utxos: Utxos, deferred: Option<Signed>)
    requires CoversBlock(utxos, txs) && ChainValuePoolChange(txs, utxos, deferred).Ok?
    ensures TransactionTotal(ChainValuePoolChange(txs, utxos, deferred).value)
         == -Total(Remainders(Balances(txs, utxos)))
  {
    hide Balances, ChainValuePoolChange, Total, ColumnsFit;
    PoolChange(txs, utxos, deferred);
    TotalOfRows(Balances(txs, utxos));
    var change := ChainValuePoolChange(txs, utxos, deferred).value;
    assert Get(change, Transparent) + Get(change, Sprout) + Get(change, Sapling) + Get(change, Orchard)
         + Get(change, Ironwood) == TransactionTotal(change);
  }
}
