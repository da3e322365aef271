/**
 The value pools of a transaction or of the chain: pool-wise checked arithmetic, the remaining value of a
 transaction, and the stored record.
 */
module ValueBalances {
  import opened Prelude
  import opened Amount

  /** The pools, in the order in which they are checked. */
  datatype Pool = Transparent | Sprout | Sapling | Orchard | Deferred | Ironwood

  datatype ValueBalance = ValueBalance(
    transparent: int, sprout: int, sapling: int, orchard: int, deferred: int, ironwood: int)

  datatype BalanceError = InPool(pool: Pool, error: Error) | Unparsable

  const ZERO := ValueBalance(0, 0, 0, 0, 0, 0)

  function Get(v: ValueBalance, p: Pool): int {
    match p
    case Transparent => v.transparent
    case Sprout => v.sprout
    case Sapling => v.sapling
    case Orchard => v.orchard
    case Deferred => v.deferred
    case Ironwood => v.ironwood
  }

  /** The place of a pool in the order of the checks and of the stored record. */
  function Place(p: Pool): (k: nat)
    ensures k < 6
  {
    match p
    case Transparent => 0
    case Sprout => 1
    case Sapling => 2
    case Orchard => 3
    case Deferred => 4
    case Ironwood => 5
  }

  ghost predicate Fits(c: Constraint, v: ValueBalance) {
    forall p: Pool :: InRange(c, Get(v, p))
  }

  /** Checks each pool in turn; the first one out of range is the error. */
  function Constrain(c: Constraint, v: ValueBalance): Result<ValueBalance, BalanceError> {
    if !InRange(c, v.transparent) then Err(InPool(Transparent, OutOfRange(v.transparent)))
    else if !InRange(c, v.sprout) then Err(InPool(Sprout, OutOfRange(v.sprout)))
    else if !InRange(c, v.sapling) then Err(InPool(Sapling, OutOfRange(v.sapling)))
    else if !InRange(c, v.orchard) then Err(InPool(Orchard, OutOfRange(v.orchard)))
    else if !InRange(c, v.deferred) then Err(InPool(Deferred, OutOfRange(v.deferred)))
    else if !InRange(c, v.ironwood) then Err(InPool(Ironwood, OutOfRange(v.ironwood)))
    else Ok(v)
  }

  function Plus(a: ValueBalance, b: ValueBalance): ValueBalance {
    ValueBalance(a.transparent + b.transparent, a.sprout + b.sprout, a.sapling + b.sapling,
                 a.orchard + b.orchard, a.deferred + b.deferred, a.ironwood + b.ironwood)
  }

  /** Pool-wise checked addition. */
  function Add(c: Constraint, a: ValueBalance, b: ValueBalance): Result<ValueBalance, BalanceError> {
    Constrain(c, Plus(a, b))
  }

  function Neg(v: ValueBalance): ValueBalance {
    ValueBalance(-v.transparent, -v.sprout, -v.sapling, -v.orchard, -v.deferred, -v.ironwood)
  }

  lemma ConstrainIs(c: Constraint, v: ValueBalance)
    ensures Constrain(c, v) == Ok(v) || Constrain(c, v).Err?
    ensures Constrain(c, v).Ok? <==> Fits(c, v)
    ensures Constrain(c, v).Err? ==>
              && Constrain(c, v).error.InPool?
              && Constrain(c, v).error.error == OutOfRange(Get(v, Constrain(c, v).error.pool))
              && !InRange(c, Get(v, Constrain(c, v).error.pool))
              && forall p: Pool :: Place(p) < Place(Constrain(c, v).error.pool) ==> InRange(c, Get(v, p))
  {
    if Fits(c, v) {
      assert InRange(c, Get(v, Transparent)) && InRange(c, Get(v, Sprout)) && InRange(c, Get(v, Sapling));
      assert InRange(c, Get(v, Orchard)) && InRange(c, Get(v, Deferred)) && InRange(c, Get(v, Ironwood));
    }
  }

  lemma PlusIs(a: ValueBalance, b: ValueBalance, p: Pool)
    ensures Get(Plus(a, b), p) == Get(a, p) + Get(b, p)
    ensures Get(Neg(a), p) == -Get(a, p)
    ensures Get(ZERO, p) == 0
  {
  }

  // ---------------------------------------------------------------- sums

  /** Adds balances in turn; the first error, of a balance or of the addition, ends it. */
  function FoldBalances(
    acc: ValueBalance, vs: seq<Result<ValueBalance, BalanceError>>): Result<ValueBalance, BalanceError>
    decreases |vs|
  {
    if vs == [] then Ok(acc)
    else
      var v :- vs[0];
      var sum :- Add(NegativeAllowed, acc, v);
      FoldBalances(sum, vs[1..])
  }

  /** One pool of each balance. */
  function Column(vs: seq<Result<ValueBalance, BalanceError>>, p: Pool): (r: seq<int>)
    ensures |r| == |vs|
    ensures forall i :: 0 <= i < |vs| ==> r[i] == if vs[i].Ok? then Get(vs[i].value, p) else 0
  {
    seq(|vs|, i requires 0 <= i < |vs| => if vs[i].Ok? then Get(vs[i].value, p) else 0)
  }

  lemma ColumnTail(vs: seq<Result<ValueBalance, BalanceError>>, p: Pool)
    requires vs != []
    ensures Column(vs, p)[1..] == Column(vs[1..], p)
  {
  }

  /** Every running total of every pool is in range. */
  ghost predicate ColumnsFit(acc: ValueBalance, vs: seq<Result<ValueBalance, BalanceError>>) {
    forall p: Pool :: PrefixesFit(NegativeAllowed, Get(acc, p), Column(vs, p))
  }

  lemma ColumnsFitTail(acc: ValueBalance, vs: seq<Result<ValueBalance, BalanceError>>)
    requires vs != [] && vs[0].Ok?
    ensures ColumnsFit(acc, vs) <==>
              Fits(NegativeAllowed, Plus(acc, vs[0].value)) && ColumnsFit(Plus(acc, vs[0].value), vs[1..])
  {
    hide PrefixesFit, InRange, Get, Plus;
    var sum := Plus(acc, vs[0].value);
    forall p: Pool
      ensures PrefixesFit(NegativeAllowed, Get(acc, p), Column(vs, p))
         <==> InRange(NegativeAllowed, Get(sum, p)) && PrefixesFit(NegativeAllowed, Get(sum, p), Column(vs[1..], p))
    {
      PrefixesCons(NegativeAllowed, Get(acc, p), Column(vs, p));
      ColumnTail(vs, p);
      PlusIs(acc, vs[0].value, p);
    }
  }

  /**
   A sum of balances succeeds exactly when no balance is an error and every running total of every pool is in
   range; then it is the pool-wise total.
   */
  lemma {:induction false} FoldBalancesIs(acc: ValueBalance, vs: seq<Result<ValueBalance, BalanceError>>)
    ensures FoldBalances(acc, vs).Ok? <==> (forall i :: 0 <= i < |vs| ==> vs[i].Ok?) && ColumnsFit(acc, vs)
    ensures FoldBalances(acc, vs).Ok? ==>
              forall p: Pool :: Get(FoldBalances(acc, vs).value, p) == Get(acc, p) + Total(Column(vs, p))
    decreases |vs|
  {
    hide ColumnsFit, Fits, Get, Plus, Total, Constrain;
    if vs == [] {
      NoColumns(acc);
    } else if vs[0].Ok? {
      var sum := Plus(acc, vs[0].value);
      ColumnsFitTail(acc, vs);
      ConstrainIs(NegativeAllowed, sum);
      FoldBalancesIs(sum, vs[1..]);
      assert (forall i :: 0 <= i < |vs| ==> vs[i].Ok?) <==> forall i :: 0 <= i < |vs[1..]| ==> vs[1..][i].Ok? by {
        assert forall i :: 0 < i < |vs| ==> vs[i] == vs[1..][i - 1];
      }
      forall p: Pool ensures Get(sum, p) + Total(Column(vs[1..], p)) == Get(acc, p) + Total(Column(vs, p)) {
        ColumnTail(vs, p);
        PlusIs(acc, vs[0].value, p);
        TotalCons(Column(vs, p));
      }
    }
  }

  lemma TotalCons(xs: seq<int>)
    requires xs != []
    ensures Total(xs) == xs[0] + Total(xs[1..])
  {
  }

  lemma NoColumns(acc: ValueBalance)
    ensures ColumnsFit(acc, [])
    ensures forall p: Pool :: Total(Column([], p)) == 0
  {
  }

  // ---------------------------------------------------------------- the transaction value pool

  /** All pools of a transaction but the deferred one, which transactions do not use. */
  function TransactionTotal(v: ValueBalance): int {
    v.transparent + v.sprout + v.sapling + v.orchard + v.ironwood
  }

  function RemainingTransactionValue(v: ValueBalance): Result<int, Error> {
    var sum :- AddAssign(NegativeAllowed, AddAssign(NegativeAllowed, AddAssign(NegativeAllowed,
                 Amount.Add(NegativeAllowed, v.transparent, v.sprout), v.sapling), v.orchard), v.ironwood);
    Validate(NonNegative, sum)
  }

  /** The running totals that the code forms on the way. */
  predicate RunningTotalsFit(v: ValueBalance) {
    && InRange(NegativeAllowed, v.transparent + v.sprout)
    && InRange(NegativeAllowed, v.transparent + v.sprout + v.sapling)
    && InRange(NegativeAllowed, v.transparent + v.sprout + v.sapling + v.orchard)
  }

  /**
   The remaining value is the total of the pools. It is refused when it is negative or above the maximum, and
   also when a running total leaves the range.
   */
  lemma RemainingIs(v: ValueBalance)
    ensures RemainingTransactionValue(v).Ok? <==> InRange(NonNegative, TransactionTotal(v)) && RunningTotalsFit(v)
    ensures RemainingTransactionValue(v).Ok? ==> RemainingTransactionValue(v).value == TransactionTotal(v)
    ensures RemainingTransactionValue(v).Err? ==>
              RemainingTransactionValue(v).error.OutOfRange?
              && if RunningTotalsFit(v) then RemainingTransactionValue(v).error.value == TransactionTotal(v)
                 else !InRange(NegativeAllowed, RemainingTransactionValue(v).error.value)
  {
  }

  /** A balance with all pools and the total in range is refused, because of a running total. */
  lemma RemainingCanOverflow()
    ensures var v := ValueBalance(MAX_MONEY, 1, -1, 0, 0, 0);
            && Fits(NegativeAllowed, v) && InRange(NonNegative, TransactionTotal(v))
            && RemainingTransactionValue(v) == Err(OutOfRange(MAX_MONEY + 1))
  {
  }

  // ---------------------------------------------------------------- the chain value pools

  function AddChainValuePoolChange(pools: ValueBalance, change: ValueBalance): Result<ValueBalance, BalanceError> {
    var sum :- Add(NegativeAllowed, pools, change);
    Constrain(NonNegative, sum)
  }

  /** The change is accepted exactly when no pool becomes negative or exceeds the maximum. */
  lemma PoolChangeIs(pools: ValueBalance, change: ValueBalance)
    ensures AddChainValuePoolChange(pools, change).Ok? <==> Fits(NonNegative, Plus(pools, change))
    ensures AddChainValuePoolChange(pools, change).Ok? ==>
              AddChainValuePoolChange(pools, change).value == Plus(pools, change)
    ensures AddChainValuePoolChange(pools, change).Err? ==>
              exists p: Pool ::
                && AddChainValuePoolChange(pools, change).error == InPool(p, OutOfRange(Get(Plus(pools, change), p)))
                && !InRange(NonNegative, Get(Plus(pools, change), p))
  {
    hide Constrain, Get, Plus;
    var sum := Plus(pools, change);
    ConstrainIs(NegativeAllowed, sum);
    ConstrainIs(NonNegative, sum);
    if Fits(NonNegative, sum) {
      assert forall p: Pool :: InRange(NonNegative, Get(sum, p)) ==> InRange(NegativeAllowed, Get(sum, p));
    }
  }

  // ---------------------------------------------------------------- the stored record

  function ToBytes(v: ValueBalance): seq<Byte>
    requires Fits(NonNegative, v)
  {
    assert forall p: Pool :: InRange(NonNegative, Get(v, p));
    Amount.ToBytes(Get(v, Transparent)) + Amount.ToBytes(Get(v, Sprout)) + Amount.ToBytes(Get(v, Sapling))
    + Amount.ToBytes(Get(v, Orchard)) + Amount.ToBytes(Get(v, Deferred)) + Amount.ToBytes(Get(v, Ironwood))
  }

  /** One pool of a record; its error names the pool. */
  function PoolFromBytes(bytes: seq<Byte>, start: nat, p: Pool): Result<int, BalanceError>
    requires start + 8 <= |bytes|
  {
    var r := Amount.FromBytes(NonNegative, bytes[start..start + 8]);
    if r.Ok? then Ok(r.value) else Err(InPool(p, r.error))
  }

  /** Records of 32 and 40 bytes lack the pools that were added later; those are zero. */
  function FromBytes(bytes: seq<Byte>): Result<ValueBalance, BalanceError> {
    if |bytes| != 32 && |bytes| != 40 && |bytes| != 48 then Err(Unparsable)
    else
      var transparent :- PoolFromBytes(bytes, 0, Transparent);
      var sprout :- PoolFromBytes(bytes, 8, Sprout);
      var sapling :- PoolFromBytes(bytes, 16, Sapling);
      var orchard :- PoolFromBytes(bytes, 24, Orchard);
      var deferred :- if |bytes| == 32 then Ok(0) else PoolFromBytes(bytes, 32, Deferred);
      var ironwood :- if |bytes| < 48 then Ok(0) else PoolFromBytes(bytes, 40, Ironwood);
      Ok(ValueBalance(transparent, sprout, sapling, orchard, deferred, ironwood))
  }

  function Zeros(n: nat): seq<Byte> {
    seq(n, i => 0)
  }

  lemma {:induction false} ZeroDigits(count: nat)
    ensures Digits(0, count) == Zeros(count)
  {
    if count > 0 {
      ZeroDigits(count - 1);
    }
  }

  lemma BytesLength(v: Signed)
    ensures |Amount.ToBytes(v)| == 8
  {
  }

  /** The six slices of a record are the encodings of its pools. */
  lemma Slices(v: ValueBalance)
    requires Fits(NonNegative, v)
    ensures |ToBytes(v)| == 48
    ensures ToBytes(v)[0..8] == Amount.ToBytes(Get(v, Transparent))
    ensures ToBytes(v)[8..16] == Amount.ToBytes(Get(v, Sprout))
    ensures ToBytes(v)[16..24] == Amount.ToBytes(Get(v, Sapling))
    ensures ToBytes(v)[24..32] == Amount.ToBytes(Get(v, Orchard))
    ensures ToBytes(v)[32..40] == Amount.ToBytes(Get(v, Deferred))
    ensures ToBytes(v)[40..48] == Amount.ToBytes(Get(v, Ironwood))
  {
    hide Amount.ToBytes, Get;
    forall p: Pool ensures |Amount.ToBytes(Get(v, p))| == 8 {
      assert InRange(NonNegative, Get(v, p));
      BytesLength(Get(v, p));
    }
  }

  /** The layout of a record: eight little-endian bytes per pool, in the order of the pools. */
  lemma RecordLayout(v: ValueBalance, p: Pool, k: nat)
    requires Fits(NonNegative, v) && k < 8
    ensures |ToBytes(v)| == 48 && Power(k) > 0
    ensures ToBytes(v)[8 * Place(p) + k] == Get(v, p) / Power(k) % 256
  {
    hide ToBytes, Amount.ToBytes, Power;
    Slices(v);
    assert InRange(NonNegative, Get(v, p));
    BytesAreLittleEndian(Get(v, p), k);
    var start := 8 * Place(p);
    assert ToBytes(v)[start..start + 8] == Amount.ToBytes(Get(v, p));
    assert ToBytes(v)[start..start + 8][k] == ToBytes(v)[start + k];
  }

  /** Every non-negative balance is read back from its record. */
  lemma RecordRoundTrip(v: ValueBalance)
    requires Fits(NonNegative, v)
    ensures |ToBytes(v)| == 48 && FromBytes(ToBytes(v)) == Ok(v)
  {
    hide ToBytes, Amount.ToBytes, Amount.FromBytes;
    Slices(v);
    forall p: Pool
      ensures InRange(NonNegative, Get(v, p)) && |Amount.ToBytes(Get(v, p))| == 8
           && Amount.FromBytes(NonNegative, Amount.ToBytes(Get(v, p))) == Ok(Get(v, p))
    {
      BytesLength(Get(v, p));
      BytesRoundTrip(NonNegative, Get(v, p));
    }
    assert Get(v, Transparent) == v.transparent && Get(v, Sprout) == v.sprout && Get(v, Sapling) == v.sapling;
    assert Get(v, Orchard) == v.orchard && Get(v, Deferred) == v.deferred && Get(v, Ironwood) == v.ironwood;
  }

  lemma PoolBack(bytes: seq<Byte>, start: nat, p: Pool)
    requires start + 8 <= |bytes| && PoolFromBytes(bytes, start, p).Ok?
    ensures var v := PoolFromBytes(bytes, start, p).value;
            InRange(NonNegative, v) && Amount.ToBytes(v) == bytes[start..start + 8]
  {
    BytesRoundTripBack(NonNegative, bytes[start..start + 8]);
  }

  /** What is read from a record is non-negative, and its record is the same one, padded with zeros. */
  lemma RecordRoundTripBack(bytes: seq<Byte>)
    requires FromBytes(bytes).Ok?
    ensures Fits(NonNegative, FromBytes(bytes).value)
    ensures ToBytes(FromBytes(bytes).value) == bytes + Zeros(48 - |bytes|)
  {
    hide Amount.ToBytes, Amount.FromBytes, PoolFromBytes, Digits;
    var v := FromBytes(bytes).value;
    PoolBack(bytes, 0, Transparent);
    PoolBack(bytes, 8, Sprout);
    PoolBack(bytes, 16, Sapling);
    PoolBack(bytes, 24, Orchard);
    if |bytes| > 32 { PoolBack(bytes, 32, Deferred); } else { ZeroBytes(); }
    if |bytes| > 40 { PoolBack(bytes, 40, Ironwood); } else { ZeroBytes(); }
    assert forall p: Pool :: InRange(NonNegative, Get(v, p));
    assert bytes[..32] == bytes[0..8] + bytes[8..16] + bytes[16..24] + bytes[24..32];
    if |bytes| == 32 {
      assert ToBytes(v) == bytes[..32] + Zeros(8) + Zeros(8);
    } else if |bytes| == 40 {
      assert ToBytes(v) == bytes[..32] + bytes[32..40] + Zeros(8);
    } else {
      assert ToBytes(v) == bytes[..32] + bytes[32..40] + bytes[40..48];
    }
  }

  lemma ZeroBytes()
    ensures Amount.ToBytes(0) == Zeros(8)
  {
    ZeroDigits(8);
  }

  /** A record is unparsable exactly when its length is none of the three. */
  lemma RecordLengths(bytes: seq<Byte>)
    ensures FromBytes(bytes) == Err(Unparsable) <==> |bytes| !in {32, 40, 48}
  {
  }

  /** The bytes of one pool in a record. */
  function Slot(bytes: seq<Byte>, p: Pool): (r: seq<Byte>)
    requires 8 * Place(p) + 8 <= |bytes|
    ensures |r| == 8
  {
    bytes[8 * Place(p)..8 * Place(p) + 8]
  }

  /** The bytes of one pool are in the record, and are an amount that is out of range. */
  predicate BadSlot(bytes: seq<Byte>, p: Pool, error: Error) {
    8 * Place(p) + 8 <= |bytes| && Amount.FromBytes(NonNegative, Slot(bytes, p)) == Err(error)
  }

  /** A record of a known length is refused exactly for an amount that is out of range: the error names the first. */
  lemma RecordErrors(bytes: seq<Byte>)
    requires |bytes| in {32, 40, 48}
    ensures FromBytes(bytes).Err? <==> exists p: Pool, e: Error :: BadSlot(bytes, p, e)
    ensures FromBytes(bytes).Err? ==>
              && FromBytes(bytes).error.InPool?
              && BadSlot(bytes, FromBytes(bytes).error.pool, FromBytes(bytes).error.error)
              && forall p: Pool, e: Error :: BadSlot(bytes, p, e) ==> Place(FromBytes(bytes).error.pool) <= Place(p)
  {
    hide Amount.FromBytes;
    if FromBytes(bytes).Err? {
      assert BadSlot(bytes, FromBytes(bytes).error.pool, FromBytes(bytes).error.error);
    }
  }
}
