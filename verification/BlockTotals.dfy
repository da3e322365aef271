/**
 The totals a block verifier forms while transaction results arrive in any order, and the checks on them: the
 verdict does not depend on the order.
 */
module BlockTotals {
  import opened Prelude
  import opened Amount
  import opened ValueBalances
  import opened Transactions

  const MAX_BLOCK_SIGOPS: nat := 20_000
  const TWO_TO_THE_32: nat := 0x1_0000_0000

  type U32 = n: nat | n < TWO_TO_THE_32

  /** A successful transaction check; a coinbase transaction has no fee. */
  datatype Response = Response(sigops: U32, fee: Option<NonNeg>)

  function Sigops(rs: seq<Response>): nat {
    if rs == [] then 0 else Sigops(rs[..|rs| - 1]) + rs[|rs| - 1].sigops
  }

  function FeeOf(r: Response): NonNeg {
    if r.fee.Some? then r.fee.value else 0
  }

  function Fees(rs: seq<Response>): nat {
    if rs == [] then 0 else Fees(rs[..|rs| - 1]) + FeeOf(rs[|rs| - 1])
  }

  lemma TotalsSnoc(rs: seq<Response>, n: nat)
    requires n < |rs|
    ensures Fees(rs[..n + 1]) == Fees(rs[..n]) + FeeOf(rs[n])
    ensures Sigops(rs[..n + 1]) == Sigops(rs[..n]) + rs[n].sigops
  {
    assert rs[..n + 1][..n] == rs[..n];
  }

  lemma WrapAdd(a: nat, b: nat)
    ensures (a % TWO_TO_THE_32 + b) % TWO_TO_THE_32 == (a + b) % TWO_TO_THE_32
  {
    assert a == a / TWO_TO_THE_32 * TWO_TO_THE_32 + a % TWO_TO_THE_32;
  }

  /** The loop over the results, in the order in which they complete; the signature operations are a 32-bit counter. */
  method SumResponses(rs: seq<Response>) returns (sigops: U32, fees: Result<int, Error>)
    ensures sigops == Sigops(rs) % TWO_TO_THE_32
    ensures fees.Ok? <==> Fees(rs) <= MAX_MONEY
    ensures fees.Ok? ==> fees.value == Fees(rs)
    ensures fees.Err? ==> fees.error.OutOfRange? && MAX_MONEY < fees.error.value <= Fees(rs)
  {
    sigops, fees := 0, Ok(0);
    for n := 0 to |rs|
      invariant sigops == Sigops(rs[..n]) % TWO_TO_THE_32
      invariant fees.Ok? <==> Fees(rs[..n]) <= MAX_MONEY
      invariant fees.Ok? ==> fees.value == Fees(rs[..n])
      invariant fees.Err? ==> fees.error.OutOfRange? && MAX_MONEY < fees.error.value <= Fees(rs[..n])
    {
      TotalsSnoc(rs, n);
      WrapAdd(Sigops(rs[..n]), rs[n].sigops);
      sigops := (sigops + rs[n].sigops) % TWO_TO_THE_32;
      if rs[n].fee.Some? {
        fees := AddAssign(NonNegative, fees, rs[n].fee.value);
      }
    }
    assert rs[..|rs|] == rs;
  }

  // ---------------------------------------------------------------- order independence

  lemma {:induction false} TotalsSplit(a: seq<Response>, b: seq<Response>)
    ensures Sigops(a + b) == Sigops(a) + Sigops(b)
    ensures Fees(a + b) == Fees(a) + Fees(b)
  {
    if b == [] {
      assert a + b == a;
    } else {
      TotalsSplit(a, b[..|b| - 1]);
      assert (a + b)[..|a + b| - 1] == a + b[..|b| - 1];
    }
  }

  lemma TotalsWithout(rs: seq<Response>, i: nat)
    requires i < |rs|
    ensures var rest := rs[..i] + rs[i + 1..];
            && multiset(rest) == multiset(rs) - multiset{rs[i]}
            && Sigops(rs) == Sigops(rest) + rs[i].sigops && Fees(rs) == Fees(rest) + FeeOf(rs[i])
  {
    assert rs == rs[..i + 1] + rs[i + 1..];
    assert rs[..i + 1] == rs[..i] + [rs[i]];
    TotalsSplit(rs[..i + 1], rs[i + 1..]);
    TotalsSnoc(rs, i);
    TotalsSplit(rs[..i], rs[i + 1..]);
  }

  /** Two orders of the same responses have the same totals. */
  lemma {:induction false} TotalsOfPermutation(a: seq<Response>, b: seq<Response>)
    requires multiset(a) == multiset(b)
    ensures Sigops(a) == Sigops(b) && Fees(a) == Fees(b)
    decreases |a|
  {
    hide Sigops, Fees;
    assert |a| == |multiset(a)| == |multiset(b)| == |b|;
    if a == [] {
      assert b == a;
    } else {
      assert a[0] in multiset(b);
      var i :| 0 <= i < |b| && b[i] == a[0];
      TotalsWithout(a, 0);
      TotalsWithout(b, i);
      TotalsOfPermutation(a[..0] + a[1..], b[..i] + b[i + 1..]);
    }
  }

  // ---------------------------------------------------------------- the checks

  datatype Verdict = Accepted | TooManySigops | SummingMinerFees | SubsidyOverflow | InvalidMinerFees

  /** `miner_fees_are_valid`; before NU6 the coinbase transaction may claim less than its total input. */
  function MinerFees(coinbase: Tx, fees: NonNeg, subsidy: NonNeg, deferred: Signed, nu6: bool): Verdict {
    var transparent := Sum(NonNegative, coinbase.outputs);
    if transparent.Err? then SubsidyOverflow
    else
      var output := AddAssign(NegativeAllowed, AddAssign(NegativeAllowed, AddAssign(NegativeAllowed,
                      Amount.Add(NegativeAllowed, transparent.value, -coinbase.sapling), -coinbase.orchard),
                      -coinbase.ironwood), deferred);
      if output.Err? then SubsidyOverflow
      else
        var input := Amount.Add(NonNegative, subsidy, fees);
        if input.Err? then SubsidyOverflow
        else if if nu6 then output.value != input.value else output.value > input.value then InvalidMinerFees
        else Accepted
  }

  /** The verdict of the block verifier on its totals. */
  function VerdictOn(
    sigops: U32, fees: Result<int, Error>, coinbase: Tx, subsidy: NonNeg, deferred: Signed, nu6: bool): Verdict
    requires fees.Ok? ==> 0 <= fees.value <= MAX_MONEY
  {
    if sigops > MAX_BLOCK_SIGOPS then TooManySigops
    else if fees.Err? then SummingMinerFees
    else MinerFees(coinbase, fees.value, subsidy, deferred, nu6)
  }

  method CheckTotals(rs: seq<Response>, coinbase: Tx, subsidy: NonNeg, deferred: Signed, nu6: bool) returns (v: Verdict)
    ensures v == VerdictFor(rs, coinbase, subsidy, deferred, nu6)
  {
    var sigops, fees := SumResponses(rs);
    v := VerdictOn(sigops, fees, coinbase, subsidy, deferred, nu6);
  }

  /** The verdict in terms of the mathematical totals. */
  ghost function VerdictFor(rs: seq<Response>, coinbase: Tx, subsidy: NonNeg, deferred: Signed, nu6: bool): Verdict {
    if Sigops(rs) % TWO_TO_THE_32 > MAX_BLOCK_SIGOPS then TooManySigops
    else if Fees(rs) > MAX_MONEY then SummingMinerFees
    else MinerFees(coinbase, Fees(rs), subsidy, deferred, nu6)
  }

  /** The order in which transaction results complete does not change the verdict. */
  lemma VerdictIgnoresOrder(
    a: seq<Response>, b: seq<Response>, coinbase: Tx, subsidy: NonNeg, deferred: Signed, nu6: bool)
    requires multiset(a) == multiset(b)
    ensures VerdictFor(a, coinbase, subsidy, deferred, nu6) == VerdictFor(b, coinbase, subsidy, deferred, nu6)
  {
    TotalsOfPermutation(a, b);
  }

  /**
   The signature operation limit: an accepted block has a counter of at most 20,000. The counter is the number of
   operations exactly when that number fits in 32 bits, and only then is an accepted block within the limit.
   */
  lemma SigopLimit(rs: seq<Response>, coinbase: Tx, subsidy: NonNeg, deferred: Signed, nu6: bool)
    ensures VerdictFor(rs, coinbase, subsidy, deferred, nu6) == TooManySigops <==> Sigops(rs) % TWO_TO_THE_32 > 20_000
    ensures Sigops(rs) < TWO_TO_THE_32 ==>
              (VerdictFor(rs, coinbase, subsidy, deferred, nu6) == TooManySigops <==> Sigops(rs) > 20_000)
    ensures VerdictFor(rs, coinbase, subsidy, deferred, nu6) == Accepted ==>
              (Sigops(rs) <= 20_000 <==> Sigops(rs) < TWO_TO_THE_32)
  {
    hide Sigops, Fees, MinerFees;
    if Sigops(rs) < TWO_TO_THE_32 {
      assert Sigops(rs) % TWO_TO_THE_32 == Sigops(rs);
    }
    MinerFeesVerdicts(coinbase, subsidy, deferred, nu6);
  }

  lemma MinerFeesVerdicts(coinbase: Tx, subsidy: NonNeg, deferred: Signed, nu6: bool)
    ensures forall fees: NonNeg :: MinerFees(coinbase, fees, subsidy, deferred, nu6) != TooManySigops
  {
  }

  /** The fee limit: summing the fees fails exactly when they exceed the maximum. */
  lemma FeeLimit(rs: seq<Response>, coinbase: Tx, subsidy: NonNeg, deferred: Signed, nu6: bool)
    ensures VerdictFor(rs, coinbase, subsidy, deferred, nu6) == SummingMinerFees <==>
              Sigops(rs) % TWO_TO_THE_32 <= 20_000 && Fees(rs) > MAX_MONEY
  {
  }

  /** A coinbase transaction that claims nothing. */
  const NO_CLAIM := Tx(0, [], [], [], 0, 0, 0)

  lemma NoClaimAccepted(tx: Tx, fees: NonNeg, subsidy: NonNeg)
    requires tx.outputs == [] && tx.sapling == tx.orchard == tx.ironwood == 0 && subsidy + fees <= MAX_MONEY
    ensures MinerFees(tx, fees, subsidy, 0, false) == Accepted
  {
    hide Sum;
    NonNegSum(tx.outputs);
  }

  lemma TwiceTotals(r: Response)
    requires r.fee.None?
    ensures Sigops([r, r]) == 2 * r.sigops && Fees([r, r]) == 0
  {
    TotalsSplit([r], [r]);
    assert [r][..0] == [];
    assert [r] + [r] == [r, r];
  }

  /** Two responses with 2^31 operations each are within the limit of the counter. */
  lemma SigopCounterWraps()
    ensures var r := Response(0x8000_0000, None);
            Sigops([r, r]) == TWO_TO_THE_32 && VerdictFor([r, r], NO_CLAIM, 0, 0, false) == Accepted
  {
    hide Sigops, Fees, MinerFees;
    TwiceTotals(Response(0x8000_0000, None));
    NoClaimAccepted(NO_CLAIM, 0, 0);
  }
}
