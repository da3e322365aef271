/**
 Zatoshi amounts: checked arithmetic that fails early, and their byte encoding. An amount is an integer that is
 in the range of its constraint.
 */
module Amount {
  import opened Prelude

  const MAX_MONEY: int := 21_000_000 * 100_000_000

  datatype Constraint = NegativeAllowed | NonNegative

  type NonNeg = v: int | 0 <= v <= MAX_MONEY
  type Signed = v: int | -MAX_MONEY <= v <= MAX_MONEY

  datatype Error = OutOfRange(value: int) | SumOverflow(partialSum: int, remainingItems: nat)

  predicate InRange(c: Constraint, v: int) {
    (if c.NonNegative? then 0 else -MAX_MONEY) <= v <= MAX_MONEY
  }

  function Validate(c: Constraint, v: int): Result<int, Error> {
    if InRange(c, v) then Ok(v) else Err(OutOfRange(v))
  }

  function Add(c: Constraint, a: int, b: int): Result<int, Error> {
    Validate(c, a + b)
  }

  /** Adding to a running result: once it has failed, it stays as it is. */
  function AddAssign(c: Constraint, acc: Result<int, Error>, b: int): Result<int, Error> {
    if acc.Ok? then Add(c, acc.value, b) else acc
  }

  /** Sequential checked addition; the first failure ends it. */
  function Fold(c: Constraint, acc: int, xs: seq<int>): Result<int, Error>
    decreases |xs|
  {
    if xs == [] then Ok(acc)
    else
      var sum := Add(c, acc, xs[0]);
      if sum.Ok? then Fold(c, sum.value, xs[1..])
      else Err(SumOverflow(acc + xs[0], |xs| - 1))
  }

  function Sum(c: Constraint, xs: seq<int>): Result<int, Error> {
    Fold(c, 0, xs)
  }

  /** The ranges in zatoshi: 21 million coins of 10^8, and for a signed amount as much below zero. */
  lemma RangesAre(v: int)
    ensures InRange(NonNegative, v) <==> 0 <= v <= 2_100_000_000_000_000
    ensures InRange(NegativeAllowed, v) <==> -2_100_000_000_000_000 <= v <= 2_100_000_000_000_000
  {
  }

  // ---------------------------------------------------------------- what a sum is

  function Total(xs: seq<int>): int {
    if xs == [] then 0 else xs[0] + Total(xs[1..])
  }

  /** Every running total is in range. */
  ghost predicate PrefixesFit(c: Constraint, acc: int, xs: seq<int>) {
    forall k :: 1 <= k <= |xs| ==> InRange(c, acc + Total(xs[..k]))
  }

  lemma TotalTake(xs: seq<int>, k: nat)
    requires 1 <= k <= |xs|
    ensures Total(xs[..k]) == xs[0] + Total(xs[1..][..k - 1])
  {
    assert xs[..k][1..] == xs[1..][..k - 1];
  }

  /** The first item decides about the first running total, the others about the later ones. */
  lemma PrefixesCons(c: Constraint, acc: int, xs: seq<int>)
    requires xs != []
    ensures PrefixesFit(c, acc, xs) <==> InRange(c, acc + xs[0]) && PrefixesFit(c, acc + xs[0], xs[1..])
  {
    assert xs[..1] == [xs[0]];
    forall k | 1 <= k <= |xs| ensures acc + Total(xs[..k]) == acc + xs[0] + Total(xs[1..][..k - 1]) {
      TotalTake(xs, k);
    }
    if PrefixesFit(c, acc, xs) {
      assert InRange(c, acc + Total(xs[..1]));
      forall k | 1 <= k <= |xs[1..]| ensures InRange(c, acc + xs[0] + Total(xs[1..][..k])) {
        assert InRange(c, acc + Total(xs[..k + 1]));
      }
    }
  }

  /** The sequential sum succeeds exactly when every running total is in range, and then it is the total. */
  lemma {:induction false} FoldIs(c: Constraint, acc: int, xs: seq<int>)
    ensures Fold(c, acc, xs).Ok? <==> PrefixesFit(c, acc, xs)
    ensures Fold(c, acc, xs).Ok? ==> Fold(c, acc, xs).value == acc + Total(xs)
    decreases |xs|
  {
    hide PrefixesFit, InRange;
    if xs == [] {
      NoPrefixes(c, acc);
    } else {
      PrefixesCons(c, acc, xs);
      FoldIs(c, acc + xs[0], xs[1..]);
    }
  }

  lemma NoPrefixes(c: Constraint, acc: int)
    ensures PrefixesFit(c, acc, [])
  {
  }

  /** A failed sum reports the first running total that is out of range, and how many items were left. */
  lemma {:induction false} FoldFails(c: Constraint, acc: int, xs: seq<int>) returns (k: nat)
    requires Fold(c, acc, xs).Err?
    ensures 1 <= k <= |xs| && PrefixesFit(c, acc, xs[..k - 1]) && !InRange(c, acc + Total(xs[..k]))
    ensures Fold(c, acc, xs).error == SumOverflow(acc + Total(xs[..k]), |xs| - k)
    decreases |xs|
  {
    hide PrefixesFit, InRange;
    var acc' := acc + xs[0];
    if InRange(c, acc') {
      var j := FoldFails(c, acc', xs[1..]);
      k := j + 1;
      TotalTake(xs, k);
      PrefixesCons(c, acc, xs[..k - 1]);
      assert xs[..k - 1][1..] == xs[1..][..j - 1];
    } else {
      k := 1;
      NoPrefixes(c, acc);
      assert xs[..1] == [xs[0]];
    }
  }

  lemma {:induction false} TotalMonotone(xs: seq<NonNeg>, k: nat)
    requires k <= |xs|
    ensures 0 <= Total(xs[..k]) <= Total(xs)
  {
    if k > 0 {
      TotalTake(xs, k);
      TotalMonotone(xs[1..], k - 1);
    } else if xs != [] {
      TotalMonotone(xs[1..], 0);
    }
  }

  /** Of non-negative amounts, only the total matters. */
  lemma NonNegSum(xs: seq<NonNeg>)
    ensures Sum(NonNegative, xs).Ok? <==> Total(xs) <= MAX_MONEY
    ensures Sum(NonNegative, xs).Ok? ==> Sum(NonNegative, xs).value == Total(xs)
    ensures Total(xs) >= 0
  {
    FoldIs(NonNegative, 0, xs);
    TotalMonotone(xs, |xs|);
    if Total(xs) <= MAX_MONEY {
      forall k | 1 <= k <= |xs| ensures InRange(NonNegative, Total(xs[..k])) {
        TotalMonotone(xs, k);
      }
    } else if xs != [] {
      assert xs[..|xs|] == xs;
    }
  }

  /** A sum of non-negative amounts fails only by exceeding the maximum. */
  lemma NonNegSumFails(xs: seq<NonNeg>)
    requires Sum(NonNegative, xs).Err?
    ensures Sum(NonNegative, xs).error.SumOverflow? && Sum(NonNegative, xs).error.partialSum > MAX_MONEY
  {
    var k := FoldFails(NonNegative, 0, xs);
    TotalMonotone(xs, k);
  }

  // ---------------------------------------------------------------- bytes

  type Byte = b: int | 0 <= b < 256

  const TWO_TO_THE_64: int := 0x1_0000_0000_0000_0000

  /** Little-endian digits. */
  function Digits(n: nat, count: nat): (r: seq<Byte>)
    ensures |r| == count
  {
    if count == 0 then [] else [n % 256] + Digits(n / 256, count - 1)
  }

  function Number(bytes: seq<Byte>): nat {
    if bytes == [] then 0 else bytes[0] + 256 * Number(bytes[1..])
  }

  function Power(count: nat): nat {
    if count == 0 then 1 else 256 * Power(count - 1)
  }

  lemma {:induction false} NumberOfDigits(n: nat, count: nat)
    requires n < Power(count)
    ensures Number(Digits(n, count)) == n
  {
    if count > 0 {
      NumberOfDigits(n / 256, count - 1);
    }
  }

  lemma {:induction false} DigitsOfNumber(bytes: seq<Byte>)
    ensures Digits(Number(bytes), |bytes|) == bytes
    ensures Number(bytes) < Power(|bytes|)
  {
    if bytes != [] {
      DigitsOfNumber(bytes[1..]);
    }
  }

  lemma PowerIs()
    ensures Power(8) == TWO_TO_THE_64
  {
    assert Power(4) == 0x1_0000_0000;
    assert Power(8) == 256 * 256 * 256 * 256 * Power(4);
  }

  /** Two's complement, little-endian. */
  function ToBytes(v: Signed): seq<Byte> {
    Digits(if v < 0 then v + TWO_TO_THE_64 else v, 8)
  }

  function FromBytes(c: Constraint, bytes: seq<Byte>): Result<int, Error>
    requires |bytes| == 8
  {
    var n := Number(bytes);
    Validate(c, if n >= TWO_TO_THE_64 / 2 then n - TWO_TO_THE_64 else n)
  }

  lemma {:induction false} DigitAt(n: nat, count: nat, k: nat)
    requires k < count
    ensures Power(k) > 0 && Digits(n, count)[k] == n / Power(k) % 256
  {
    if k > 0 {
      DigitAt(n / 256, count - 1, k - 1);
      DivideTwice(n, Power(k - 1));
    }
  }

  lemma DivideTwice(n: nat, p: nat)
    requires p > 0
    ensures n / 256 / p == n / (256 * p)
  {
    var q, r := n / 256 / p, n / 256 % p;
    assert n / 256 == p * q + r;
    var low := 256 * r + n % 256;
    assert n == (256 * p) * q + low && 0 <= low < 256 * p;
    Quotient(n, 256 * p, q, low);
  }

  lemma Quotient(n: nat, d: nat, q: nat, r: nat)
    requires n == d * q + r && r < d
    ensures n / d == q
  {
    var q', r' := n / d, n % d;
    assert n == d * q' + r';
    assert q < q' ==> d * q' >= d * (q + 1);
    assert q' < q ==> d * q >= d * (q' + 1);
  }

  /** The layout is little-endian: byte k has the weight 256^k, in the two's complement of a negative amount. */
  lemma BytesAreLittleEndian(v: Signed, k: nat)
    requires k < 8
    ensures |ToBytes(v)| == 8 && Power(k) > 0
    ensures v >= 0 ==> ToBytes(v)[k] == v / Power(k) % 256
    ensures v < 0 ==> ToBytes(v)[k] == (v + TWO_TO_THE_64) / Power(k) % 256
  {
    hide Digits;
    DigitAt(if v < 0 then v + TWO_TO_THE_64 else v, 8, k);
  }

  /** Encoding, then decoding under a constraint the amount meets, gives it back. */
  lemma BytesRoundTrip(c: Constraint, v: Signed)
    requires InRange(c, v)
    ensures FromBytes(c, ToBytes(v)) == Ok(v)
  {
    PowerIs();
    NumberOfDigits(if v < 0 then v + TWO_TO_THE_64 else v, 8);
  }

  /** What decodes, re-encodes to itself. */
  lemma BytesRoundTripBack(c: Constraint, bytes: seq<Byte>)
    requires |bytes| == 8
    ensures FromBytes(c, bytes).Ok? ==> ToBytes(FromBytes(c, bytes).value) == bytes
  {
    PowerIs();
    DigitsOfNumber(bytes);
  }
}
