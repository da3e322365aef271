/**
 Merkle mountain ranges as ZIP-221 describes them. Nodes are symbolic terms over the block data of the
 leaves, so two equal roots are equal for every way of combining node data. `Storage` is the obvious
 tree: all nodes of the perfect subtrees given by the binary form of the leaf count, in storage order.
 */
module Mmr {

  /** The data of one block that a leaf commits to. */
  datatype BlockParts = BlockParts(height: nat, payload: int)

  datatype Node = Leaf(block: BlockParts) | Branch(left: Node, right: Node)

  function Pow2(a: nat): (p: nat)
    ensures p > 0
  {
    if a == 0 then 1 else 2 * Pow2(a - 1)
  }

  /** The position of the highest set bit. */
  function Log2(n: nat): (a: nat)
    requires n > 0
    ensures Pow2(a) <= n < 2 * Pow2(a)
  {
    if n == 1 then 0 else 1 + Log2(n / 2)
  }

  /** The largest power of two up to `n`: the leaf count of the first peak. */
  function Top(n: nat): (k: nat)
    requires n > 0
    ensures 0 < k <= n < 2 * k
  {
    Pow2(Log2(n))
  }

  function PopCount(n: nat): nat {
    if n == 0 then 0 else n % 2 + PopCount(n / 2)
  }

  function LeafCount(t: Node): (n: nat)
    ensures n > 0
  {
    match t
    case Leaf(_) => 1
    case Branch(l, r) => LeafCount(l) + LeafCount(r)
  }

  /** The blocks a node commits to, from left to right. */
  function Leaves(t: Node): seq<BlockParts> {
    match t
    case Leaf(block) => [block]
    case Branch(l, r) => Leaves(l) + Leaves(r)
  }

  // ---------------------------------------------------------------- the full tree

  /** The perfect tree of height `a` over its leaves. */
  function Perfect(s: seq<BlockParts>, a: nat): Node
    requires |s| == Pow2(a)
  {
    if a == 0 then Leaf(s[0])
    else Branch(Perfect(s[..Pow2(a - 1)], a - 1), Perfect(s[Pow2(a - 1)..], a - 1))
  }

  /** A subtree in storage order: children before their parent, left before right. */
  function PostOrder(t: Node): seq<Node> {
    match t
    case Leaf(_) => [t]
    case Branch(l, r) => PostOrder(l) + PostOrder(r) + [t]
  }

  /** The first peak of a non-empty leaf list. */
  function FirstPeak(s: seq<BlockParts>): Node
    requires s != []
  {
    Perfect(s[..Top(|s|)], Log2(|s|))
  }

  /** The peaks over a leaf list, from the highest to the lowest. */
  function Peaks(s: seq<BlockParts>): seq<Node> {
    if s == [] then [] else [FirstPeak(s)] + Peaks(s[Top(|s|)..])
  }

  /** All nodes of the range, in storage order. */
  function Storage(s: seq<BlockParts>): seq<Node> {
    if s == [] then [] else PostOrder(FirstPeak(s)) + Storage(s[Top(|s|)..])
  }

  /** The number of nodes of a range with `n` leaves. */
  function Size(n: nat): nat {
    if n == 0 then 0 else 2 * Top(n) - 1 + Size(n - Top(n))
  }

  /** The storage positions of the peaks of a range with `n` leaves that starts at `offset`. */
  function Positions(n: nat, offset: nat): seq<nat> {
    if n == 0 then [] else [offset + 2 * Top(n) - 2] + Positions(n - Top(n), offset + 2 * Top(n) - 1)
  }

  /** The root: the peaks folded together from the left. */
  function Bag(peaks: seq<Node>): Node
    requires peaks != []
  {
    if |peaks| == 1 then peaks[0] else Branch(Bag(peaks[..|peaks| - 1]), peaks[|peaks| - 1])
  }

  lemma SplitSnoc<T>(s: seq<T>, x: T, k: nat)
    requires k <= |s|
    ensures (s + [x])[..k] == s[..k] && (s + [x])[k..] == s[k..] + [x]
  {
  }

  lemma Assoc<T>(a: seq<T>, b: seq<T>, c: seq<T>)
    ensures a + (b + c) == (a + b) + c
  {
  }

  // ---------------------------------------------------------------- powers of two

  lemma Pow2Double(a: nat)
    ensures Pow2(a + 1) == 2 * Pow2(a)
  {
  }

  lemma PerfectHalves(s: seq<BlockParts>, a: nat)
    requires |s| == Pow2(a + 1) == 2 * Pow2(a)
    ensures Perfect(s, a + 1) == Branch(Perfect(s[..Pow2(a)], a), Perfect(s[Pow2(a)..], a))
  {
  }

  lemma {:induction false} Log2Unique(n: nat, a: nat)
    requires Pow2(a) <= n < 2 * Pow2(a)
    ensures n > 0 && Log2(n) == a
  {
    if n > 1 {
      Log2Unique(n / 2, a - 1);
    }
  }

  lemma TopIs(n: nat, a: nat)
    requires Pow2(a) <= n < 2 * Pow2(a)
    ensures Top(n) == Pow2(a) && Log2(n) == a
  {
    Log2Unique(n, a);
  }

  /** Appending one leaf keeps the first peak, or doubles it when all lower bits were set. */
  lemma TopNext(n: nat)
    requires n > 0
    ensures n + 1 < 2 * Top(n) ==> Top(n + 1) == Top(n) && Log2(n + 1) == Log2(n)
    ensures n + 1 == 2 * Top(n) ==> Top(n + 1) == 2 * Top(n) && Log2(n + 1) == Log2(n) + 1
  {
    if n + 1 < 2 * Top(n) { TopIs(n + 1, Log2(n)); } else { TopIs(n + 1, Log2(n) + 1); }
  }

  lemma {:induction false} PopCountTop(n: nat)
    requires n > 0
    ensures PopCount(n) == 1 + PopCount(n - Top(n))
  {
    if n > 1 {
      PopCountTop(n / 2);
      TopIs(n, Log2(n / 2) + 1);
      assert (n - Top(n)) / 2 == n / 2 - Top(n / 2) && (n - Top(n)) % 2 == n % 2;
      assert n == 1 || PopCount(n - Top(n)) == n % 2 + PopCount(n / 2 - Top(n / 2));
    }
  }

  /** The node count of a range: two per leaf, less one per peak. */
  lemma {:induction false} SizeFormula(n: nat)
    ensures Size(n) == 2 * n - PopCount(n)
  {
    if n > 0 {
      PopCountTop(n);
      SizeFormula(n - Top(n));
    }
  }

  lemma {:induction false} SizeBounds(n: nat)
    ensures n <= Size(n) <= 2 * n
    ensures n > 0 ==> 2 * Top(n) - 1 <= Size(n) <= 2 * n - 1
  {
    if n > 0 { SizeBounds(n - Top(n)); }
  }

  // ---------------------------------------------------------------- storage and peaks

  lemma {:induction false} PerfectShape(s: seq<BlockParts>, a: nat)
    requires |s| == Pow2(a)
    ensures LeafCount(Perfect(s, a)) == Pow2(a)
    ensures |PostOrder(Perfect(s, a))| == 2 * Pow2(a) - 1
    ensures PostOrder(Perfect(s, a))[2 * Pow2(a) - 2] == Perfect(s, a)
  {
    if a > 0 {
      PerfectShape(s[..Pow2(a - 1)], a - 1);
      PerfectShape(s[Pow2(a - 1)..], a - 1);
    }
  }

  lemma {:induction false} StorageSize(s: seq<BlockParts>)
    ensures |Storage(s)| == Size(|s|)
  {
    if s != [] {
      PerfectShape(s[..Top(|s|)], Log2(|s|));
      StorageSize(s[Top(|s|)..]);
    }
  }

  lemma {:induction false} PositionsIncrease(n: nat, offset: nat)
    ensures forall i :: 0 <= i < |Positions(n, offset)| ==> offset <= Positions(n, offset)[i] < offset + Size(n)
    ensures forall i, j :: 0 <= i < j < |Positions(n, offset)| ==> Positions(n, offset)[i] < Positions(n, offset)[j]
  {
    if n > 0 { PositionsIncrease(n - Top(n), offset + 2 * Top(n) - 1); }
  }

  lemma {:induction false} PeakCount(s: seq<BlockParts>, offset: nat)
    ensures |Positions(|s|, offset)| == |Peaks(s)|
  {
    if s != [] { PeakCount(s[Top(|s|)..], offset + 2 * Top(|s|) - 1); }
  }

  /** The first peak of a range, its nodes and its position, in front of the rest. */
  lemma Unfold(s: seq<BlockParts>, offset: nat, first: seq<Node>)
    requires s != [] && first == PostOrder(FirstPeak(s))
    ensures var k := Top(|s|);
            && Peaks(s) == [FirstPeak(s)] + Peaks(s[k..]) && Storage(s) == first + Storage(s[k..])
            && |first| == 2 * k - 1 && first[2 * k - 2] == FirstPeak(s)
            && Positions(|s|, offset) == [offset + 2 * k - 2] + Positions(|s[k..]|, offset + |first|)
  {
    PerfectShape(s[..Top(|s|)], Log2(|s|));
  }

  /** Each peak is stored at its position. */
  lemma {:induction false} PeakAtPosition(before: seq<Node>, s: seq<BlockParts>, i: nat)
    requires s != [] && i < |Peaks(s)| == |Positions(|s|, |before|)|
    ensures Positions(|s|, |before|)[i] < |before + Storage(s)|
    ensures (before + Storage(s))[Positions(|s|, |before|)[i]] == Peaks(s)[i]
    decreases i
  {
    hide Peaks, Storage, Positions, PostOrder, FirstPeak, Top;
    var k := Top(|s|);
    var first := PostOrder(FirstPeak(s));
    Unfold(s, |before|, first);
    assert before + Storage(s) == (before + first) + Storage(s[k..]);
    if i > 0 {
      NoPeaks();
      PeakAtPosition(before + first, s[k..], i - 1);
    }
  }

  lemma NoPeaks()
    ensures Peaks([]) == []
  {
  }

  // ---------------------------------------------------------------- appending a leaf

  /**
   Append a node below the last peak: while the last peak is as large as the node, join the two. Gives the
   new peaks and the new nodes in storage order.
   */
  function Merge(peaks: seq<Node>, node: Node): (seq<Node>, seq<Node>)
    decreases |peaks|
  {
    if peaks != [] && LeafCount(peaks[|peaks| - 1]) == LeafCount(node) then
      var (p, e) := Merge(peaks[..|peaks| - 1], Branch(peaks[|peaks| - 1], node));
      (p, [node] + e)
    else (peaks + [node], [node])
  }

  /** A peak in front only matters when everything behind it joins into one node of its own size. */
  lemma {:induction false} MergeBehind(h: Node, ps: seq<Node>, node: Node)
    ensures Merge(ps, node).0 != []
    ensures var (p, e) := Merge(ps, node);
            Merge([h] + ps, node) ==
            if |p| == 1 && LeafCount(h) == LeafCount(p[0]) then ([Branch(h, p[0])], e + [Branch(h, p[0])])
            else ([h] + p, e)
    decreases |ps|
  {
    if ps == [] {
      assert ([h] + ps)[..0] == [] && [] + [node] == [node] && [] + [Branch(h, node)] == [Branch(h, node)];
    } else {
      var last := ps[|ps| - 1];
      assert ([h] + ps)[..|ps|] == [h] + ps[..|ps| - 1];
      if LeafCount(last) == LeafCount(node) {
        var e := Merge(ps[..|ps| - 1], Branch(last, node)).1;
        MergeBehind(h, ps[..|ps| - 1], Branch(last, node));
        assert forall b: Node :: [node] + (e + [b]) == [node] + e + [b];
      } else {
        assert [h] + ps + [node] == [h] + (ps + [node]);
      }
    }
  }

  lemma {:induction false} FirstPeakLeaves(s: seq<BlockParts>)
    requires s != []
    ensures LeafCount(FirstPeak(s)) == Top(|s|)
  {
    PerfectShape(s[..Top(|s|)], Log2(|s|));
  }

  /** A power of two many leaves make one peak. */
  lemma OnePeak(s: seq<BlockParts>, a: nat)
    requires |s| == Pow2(a)
    ensures Top(|s|) == Pow2(a) && Log2(|s|) == a
    ensures Peaks(s) == [Perfect(s, a)] && Storage(s) == PostOrder(Perfect(s, a))
  {
    TopIs(|s|, a);
    assert s[..|s|] == s && s[|s|..] == [];
    assert Peaks([]) == [] && Storage([]) == [];
  }

  /** While some lower bit is clear, one more leaf changes only what is behind the first peak. */
  lemma FirstPeakStays(s: seq<BlockParts>, x: BlockParts, rest: seq<BlockParts>)
    requires s != [] && |s| + 1 < 2 * Top(|s|) && rest == s[Top(|s|)..] + [x]
    ensures Peaks(s + [x]) == [FirstPeak(s)] + Peaks(rest)
    ensures Storage(s + [x]) == PostOrder(FirstPeak(s)) + Storage(rest)
  {
    hide Log2, Pow2, Top, Perfect, PostOrder;
    TopNext(|s|);
    SplitSnoc(s, x, Top(|s|));
  }

  /** When all lower bits are set, one more leaf joins everything into one perfect tree. */
  lemma FirstPeakDoubles(s: seq<BlockParts>, x: BlockParts, rest: seq<BlockParts>, joined: Node)
    requires s != [] && |s| + 1 == 2 * Top(|s|) && rest == s[Top(|s|)..] + [x]
    requires joined == Branch(FirstPeak(s), FirstPeak(rest))
    ensures Peaks(rest) == [FirstPeak(rest)] && Top(|rest|) == Top(|s|)
    ensures Peaks(s + [x]) == [joined]
    ensures Storage(s + [x]) == PostOrder(FirstPeak(s)) + Storage(rest) + [joined]
  {
    hide Log2, Pow2, Perfect, Peaks, Storage;
    var k, a := Top(|s|), Log2(|s|);
    Pow2Double(a);
    OnePeak(rest, a);
    OnePeak(s + [x], a + 1);
    assert rest[..k] == rest;
    SplitSnoc(s, x, k);
    PerfectHalves(s + [x], a);
  }

  /**
   Refinement of the full tree: appending a leaf by merging equal peaks gives exactly the peaks of the longer
   leaf list, and the new nodes are exactly what its storage adds.
   */
  lemma {:induction false} AppendLeaf(s: seq<BlockParts>, x: BlockParts)
    ensures Peaks(s + [x]) == Merge(Peaks(s), Leaf(x)).0
    ensures Storage(s + [x]) == Storage(s) + Merge(Peaks(s), Leaf(x)).1
    decreases |s|
  {
    if s == [] {
      assert s + [x] == [x];
      OnePeak([x], 0);
    } else {
      hide Merge, LeafCount, FirstPeak, PostOrder, Log2, Pow2, Top;
      var behind := s[Top(|s|)..];
      var rest := behind + [x];
      AppendLeaf(behind, x);
      MergeBehind(FirstPeak(s), Peaks(behind), Leaf(x));
      FirstPeakLeaves(s);
      FirstPeakLeaves(rest);
      var first, e := PostOrder(FirstPeak(s)), Merge(Peaks(behind), Leaf(x)).1;
      Assoc(first, Storage(behind), e);
      if |s| + 1 < 2 * Top(|s|) {
        FirstPeakStays(s, x, rest);
        assert Peaks(rest)[0] == FirstPeak(rest);
      } else {
        var joined := Branch(FirstPeak(s), FirstPeak(rest));
        FirstPeakDoubles(s, x, rest, joined);
        Assoc(first + Storage(behind), e, [joined]);
      }
    }
  }

  /** The peaks of a longer range are peaks of the shorter one, or among the nodes that were added. */
  lemma {:induction false} PositionsAfterAppend(n: nat, offset: nat, was: seq<nat>, now: seq<nat>, i: nat)
    requires was == Positions(n, offset) && now == Positions(n + 1, offset) && i < |now|
    ensures now[i] in was || offset + Size(n) <= now[i] < offset + Size(n + 1)
    decreases n
  {
    hide Log2, Pow2, Top;
    if n > 0 {
      TopNext(n);
      SizeBounds(n);
      var k := Top(n);
      var tail := Positions(n - k, offset + 2 * k - 1);
      assert was == [offset + 2 * k - 2] + tail;
      if n + 1 == 2 * k {
        assert now == [offset + 4 * k - 2] + Positions(0, offset + 4 * k - 1);
      } else if i > 0 {
        PositionsAfterAppend(n - k, offset + 2 * k - 1, tail, Positions(n + 1 - k, offset + 2 * k - 1), i - 1);
      }
    }
  }

  // ---------------------------------------------------------------- what the root commits to

  lemma {:induction false} PerfectLeaves(s: seq<BlockParts>, a: nat)
    requires |s| == Pow2(a)
    ensures Leaves(Perfect(s, a)) == s
  {
    if a > 0 {
      PerfectLeaves(s[..Pow2(a - 1)], a - 1);
      PerfectLeaves(s[Pow2(a - 1)..], a - 1);
    }
  }

  /** The blocks under a list of nodes. */
  function AllLeaves(peaks: seq<Node>): seq<BlockParts> {
    if peaks == [] then [] else Leaves(peaks[0]) + AllLeaves(peaks[1..])
  }

  lemma {:induction false} AllLeavesSnoc(peaks: seq<Node>, last: Node)
    ensures AllLeaves(peaks + [last]) == AllLeaves(peaks) + Leaves(last)
  {
    if peaks == [] {
      assert [last][1..] == [];
    } else {
      AllLeavesSnoc(peaks[1..], last);
      assert (peaks + [last])[1..] == peaks[1..] + [last];
    }
  }

  /** The peaks together commit to all leaves, in order. */
  lemma {:induction false} PeaksLeaves(s: seq<BlockParts>)
    ensures AllLeaves(Peaks(s)) == s
  {
    if s != [] {
      var k := Top(|s|);
      PerfectLeaves(s[..k], Log2(|s|));
      PeaksLeaves(s[k..]);
      assert Peaks(s)[1..] == Peaks(s[k..]) && s == s[..k] + s[k..];
    }
  }

  lemma {:induction false} BagLeaves(peaks: seq<Node>)
    requires peaks != []
    ensures Leaves(Bag(peaks)) == AllLeaves(peaks)
  {
    var n := |peaks| - 1;
    if n == 0 {
      assert peaks[1..] == [];
    } else {
      BagLeaves(peaks[..n]);
      AllLeavesSnoc(peaks[..n], peaks[n]);
      assert peaks == peaks[..n] + [peaks[n]];
    }
  }

  /** The root commits to all leaves, in order. */
  lemma RootLeaves(s: seq<BlockParts>)
    requires s != []
    ensures Peaks(s) != [] && Leaves(Bag(Peaks(s))) == s
  {
    PeaksLeaves(s);
    BagLeaves(Peaks(s));
  }

  /** Two leaf lists have the same root exactly when they are the same list. */
  lemma RootCommits(s: seq<BlockParts>, t: seq<BlockParts>)
    requires s != [] && t != []
    ensures Peaks(s) != [] && Peaks(t) != []
    ensures Bag(Peaks(s)) == Bag(Peaks(t)) <==> s == t
  {
    RootLeaves(s);
    RootLeaves(t);
  }

  // ---------------------------------------------------------------- the shape of the root

  /** The largest power of two that divides `n`: the leaf count of the last peak. */
  function LowBit(n: nat): (k: nat)
    requires n > 0
    ensures 0 < k <= n
  {
    if n % 2 == 1 then 1 else 2 * LowBit(n / 2)
  }

  /** A tree over `n` leaves, all at the same depth. */
  predicate IsPerfect(t: Node, n: nat) {
    match t
    case Leaf(_) => n == 1
    case Branch(l, r) => n % 2 == 0 && IsPerfect(l, n / 2) && IsPerfect(r, n / 2)
  }

  /** A tree over `n` leaves: a perfect one, or such a tree joined with the perfect tree of the lowest bit of `n`. */
  predicate IsBagged(t: Node, n: nat)
    requires n > 0
    decreases n
  {
    if LowBit(n) == n then IsPerfect(t, n)
    else t.Branch? && IsBagged(t.left, n - LowBit(n)) && IsPerfect(t.right, LowBit(n))
  }

  lemma {:induction false} PerfectIsPerfect(s: seq<BlockParts>, a: nat)
    requires |s| == Pow2(a)
    ensures IsPerfect(Perfect(s, a), |s|)
  {
    if a > 0 {
      hide Pow2, Perfect, IsPerfect;
      var half := Pow2(a - 1);
      Pow2Double(a - 1);
      PerfectHalves(s, a - 1);
      PerfectIsPerfect(s[..half], a - 1);
      PerfectIsPerfect(s[half..], a - 1);
      JoinPerfect(Perfect(s[..half], a - 1), Perfect(s[half..], a - 1), half);
    }
  }

  lemma JoinPerfect(l: Node, r: Node, n: nat)
    requires IsPerfect(l, n) && IsPerfect(r, n)
    ensures IsPerfect(Branch(l, r), 2 * n)
  {
    assert 2 * n / 2 == n;
  }

  /** A power of two is its own lowest bit; else the lowest bit is behind the first peak. */
  lemma {:induction false} LowBitTop(n: nat)
    requires n > 0
    ensures LowBit(n) == if n == Top(n) then n else LowBit(n - Top(n))
    ensures LowBit(n) == n <==> n == Top(n)
  {
    if n > 1 {
      LowBitTop(n / 2);
      TopIs(n, Log2(n / 2) + 1);
      assert Top(n) == 2 * Top(n / 2);
      assert n % 2 == 0 ==> (n - Top(n)) / 2 == n / 2 - Top(n / 2);
    }
  }

  /** Without its last peak, a range has the same peaks in front. */
  lemma {:induction false} LastPeak(s: seq<BlockParts>)
    requires s != [] && LowBit(|s|) < |s|
    ensures var m := |s| - LowBit(|s|);
            && Peaks(s) != [] && Peaks(s)[..|Peaks(s)| - 1] == Peaks(s[..m])
            && IsPerfect(Peaks(s)[|Peaks(s)| - 1], LowBit(|s|))
    decreases |s|
  {
    hide Log2, Pow2, Perfect, Top, LowBit, IsPerfect;
    var k, m := Top(|s|), |s| - LowBit(|s|);
    var rest := s[k..];
    LowBitTop(|s|);
    LowBitTop(|rest|);
    FirstPeakOfPrefix(s, m);
    if LowBit(|rest|) == |rest| {
      SinglePeak(rest);
      assert s[..m][k..] == [];
      assert Peaks(s) == [FirstPeak(s)] + Peaks(rest);
      assert Peaks([]) == [] && Peaks(s[..m]) == [FirstPeak(s)];
    } else {
      LastPeak(rest);
      assert s[..m][k..] == rest[..m - k];
      assert Peaks(s)[..|Peaks(s)| - 1] == [FirstPeak(s)] + Peaks(rest)[..|Peaks(rest)| - 1];
    }
  }

  /** A prefix that still has all leaves of the first peak has that first peak. */
  lemma FirstPeakOfPrefix(s: seq<BlockParts>, m: nat)
    requires s != [] && Top(|s|) <= m <= |s|
    ensures Top(m) == Top(|s|) && FirstPeak(s[..m]) == FirstPeak(s)
  {
    TopIs(m, Log2(|s|));
    assert s[..m][..Top(m)] == s[..Top(|s|)];
  }

  lemma SinglePeak(s: seq<BlockParts>)
    requires s != [] && Top(|s|) == |s|
    ensures |Peaks(s)| == 1 && IsPerfect(Peaks(s)[0], |s|)
  {
    OnePeak(s, Log2(|s|));
    PerfectIsPerfect(s, Log2(|s|));
  }

  /** The root has the one shape that the leaf count gives. */
  lemma {:induction false} RootShape(s: seq<BlockParts>)
    requires s != []
    ensures Peaks(s) != [] && IsBagged(Bag(Peaks(s)), |s|)
    decreases |s|
  {
    hide Peaks, Top, IsPerfect, LowBit;
    LowBitTop(|s|);
    if LowBit(|s|) == |s| {
      SinglePeak(s);
    } else {
      LastPeak(s);
      RootShape(s[..|s| - LowBit(|s|)]);
    }
  }

  lemma {:induction false} PerfectTreesEqual(t: Node, u: Node, n: nat)
    requires IsPerfect(t, n) && IsPerfect(u, n)
    ensures |Leaves(t)| == |Leaves(u)| == n
    ensures Leaves(t) == Leaves(u) ==> t == u
  {
    if t.Branch? && u.Branch? {
      PerfectTreesEqual(t.left, u.left, n / 2);
      PerfectTreesEqual(t.right, u.right, n / 2);
      SameParts(Leaves(t.left), Leaves(t.right), Leaves(u.left), Leaves(u.right));
    }
  }

  lemma SameParts<T>(a: seq<T>, b: seq<T>, c: seq<T>, d: seq<T>)
    requires |a| == |c|
    ensures a + b == c + d ==> a == c && b == d
  {
    assert a == (a + b)[..|a|] && b == (a + b)[|a|..];
    assert c == (c + d)[..|c|] && d == (c + d)[|c|..];
  }

  /** The leaves and the shape fix the tree. */
  lemma {:induction false} BaggedTreesEqual(t: Node, u: Node, n: nat)
    requires n > 0 && IsBagged(t, n) && IsBagged(u, n)
    ensures |Leaves(t)| == |Leaves(u)| == n
    ensures Leaves(t) == Leaves(u) ==> t == u
    decreases n
  {
    if LowBit(n) == n {
      PerfectTreesEqual(t, u, n);
    } else {
      BaggedTreesEqual(t.left, u.left, n - LowBit(n));
      PerfectTreesEqual(t.right, u.right, LowBit(n));
      SameParts(Leaves(t.left), Leaves(t.right), Leaves(u.left), Leaves(u.right));
    }
  }
}
