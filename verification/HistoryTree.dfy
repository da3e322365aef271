/**
 The history tree of `history_tree.rs`: only the node count and the current peaks are kept, peak positions are
 recomputed after each push by a loop over `u32` altitudes and positions, and the inner tree is rebuilt from
 the peaks. Proved to agree with the full tree of module Mmr over all leaves since the activation block of the
 current network upgrade.
 */
module HistoryTree {
  import opened Prelude
  import opened Mmr

  newtype u32 = x: int | 0 <= x < 0x1_0000_0000

  const U32_LIMIT: int := 0x1_0000_0000

  /** `Height::MAX`. */
  const HEIGHT_MAX: nat := 0x7FFF_FFFF

  // ---------------------------------------------------------------- u32 operations

  lemma {:induction false} Pow2Monotone(a: nat, b: nat)
    requires a <= b
    ensures Pow2(a) <= Pow2(b)
  {
    if a < b { Pow2Monotone(a, b - 1); }
  }

  lemma Pow2PlusEight(a: nat)
    ensures Pow2(a + 8) == 256 * Pow2(a)
  {
    assert Pow2(a + 2) == 4 * Pow2(a);
    assert Pow2(a + 4) == 4 * Pow2(a + 2);
    assert Pow2(a + 6) == 4 * Pow2(a + 4);
  }

  lemma Pow2Values()
    ensures Pow2(30) == 0x4000_0000 && Pow2(31) == 0x8000_0000 && Pow2(32) == U32_LIMIT
  {
    Pow2PlusEight(0);
    Pow2PlusEight(8);
    Pow2PlusEight(16);
    Pow2PlusEight(24);
    Pow2Double(31);
    Pow2Double(30);
  }

  lemma Pow2Fits(a: nat)
    requires a < 32
    ensures Pow2(a) < U32_LIMIT
  {
    Pow2Monotone(a, 31);
    Pow2Values();
  }

  lemma Log2Fits(n: nat)
    requires 0 < n < U32_LIMIT
    ensures Log2(n) <= 31
  {
    if Log2(n) >= 32 {
      Pow2Monotone(32, Log2(n));
      Pow2Values();
    }
  }

  function LeadingZeros(x: u32): u32 {
    if x == 0 then 32 else Log2Fits(x as nat); 31 - Log2(x as nat) as u32
  }

  /** `1 << k`. */
  function ShiftLeft(k: u32): (r: u32)
    requires k < 32
    ensures r as nat == Pow2(k as nat)
  {
    Pow2Fits(k as nat);
    Pow2(k as nat) as u32
  }

  // ---------------------------------------------------------------- peak positions

  function PositionSet(n: nat, offset: nat): set<nat> {
    set p | p in Positions(n, offset)
  }

  lemma PositionSetStep(n: nat, offset: nat, k: nat)
    requires n > 0 && k == Top(n)
    ensures PositionSet(n, offset) == {offset + 2 * k - 2} + PositionSet(n - k, offset + 2 * k - 1)
  {
    assert Positions(n, offset) == [offset + 2 * k - 2] + Positions(n - k, offset + 2 * k - 1);
  }

  /** A subtree of `2^a` leaves fits in the rest of the range exactly when its root position is in bounds. */
  lemma SubtreeFits(r: nat, a: nat)
    requires r < 2 * Pow2(a)
    ensures r >= Pow2(a) <==> Size(r) >= 2 * Pow2(a) - 1
    ensures r >= Pow2(a) ==> r > 0 && Top(r) == Pow2(a)
  {
    SizeBounds(r);
    if r >= Pow2(a) { TopIs(r, a); }
  }

  /** The first altitude: one less than the position of the highest bit of `size + 1`. */
  lemma FirstAltitude(n: nat)
    requires n > 0
    ensures Log2(Size(n) + 1) == Log2(n) + 1
  {
    SizeBounds(n);
    Log2Unique(Size(n) + 1, Log2(n) + 1);
  }

  /**
   The valid sizes that fit in a `u32` and for which `size + 1` also fits are those of less than 2^31 leaves;
   2^31 leaves make the size `u32::MAX`.
   */
  lemma SizeFitsU32(n: nat)
    ensures Size(n) + 1 < U32_LIMIT <==> n < 0x8000_0000
    ensures Size(0x8000_0000) == U32_LIMIT - 1
  {
    hide Log2, Pow2;
    SizeBounds(n);
    Pow2Values();
    TopIs(0x8000_0000, 31);
    if n >= 0x8000_0000 {
      TopAtLeast(n, 31);
    }
  }

  lemma TopAtLeast(n: nat, a: nat)
    requires n >= Pow2(a)
    ensures Top(n) >= Pow2(a)
  {
    if Log2(n) < a {
      Pow2Monotone(Log2(n) + 1, a);
      Pow2Double(Log2(n));
    } else {
      Pow2Monotone(a, Log2(n));
    }
  }

  /**
   Part way through the peak loop: `r` leaves are left behind position `off`, the candidate at `pos` is the root of
   a subtree of `2^a` leaves there, and the peaks in front are found.
   */
  ghost predicate Scanning(n: nat, size: int, a: nat, pos: int, off: nat, r: nat, found: set<nat>) {
    && a <= 30 && pos == off + 2 * Pow2(a) - 2 && size == off + Size(r) && r < 2 * Pow2(a)
    && off + 2 * Pow2(a) <= U32_LIMIT
    && (pos < size ==> off + 4 * Pow2(a) <= U32_LIMIT)
    && found + PositionSet(r, off) == PositionSet(n, 0)
  }

  /** A candidate out of bounds: its left child is next. */
  lemma Descend(n: nat, size: int, a: nat, pos: int, off: nat, r: nat, found: set<nat>)
    requires Scanning(n, size, a, pos, off, r, found) && pos >= size && a >= 1
    ensures 0 <= pos - Pow2(a) && Scanning(n, size, a - 1, pos - Pow2(a), off, r, found)
  {
    hide Pow2, Size, PositionSet, Top;
    SubtreeFits(r, a);
    Pow2Double(a - 1);
  }

  /** A candidate in bounds is a peak: its right sibling is next, and that is out of bounds. */
  lemma Take(n: nat, size: int, a: nat, pos: int, off: nat, r: nat, found: set<nat>)
    requires Scanning(n, size, a, pos, off, r, found) && 0 <= pos < size
    ensures Pow2(a + 1) == 2 * Pow2(a) && pos + Pow2(a + 1) < U32_LIMIT && pos + Pow2(a + 1) - 1 >= size
    ensures r >= Pow2(a)
    ensures Scanning(n, size, a, pos + Pow2(a + 1) - 1, off + 2 * Pow2(a) - 1, r - Pow2(a), found + {pos})
  {
    hide Pow2, Size, PositionSet, Top;
    Pow2Double(a);
    SubtreeFits(r, a);
    PositionSetStep(r, off, Pow2(a));
    TakePeak(r, a);
    SubtreeFits(r - Pow2(a), a);
  }

  /** At the last altitude nothing is left. */
  lemma Finish(n: nat, size: int, pos: int, off: nat, r: nat, found: set<nat>)
    requires Scanning(n, size, 0, pos, off, r, found) && pos >= size
    ensures found == PositionSet(n, 0)
  {
    SubtreeFits(r, 0);
    LastPeak(r, off, 0);
  }

  /**
   The peak loop of `prune`, for every valid size; no result stands for a `u32` operation that overflows. That
   happens exactly for `u32::MAX`. For every other valid size the loop terminates and collects exactly the positions
   of the perfect subtrees given by the binary form of the leaf count.
   */
  method PeakPositions(size: u32, ghost n: nat) returns (r: Option<set<nat>>)
    requires n > 0 && size as int == Size(n)
    ensures r == if size as int + 1 < U32_LIMIT then Some(PositionSet(n, 0)) else None
  {
    hide Log2, Pow2, Size, PositionSet, Scanning;
    if size == 0xFFFF_FFFF {
      return None;
    }
    SizeFitsU32(n);
    FirstAltitude(n);
    Log2Fits(size as nat + 1);
    var alt: u32 := (32 - LeadingZeros(size + 1) - 1) - 1;
    FirstCandidate(n, alt as nat);
    var pos: u32 := ShiftLeft(alt + 1) - 2;
    var found: set<nat> := {};
    ghost var off: nat, rest: nat := 0, n;
    while true
      invariant alt <= 30 && Scanning(n, size as int, alt as nat, pos as int, off, rest, found)
      invariant pos >= size ==> alt >= 1
      decreases alt, pos < size
    {
      if pos >= size {
        Descend(n, size as int, alt as nat, pos as int, off, rest, found);
        pos := pos - ShiftLeft(alt);
        alt := alt - 1;
      }
      if pos < size {
        Take(n, size as int, alt as nat, pos as int, off, rest, found);
        found := found + {pos as nat};
        pos := pos + ShiftLeft(alt + 1) - 1;
        off, rest := off + 2 * Pow2(alt as nat) - 1, rest - Pow2(alt as nat);
      }
      if alt == 0 {
        break;
      }
    }
    Finish(n, size as int, pos as int, off, rest, found);
    return Some(found);
  }

  lemma FirstCandidate(n: nat, a: nat)
    requires 0 < n < 0x8000_0000 && a == Log2(n)
    ensures a <= 30 && 4 * Pow2(a) <= U32_LIMIT
    ensures n < 2 * Pow2(a) && Pow2(a + 1) == 2 * Pow2(a) >= 2 && Size(n) >= 2 * Pow2(a) - 1
    ensures Scanning(n, Size(n), a, 2 * Pow2(a) - 2, 0, n, {})
  {
    hide Log2, Pow2;
    SizeBounds(n);
    Pow2Double(a);
    Pow2Values();
    if a >= 31 { Pow2Monotone(31, a); } else { Pow2Monotone(a, 30); }
  }

  lemma TakePeak(r: nat, a: nat)
    requires Pow2(a) <= r < 2 * Pow2(a)
    ensures Size(r) == 2 * Pow2(a) - 1 + Size(r - Pow2(a))
  {
    TopIs(r, a);
  }

  lemma LastPeak(r: nat, off: nat, a: nat)
    requires a == 0 && r < Pow2(a)
    ensures PositionSet(r, off) == {}
  {
  }

  // ---------------------------------------------------------------- stored peaks and rebuilt trees

  /** The peaks of the full tree over `s`, by storage position. */
  function PeakMap(s: seq<BlockParts>): map<nat, Node> {
    StorageSize(s);
    PositionsIncrease(|s|, 0);
    map p | p in PositionSet(|s|, 0) :: Storage(s)[p]
  }

  lemma {:induction false} MinOf(s: set<nat>) returns (m: nat)
    requires s != {}
    ensures m in s && forall x :: x in s ==> m <= x
    decreases |s|
  {
    m :| m in s;
    var y, t := m, s - {m};
    assert forall x :: x in s ==> x == y || x in t;
    if t != {} {
      var k := MinOf(t);
      m := if k < y then k else y;
    }
  }

  lemma MinExists(s: set<nat>)
    requires s != {}
    ensures exists m :: m in s && forall x :: x in s ==> m <= x
  {
    var m := MinOf(s);
  }

  function MinKey(s: set<nat>): (m: nat)
    requires s != {}
    ensures m in s && forall x :: x in s ==> m <= x
  {
    MinExists(s);
    var m :| m in s && forall x :: x in s ==> m <= x;
    m
  }

  /** The values of an ordered map in key order. */
  function InOrder(m: map<nat, Node>): seq<Node>
    decreases |m|
  {
    if m.Keys == {} then []
    else
      var k := MinKey(m.Keys);
      assert (m - {k}).Keys == m.Keys - {k};
      [m[k]] + InOrder(m - {k})
  }

  /** The least key comes first. */
  lemma InOrderStep(m: map<nat, Node>, k: nat)
    requires k in m && forall x :: x in m ==> k <= x
    ensures InOrder(m) == [m[k]] + InOrder(m - {k})
  {
    assert MinKey(m.Keys) == k;
  }

  /** In an increasing list of the keys, the first is the least and the others are the keys without it. */
  lemma FirstKey(m: map<nat, Node>, ps: seq<nat>)
    requires ps != [] && forall k :: k in m <==> k in ps
    requires forall i, j :: 0 <= i < j < |ps| ==> ps[i] < ps[j]
    ensures ps[0] in m && forall x :: x in m ==> ps[0] <= x
    ensures forall x :: x in m - {ps[0]} <==> x in ps[1..]
  {
    assert ps[0] in ps;
    forall x | x in m ensures ps[0] <= x && (x == ps[0] || x in ps[1..]) {
      var i :| 0 <= i < |ps| && ps[i] == x;
      assert i > 0 ==> ps[1..][i - 1] == x;
    }
    forall x | x in ps[1..] ensures x in m && x != ps[0] {
      assert x in ps;
    }
  }

  lemma {:induction false} InOrderIs(m: map<nat, Node>, ps: seq<nat>)
    requires forall k :: k in m <==> k in ps
    requires forall i, j :: 0 <= i < j < |ps| ==> ps[i] < ps[j]
    ensures |InOrder(m)| == |ps| && forall i :: 0 <= i < |ps| ==> InOrder(m)[i] == m[ps[i]]
    decreases |ps|
  {
    hide InOrder;
    if ps == [] {
      assert m == map[];
      InOrderNone();
    } else {
      var rest := ps[1..];
      FirstKey(m, ps);
      InOrderStep(m, ps[0]);
      InOrderIs(m - {ps[0]}, rest);
      forall i | 0 <= i < |ps| ensures InOrder(m)[i] == m[ps[i]] {
        if i > 0 { assert ps[i] == rest[i - 1]; }
      }
    }
  }

  lemma InOrderNone()
    ensures InOrder(map[]) == []
  {
  }

  lemma PeakMapInOrder(s: seq<BlockParts>)
    ensures InOrder(PeakMap(s)) == Peaks(s)
  {
    var ps := Positions(|s|, 0);
    PositionsIncrease(|s|, 0);
    PeakCount(s, 0);
    InOrderIs(PeakMap(s), ps);
    forall i | 0 <= i < |ps| ensures InOrder(PeakMap(s))[i] == Peaks(s)[i] {
      PeakAtPosition([], s, i);
      assert [] + Storage(s) == Storage(s);
    }
  }

  /** The run-time tree of the `zcash_history` crate: its length and its peaks. */
  datatype Tree = Tree(length: nat, peaks: seq<Node>)

  function NewFromCache(length: nat, peaks: map<nat, Node>): Tree {
    Tree(length, InOrder(peaks))
  }

  /** The full tree over `s`, in the run-time form. */
  function FullTree(s: seq<BlockParts>): Tree {
    Tree(Size(|s|), Peaks(s))
  }

  /** Keeping only the peak positions of the longer range gives exactly its peaks. */
  lemma RetainPeaks(s: seq<BlockParts>, x: BlockParts, kept: map<nat, Node>)
    requires forall p :: p in PeakMap(s) ==> p in kept
    requires forall p :: Size(|s|) <= p < Size(|s| + 1) ==> p in kept
    requires forall p :: p in kept ==> p < Size(|s| + 1) == |Storage(s + [x])| && kept[p] == Storage(s + [x])[p]
    ensures (map p | p in kept && p in PositionSet(|s| + 1, 0) :: kept[p]) == PeakMap(s + [x])
  {
    var now := Positions(|s| + 1, 0);
    forall p | p in now ensures p in kept {
      var i :| 0 <= i < |now| && now[i] == p;
      PositionsAfterAppend(|s|, 0, Positions(|s|, 0), now, i);
      assert p in Positions(|s|, 0) ==> p in PeakMap(s);
    }
    assert |s + [x]| == |s| + 1;
  }

  // ---------------------------------------------------------------- network upgrades

  /** Activation heights of all upgrades, the first at height 0; an upgrade is named by its activation height. */
  datatype Network = Network(activations: set<nat>, heartwood: Option<nat>)

  predicate ValidNetwork(net: Network) {
    && 0 in net.activations
    && (net.heartwood.Some? ==> net.heartwood.value in net.activations && net.heartwood.value > 0)
  }

  /** `NetworkUpgrade::current`, as the activation height of the current upgrade. */
  function CurrentUpgrade(net: Network, height: nat): (a: nat)
    requires ValidNetwork(net)
    ensures a <= height && a in net.activations
    ensures forall h :: a < h <= height ==> h !in net.activations
  {
    if height in net.activations then height else CurrentUpgrade(net, height - 1)
  }

  lemma NextUpgrade(net: Network, height: nat)
    requires ValidNetwork(net)
    ensures CurrentUpgrade(net, height + 1) ==
            if height + 1 in net.activations then height + 1 else CurrentUpgrade(net, height)
  {
  }

  // ---------------------------------------------------------------- the tree object

  class NonEmptyHistoryTree {
    const network: Network
    var upgrade: nat
    var inner: Tree
    var size: u32
    var peaks: map<nat, Node>
    var currentHeight: nat

    /** The kept fields are those of the full tree over the leaves `s`, which end at the current height. */
    ghost predicate Represents(s: seq<BlockParts>)
      reads this
    {
      && ValidNetwork(network) && upgrade == CurrentUpgrade(network, currentHeight)
      && 0 < |s| < 0x8000_0000
      && s[|s| - 1].height == currentHeight
      && size as nat == Size(|s|)
      && peaks == PeakMap(s)
      && inner == FullTree(s)
    }

    /** `from_parts`: a tree with a single block. */
    constructor FromParts(network: Network, parts: BlockParts)
      requires ValidNetwork(network) && network.heartwood.Some? && network.heartwood.value <= parts.height
      ensures Represents([parts]) && this.network == network
    {
      this.network := network;
      this.upgrade := CurrentUpgrade(network, parts.height);
      this.inner := NewFromCache(1, map[0 := Leaf(parts)]);
      this.size := 1;
      this.peaks := map[0 := Leaf(parts)];
      this.currentHeight := parts.height;
      OneLeaf(parts);
      PeakMapInOrder([parts]);
    }

    /** `from_cache`: rebuilding from the saved size, peaks and height of a tree gives back the same tree. */
    constructor FromCache(
      network: Network, size: u32, peaks: map<nat, Node>, currentHeight: nat, ghost s: seq<BlockParts>)
      requires ValidNetwork(network) && network.heartwood.Some? && network.heartwood.value <= currentHeight
      requires 0 < |s| < 0x8000_0000 && s[|s| - 1].height == currentHeight
      requires size as nat == Size(|s|) && peaks == PeakMap(s)
      ensures Represents(s) && this.network == network
    {
      this.network := network;
      this.upgrade := CurrentUpgrade(network, currentHeight);
      this.inner := NewFromCache(size as nat, peaks);
      this.size := size;
      this.peaks := peaks;
      this.currentHeight := currentHeight;
      PeakMapInOrder(s);
    }

    /** `clone`: the copy represents the same leaves, and so has the same root. */
    constructor Clone(tree: NonEmptyHistoryTree, ghost s: seq<BlockParts>)
      requires tree.Represents(s)
      ensures Represents(s) && network == tree.network && inner == tree.inner
    {
      this.network := tree.network;
      this.upgrade := tree.upgrade;
      this.inner := NewFromCache(tree.size as nat, tree.peaks);
      this.size := tree.size;
      this.peaks := tree.peaks;
      this.currentHeight := tree.currentHeight;
      PeakMapInOrder(s);
    }

    /** `hash`: the root commits to exactly the leaves, in order and in the shape their number gives. */
    function Root(ghost s: seq<BlockParts>): (root: Node)
      requires Represents(s)
      reads this
      ensures Leaves(root) == s && IsBagged(root, |s|)
      ensures Peaks(s) != [] && root == Bag(Peaks(s))
    {
      RootLeaves(s);
      RootShape(s);
      Bag(inner.peaks)
    }

    /** `push_from_parts`: a block of a new upgrade starts a new tree, any other block becomes the last leaf. */
    method PushFromParts(parts: BlockParts, ghost s: seq<BlockParts>)
      requires Represents(s) && parts.height == currentHeight + 1 <= HEIGHT_MAX
      requires network.heartwood.Some? && network.heartwood.value <= currentHeight
      requires |s| + 1 < 0x8000_0000
      modifies this
      ensures Represents(if parts.height in network.activations then [parts] else s + [parts])
      ensures Root(if parts.height in network.activations then [parts] else s + [parts]) != old(Root(s))
    {
      hide Storage, Size, Positions, Merge, Peaks, PeakMap, CurrentUpgrade;
      var height := parts.height;
      NextUpgrade(network, currentHeight);
      var newUpgrade := CurrentUpgrade(network, height);
      if newUpgrade != upgrade {
        // the activation block of a network upgrade: replace self with a new tree
        var newTree := new NonEmptyHistoryTree.FromParts(network, parts);
        upgrade, inner, size := newTree.upgrade, newTree.inner, newTree.size;
        peaks, currentHeight := newTree.peaks, newTree.currentHeight;
        return;
      }
      var (newPeaks, newEntries) := Merge(inner.peaks, Leaf(parts));
      inner := Tree(inner.length + |newEntries|, newPeaks);
      AppendLeaf(s, parts);
      InsertEntries(newEntries, s, parts);
      Prune(s + [parts], s, parts);
      currentHeight := height;
    }

    /** Store the new nodes behind the old ones; not every one is a peak. */
    method InsertEntries(newEntries: seq<Node>, ghost s: seq<BlockParts>, ghost x: BlockParts)
      requires size as nat == Size(|s|) && peaks == PeakMap(s)
      requires Storage(s + [x]) == Storage(s) + newEntries && |s| + 1 < 0x8000_0000
      modifies this`peaks, this`size
      ensures size as nat == Size(|s| + 1)
      ensures forall p :: p in PeakMap(s) ==> p in peaks
      ensures forall p :: Size(|s|) <= p < Size(|s| + 1) ==> p in peaks
      ensures forall p :: p in peaks ==> p < Size(|s| + 1) == |Storage(s + [x])| && peaks[p] == Storage(s + [x])[p]
    {
      hide Storage, Size, Positions;
      StorageSize(s);
      StorageSize(s + [x]);
      SizeFitsU32(|s| + 1);
      assert |s + [x]| == |s| + 1;
      PositionsIncrease(|s|, 0);
      var i := 0;
      while i < |newEntries|
        invariant 0 <= i <= |newEntries|
        invariant size as nat == Size(|s|) + i
        invariant forall p :: p in PeakMap(s) ==> p in peaks
        invariant forall p :: Size(|s|) <= p < Size(|s|) + i ==> p in peaks
        invariant forall p :: p in peaks ==> p < Size(|s|) + i && peaks[p] == Storage(s + [x])[p]
      {
        peaks := peaks[size as nat := newEntries[i]];
        size := size + 1;
        i := i + 1;
      }
    }

    /** Keep only the peaks, and rebuild the inner tree from them. */
    method Prune(ghost s': seq<BlockParts>, ghost s: seq<BlockParts>, ghost x: BlockParts)
      requires s' == s + [x] && |s'| < 0x8000_0000 && size as nat == Size(|s'|)
      requires forall p :: p in PeakMap(s) ==> p in peaks
      requires forall p :: Size(|s|) <= p < Size(|s| + 1) ==> p in peaks
      requires forall p :: p in peaks ==> p < Size(|s| + 1) == |Storage(s')| && peaks[p] == Storage(s')[p]
      modifies this`peaks, this`inner
      ensures peaks == PeakMap(s') && inner == FullTree(s')
    {
      hide PeakMap, Storage, Size, Positions, PositionSet, Peaks, InOrder;
      SizeFitsU32(|s'|);
      var found := PeakPositions(size, |s'|);
      var positions := found.value;
      RetainPeaks(s, x, peaks);
      peaks := map p | p in peaks && p in positions :: peaks[p];
      PeakMapInOrder(s');
      inner := NewFromCache(size as nat, peaks);
    }
  }

  lemma OneLeaf(parts: BlockParts)
    ensures Size(1) == 1 && Peaks([parts]) == [Leaf(parts)] && PeakMap([parts]) == map[0 := Leaf(parts)]
  {
    OnePeak([parts], 0);
    assert Positions(1, 0) == [0] + Positions(0, 1) == [0];
    assert Storage([parts]) == [Leaf(parts)];
  }

  // ---------------------------------------------------------------- growing from empty

  /** The leaves since the activation block of the current upgrade, for a chain of blocks from height 0. */
  function CurrentLeaves(net: Network, chain: seq<BlockParts>): seq<BlockParts>
    requires ValidNetwork(net) && chain != []
  {
    chain[CurrentUpgrade(net, |chain| - 1)..]
  }

  predicate FromGenesis(chain: seq<BlockParts>) {
    forall i :: 0 <= i < |chain| ==> chain[i].height == i
  }

  /** One leaf per height from the activation block on, the last one for the tip. */
  lemma LeavesAre(net: Network, chain: seq<BlockParts>)
    requires ValidNetwork(net) && chain != [] && FromGenesis(chain)
    ensures |CurrentLeaves(net, chain)| == |chain| - CurrentUpgrade(net, |chain| - 1) > 0
    ensures CurrentLeaves(net, chain)[|CurrentLeaves(net, chain)| - 1].height == |chain| - 1
  {
  }

  /** A block adds a leaf, or starts over if it activates an upgrade. */
  lemma LeavesNext(net: Network, chain: seq<BlockParts>, parts: BlockParts)
    requires ValidNetwork(net) && FromGenesis(chain) && parts.height == |chain|
    ensures FromGenesis(chain + [parts])
    ensures CurrentLeaves(net, chain + [parts])
         == if parts.height in net.activations || chain == [] then [parts] else CurrentLeaves(net, chain) + [parts]
  {
    var chain' := chain + [parts];
    if chain == [] {
      assert CurrentUpgrade(net, 0) == 0;
    } else {
      NextUpgrade(net, |chain| - 1);
      var upgrade := CurrentUpgrade(net, |chain| - 1);
      assert chain'[upgrade..] == chain[upgrade..] + [parts] && chain'[|chain|..] == [parts];
    }
  }

  /** A history tree that is empty before the Heartwood activation block. */
  class HistoryTree {
    const network: Network
    var tree: NonEmptyHistoryTree?

    /** The state after pushing the blocks of `chain` from height 0 on. */
    ghost predicate Holds(chain: seq<BlockParts>)
      reads this, tree
    {
      && ValidNetwork(network) && FromGenesis(chain) && |chain| <= HEIGHT_MAX + 1
      && (tree != null <==> network.heartwood.Some? && network.heartwood.value < |chain|)
      && (tree != null ==> tree.network == network && tree.Represents(CurrentLeaves(network, chain)))
    }

    constructor (network: Network)
      requires ValidNetwork(network)
      ensures Holds([]) && this.network == network
    {
      this.network := network;
      this.tree := null;
    }

    /**
     Pushing the next block keeps the tree equal to the full tree over all blocks from the activation block of
     the current upgrade to the new block: one leaf per height.
     */
    method PushFromParts(parts: BlockParts, ghost chain: seq<BlockParts>)
      requires Holds(chain) && parts.height == |chain| <= HEIGHT_MAX
      modifies this, tree
      ensures Holds(chain + [parts])
      ensures tree != old(tree) ==> tree != null && fresh(tree)
      ensures tree != null ==>
                var upgrade := CurrentUpgrade(network, parts.height);
                |CurrentLeaves(network, chain + [parts])| == parts.height - upgrade + 1
    {
      hide CurrentLeaves, FromGenesis, CurrentUpgrade, PeakMap, FullTree, Size;
      LeavesNext(network, chain, parts);
      LeavesAre(network, chain + [parts]);
      if chain != [] { LeavesAre(network, chain); }
      if network.heartwood.None? {
        return;
      }
      var heartwood := network.heartwood.value;
      if parts.height < heartwood {
        return;
      }
      if parts.height == heartwood {
        tree := new NonEmptyHistoryTree.FromParts(network, parts);
      } else {
        tree.PushFromParts(parts, CurrentLeaves(network, chain));
      }
    }

    /** The root after any chain of blocks is the root over all leaves since the current upgrade began. */
    function Root(ghost chain: seq<BlockParts>): (root: Option<Node>)
      requires Holds(chain)
      reads this, tree
      ensures root.Some? <==> network.heartwood.Some? && network.heartwood.value < |chain|
      ensures root.Some? ==>
                var leaves := chain[CurrentUpgrade(network, |chain| - 1)..];
                Leaves(root.value) == leaves != [] && IsBagged(root.value, |leaves|)
    {
      if tree == null then None else Some(tree.Root(CurrentLeaves(network, chain)))
    }
  }
}
