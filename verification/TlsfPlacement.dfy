/**
 Which bin each node belongs to, and the invariant of the whole allocator.
 */
module TlsfPlacement {
  import opened TlsfBins
  import opened TlsfLists
  import opened TlsfHeap

  /** The free bytes in front of a used node; they belong to it. */
  function Gap(nodes: seq<Node>, n: nat): int
    requires n < |nodes| && nodes[n].prev < |nodes|
  {
    nodes[n].offset - EndOf(nodes[nodes[n].prev])
  }

  /** The bin of a node with the given gap, or NIL when the gap is too small to be worth keeping. */
  function TargetOf(gap: int): nat {
    if gap >= MIN_SIZE then BinIndex(gap, false) else NIL
  }

  /** The bin a node must be in; unused nodes and the first node are in none. */
  function Target(nodes: seq<Node>, n: nat): nat
    requires n < |nodes|
  {
    if nodes[n].prev < |nodes| then TargetOf(Gap(nodes, n)) else NIL
  }

  predicate Loose(node: Node) {
    node.nextInBin == NIL && node.prevInBin == NIL
  }

  /** Node `n` is in bin `t` and no other, or in none and not linked anywhere when `t` is NIL. */
  ghost predicate IsAt(nodes: seq<Node>, bins: seq<seq<nat>>, n: nat, t: nat)
    requires n < |nodes|
  {
    if t == NIL then Unbinned(bins, n) && Loose(nodes[n]) else t < |bins| && n in bins[t]
  }

  ghost predicate Placed(nodes: seq<Node>, bins: seq<seq<nat>>, except: set<nat>) {
    forall n | 0 <= n < |nodes| && n !in except :: IsAt(nodes, bins, n, Target(nodes, n))
  }

  ghost predicate FreeOk(nodes: seq<Node>, free: seq<nat>, firstFree: nat) {
    && InRange(free, nodes) && NoDup(free) && firstFree == First(free)
    && forall k :: 0 <= k < |free| ==> nodes[free[k]] == FreeNode(After(free, k))
  }

  ghost predicate Partition(count: nat, order: seq<nat>, free: seq<nat>) {
    forall n | 0 <= n < count :: n in order <==> n !in free
  }

  datatype Heap = Heap(nodes: seq<Node>, binFirst: seq<nat>, masks: seq<bool>, firstFree: nat, memorySize: nat)
  datatype Lists = Lists(order: seq<nat>, bins: seq<seq<nat>>, free: seq<nat>)

  /** All parts agree, except that the nodes in `except` may be in the wrong bin. */
  ghost predicate Nearly(h: Heap, v: Lists, except: set<nat>) {
    && OrderOk(h.nodes, v.order, h.memorySize)
    && FreeOk(h.nodes, v.free, h.firstFree)
    && Partition(|h.nodes|, v.order, v.free)
    && BinsOk(h.nodes, h.binFirst, h.masks, v.bins)
    && Placed(h.nodes, v.bins, except)
  }

  /** The invariant of the allocator. */
  ghost predicate Ok(h: Heap, v: Lists) {
    Nearly(h, v, {})
  }

  // ---- steps that only move one node between bins ----

  ghost predicate SameLayout(a: seq<Node>, b: seq<Node>) {
    && |a| == |b|
    && forall x | 0 <= x < |a| ::
         a[x].offset == b[x].offset && a[x].size == b[x].size && a[x].next == b[x].next && a[x].prev == b[x].prev
  }

  ghost predicate SameBins(a: seq<seq<nat>>, b: seq<seq<nat>>, x: nat) {
    |a| == |b| && forall c | 0 <= c < |a| :: x in a[c] <==> x in b[c]
  }

  /** Only the bin membership of nodes in `who` differs. */
  ghost predicate Moves(nodes: seq<Node>, bins: seq<seq<nat>>, after: seq<Node>, binsAfter: seq<seq<nat>>, who: set<nat>) {
    && SameLayout(nodes, after) && |bins| == |binsAfter|
    && forall x | 0 <= x < |nodes| && x !in who ::
         SameBins(bins, binsAfter, x) && (Unbinned(bins, x) ==> after[x] == nodes[x])
  }

  lemma TargetOfLayout(nodes: seq<Node>, after: seq<Node>, n: nat)
    requires SameLayout(nodes, after) && n < |nodes|
    ensures Target(after, n) == Target(nodes, n)
  {
    hide BinIndex;
  }

  lemma MovesKeepPlaced(nodes: seq<Node>, bins: seq<seq<nat>>, after: seq<Node>, binsAfter: seq<seq<nat>>, who: set<nat>,
                        except: set<nat>)
    requires Moves(nodes, bins, after, binsAfter, who) && Placed(nodes, bins, except)
    ensures Placed(after, binsAfter, except + who)
  {
    hide Target;
    forall n | 0 <= n < |nodes| && n !in except + who ensures IsAt(after, binsAfter, n, Target(after, n)) {
      assert IsAt(nodes, bins, n, Target(nodes, n)) && SameBins(bins, binsAfter, n);
      TargetOfLayout(nodes, after, n);
    }
  }

  lemma MovesKeepAt(nodes: seq<Node>, bins: seq<seq<nat>>, after: seq<Node>, binsAfter: seq<seq<nat>>, who: set<nat>,
                    n: nat, t: nat)
    requires Moves(nodes, bins, after, binsAfter, who) && n < |nodes| && n !in who && IsAt(nodes, bins, n, t)
    ensures IsAt(after, binsAfter, n, t)
  {
    assert SameBins(bins, binsAfter, n);
  }

  lemma MovesJoin(nodes: seq<Node>, bins: seq<seq<nat>>, mid: seq<Node>, binsMid: seq<seq<nat>>, after: seq<Node>,
                  binsAfter: seq<seq<nat>>, who: set<nat>, who2: set<nat>)
    requires Moves(nodes, bins, mid, binsMid, who) && Moves(mid, binsMid, after, binsAfter, who2)
    ensures Moves(nodes, bins, after, binsAfter, who + who2)
  {
    forall x | 0 <= x < |nodes| && x !in who + who2
      ensures SameBins(bins, binsAfter, x) && (Unbinned(bins, x) ==> after[x] == nodes[x])
    {
      assert SameBins(bins, binsMid, x) && SameBins(binsMid, binsAfter, x);
    }
  }

  lemma MovesFacts(nodes: seq<Node>, bins: seq<seq<nat>>, after: seq<Node>, binsAfter: seq<seq<nat>>, who: set<nat>, x: nat)
    requires Moves(nodes, bins, after, binsAfter, who) && x < |nodes|
    ensures SameLayout(nodes, after) && |bins| == |binsAfter| && |nodes| == |after| && Target(after, x) == Target(nodes, x)
    ensures x !in who ==> forall c | 0 <= c < |bins| :: x in bins[c] <==> x in binsAfter[c]
  {
    TargetOfLayout(nodes, after, x);
    assert x !in who ==> SameBins(bins, binsAfter, x);
  }

  lemma TargetIs(nodes: seq<Node>, n: nat)
    requires n < |nodes| && nodes[n].prev < |nodes|
    ensures Target(nodes, n) == TargetOf(Gap(nodes, n))
  {
  }

  /** The bin lists after a node with the given gap was put in, or taken out. */
  ghost function Placing(bins: seq<seq<nat>>, n: nat, gap: int): (r: seq<seq<nat>>)
    ensures |r| == |bins|
  {
    if gap >= MIN_SIZE && BinIndex(gap, false) < |bins| then Put(bins, n, BinIndex(gap, false)) else bins
  }

  ghost function Leaving(bins: seq<seq<nat>>, n: nat, gap: int): (r: seq<seq<nat>>)
    ensures |r| == |bins|
  {
    if gap >= MIN_SIZE && BinIndex(gap, false) < |bins| then Take(bins, n, BinIndex(gap, false)) else bins
  }

  lemma LinkMoves(nodes: seq<Node>, first: seq<nat>, masks: seq<bool>, bins: seq<seq<nat>>, n: nat, b: nat)
    requires BinsOk(nodes, first, masks, bins) && n < |nodes| && b < BINS && Unbinned(bins, n)
    ensures Moves(nodes, bins, LinkNodes(nodes, first[b], n), Put(bins, n, b), {n})
  {
    assert BinOk(nodes, first[b], masks[b], bins[b]);
    PutMembers(bins, n, b);
  }

  lemma UnlinkMoves(nodes: seq<Node>, first: seq<nat>, masks: seq<bool>, bins: seq<seq<nat>>, n: nat, b: nat)
    requires BinsOk(nodes, first, masks, bins) && b < BINS && n in bins[b] && n < |nodes|
    ensures Moves(nodes, bins, UnlinkNodes(nodes, n), Take(bins, n, b), {n})
    ensures Unbinned(Take(bins, n, b), n)
  {
    hide Linked, Drop;
    assert BinOk(nodes, first[b], masks[b], bins[b]);
    BinInRange(nodes, bins[b]);
    TakeMembers(bins, n, b);
    UnlinkLayout(nodes, n);
    forall x: nat | x < |nodes| && Unbinned(bins, x) ensures UnlinkNodes(nodes, n)[x] == nodes[x] {
      UnlinkKeeps(nodes, bins[b], n, x);
    }
  }

  lemma UnlinkLayout(nodes: seq<Node>, n: nat)
    requires n < |nodes|
    ensures SameLayout(nodes, UnlinkNodes(nodes, n))
  {
  }

  lemma LoosenMoves(nodes: seq<Node>, first: seq<nat>, masks: seq<bool>, bins: seq<seq<nat>>, n: nat)
    requires BinsOk(nodes, first, masks, bins) && n < |nodes| && Unbinned(bins, n)
    ensures var after := nodes[n := nodes[n].(nextInBin := NIL, prevInBin := NIL)];
      BinsOk(after, first, masks, bins) && Moves(nodes, bins, after, bins, {n}) && Loose(after[n])
  {
    SameLinksKeepBins(nodes, nodes[n := nodes[n].(nextInBin := NIL, prevInBin := NIL)], first, masks, bins);
  }

  /** The bin lists depend only on the bin links of the nodes in them. */
  lemma SameLinksKeepBins(nodes: seq<Node>, after: seq<Node>, first: seq<nat>, masks: seq<bool>, bins: seq<seq<nat>>)
    requires BinsOk(nodes, first, masks, bins) && |after| == |nodes|
    requires forall x | 0 <= x < |nodes| && !Unbinned(bins, x) ::
               after[x].nextInBin == nodes[x].nextInBin && after[x].prevInBin == nodes[x].prevInBin
    ensures BinsOk(after, first, masks, bins)
  {
    forall b | 0 <= b < BINS ensures BinOk(after, first[b], masks[b], bins[b]) {
      assert BinOk(nodes, first[b], masks[b], bins[b]);
      forall k | 0 <= k < |bins[b]|
        ensures after[bins[b][k]].nextInBin == After(bins[b], k) && after[bins[b][k]].prevInBin == Preceding(bins[b], k)
      {
        assert bins[b][k] in bins[b];
      }
    }
  }

  /** The order depends only on the order links, offsets and sizes of the nodes in it. */
  lemma SameOrder(nodes: seq<Node>, after: seq<Node>, order: seq<nat>, memorySize: nat)
    requires OrderOk(nodes, order, memorySize) && |nodes| <= |after| <= NIL
    requires forall x | x in order && x < |nodes| ::
               && after[x].offset == nodes[x].offset && after[x].size == nodes[x].size
               && after[x].next == nodes[x].next && after[x].prev == nodes[x].prev
    ensures OrderOk(after, order, memorySize)
  {
    SameChain(nodes, after, order);
    SameSpacing(nodes, after, order);
    assert order[0] in order && order[|order| - 1] in order;
  }

  lemma SameChain(nodes: seq<Node>, after: seq<Node>, order: seq<nat>)
    requires Chained(nodes, order) && |nodes| <= |after| <= NIL
    requires forall x | x in order && x < |nodes| :: after[x].next == nodes[x].next && after[x].prev == nodes[x].prev
    ensures Chained(after, order)
  {
    hide After, Preceding;
    forall k | 0 <= k < |order| ensures after[order[k]].next == After(order, k) && after[order[k]].prev == Preceding(order, k) {
      assert order[k] in order && nodes[order[k]].next == After(order, k) && nodes[order[k]].prev == Preceding(order, k);
    }
  }

  lemma SameSpacing(nodes: seq<Node>, after: seq<Node>, order: seq<nat>)
    requires InRange(order, nodes) && InRange(order, after) && Spaced(nodes, order) && |nodes| <= |after|
    requires forall x | x in order && x < |nodes| :: after[x].offset == nodes[x].offset && after[x].size == nodes[x].size
    ensures Spaced(after, order)
  {
    forall k | 0 <= k < |order| ensures after[order[k]].offset == nodes[order[k]].offset && after[order[k]].size == nodes[order[k]].size {
      assert order[k] in order;
    }
    forall k | 0 < k < |order| ensures EndOf(after[order[k - 1]]) <= after[order[k]].offset {
      assert EndOf(nodes[order[k - 1]]) <= nodes[order[k]].offset;
    }
  }

  /** Moving nodes between bins leaves the order and the unused nodes as they are. */
  lemma MovesNearly(h: Heap, v: Lists, h2: Heap, v2: Lists, who: set<nat>, except: set<nat>)
    requires Nearly(h, v, except) && Moves(h.nodes, v.bins, h2.nodes, v2.bins, who)
    requires BinsOk(h2.nodes, h2.binFirst, h2.masks, v2.bins) && v2 == v.(bins := v2.bins)
    requires h2.firstFree == h.firstFree && h2.memorySize == h.memorySize
    requires forall x | x in who + except :: x in v.order
    ensures Nearly(h2, v2, except + who)
  {
    hide OrderOk, BinsOk, Placed;
    OrderNoDup(h.nodes, v.order, h.memorySize);
    SameOrder(h.nodes, h2.nodes, v.order, h.memorySize);
    MovesKeepPlaced(h.nodes, v.bins, h2.nodes, v2.bins, who, except);
    forall k: nat | k < |v.free| ensures h2.nodes[v.free[k]] == h.nodes[v.free[k]] {
      FreeIsOutside(h, v, except, k);
    }
  }

  lemma FreeIsOutside(h: Heap, v: Lists, except: set<nat>, j: nat)
    requires Nearly(h, v, except) && j < |v.free|
    ensures v.free[j] < |h.nodes| && v.free[j] !in v.order && h.nodes[v.free[j]] == FreeNode(After(v.free, j))
    ensures v.free[j] !in except ==> Unbinned(v.bins, v.free[j])
  {
    assert v.free[j] in v.free;
    assert v.free[j] !in except ==> IsAt(h.nodes, v.bins, v.free[j], Target(h.nodes, v.free[j]));
  }

  lemma PrevIsUsed(h: Heap, v: Lists, except: set<nat>, x: nat)
    requires Nearly(h, v, except) && x < |h.nodes|
    ensures |h.nodes| <= NIL
    ensures h.nodes[x].prev == NIL || (h.nodes[x].prev in v.order && h.nodes[x].prev < |h.nodes| && x in v.order)
    ensures h.nodes[x].prev != NIL ==> Gap(h.nodes, x) >= 0
  {
    if x in v.order {
      var k :| 0 <= k < |v.order| && v.order[k] == x;
      assert h.nodes[v.order[k]].prev == Preceding(v.order, k);
      assert k > 0 ==> EndOf(h.nodes[v.order[k - 1]]) <= h.nodes[v.order[k]].offset;
    } else {
      var j :| 0 <= j < |v.free| && v.free[j] == x;
      assert h.nodes[v.free[j]] == FreeNode(After(v.free, j));
    }
  }

  lemma NearlyWider(h: Heap, v: Lists, a: set<nat>, b: set<nat>)
    requires Nearly(h, v, a) && a <= b
    ensures Nearly(h, v, b)
  {
    hide OrderOk, FreeOk, BinsOk, Partition;
  }

  lemma NearlyOk(h: Heap, v: Lists, except: set<nat>)
    requires Nearly(h, v, except) && forall n | n in except && n < |h.nodes| :: IsAt(h.nodes, v.bins, n, Target(h.nodes, n))
    ensures Ok(h, v)
  {
    hide OrderOk, FreeOk, BinsOk, Partition;
  }

  /** A node found in a bin has a gap of that bin. */
  lemma InBin(h: Heap, v: Lists, n: nat, b: nat)
    requires Ok(h, v) && b < BINS && n in v.bins[b]
    ensures n < |h.nodes| && Target(h.nodes, n) == b
  {
    hide OrderOk, FreeOk, Partition, Target, Linked;
    assert BinOk(h.nodes, h.binFirst[b], h.masks[b], v.bins[b]);
    BinInRange(h.nodes, v.bins[b]);
    assert IsAt(h.nodes, v.bins, n, Target(h.nodes, n));
  }

  lemma Position(h: Heap, v: Lists, n: nat) returns (k: nat)
    requires Ok(h, v) && n < |h.nodes| && h.nodes[n].prev < |h.nodes|
    ensures 0 < k < |v.order| && v.order[k] == n && h.nodes[n].prev == v.order[k - 1]
    ensures 0 <= Gap(h.nodes, n) <= h.nodes[n].offset <= h.memorySize < NIL
  {
    PrevIsUsed(h, v, {}, n);
    k :| 0 <= k < |v.order| && v.order[k] == n;
    assert h.nodes[v.order[k]].prev == Preceding(v.order, k);
    OffsetsInside(h.nodes, v.order, h.memorySize, k);
  }

  lemma {:induction false} OffsetsInside(nodes: seq<Node>, order: seq<nat>, memorySize: nat, k: nat)
    requires OrderOk(nodes, order, memorySize) && k < |order|
    ensures order[k] < |nodes| && EndOf(nodes[order[k]]) <= memorySize
    decreases |order| - k
  {
    if k + 1 < |order| {
      OffsetsInside(nodes, order, memorySize, k + 1);
      assert EndOf(nodes[order[k + 1 - 1]]) <= nodes[order[k + 1]].offset;
    }
  }

  /** Some gap is at least as large as the smallest size of the rounded-up bin, and is kept in a bin. */
  ghost predicate HasGap(nodes: seq<Node>, total: nat) {
    exists n :: IsGap(nodes, n, total)
  }

  ghost predicate IsGap(nodes: seq<Node>, n: nat, total: nat) {
    && n < |nodes| && nodes[n].prev < |nodes| && Gap(nodes, n) >= MIN_SIZE
    && Gap(nodes, n) >= SizeFromBin(BinIndex(total, true))
  }

  /** The search through the masks finds a bin exactly when a large enough gap exists. */
  lemma SearchIsComplete(h: Heap, v: Lists, total: nat)
    requires Ok(h, v)
    ensures (exists b | BinIndex(total, true) <= b < BINS :: h.masks[b]) <==> HasGap(h.nodes, total)
  {
    hide OrderOk, FreeOk, Partition, Linked, Placed, BinIndex, SizeFromBin;
    if b :| BinIndex(total, true) <= b < BINS && h.masks[b] {
      assert BinOk(h.nodes, h.binFirst[b], h.masks[b], v.bins[b]);
      FoundGap(h, v, b, total);
      assert IsGap(h.nodes, v.bins[b][0], total);
    }
    if n: nat :| IsGap(h.nodes, n, total) {
      GapIsBinned(h, v, n);
      GapFits(Gap(h.nodes, n), BinIndex(total, true));
      var b := BinIndex(Gap(h.nodes, n), false);
      assert BinOk(h.nodes, h.binFirst[b], h.masks[b], v.bins[b]);
    }
  }

  lemma GapIsBinned(h: Heap, v: Lists, n: nat)
    requires Ok(h, v) && n < |h.nodes| && h.nodes[n].prev < |h.nodes| && Gap(h.nodes, n) >= MIN_SIZE
    ensures BinIndex(Gap(h.nodes, n), false) < BINS && n in v.bins[BinIndex(Gap(h.nodes, n), false)]
  {
    hide OrderOk, FreeOk, Partition, BinIndex;
    var k := Position(h, v, n);
    BinRange(Gap(h.nodes, n));
    assert IsAt(h.nodes, v.bins, n, Target(h.nodes, n));
  }

  /** Every node of a bin at or above the rounded-up bin has room for the request. */
  lemma FoundGap(h: Heap, v: Lists, b: nat, total: nat)
    requires Ok(h, v) && BinIndex(total, true) <= b < BINS && v.bins[b] != []
    ensures var n := v.bins[b][0]; IsGap(h.nodes, n, total) && total <= Gap(h.nodes, n) && BinIndex(Gap(h.nodes, n), false) == b
  {
    hide OrderOk, FreeOk, Partition, BinIndex, SizeFromBin, BinOk, Placed;
    var n := v.bins[b][0];
    InBin(h, v, n, b);
    var k := Position(h, v, n);
    GapFits(Gap(h.nodes, n), BinIndex(total, true));
    BinRange(total);
    BinRange(Gap(h.nodes, n));
    if total < 0x1_0000_0000 { CeilBin(total); }
  }

  lemma OrderPair(nodes: seq<Node>, order: seq<nat>, memorySize: nat, k: nat)
    requires OrderOk(nodes, order, memorySize) && 0 < k < |order|
    ensures order[k - 1] < |nodes| <= NIL && order[k] < |nodes| && order[k - 1] != order[k]
    ensures nodes[order[k]].prev == order[k - 1] && nodes[order[k - 1]].next == order[k]
  {
    assert nodes[order[k]].prev == Preceding(order, k);
    assert nodes[order[k - 1]].next == After(order, k - 1);
  }

  // ---- a block enters the order ----

  lemma InsertTarget(h: Heap, v: Lists, k: nat, offset: nat, size: nat, x: nat)
    requires Ok(h, v) && 0 < k < |v.order| && v.free != [] && x < |h.nodes| && x != v.order[k]
    ensures v.free[0] < |h.nodes| && v.order[k - 1] < |h.nodes| && v.order[k] < |h.nodes|
    ensures
      var n := v.free[0]; var after := InsertNodes(h.nodes, v.order[k - 1], v.order[k], n, offset, size);
      && (x != n ==> Target(after, x) == Target(h.nodes, x))
      && after[x].nextInBin == h.nodes[x].nextInBin && after[x].prevInBin == h.nodes[x].prevInBin
  {
    hide TargetOf, InsertNodes, OrderOk, FreeOk, BinsOk, Placed, Partition;
    FreeIsOutside(h, v, {}, 0);
    OrderPair(h.nodes, v.order, h.memorySize, k);
    PrevIsUsed(h, v, {}, x);
    var n, p, q := v.free[0], v.order[k - 1], v.order[k];
    assert p in v.order && q in v.order;
    InsertNodesAt(h.nodes, p, q, n, offset, size, x);
    if x != n && h.nodes[x].prev < |h.nodes| {
      InsertNodesAt(h.nodes, p, q, n, offset, size, h.nodes[x].prev);
    }
  }

  lemma InsertBins(h: Heap, v: Lists, k: nat, offset: nat, size: nat)
    requires Ok(h, v) && 0 < k < |v.order| && v.free != []
    ensures
      var n := v.free[0]; var after := InsertNodes(h.nodes, v.order[k - 1], v.order[k], n, offset, size);
      && BinsOk(after, h.binFirst, h.masks, v.bins)
      && Placed(after, v.bins, {n, v.order[k]})
      && Unbinned(v.bins, n) && Loose(after[n])
  {
    hide Target, BinsOk, InsertNodes, OrderOk, FreeOk, Partition;
    var n, p, q := v.free[0], v.order[k - 1], v.order[k];
    FreeIsOutside(h, v, {}, 0);
    OrderPair(h.nodes, v.order, h.memorySize, k);
    assert q in v.order;
    var after := InsertNodes(h.nodes, p, q, n, offset, size);
    InsertNodesAt(h.nodes, p, q, n, offset, size, q);
    forall x: nat | x < |h.nodes|
      ensures after[x].nextInBin == h.nodes[x].nextInBin && after[x].prevInBin == h.nodes[x].prevInBin
    {
      if x != q { InsertTarget(h, v, k, offset, size, x); }
    }
    SameLinksKeepBins(h.nodes, after, h.binFirst, h.masks, v.bins);
    forall x: nat | x < |after| && x !in {n, q} ensures IsAt(after, v.bins, x, Target(after, x)) {
      assert IsAt(h.nodes, v.bins, x, Target(h.nodes, x));
      InsertTarget(h, v, k, offset, size, x);
    }
  }

  lemma PopFree(nodes: seq<Node>, after: seq<Node>, free: seq<nat>, firstFree: nat)
    requires FreeOk(nodes, free, firstFree) && free != [] && |nodes| == |after|
    requires forall j | 0 < j < |free| :: after[free[j]] == nodes[free[j]]
    ensures FreeOk(after, free[1..], nodes[free[0]].next)
  {
    var f := free[1..];
    forall j | 0 <= j < |f| ensures after[f[j]] == FreeNode(After(f, j)) {
      assert nodes[free[j + 1]] == FreeNode(After(free, j + 1));
    }
  }

  lemma InsertFree(h: Heap, v: Lists, k: nat, offset: nat, size: nat)
    requires Ok(h, v) && 0 < k < |v.order| && v.free != []
    ensures
      var n := v.free[0]; var after := InsertNodes(h.nodes, v.order[k - 1], v.order[k], n, offset, size);
      && FreeOk(after, v.free[1..], h.nodes[n].next)
      && Partition(|after|, Inserted(v.order, k, n), v.free[1..])
  {
    hide BinsOk, OrderOk, InsertNodes, Placed, Inserted, FreeOk;
    var n, p, q := v.free[0], v.order[k - 1], v.order[k];
    FreeIsOutside(h, v, {}, 0);
    OrderPair(h.nodes, v.order, h.memorySize, k);
    MembersOfInserted(v.order, k, n);
    assert p in v.order && q in v.order;
    var after := InsertNodes(h.nodes, p, q, n, offset, size);
    FreeNoDup(h.nodes, v.free, h.firstFree);
    forall j: nat | 0 < j < |v.free| ensures v.free[j] < |h.nodes| && after[v.free[j]] == h.nodes[v.free[j]] {
      FreeIsOutside(h, v, {}, j);
      InsertNodesAt(h.nodes, p, q, n, offset, size, v.free[j]);
    }
    PopFree(h.nodes, after, v.free, h.firstFree);
    assert v.free == [n] + v.free[1..];
  }

  lemma FreeNoDup(nodes: seq<Node>, free: seq<nat>, firstFree: nat)
    requires FreeOk(nodes, free, firstFree)
    ensures NoDup(free) && InRange(free, nodes)
  {
  }

  lemma OrderNoDup(nodes: seq<Node>, order: seq<nat>, memorySize: nat)
    requires OrderOk(nodes, order, memorySize)
    ensures NoDup(order) && InRange(order, nodes)
  {
  }

  /** Taking an unused node into the order keeps all but the bins of the two nodes whose gaps changed. */
  lemma InsertNearly(h: Heap, v: Lists, k: nat, offset: nat, size: nat)
    requires Ok(h, v) && 0 < k < |v.order| && v.free != [] && size > 0
    requires v.order[k - 1] < |h.nodes| && v.order[k] < |h.nodes|
    requires EndOf(h.nodes[v.order[k - 1]]) <= offset && offset + size <= h.nodes[v.order[k]].offset
    ensures v.free[0] < |h.nodes|
    ensures
      var n := v.free[0]; var after := InsertNodes(h.nodes, v.order[k - 1], v.order[k], n, offset, size);
      && Nearly(h.(nodes := after, firstFree := h.nodes[n].next), Lists(Inserted(v.order, k, n), v.bins, v.free[1..]),
                {n, v.order[k]})
      && Unbinned(v.bins, n) && Loose(after[n])
  {
    hide BinsOk, OrderOk, InsertNodes, Placed, Inserted, FreeOk, Partition;
    FreeIsOutside(h, v, {}, 0);
    InsertBins(h, v, k, offset, size);
    InsertFree(h, v, k, offset, size);
    InsertOrder(h.nodes, v.order, h.memorySize, k, v.free[0], offset, size);
  }

  // ---- a block leaves the order ----

  lemma RemoveTarget(h: Heap, v: Lists, except: set<nat>, k: nat, x: nat)
    requires Nearly(h, v, except) && 0 < k < |v.order| - 1 && x < |h.nodes|
    ensures v.order[k - 1] < |h.nodes| && v.order[k] < |h.nodes| && v.order[k + 1] < |h.nodes|
    ensures
      var n, p, q := v.order[k], v.order[k - 1], v.order[k + 1];
      var after := RemoveNodes(h.nodes, p, q, n, h.firstFree);
      && (x != n && x != q ==> Target(after, x) == Target(h.nodes, x))
      && (x == q ==> Target(after, x) == TargetOf(h.nodes[q].offset - EndOf(h.nodes[p])))
      && (x == n ==> Target(after, x) == NIL && Loose(after[x]))
      && (x != n ==> after[x].nextInBin == h.nodes[x].nextInBin && after[x].prevInBin == h.nodes[x].prevInBin)
  {
    hide TargetOf, RemoveNodes, OrderOk, FreeOk, BinsOk, Placed, Partition;
    var n, p, q := v.order[k], v.order[k - 1], v.order[k + 1];
    OrderPair(h.nodes, v.order, h.memorySize, k);
    OrderPair(h.nodes, v.order, h.memorySize, k + 1);
    OrderNoDup(h.nodes, v.order, h.memorySize);
    PrevIsUsed(h, v, except, x);
    RemoveNodesAt(h.nodes, p, q, n, h.firstFree, x);
    RemoveNodesAt(h.nodes, p, q, n, h.firstFree, p);
    if x != n && h.nodes[x].prev < |h.nodes| {
      RemoveNodesAt(h.nodes, p, q, n, h.firstFree, h.nodes[x].prev);
      NextOfPrev(h, v, except, x);
    }
  }

  lemma NextOfPrev(h: Heap, v: Lists, except: set<nat>, x: nat)
    requires Nearly(h, v, except) && x < |h.nodes| && h.nodes[x].prev < |h.nodes|
    ensures h.nodes[h.nodes[x].prev].next == x
  {
    PrevIsUsed(h, v, except, x);
    var k :| 0 <= k < |v.order| && v.order[k] == x;
    assert h.nodes[v.order[k]].prev == Preceding(v.order, k);
    OrderPair(h.nodes, v.order, h.memorySize, k);
  }

  lemma RemoveBins(h: Heap, v: Lists, except: set<nat>, k: nat)
    requires Nearly(h, v, except) && 0 < k < |v.order| - 1 && except <= {v.order[k], v.order[k + 1]}
    requires Unbinned(v.bins, v.order[k])
    ensures v.order[k - 1] < |h.nodes| && v.order[k] < |h.nodes| && v.order[k + 1] < |h.nodes|
    ensures
      var n, p, q := v.order[k], v.order[k - 1], v.order[k + 1];
      var after := RemoveNodes(h.nodes, p, q, n, h.firstFree);
      && BinsOk(after, h.binFirst, h.masks, v.bins) && Placed(after, v.bins, {q})
      && (forall t :: IsAt(h.nodes, v.bins, q, t) ==> IsAt(after, v.bins, q, t))
  {
    hide Target, BinsOk, RemoveNodes, OrderOk, FreeOk, Partition;
    var n, p, q := v.order[k], v.order[k - 1], v.order[k + 1];
    OrderPair(h.nodes, v.order, h.memorySize, k);
    OrderPair(h.nodes, v.order, h.memorySize, k + 1);
    var after := RemoveNodes(h.nodes, p, q, n, h.firstFree);
    forall x: nat | x < |h.nodes| && x != n
      ensures after[x].nextInBin == h.nodes[x].nextInBin && after[x].prevInBin == h.nodes[x].prevInBin
    {
      RemoveTarget(h, v, except, k, x);
    }
    SameLinksKeepBins(h.nodes, after, h.binFirst, h.masks, v.bins);
    forall x: nat | x < |after| && x !in {q} ensures IsAt(after, v.bins, x, Target(after, x)) {
      assert x != n ==> IsAt(h.nodes, v.bins, x, Target(h.nodes, x));
      RemoveTarget(h, v, except, k, x);
    }
  }

  lemma PushFree(nodes: seq<Node>, after: seq<Node>, free: seq<nat>, firstFree: nat, n: nat)
    requires FreeOk(nodes, free, firstFree) && n !in free && n < |nodes| == |after|
    requires after[n] == FreeNode(firstFree) && forall j | 0 <= j < |free| :: after[free[j]] == nodes[free[j]]
    ensures FreeOk(after, [n] + free, n)
  {
    var f := [n] + free;
    forall j | 0 <= j < |f| ensures after[f[j]] == FreeNode(After(f, j)) {
      if j > 0 { assert after[free[j - 1]] == FreeNode(After(free, j - 1)); }
    }
  }

  lemma RemoveFree(h: Heap, v: Lists, except: set<nat>, k: nat)
    requires Nearly(h, v, except) && 0 < k < |v.order| - 1
    ensures v.order[k - 1] < |h.nodes| && v.order[k] < |h.nodes| && v.order[k + 1] < |h.nodes|
    ensures
      var n, p, q := v.order[k], v.order[k - 1], v.order[k + 1];
      var after := RemoveNodes(h.nodes, p, q, n, h.firstFree);
      FreeOk(after, [n] + v.free, n) && Partition(|after|, Without(v.order, k), [n] + v.free)
  {
    hide BinsOk, OrderOk, RemoveNodes, Placed, Without, FreeOk;
    var n, p, q := v.order[k], v.order[k - 1], v.order[k + 1];
    OrderPair(h.nodes, v.order, h.memorySize, k);
    OrderPair(h.nodes, v.order, h.memorySize, k + 1);
    OrderNoDup(h.nodes, v.order, h.memorySize);
    WithoutMembers(v.order, k);
    assert n in v.order && p in v.order && q in v.order && p != q;
    var after := RemoveNodes(h.nodes, p, q, n, h.firstFree);
    RemoveNodesAt(h.nodes, p, q, n, h.firstFree, n);
    forall j: nat | j < |v.free| ensures v.free[j] < |h.nodes| && after[v.free[j]] == h.nodes[v.free[j]] {
      FreeIsOutside(h, v, except, j);
      RemoveNodesAt(h.nodes, p, q, n, h.firstFree, v.free[j]);
    }
    PushFree(h.nodes, after, v.free, h.firstFree, n);
  }

  /** Returning a node restores the invariant once the node after it is in the bin of the joined gap. */
  lemma RemoveNearly(h: Heap, v: Lists, k: nat)
    requires 0 < k < |v.order| - 1 && Nearly(h, v, {v.order[k], v.order[k + 1]}) && Unbinned(v.bins, v.order[k])
    requires v.order[k - 1] < |h.nodes| && v.order[k] < |h.nodes| && v.order[k + 1] < |h.nodes|
    requires IsAt(h.nodes, v.bins, v.order[k + 1], TargetOf(h.nodes[v.order[k + 1]].offset - EndOf(h.nodes[v.order[k - 1]])))
    ensures
      var n := v.order[k];
      var after := RemoveNodes(h.nodes, v.order[k - 1], v.order[k + 1], n, h.firstFree);
      Ok(h.(nodes := after, firstFree := n), Lists(Without(v.order, k), v.bins, [n] + v.free))
  {
    hide BinsOk, OrderOk, RemoveNodes, Without, FreeOk, Partition, Target, TargetOf, IsAt;
    RemoveBins(h, v, {v.order[k], v.order[k + 1]}, k);
    RemoveFree(h, v, {v.order[k], v.order[k + 1]}, k);
    RemoveOrder(h.nodes, v.order, h.memorySize, k, h.firstFree);
    RemoveTarget(h, v, {v.order[k], v.order[k + 1]}, k, v.order[k + 1]);
    OrderPair(h.nodes, v.order, h.memorySize, k + 1);
  }

  // ---- what the operations promise ----

  ghost predicate SameBlocks(nodes: seq<Node>, after: seq<Node>, who: seq<nat>) {
    && |nodes| == |after|
    && forall x | x in who && x < |nodes| :: after[x].offset == nodes[x].offset && after[x].size == nodes[x].size
  }

  /** Node `q`, with the given gap, is the first of its bin. */
  ghost predicate HeadOfBin(bins: seq<seq<nat>>, q: nat, gap: int) {
    gap >= MIN_SIZE && BinIndex(gap, false) < |bins| && bins[BinIndex(gap, false)] != [] && bins[BinIndex(gap, false)][0] == q
  }

  /** A block of `size` bytes at `offset` was put in front of the `k`-th node of the order. */
  ghost predicate Allocated(h: Heap, v: Lists, h2: Heap, v2: Lists, k: nat, offset: nat, size: nat) {
    && 0 < k < |v.order| && v.free != [] && v.free[0] < |h.nodes| && v.order[k - 1] < |h.nodes| && v.order[k] < |h.nodes|
    && var n, p, q := v.free[0], v.order[k - 1], v.order[k];
    && EndOf(h.nodes[p]) <= offset && offset + size <= h.nodes[q].offset
    && v2.order == Inserted(v.order, k, n) && v2.free == v.free[1..]
    && SameBlocks(h.nodes, h2.nodes, v.order) && h2.nodes[n].offset == offset && h2.nodes[n].size == size
    && h2.memorySize == h.memorySize && HeadOfBin(v.bins, q, h.nodes[q].offset - EndOf(h.nodes[p]))
    && v2.bins == Placing(Leaving(Placing(v.bins, n, offset - EndOf(h.nodes[p])), q, h.nodes[q].offset - EndOf(h.nodes[p])),
                          q, h.nodes[q].offset - (offset + size))
  }

  /** No gap that is large enough is in a lower bin than the one in front of the `k`-th node of the order. */
  ghost predicate GoodFit(h: Heap, v: Lists, k: nat, total: nat) {
    && 0 < k < |v.order| && v.order[k - 1] < |h.nodes| && v.order[k] < |h.nodes|
    && var gap := h.nodes[v.order[k]].offset - EndOf(h.nodes[v.order[k - 1]]);
       gap >= 0 && forall n: nat | IsGap(h.nodes, n, total) :: BinIndex(gap, false) <= BinIndex(Gap(h.nodes, n), false)
  }

  /** The first bin in use from the rounded-up size on is the lowest bin of all large enough gaps. */
  lemma FirstBinFitsBest(h: Heap, v: Lists, total: nat, b: nat, n: nat)
    requires Ok(h, v) && IsGap(h.nodes, n, total) && b < BINS
    requires forall c: nat | BinIndex(total, true) <= c < b :: !h.masks[c]
    ensures b <= BinIndex(Gap(h.nodes, n), false)
  {
    hide OrderOk, FreeOk, Partition, Linked, Placed, BinIndex, SizeFromBin;
    GapIsBinned(h, v, n);
    GapFits(Gap(h.nodes, n), BinIndex(total, true));
    var c := BinIndex(Gap(h.nodes, n), false);
    assert BinOk(h.nodes, h.binFirst[c], h.masks[c], v.bins[c]);
  }

  lemma AllocatedFits(h: Heap, v: Lists, h2: Heap, v2: Lists, k: nat, offset: nat, size: nat, total: nat, b: nat)
    requires Ok(h, v) && Allocated(h, v, h2, v2, k, offset, size) && b < BINS
    requires BinIndex(h.nodes[v.order[k]].offset - EndOf(h.nodes[v.order[k - 1]]), false) == b
    requires forall c: nat | BinIndex(total, true) <= c < b :: !h.masks[c]
    ensures GoodFit(h, v, k, total)
  {
    hide Nearly, BinIndex, SizeFromBin, Placing, Leaving;
    forall n: nat | IsGap(h.nodes, n, total) ensures b <= BinIndex(Gap(h.nodes, n), false) {
      FirstBinFitsBest(h, v, total, b, n);
    }
  }

  /** The `k`-th node of the order was returned. */
  ghost predicate Freed(h: Heap, v: Lists, h2: Heap, v2: Lists, k: nat) {
    && 0 < k < |v.order| - 1 && v.order[k] < |h.nodes| && v.order[k - 1] < |h.nodes| && v.order[k + 1] < |h.nodes|
    && var n, p, q := v.order[k], v.order[k - 1], v.order[k + 1];
    && v2.order == Without(v.order, k) && v2.free == [n] + v.free
    && SameBlocks(h.nodes, h2.nodes, v2.order) && h2.memorySize == h.memorySize
    && v2.bins == Placing(Leaving(Leaving(v.bins, n, h.nodes[n].offset - EndOf(h.nodes[p])), q, h.nodes[q].offset - EndOf(h.nodes[n])),
                          q, h.nodes[q].offset - EndOf(h.nodes[p]))
  }

  // ---- sums ----

  function Sum(s: seq<int>): int {
    if s == [] then 0 else s[0] + Sum(s[1..])
  }

  lemma {:induction false} SumJoin(a: seq<int>, b: seq<int>)
    ensures Sum(a + b) == Sum(a) + Sum(b)
  {
    if a == [] {
      assert a + b == b;
    } else {
      SumJoin(a[1..], b);
      assert (a + b)[1..] == a[1..] + b;
    }
  }

  function Sizes(nodes: seq<Node>, order: seq<nat>): (r: seq<int>)
    ensures |r| == |order|
  {
    seq(|order|, i requires 0 <= i < |order| => if order[i] < |nodes| then nodes[order[i]].size else 0)
  }

  lemma InsertSum(nodes: seq<Node>, after: seq<Node>, order: seq<nat>, k: nat, n: nat)
    requires SameBlocks(nodes, after, order) && k <= |order| && n < |after|
    ensures Sum(Sizes(after, Inserted(order, k, n))) == Sum(Sizes(nodes, order)) + after[n].size
  {
    var s := Sizes(nodes, order);
    assert Sizes(after, Inserted(order, k, n)) == s[..k] + ([after[n].size] + s[k..]);
    SumJoin(s[..k], [after[n].size] + s[k..]);
    SumJoin(s[..k], s[k..]);
    assert s == s[..k] + s[k..];
  }

  lemma SizesWithout(nodes: seq<Node>, after: seq<Node>, order: seq<nat>, k: nat)
    requires k < |order| && SameBlocks(nodes, after, Without(order, k))
    ensures var s := Sizes(nodes, order); Sizes(after, Without(order, k)) == s[..k] + s[k + 1..]
  {
    var w := Without(order, k);
    forall j | 0 <= j < |w| ensures Sizes(after, w)[j] == Sizes(nodes, order)[if j < k then j else j + 1] {
      assert w[j] in w && w[j] == order[if j < k then j else j + 1];
    }
  }

  lemma RemoveSum(nodes: seq<Node>, after: seq<Node>, order: seq<nat>, k: nat)
    requires k < |order| && order[k] < |nodes| && SameBlocks(nodes, after, Without(order, k))
    ensures Sum(Sizes(after, Without(order, k))) == Sum(Sizes(nodes, order)) - nodes[order[k]].size
  {
    hide Without, SameBlocks;
    var s := Sizes(nodes, order);
    SizesWithout(nodes, after, order, k);
    SumJoin(s[..k], s[k + 1..]);
    SumJoin(s[..k], [s[k]] + s[k + 1..]);
    assert s == s[..k] + ([s[k]] + s[k + 1..]);
  }

  lemma MaskCount(h: Heap, v: Lists)
    requires Ok(h, v)
    ensures |h.masks| == |h.binFirst| == |v.bins| == BINS && |v.order| >= 2 && v.order[0] == 0
  {
  }

  lemma MembersOfInserted(s: seq<nat>, k: nat, n: nat)
    requires k <= |s|
    ensures forall x :: x in Inserted(s, k, n) <==> x in s || x == n
  {
    forall x | x in s ensures x in Inserted(s, k, n) {
      var j :| 0 <= j < |s| && s[j] == x;
      assert Inserted(s, k, n)[if j < k then j else j + 1] == x;
    }
    assert Inserted(s, k, n)[k] == n;
  }

  lemma InsertedBlocks(nodes: seq<Node>, prev: nat, next: nat, n: nat, offset: nat, size: nat)
    requires n < |nodes| && prev < |nodes| && next < |nodes| && prev != next && n != prev && n != next
    ensures var after := InsertNodes(nodes, prev, next, n, offset, size);
      && after[n].prev == prev && after[next].prev == n && after[n].offset == offset && after[n].size == size
      && Gap(after, n) == offset - EndOf(nodes[prev]) && Gap(after, next) == nodes[next].offset - (offset + size)
      && forall x | 0 <= x < |nodes| && x != n :: after[x].offset == nodes[x].offset && after[x].size == nodes[x].size
  {
  }

  lemma AllocatedSum(h: Heap, v: Lists, h2: Heap, v2: Lists, k: nat, offset: nat, size: nat)
    requires Allocated(h, v, h2, v2, k, offset, size)
    ensures |v2.order| == |v.order| + 1
    ensures Sum(Sizes(h2.nodes, v2.order)) == Sum(Sizes(h.nodes, v.order)) + size
  {
    hide Placing, Leaving;
    InsertSum(h.nodes, h2.nodes, v.order, k, v.free[0]);
  }

  lemma FreedSum(h: Heap, v: Lists, h2: Heap, v2: Lists, k: nat)
    requires Freed(h, v, h2, v2, k)
    ensures k < |v.order| && v.order[k] < |h.nodes| && |v2.order| == |v.order| - 1
    ensures Sum(Sizes(h2.nodes, v2.order)) == Sum(Sizes(h.nodes, v.order)) - h.nodes[v.order[k]].size
  {
    hide Placing, Leaving;
    RemoveSum(h.nodes, h2.nodes, v.order, k);
  }

  lemma AtTargets(h: Heap, v: Lists, n: nat, next: nat)
    requires Ok(h, v) && n < |h.nodes| && next < |h.nodes| && h.nodes[n].prev < |h.nodes| && h.nodes[next].prev < |h.nodes|
    ensures IsAt(h.nodes, v.bins, n, TargetOf(Gap(h.nodes, n))) && IsAt(h.nodes, v.bins, next, TargetOf(Gap(h.nodes, next)))
  {
    hide OrderOk, FreeOk, Partition, BinsOk, TargetOf;
    assert IsAt(h.nodes, v.bins, n, Target(h.nodes, n)) && IsAt(h.nodes, v.bins, next, Target(h.nodes, next));
  }

  /** Where a block sits in the order, and what its links and its neighbours' gaps are. */
  lemma InnerPosition(h: Heap, v: Lists, n: nat) returns (k: nat)
    requires Ok(h, v) && n in v.order && n != 0 && n != 1
    ensures 0 < k < |v.order| - 1 && v.order[k] == n && n < |h.nodes|
    ensures var p, q := v.order[k - 1], v.order[k + 1];
      && p < |h.nodes| && q < |h.nodes| && p != q && n != p && n != q && p in v.order && q in v.order
      && h.nodes[n].prev == p && h.nodes[n].next == q && h.nodes[q].prev == n
      && Gap(h.nodes, n) >= 0 && Gap(h.nodes, q) >= 0 && h.nodes[q].offset < NIL
  {
    k :| 0 <= k < |v.order| && v.order[k] == n;
    InnerLinks(h.nodes, v.order, k);
    OrderPair(h.nodes, v.order, h.memorySize, k + 1);
    OffsetsInside(h.nodes, v.order, h.memorySize, k + 1);
    assert EndOf(h.nodes[v.order[k - 1]]) <= h.nodes[v.order[k]].offset;
    assert EndOf(h.nodes[v.order[k + 1 - 1]]) <= h.nodes[v.order[k + 1]].offset;
  }

  /** The stores of a deallocation, in the order the source makes them, give `RemoveNodes`. */
  lemma RemovedNodes(nodes: seq<Node>, prev: nat, next: nat, n: nat, firstFree: nat, after: seq<Node>)
    requires n < |nodes| && prev < |nodes| && next < |nodes| && prev != next && n != prev && n != next
    requires var a := nodes[n := nodes[n].(next := firstFree)]; var b := a[next := a[next].(prev := prev)];
             var c := b[prev := b[prev].(next := next)]; after == c[n := FreeNode(firstFree)]
    ensures after == RemoveNodes(nodes, prev, next, n, firstFree)
    ensures forall x | 0 <= x < |nodes| && x != n :: after[x].offset == nodes[x].offset && after[x].size == nodes[x].size
  {
  }

  lemma NotInWithout(h: Heap, v: Lists, k: nat)
    requires Ok(h, v) && k < |v.order|
    ensures v.order[k] !in Without(v.order, k) && forall x | x in Without(v.order, k) :: x < |h.nodes|
  {
    OrderNoDup(h.nodes, v.order, h.memorySize);
    WithoutMembers(v.order, k);
  }

  lemma SumNatural(nodes: seq<Node>, order: seq<nat>)
    ensures Sum(Sizes(nodes, order)) >= 0
  {
    if order != [] {
      SumNatural(nodes, order[1..]);
      assert Sizes(nodes, order)[1..] == Sizes(nodes, order[1..]);
    }
  }

  lemma OrderFacts(h: Heap, v: Lists)
    requires Ok(h, v)
    ensures |v.order| >= 2 && forall x | x in v.order :: x < |h.nodes|
  {
  }

  // ---- growth ----

  lemma LastGap(h: Heap, v: Lists)
    requires Ok(h, v)
    ensures |h.nodes| >= 2 && h.nodes[1].prev < |h.nodes| && h.nodes[1].prev != 1 && h.nodes[1].offset == h.memorySize < NIL
    ensures Gap(h.nodes, 1) >= 0 && 1 in v.order
  {
    var k := |v.order| - 1;
    assert v.order[k] == 1;
    OrderPair(h.nodes, v.order, h.memorySize, k);
    assert EndOf(h.nodes[v.order[k - 1]]) <= h.nodes[v.order[k]].offset;
  }

  lemma ResizeNearly(h: Heap, v: Lists, newSize: nat)
    requires Nearly(h, v, {1}) && h.memorySize <= newSize < NIL && |h.nodes| > 1
    ensures Nearly(h.(nodes := h.nodes[1 := h.nodes[1].(offset := newSize)], memorySize := newSize), v, {1})
  {
    hide OrderOk, FreeOk, BinsOk, Target;
    var after := h.nodes[1 := h.nodes[1].(offset := newSize)];
    ResizeOrder(h.nodes, v.order, h.memorySize, newSize);
    SameLinksKeepBins(h.nodes, after, h.binFirst, h.masks, v.bins);
    forall x: nat | x < |after| && x !in {1} ensures IsAt(after, v.bins, x, Target(after, x)) {
      assert IsAt(h.nodes, v.bins, x, Target(h.nodes, x));
      ResizeTarget(h, v, newSize, x);
    }
    LastIsUsed(h, v);
    SameFree(h.nodes, after, v.free, h.firstFree);
  }

  lemma LastIsUsed(h: Heap, v: Lists)
    requires Nearly(h, v, {1})
    ensures 1 in v.order && 1 !in v.free && InRange(v.free, h.nodes) && (|h.nodes| > 1 ==> h.nodes[1].next == NIL)
  {
    assert v.order[|v.order| - 1] in v.order;
    assert h.nodes[v.order[|v.order| - 1]].next == After(v.order, |v.order| - 1);
  }

  lemma SameFree(nodes: seq<Node>, after: seq<Node>, free: seq<nat>, firstFree: nat)
    requires FreeOk(nodes, free, firstFree) && |after| == |nodes|
    requires forall x | x in free :: x < |nodes| && after[x] == nodes[x]
    ensures FreeOk(after, free, firstFree)
  {
    forall k | 0 <= k < |free| ensures after[free[k]] == FreeNode(After(free, k)) {
      assert nodes[free[k]] == FreeNode(After(free, k)) && free[k] in free;
    }
  }

  lemma ResizeTarget(h: Heap, v: Lists, newSize: nat, x: nat)
    requires Nearly(h, v, {1}) && |h.nodes| > 1 && x < |h.nodes| && x != 1
    ensures Target(h.nodes[1 := h.nodes[1].(offset := newSize)], x) == Target(h.nodes, x)
  {
    hide OrderOk, FreeOk, BinsOk, Placed, TargetOf;
    LastIsUsed(h, v);
    PrevIsUsed(h, v, {1}, x);
    if h.nodes[x].prev < |h.nodes| { NextOfPrev(h, v, {1}, x); }
  }

  lemma ResizeSpacing(nodes: seq<Node>, order: seq<nat>, newSize: nat)
    requires InRange(order, nodes) && NoDup(order) && Spaced(nodes, order) && |nodes| > 1
    requires |order| > 0 && order[|order| - 1] == 1 && nodes[1].offset <= newSize
    ensures Spaced(nodes[1 := nodes[1].(offset := newSize)], order)
  {
    var after := nodes[1 := nodes[1].(offset := newSize)];
    forall k | 0 <= k < |order| - 1 ensures after[order[k]] == nodes[order[k]] {
      assert order[k] != order[|order| - 1];
    }
    forall k | 0 < k < |order| ensures EndOf(after[order[k - 1]]) <= after[order[k]].offset {
      assert EndOf(nodes[order[k - 1]]) <= nodes[order[k]].offset;
    }
  }

  lemma ResizeOrder(nodes: seq<Node>, order: seq<nat>, memorySize: nat, newSize: nat)
    requires OrderOk(nodes, order, memorySize) && memorySize <= newSize < NIL && |nodes| > 1
    ensures OrderOk(nodes[1 := nodes[1].(offset := newSize)], order, newSize)
  {
    hide Chained, Spaced;
    OrderNoDup(nodes, order, memorySize);
    SameChain(nodes, nodes[1 := nodes[1].(offset := newSize)], order);
    ResizeSpacing(nodes, order, newSize);
  }

  lemma SameSizes(nodes: seq<Node>, after: seq<Node>, order: seq<nat>)
    requires forall x | x in order :: x < |nodes| <= |after| && after[x].size == nodes[x].size
    ensures Sizes(after, order) == Sizes(nodes, order)
  {
  }

  function Range(a: nat, b: nat): (r: seq<nat>)
    requires a <= b
    ensures |r| == b - a
  {
    seq(b - a, i requires 0 <= i < b - a => a + i)
  }

  lemma RangeMembers(a: nat, b: nat)
    requires a <= b
    ensures forall x :: x in Range(a, b) <==> a <= x < b
  {
    forall x | a <= x < b ensures x in Range(a, b) {
      assert Range(a, b)[x - a] == x;
    }
  }

  lemma RangeStep(a: nat, b: nat)
    requires a < b
    ensures Range(a, b) == [a] + Range(a + 1, b)
  {
  }

  lemma OkFree(h: Heap, v: Lists)
    requires Ok(h, v)
    ensures FreeOk(h.nodes, v.free, h.firstFree) && forall x | x in v.free :: x < |h.nodes|
  {
  }

  lemma MoreNodesFree(nodes: seq<Node>, after: seq<Node>, free: seq<nat>, firstFree: nat)
    requires FreeOk(nodes, free, firstFree) && nodes <= after && |after| <= NIL
    ensures FreeOk(after, free, firstFree)
  {
    forall k | 0 <= k < |free| ensures after[free[k]] == FreeNode(After(free, k)) {
      assert nodes[free[k]] == FreeNode(After(free, k));
    }
  }

  lemma PushNew(nodes: seq<Node>, free: seq<nat>, firstFree: nat, i: nat, top: nat, rest: seq<nat>, capacity: nat)
    requires FreeOk(nodes, free, firstFree) && capacity <= i < top == |nodes|
    requires free == Range(i + 1, top) + rest && forall x | x in rest :: x < capacity
    ensures FreeOk(nodes[i := FreeNode(firstFree)], [i] + free, i) && [i] + free == Range(i, top) + rest
  {
    hide FreeOk, Range;
    RangeMembers(i + 1, top);
    RangeStep(i, top);
    FreeNoDup(nodes, free, firstFree);
    PushFree(nodes, nodes[i := FreeNode(firstFree)], free, firstFree, i);
  }

  /** Unused nodes added at the end of the array keep the invariant. */
  lemma MoreNodes(h: Heap, v: Lists, h2: Heap, v2: Lists)
    requires Ok(h, v) && |h.nodes| <= |h2.nodes| <= NIL && h2.nodes[..|h.nodes|] == h.nodes
    requires h2.binFirst == h.binFirst && h2.masks == h.masks && h2.memorySize == h.memorySize
    requires v2 == v.(free := Range(|h.nodes|, |h2.nodes|) + v.free) && FreeOk(h2.nodes, v2.free, h2.firstFree)
    requires forall x | |h.nodes| <= x < |h2.nodes| :: Loose(h2.nodes[x]) && h2.nodes[x].prev == NIL
    ensures Ok(h2, v2)
  {
    hide OrderOk, FreeOk, BinsOk, Target;
    SamePrefix(h.nodes, h2.nodes);
    SameOrder(h.nodes, h2.nodes, v.order, h.memorySize);
    MoreBins(h.nodes, h2.nodes, h.binFirst, h.masks, v.bins);
    MorePartition(h, v, |h2.nodes|);
    forall x: nat | x < |h2.nodes| ensures IsAt(h2.nodes, v.bins, x, Target(h2.nodes, x)) {
      assert x < |h.nodes| ==> h2.nodes[x] == h.nodes[x] && IsAt(h.nodes, v.bins, x, Target(h.nodes, x));
      MoreTarget(h, v, h2.nodes, x);
    }
  }

  lemma SamePrefix(nodes: seq<Node>, after: seq<Node>)
    requires |nodes| <= |after| && after[..|nodes|] == nodes
    ensures forall x | 0 <= x < |nodes| :: after[x] == nodes[x]
  {
    forall x | 0 <= x < |nodes| ensures after[x] == nodes[x] { assert after[..|nodes|][x] == nodes[x]; }
  }

  lemma MoreTarget(h: Heap, v: Lists, after: seq<Node>, x: nat)
    requires Ok(h, v) && |h.nodes| <= |after| <= NIL && after[..|h.nodes|] == h.nodes && x < |after|
    ensures x < |h.nodes| ==> Target(after, x) == Target(h.nodes, x)
    ensures x >= |h.nodes| && after[x].prev == NIL ==> Target(after, x) == NIL && Unbinned(v.bins, x)
  {
    hide OrderOk, FreeOk, Placed, TargetOf, Linked;
    if x < |h.nodes| {
      PrevIsUsed(h, v, {}, x);
    } else {
      forall b | 0 <= b < |v.bins| ensures x !in v.bins[b] {
        assert BinOk(h.nodes, h.binFirst[b], h.masks[b], v.bins[b]);
        BinInRange(h.nodes, v.bins[b]);
      }
    }
  }

  lemma MoreBins(nodes: seq<Node>, after: seq<Node>, first: seq<nat>, masks: seq<bool>, bins: seq<seq<nat>>)
    requires BinsOk(nodes, first, masks, bins) && |nodes| <= |after| <= NIL && after[..|nodes|] == nodes
    ensures BinsOk(after, first, masks, bins)
  {
    forall b | 0 <= b < BINS ensures BinOk(after, first[b], masks[b], bins[b]) {
      assert BinOk(nodes, first[b], masks[b], bins[b]);
      forall k | 0 <= k < |bins[b]|
        ensures after[bins[b][k]].nextInBin == After(bins[b], k) && after[bins[b][k]].prevInBin == Preceding(bins[b], k)
      {
        assert after[bins[b][k]] == nodes[bins[b][k]];
      }
    }
  }

  lemma MorePartition(h: Heap, v: Lists, top: nat)
    requires Ok(h, v) && |h.nodes| <= top
    ensures Partition(top, v.order, Range(|h.nodes|, top) + v.free)
  {
    hide BinsOk, Placed;
    OrderFacts(h, v);
    RangeMembers(|h.nodes|, top);
  }

  // ---- the first state ----

  lemma NothingFree(nodes: seq<Node>)
    requires |nodes| <= NIL
    ensures FreeOk(nodes, [], NIL)
  {
  }

  ghost function NoBins(): (r: seq<seq<nat>>)
    ensures |r| == BINS && forall b | 0 <= b < BINS :: r[b] == []
  {
    seq(BINS, _ => [])
  }

  /** The first two unused nodes of a fresh array are 0 and 1. */
  lemma FreshLinks(nodes: seq<Node>, firstFree: nat)
    requires |nodes| >= 2 && FreeOk(nodes, Range(0, |nodes|), firstFree)
    ensures firstFree == 0 && nodes[0].next == 1 && nodes[1].next == First(Range(2, |nodes|))
  {
    var r := Range(0, |nodes|);
    assert nodes[r[0]] == FreeNode(After(r, 0)) && nodes[r[1]] == FreeNode(After(r, 1));
  }

  lemma StartNearly(nodes: seq<Node>, binFirst: seq<nat>, masks: seq<bool>, memorySize: nat)
    requires 2 <= |nodes| && memorySize < NIL && FreeOk(nodes, Range(0, |nodes|), 0)
    requires |binFirst| == |masks| == BINS && forall b | 0 <= b < BINS :: binFirst[b] == NIL && !masks[b]
    ensures var after := nodes[0 := Node(0, 0, 1, NIL, NIL, NIL)][1 := Node(memorySize, 0, NIL, 0, NIL, NIL)];
      && Nearly(Heap(after, binFirst, masks, First(Range(2, |nodes|)), memorySize), Lists([0, 1], NoBins(), Range(2, |nodes|)), {1})
      && Unbinned(NoBins(), 1)
  {
    hide Range, NoBins, OrderOk, FreeOk, BinsOk, Target, IsAt, First;
    var after := nodes[0 := Node(0, 0, 1, NIL, NIL, NIL)][1 := Node(memorySize, 0, NIL, 0, NIL, NIL)];
    RangeMembers(2, |nodes|);
    FreeNoDup(nodes, Range(0, |nodes|), 0);
    StartFree(nodes, after);
    StartOrder(after, memorySize);
    StartBins(after, binFirst, masks);
    forall x: nat | x < |after| && x !in {1} ensures IsAt(after, NoBins(), x, Target(after, x)) {
      StartPlaced(nodes, x);
      LooseAt(after, x);
    }
  }

  lemma LooseAt(nodes: seq<Node>, x: nat)
    requires x < |nodes| <= NIL && nodes[x].prev == NIL && Loose(nodes[x])
    ensures IsAt(nodes, NoBins(), x, Target(nodes, x))
  {
  }

  lemma StartPlaced(nodes: seq<Node>, x: nat)
    requires FreeOk(nodes, Range(0, |nodes|), 0) && x < |nodes|
    ensures nodes[x].prev == NIL && Loose(nodes[x])
  {
    var r := Range(0, |nodes|);
    assert nodes[r[x]] == FreeNode(After(r, x));
  }

  lemma StartFree(nodes: seq<Node>, after: seq<Node>)
    requires 2 <= |nodes| == |after| && FreeOk(nodes, Range(0, |nodes|), 0) && forall x | 2 <= x < |nodes| :: after[x] == nodes[x]
    ensures FreeOk(after, Range(2, |nodes|), First(Range(2, |nodes|)))
  {
    var r, f := Range(0, |nodes|), Range(2, |nodes|);
    forall k | 0 <= k < |f| ensures after[f[k]] == FreeNode(After(f, k)) {
      assert nodes[r[k + 2]] == FreeNode(After(r, k + 2));
    }
  }

  lemma StartOrder(nodes: seq<Node>, memorySize: nat)
    requires 2 <= |nodes| <= NIL && memorySize < NIL
    requires nodes[0] == Node(0, 0, 1, NIL, NIL, NIL) && nodes[1] == Node(memorySize, 0, NIL, 0, NIL, NIL)
    ensures OrderOk(nodes, [0, 1], memorySize)
  {
    var order: seq<nat> := [0, 1];
    assert order[0] == 0 && order[1] == 1 && |order| == 2;
  }

  lemma StartBins(nodes: seq<Node>, binFirst: seq<nat>, masks: seq<bool>)
    requires |nodes| <= NIL && |binFirst| == |masks| == BINS && forall b | 0 <= b < BINS :: binFirst[b] == NIL && !masks[b]
    ensures BinsOk(nodes, binFirst, masks, NoBins())
  {
    forall b | 0 <= b < BINS ensures BinOk(nodes, binFirst[b], masks[b], NoBins()[b]) { }
  }
}
