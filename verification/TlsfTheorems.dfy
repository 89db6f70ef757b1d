/**
 What the allocator's invariant means to its user, and how its operations relate to each other.
 */
module TlsfTheorems {
  import opened Arith
  import opened TlsfBins
  import opened TlsfLists
  import opened TlsfHeap
  import opened TlsfPlacement

  // ---- blocks do not overlap, stay inside the memory and fill it together with the gaps ----

  lemma Adjacent(nodes: seq<Node>, order: seq<nat>, memorySize: nat, k: nat)
    requires OrderOk(nodes, order, memorySize) && 0 < k < |order|
    ensures order[k - 1] < |nodes| && order[k] < |nodes| && EndOf(nodes[order[k - 1]]) <= nodes[order[k]].offset
  {
  }

  /** Of two nodes in memory order, the earlier one ends before the later one starts; all end inside the memory. */
  lemma {:induction false} BlocksDisjoint(h: Heap, v: Lists, i: nat, j: nat)
    requires Ok(h, v) && i < j < |v.order|
    ensures v.order[i] < |h.nodes| && v.order[j] < |h.nodes|
    ensures EndOf(h.nodes[v.order[i]]) <= h.nodes[v.order[j]].offset && EndOf(h.nodes[v.order[j]]) <= h.memorySize
  {
    hide OrderOk, BinsOk, FreeOk, Placed, Partition;
    OffsetsInside(h.nodes, v.order, h.memorySize, j);
    Adjacent(h.nodes, v.order, h.memorySize, j);
    if i < j - 1 { BlocksDisjoint(h, v, i, j - 1); }
  }

  function Gaps(nodes: seq<Node>, order: seq<nat>): (r: seq<int>)
    ensures |r| == |order|
  {
    seq(|order|, i requires 0 <= i < |order| =>
      if order[i] < |nodes| && nodes[order[i]].prev < |nodes| then Gap(nodes, order[i]) else 0)
  }

  lemma SumUpTo(s: seq<int>, k: nat)
    requires k < |s|
    ensures Sum(s[..k + 1]) == Sum(s[..k]) + s[k]
  {
    assert s[..k + 1] == s[..k] + [s[k]] && [s[k]][1..] == [];
    SumJoin(s[..k], [s[k]]);
  }

  /** A node's gap and size lead from the end of the node before it to its own end. */
  lemma GapAndSize(h: Heap, v: Lists, k: nat)
    requires Ok(h, v) && k < |v.order|
    ensures v.order[k] < |h.nodes| && Gaps(h.nodes, v.order)[k] >= 0 && (k > 0 ==> v.order[k - 1] < |h.nodes|)
    ensures Sizes(h.nodes, v.order)[k] + Gaps(h.nodes, v.order)[k] ==
      EndOf(h.nodes[v.order[k]]) - if k == 0 then 0 else EndOf(h.nodes[v.order[k - 1]])
  {
    hide OrderOk, BinsOk, FreeOk, Placed, Partition;
    OrderLinks(h.nodes, v.order, h.memorySize, k);
    if k > 0 { Adjacent(h.nodes, v.order, h.memorySize, k); }
  }

  lemma {:induction false} PrefixSum(h: Heap, v: Lists, k: nat)
    requires Ok(h, v) && k < |v.order|
    ensures v.order[k] < |h.nodes|
    ensures Sum(Sizes(h.nodes, v.order)[..k + 1]) + Sum(Gaps(h.nodes, v.order)[..k + 1]) == EndOf(h.nodes[v.order[k]])
  {
    hide Nearly, Sizes, Gaps, EndOf;
    GapAndSize(h, v, k);
    SumUpTo(Sizes(h.nodes, v.order), k);
    SumUpTo(Gaps(h.nodes, v.order), k);
    if k > 0 { PrefixSum(h, v, k - 1); }
  }

  /** Block sizes and gaps add up to the memory. */
  lemma Conservation(h: Heap, v: Lists)
    requires Ok(h, v)
    ensures Sum(Sizes(h.nodes, v.order)) + Sum(Gaps(h.nodes, v.order)) == h.memorySize
    ensures forall i | 0 <= i < |v.order| :: Gaps(h.nodes, v.order)[i] >= 0
  {
    hide Nearly, Sizes, Gaps, Sum;
    var s, g, k := Sizes(h.nodes, v.order), Gaps(h.nodes, v.order), |v.order| - 1;
    LastIsEnd(h, v);
    PrefixSum(h, v, k);
    assert s[..k + 1] == s && g[..k + 1] == g;
    forall i | 0 <= i < |v.order| ensures g[i] >= 0 {
      GapAndSize(h, v, i);
    }
  }

  lemma LastIsEnd(h: Heap, v: Lists)
    requires Ok(h, v)
    ensures |v.order| >= 2 && v.order[|v.order| - 1] < |h.nodes| && EndOf(h.nodes[v.order[|v.order| - 1]]) == h.memorySize
  {
  }

  // ---- bins and masks ----

  /** A node is in bin `b` exactly when its gap is at least 8 and maps to `b`, and then in no other bin. */
  lemma Membership(h: Heap, v: Lists, n: nat, b: nat)
    requires Ok(h, v) && n < |h.nodes| && b < BINS
    ensures n in v.bins[b] <==>
      h.nodes[n].prev < |h.nodes| && Gap(h.nodes, n) >= MIN_SIZE && BinIndex(Gap(h.nodes, n), false) == b
  {
    hide OrderOk, FreeOk, Partition, BinIndex, BinOk;
    if n in v.bins[b] { InBin(h, v, n, b); }
    assert IsAt(h.nodes, v.bins, n, Target(h.nodes, n));
  }

  /** The largest gap a request needs: growing the memory until the last gap reaches it makes the request succeed. */
  lemma GrownGapSuffices(h: Heap, v: Lists, total: nat)
    requires Ok(h, v) && |h.nodes| > 1 && h.nodes[1].prev < |h.nodes|
    requires Gap(h.nodes, 1) >= MIN_SIZE && Gap(h.nodes, 1) >= SizeFromBin(BinIndex(total, true))
    ensures HasGap(h.nodes, total) && exists b | BinIndex(total, true) <= b < BINS :: h.masks[b]
  {
    hide BinIndex, SizeFromBin, Nearly;
    assert IsGap(h.nodes, 1, total);
    SearchIsComplete(h, v, total);
  }

  // ---- freeing undoes allocating ----

  lemma TakePut(bins: seq<seq<nat>>, n: nat, gap: int)
    ensures Leaving(Placing(bins, n, gap), n, gap) == bins
  {
    hide BinIndex;
    if gap >= MIN_SIZE && BinIndex(gap, false) < |bins| {
      var b := BinIndex(gap, false);
      assert ([n] + bins[b])[1..] == bins[b];
      assert Leaving(Placing(bins, n, gap), n, gap) == bins;
    }
  }

  lemma TakePutOther(bins: seq<seq<nat>>, n: nat, gap: int, m: nat, other: int)
    requires n != m
    ensures Leaving(Placing(bins, n, gap), m, other) == Placing(Leaving(bins, m, other), n, gap)
  {
    hide BinIndex;
    if gap >= MIN_SIZE && BinIndex(gap, false) < |bins| && other >= MIN_SIZE && BinIndex(other, false) < |bins| {
      var b, c := BinIndex(gap, false), BinIndex(other, false);
      assert ([n] + bins[b])[1..] == bins[b];
      assert Leaving(Placing(bins, n, gap), m, other) == Placing(Leaving(bins, m, other), n, gap);
    }
  }

  lemma TakeTake(bins: seq<seq<nat>>, n: nat, gap: int, m: nat, other: int)
    ensures Leaving(Leaving(bins, n, gap), m, other) == Leaving(Leaving(bins, m, other), n, gap)
  {
    hide BinIndex;
    if gap >= MIN_SIZE && BinIndex(gap, false) < |bins| && other >= MIN_SIZE && BinIndex(other, false) < |bins| {
      DropsCommute(bins[BinIndex(gap, false)], n, m);
      assert Leaving(Leaving(bins, n, gap), m, other) == Leaving(Leaving(bins, m, other), n, gap);
    }
  }

  lemma PutTake(bins: seq<seq<nat>>, n: nat, gap: int)
    requires HeadOfBin(bins, n, gap)
    ensures Placing(Leaving(bins, n, gap), n, gap) == bins
  {
    hide BinIndex;
    var b := BinIndex(gap, false);
    assert bins[b] == [n] + bins[b][1..];
    assert Placing(Leaving(bins, n, gap), n, gap) == bins;
  }

  /** Every bin list returns to what it was, element for element, when the gap was first in its bin. */
  lemma BinsRestored(bins: seq<seq<nat>>, n: nat, q: nat, was: int, pre: int, post: int)
    requires n != q && HeadOfBin(bins, q, was)
    ensures var after := Placing(Leaving(Placing(bins, n, pre), q, was), q, post);
      Placing(Leaving(Leaving(after, n, pre), q, post), q, was) == bins
  {
    hide Placing, Leaving, HeadOfBin;
    var mid := Leaving(Placing(bins, n, pre), q, was);
    TakePutOther(mid, q, post, n, pre);
    TakePut(Leaving(mid, n, pre), q, post);
    TakeTake(Placing(bins, n, pre), q, was, n, pre);
    TakePut(bins, n, pre);
    PutTake(bins, q, was);
  }

  /** A heap is determined by its lists and by where its blocks are. */
  lemma ListsDetermineHeap(a: Heap, b: Heap, v: Lists)
    requires Ok(a, v) && Ok(b, v) && SameBlocks(a.nodes, b.nodes, v.order) && a.memorySize == b.memorySize
    ensures a == b
  {
    hide Nearly, Linked;
    forall x: nat | x < |a.nodes| ensures a.nodes[x] == b.nodes[x] { NodeDetermined(a, b, v, x); }
    HeadsDetermined(a, b, v);
  }

  lemma HeadsDetermined(a: Heap, b: Heap, v: Lists)
    requires Ok(a, v) && Ok(b, v)
    ensures a.binFirst == b.binFirst && a.masks == b.masks && a.firstFree == b.firstFree
  {
    hide Linked, OrderOk, Placed, Partition;
    forall i | 0 <= i < BINS ensures a.binFirst[i] == b.binFirst[i] && a.masks[i] == b.masks[i] {
      assert BinOk(a.nodes, a.binFirst[i], a.masks[i], v.bins[i]) && BinOk(b.nodes, b.binFirst[i], b.masks[i], v.bins[i]);
    }
  }

  lemma NodeDetermined(a: Heap, b: Heap, v: Lists, x: nat)
    requires Ok(a, v) && Ok(b, v) && SameBlocks(a.nodes, b.nodes, v.order) && x < |a.nodes|
    ensures a.nodes[x] == b.nodes[x]
  {
    hide BinsOk, Placed;
    if x in v.order {
      var k := IndexOf(v.order, x);
      OrderLinks(a.nodes, v.order, a.memorySize, k);
      OrderLinks(b.nodes, v.order, b.memorySize, k);
      BinLinksDetermined(a, b, v, x);
    } else {
      var j := IndexOf(v.free, x);
      FreeIsOutside(a, v, {}, j);
      FreeIsOutside(b, v, {}, j);
    }
  }

  lemma OrderLinks(nodes: seq<Node>, order: seq<nat>, memorySize: nat, k: nat)
    requires OrderOk(nodes, order, memorySize) && k < |order|
    ensures order[k] < |nodes| <= NIL && nodes[order[k]].next == After(order, k) && nodes[order[k]].prev == Preceding(order, k)
    ensures order[0] < |nodes| && nodes[order[0]].offset == 0
  {
  }

  lemma BinLinksDetermined(a: Heap, b: Heap, v: Lists, x: nat)
    requires Ok(a, v) && Ok(b, v) && x < |a.nodes| == |b.nodes|
    ensures a.nodes[x].nextInBin == b.nodes[x].nextInBin && a.nodes[x].prevInBin == b.nodes[x].prevInBin
  {
    hide OrderOk, FreeOk, Partition, Target;
    assert IsAt(a.nodes, v.bins, x, Target(a.nodes, x)) && IsAt(b.nodes, v.bins, x, Target(b.nodes, x));
    if t: nat :| t < BINS && x in v.bins[t] {
      var k := IndexOf(v.bins[t], x);
      assert BinOk(a.nodes, a.binFirst[t], a.masks[t], v.bins[t]) && BinOk(b.nodes, b.binFirst[t], b.masks[t], v.bins[t]);
      BinLinks(a.nodes, v.bins[t], k);
      BinLinks(b.nodes, v.bins[t], k);
    }
  }

  lemma BinLinks(nodes: seq<Node>, s: seq<nat>, k: nat)
    requires Linked(nodes, s) && k < |s|
    ensures s[k] < |nodes| && nodes[s[k]].nextInBin == After(s, k) && nodes[s[k]].prevInBin == Preceding(s, k)
  {
  }

  lemma ListsRestored(h: Heap, v: Lists, h1: Heap, v1: Lists, h2: Heap, v2: Lists, k: nat, offset: nat, size: nat)
    requires Ok(h, v) && Allocated(h, v, h1, v1, k, offset, size) && Freed(h1, v1, h2, v2, k)
    ensures v2 == v && SameBlocks(h.nodes, h2.nodes, v.order)
  {
    hide Nearly, Placing, Leaving, HeadOfBin, Inserted, Without, OrderOk;
    var n, p, q := v.free[0], v.order[k - 1], v.order[k];
    FreeIsOutside(h, v, {}, 0);
    assert q in v.order && p in v.order;
    RestoredOrder(v.order, k, n);
    assert [n] + v.free[1..] == v.free;
    BinsRestored(v.bins, n, q, h.nodes[q].offset - EndOf(h.nodes[p]), offset - EndOf(h.nodes[p]), h.nodes[q].offset - (offset + size));
  }

  /**
   Deallocating the block just allocated restores every node, every bin head and mask, the list of unused nodes and all
   list orders.
   */
  lemma FreeUndoesAllocate(h: Heap, v: Lists, h1: Heap, v1: Lists, h2: Heap, v2: Lists, k: nat, offset: nat, size: nat)
    requires Ok(h, v) && Ok(h2, v2) && Allocated(h, v, h1, v1, k, offset, size) && Freed(h1, v1, h2, v2, k)
    ensures h2 == h && v2 == v
  {
    hide Nearly, SameBlocks, Placing, Leaving, HeadOfBin, Inserted, Without;
    ListsRestored(h, v, h1, v1, h2, v2, k, offset, size);
    ListsDetermineHeap(h, h2, v);
  }

  lemma RestoredOrder(s: seq<nat>, k: nat, n: nat)
    requires 0 < k < |s|
    ensures var t := Inserted(s, k, n);
      && Without(t, k) == s && |t| == |s| + 1 && t[k] == n && t[k - 1] == s[k - 1] && t[k + 1] == s[k]
  {
  }

  lemma NewBlock(h: Heap, v: Lists, h1: Heap, v1: Lists, k: nat, offset: nat, size: nat)
    requires Ok(h, v) && Allocated(h, v, h1, v1, k, offset, size)
    ensures k < |v1.order| && v1.order[k] == v.free[0] && v.free[0] in v1.order && v.free[0] != 0 && v.free[0] != 1
    ensures v.free != [] && v.free[0] == h.firstFree
  {
    hide Placing, Leaving, HeadOfBin, BinsOk, Placed;
    RestoredOrder(v.order, k, v.free[0]);
    FreeIsOutside(h, v, {}, 0);
    assert v.order[0] in v.order && v.order[|v.order| - 1] in v.order;
  }

  lemma SamePlace(h: Heap, v: Lists, i: nat, j: nat)
    requires Ok(h, v) && i < |v.order| && j < |v.order| && v.order[i] == v.order[j]
    ensures i == j
  {
    OrderNoDup(h.nodes, v.order, h.memorySize);
  }

  // ---- counting nodes ----

  lemma {:induction false} SeqToSet(s: seq<nat>) returns (r: set<nat>)
    requires NoDup(s)
    ensures |r| == |s| && forall x :: x in r <==> x in s
  {
    if s == [] {
      r := {};
    } else {
      r := SeqToSet(s[1..]);
      assert s[0] !in s[1..];
      r := r + {s[0]};
      assert s == [s[0]] + s[1..];
    }
  }

  /** Used and unused nodes are all the nodes there are. */
  lemma NodesCounted(h: Heap, v: Lists)
    requires Ok(h, v)
    ensures |v.order| + |v.free| == |h.nodes|
  {
    hide BinsOk, Placed;
    OrderNoDup(h.nodes, v.order, h.memorySize);
    FreeNoDup(h.nodes, v.free, h.firstFree);
    OrderFacts(h, v);
    OkFree(h, v);
    var a := SeqToSet(v.order);
    var b := SeqToSet(v.free);
    assert a + b == Below(|h.nodes|) && a !! b;
    SizeOfUnion(a, b);
  }

  lemma SizeOfUnion(a: set<nat>, b: set<nat>)
    requires a !! b
    ensures |a + b| == |a| + |b|
  {
  }
}
