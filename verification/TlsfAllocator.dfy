/**
 The allocator itself: allocation, deallocation and growth over the node array, the bin
 heads and masks, and the statistics, each proved to keep the invariant.
 */
module TlsfAllocator {
  import opened Arith
  import opened TlsfBins
  import opened TlsfLists
  import opened TlsfHeap
  import opened TlsfPlacement
  import opened TlsfTheorems

  /** Where the last block ends. */
  ghost function LastEnd(nodes: seq<Node>): nat
    requires |nodes| > 1 && nodes[1].prev < |nodes|
  {
    EndOf(nodes[nodes[1].prev])
  }

  /** The gap that is sure to hold a request. */
  ghost function RoomFor(total: nat): nat {
    var s := SizeFromBin(BinIndex(total, true));
    if s < MIN_SIZE then MIN_SIZE else s
  }

  function Max(a: int, b: int): int {
    if a < b then b else a
  }

  datatype FailReason = NeedMoreMemory | NeedMoreNodes | UnsupportedSize

  class Allocator {
    var nodes: seq<Node>
    var binFirst: seq<nat>
    var masks: seq<bool>
    var firstFree: nat
    var memorySize: nat
    var nodeCount: nat

    ghost var order: seq<nat>
    ghost var bins: seq<seq<nat>>
    ghost var free: seq<nat>

    // statistics and the last failure, for information only
    var allocationCount: nat
    var deallocationCount: nat
    var bytesAllocated: nat
    var maxBytesAllocated: nat
    var maxConcurrent: nat
    var lastFailSize: nat
    var lastFailNeeded: nat
    var lastFailReason: set<FailReason>

    ghost function Stats(): (int, int, int, int, int)
      reads this
    {
      (allocationCount, deallocationCount, bytesAllocated, maxBytesAllocated, maxConcurrent)
    }

    ghost function State(): Heap
      reads this
    {
      Heap(nodes, binFirst, masks, firstFree, memorySize)
    }

    ghost function Contents(): Lists
      reads this
    {
      Lists(order, bins, free)
    }

    ghost predicate Valid()
      reads this
    {
      && Ok(State(), Contents()) && nodeCount == |order|
      && allocationCount - deallocationCount == |order| - 2 <= maxConcurrent
      && bytesAllocated == Sum(Sizes(nodes, order)) <= maxBytesAllocated
    }

    method FirstSetBit(word: nat, from: nat) returns (b: nat)
      requires |masks| == BINS && word < 4 && from < 64
      ensures b == NIL ==> forall c | 64 * word + from <= c < 64 * word + 64 :: !masks[c]
      ensures b != NIL ==> 64 * word + from <= b < 64 * word + 64 && masks[b]
      ensures b != NIL ==> forall c | 64 * word + from <= c < b :: !masks[c]
    {
      for i := 64 * word + from to 64 * word + 64
        invariant forall c | 64 * word + from <= c < i :: !masks[c]
      {
        if masks[i] { return i; }
      }
      b := NIL;
    }

    /** The first non-empty bin at or above `from`, found word by word. */
    method FindBin(from: nat) returns (b: nat)
      requires |masks| == BINS
      ensures b == NIL ==> forall c | from <= c < BINS :: !masks[c]
      ensures b != NIL ==> from <= b < BINS && masks[b] && forall c | from <= c < b :: !masks[c]
    {
      b := NIL;
      if from < BINS {
        var word := from / 64;
        b := FirstSetBit(word, from % 64);
        if b == NIL {
          word := word + 1;
          while word < 4 && b == NIL
            invariant 0 <= word <= 4
            invariant b == NIL ==> forall c | from <= c < 64 * word :: !masks[c]
            invariant b != NIL ==> from <= b < BINS && masks[b] && forall c | from <= c < b :: !masks[c]
            decreases 4 - word, b == NIL
          {
            b := FirstSetBit(word, 0);
            word := word + 1;
          }
        }
      }
    }

    method Link(n: nat, b: nat)
      requires BinsOk(nodes, binFirst, masks, bins) && n < |nodes| && b < BINS && Unbinned(bins, n)
      modifies `nodes, `binFirst, `masks, `bins
      ensures BinsOk(nodes, binFirst, masks, bins) && bins == Put(old(bins), n, b)
      ensures Moves(old(nodes), old(bins), nodes, bins, {n})
    {
      LinkBins(nodes, binFirst, masks, bins, n, b);
      LinkMoves(nodes, binFirst, masks, bins, n, b);
      assert BinOk(nodes, binFirst[b], masks[b], bins[b]);
      var first := binFirst[b];
      nodes := nodes[n := nodes[n].(nextInBin := first, prevInBin := NIL)];
      if first != NIL {
        nodes := nodes[first := nodes[first].(prevInBin := n)];
      }
      binFirst := binFirst[b := n];
      masks := masks[b := true];
      bins := Put(bins, n, b);
    }

    method Unlink(n: nat, b: nat)
      requires BinsOk(nodes, binFirst, masks, bins) && b < BINS && n in bins[b]
      modifies `nodes, `binFirst, `masks, `bins
      ensures BinsOk(nodes, binFirst, masks, bins) && bins == Take(old(bins), n, b) && Unbinned(bins, n)
      ensures Moves(old(nodes), old(bins), nodes, bins, {n})
    {
      UnlinkBins(nodes, binFirst, masks, bins, n, b);
      UnlinkMoves(nodes, binFirst, masks, bins, n, b);
      var prev, next := nodes[n].prevInBin, nodes[n].nextInBin;
      if prev == NIL {
        binFirst := binFirst[b := next];
        if next == NIL {
          masks := masks[b := false];
        }
      } else {
        nodes := nodes[prev := nodes[prev].(nextInBin := next)];
      }
      if next != NIL {
        nodes := nodes[next := nodes[next].(prevInBin := prev)];
      }
      bins := Take(bins, n, b);
    }

    /** Puts a node into the bin of its gap, unless the gap is too small. */
    method Place(n: nat, gap: nat, ghost except: set<nat>)
      requires Nearly(State(), Contents(), except) && n in except && except <= set x | x in order
      requires n < |nodes| && Unbinned(bins, n) && Loose(nodes[n]) && gap < NIL
      modifies `nodes, `binFirst, `masks, `bins
      ensures Nearly(State(), Contents(), except) && Moves(old(nodes), old(bins), nodes, bins, {n})
      ensures bins == Placing(old(bins), n, gap) && IsAt(nodes, bins, n, TargetOf(gap))
    {
      hide OrderOk, FreeOk, BinsOk, Placed, Partition, BinIndex;
      if gap >= MIN_SIZE {
        BinRange(gap);
        Link(n, BinIndex(gap, false));
        MovesNearly(old(State()), old(Contents()), State(), Contents(), {n}, except);
        assert except + {n} == except;
      }
    }

    /** Takes a node out of the bin of its gap, if it is in one. */
    method Leave(n: nat, gap: nat, ghost except: set<nat>)
      requires Nearly(State(), Contents(), except) && except <= set x | x in order
      requires n < |nodes| && n in order && IsAt(nodes, bins, n, TargetOf(gap)) && gap < NIL
      modifies `nodes, `binFirst, `masks, `bins
      ensures Nearly(State(), Contents(), except + {n}) && Moves(old(nodes), old(bins), nodes, bins, {n})
      ensures bins == Leaving(old(bins), n, gap) && Unbinned(bins, n)
    {
      hide OrderOk, FreeOk, BinsOk, Placed, Partition, BinIndex;
      if gap >= MIN_SIZE {
        BinRange(gap);
        Unlink(n, BinIndex(gap, false));
        MovesNearly(old(State()), old(Contents()), State(), Contents(), {n}, except);
      } else {
        NearlyWider(State(), Contents(), except, except + {n});
      }
    }

    /** Clears the bin links of a node that is in no bin. */
    method Loosen(n: nat, ghost except: set<nat>)
      requires Nearly(State(), Contents(), except) && n in except && except <= set x | x in order
      requires n < |nodes| && Unbinned(bins, n)
      modifies `nodes
      ensures Nearly(State(), Contents(), except) && Moves(old(nodes), bins, nodes, bins, {n}) && Loose(nodes[n])
    {
      hide OrderOk, FreeOk, BinsOk, Placed, Partition;
      LoosenMoves(nodes, binFirst, masks, bins, n);
      nodes := nodes[n := nodes[n].(nextInBin := NIL, prevInBin := NIL)];
      MovesNearly(old(State()), Contents(), State(), Contents(), {n}, except);
      assert except + {n} == except;
    }

    /** Takes a node out of the given bin and clears its bin links. */
    method Detach(n: nat, b: nat, ghost except: set<nat>, ghost gap: nat)
      requires Nearly(State(), Contents(), except) && n in except && except <= set x | x in order
      requires n < |nodes| && b < |bins| == BINS && n in bins[b] && gap >= MIN_SIZE && BinIndex(gap, false) == b
      modifies `nodes, `binFirst, `masks, `bins
      ensures Nearly(State(), Contents(), except) && Moves(old(nodes), old(bins), nodes, bins, {n})
      ensures bins == Leaving(old(bins), n, gap) && Unbinned(bins, n) && n < |nodes| && Loose(nodes[n])
    {
      hide OrderOk, FreeOk, BinsOk, Placed, Partition, BinIndex;
      Unlink(n, b);
      MovesNearly(old(State()), old(Contents()), State(), Contents(), {n}, except);
      assert except + {n} == except && {n} + {n} == {n};
      ghost var n1 := nodes;
      Loosen(n, except);
      MovesJoin(old(nodes), old(bins), n1, bins, nodes, bins, {n}, {n});
    }

    /** Takes the first unused node into the order, between two neighbours. */
    method Insert(prev: nat, next: nat, node: nat, offset: nat, size: nat, ghost k: nat)
      requires Ok(State(), Contents()) && 0 < k < |order| && order[k - 1] == prev && order[k] == next
      requires node == firstFree != NIL && prev < |nodes| && next < |nodes| && size > 0
      requires EndOf(nodes[prev]) <= offset && offset + size <= nodes[next].offset
      modifies `nodes, `firstFree, `order, `free
      ensures old(free) != [] && old(free)[0] == node && free == old(free)[1..] && order == Inserted(old(order), k, node)
      ensures node < |nodes| && node != prev && node != next && prev != next && node != 0 && node !in old(order)
      ensures nodes == InsertNodes(old(nodes), prev, next, node, offset, size)
      ensures Nearly(State(), Contents(), {node, next}) && Unbinned(bins, node) && Loose(nodes[node])
    {
      hide OrderOk, BinsOk, Placed, Partition, Inserted;
      InsertNearly(State(), Contents(), k, offset, size);
      FreeIsOutside(State(), Contents(), {}, 0);
      OrderPair(nodes, order, memorySize, k);
      MaskCount(State(), Contents());
      assert prev in order && next in order && order[0] in order;
      firstFree := nodes[node].next;
      nodes := nodes[node := Node(offset, size, next, prev, NIL, NIL)];
      nodes := nodes[next := nodes[next].(prev := node)];
      nodes := nodes[prev := nodes[prev].(next := node)];
      order := Inserted(order, k, node);
      free := free[1..];
    }

    /** Puts the new node and the node after it into the bins of their new gaps. */
    method Settle(bin: nat, prev: nat, next: nat, node: nat, ghost was: nat)
      requires Nearly(State(), Contents(), {node, next}) && node in order && next in order && |bins| == BINS
      requires was >= MIN_SIZE && BinIndex(was, false) == bin && node < |nodes| && next < |nodes| && prev < |nodes| && node != next
      requires nodes[node].prev == prev && nodes[next].prev == node && nodes[next].offset < NIL
      requires Gap(nodes, node) >= 0 && Gap(nodes, next) >= 0
      requires Unbinned(bins, node) && Loose(nodes[node]) && bin < BINS && next in bins[bin]
      modifies `nodes, `binFirst, `masks, `bins
      ensures Ok(State(), Contents()) && SameLayout(old(nodes), nodes)
      ensures bins == Placing(Leaving(Placing(old(bins), node, old(Gap(nodes, node))), next, was), next, old(Gap(nodes, next)))
    {
      hide OrderOk, FreeOk, BinsOk, Placed, Partition, BinIndex, TargetOf, Placing, Leaving, Moves, IsAt, SameLayout;
      var pre, post := Gap(nodes, node), Gap(nodes, next);
      Place(node, pre, {node, next});
      MovesFacts(old(nodes), old(bins), nodes, bins, {node}, next);
      ghost var n1, b1 := nodes, bins;
      Detach(next, bin, {node, next}, was);
      MovesFacts(n1, b1, nodes, bins, {next}, next);
      MovesJoin(old(nodes), old(bins), n1, b1, nodes, bins, {node}, {next});
      MovesKeepAt(n1, b1, nodes, bins, {next}, node, TargetOf(pre));
      ghost var n2, b2 := nodes, bins;
      Place(next, post, {node, next});
      MovesKeepAt(n2, b2, nodes, bins, {next}, node, TargetOf(pre));
      MovesJoin(old(nodes), old(bins), n2, b2, nodes, bins, {node} + {next}, {next});
      MovesFacts(old(nodes), old(bins), nodes, bins, {node} + {next} + {next}, node);
      MovesFacts(old(nodes), old(bins), nodes, bins, {node} + {next} + {next}, next);
      NearlyOk(State(), Contents(), {node, next});
    }

    /** Why the last request failed: no gap, no unused node, or a size beyond every bin. */
    ghost predicate FailedWith(size: nat, binFrom: nat, found: bool)
      reads this
    {
      && lastFailSize == size && lastFailNeeded == SizeFromBin(binFrom)
      && lastFailReason == if binFrom > BINS then {UnsupportedSize}
                           else (if found then {} else {NeedMoreMemory}) + (if firstFree == NIL then {NeedMoreNodes} else {})
    }

    method RecordFailure(size: nat, binFrom: nat, found: bool)
      modifies `lastFailSize, `lastFailNeeded, `lastFailReason
      ensures FailedWith(size, binFrom, found)
    {
      lastFailSize := size;
      lastFailNeeded := SizeFromBin(binFrom);
      lastFailReason := {};
      if binFrom > BINS {
        lastFailReason := {UnsupportedSize};
      } else {
        if !found { lastFailReason := lastFailReason + {NeedMoreMemory}; }
        if firstFree == NIL { lastFailReason := lastFailReason + {NeedMoreNodes}; }
      }
    }

    method CountAllocation(size: nat)
      requires allocationCount >= deallocationCount
      modifies `nodeCount, `allocationCount, `maxConcurrent, `bytesAllocated, `maxBytesAllocated
      ensures nodeCount == old(nodeCount) + 1 && allocationCount == old(allocationCount) + 1
      ensures bytesAllocated == old(bytesAllocated) + size
      ensures maxBytesAllocated == Max(old(maxBytesAllocated), bytesAllocated)
      ensures maxConcurrent == Max(old(maxConcurrent), allocationCount - deallocationCount)
    {
      nodeCount := nodeCount + 1;
      allocationCount := allocationCount + 1;
      if maxConcurrent < allocationCount - deallocationCount {
        maxConcurrent := allocationCount - deallocationCount;
      }
      bytesAllocated := bytesAllocated + size;
      if maxBytesAllocated < bytesAllocated {
        maxBytesAllocated := bytesAllocated;
      }
    }

    /** Places a block into the gap of the first node of a bin that has room for it. */
    method Carve(bin: nat, size: nat, align: nat, alignOffset: nat, base: nat) returns (node: nat, offset: nat, ghost k: nat)
      requires Ok(State(), Contents()) && align > 0 && size > 0 && firstFree != NIL
      requires BinIndex(size + align + alignOffset, true) <= bin < BINS && masks[bin]
      modifies `nodes, `firstFree, `order, `free, `binFirst, `masks, `bins
      ensures Ok(State(), Contents()) && node == old(firstFree) != 0 && (base + offset + alignOffset) % align == 0
      ensures Allocated(old(State()), old(Contents()), State(), Contents(), k, offset, size)
      ensures var before := old(nodes)[old(order)[k - 1]];
        offset < EndOf(before) + align && BinIndex(old(nodes)[old(order)[k]].offset - EndOf(before), false) == bin
    {
      hide OrderOk, FreeOk, Placed, Partition, BinIndex, TargetOf, Placing, Leaving, Linked, InsertNodes, Inserted, SizeFromBin;
      ghost var h, v := State(), Contents();
      assert BinOk(nodes, binFirst[bin], masks[bin], bins[bin]);
      FoundGap(h, v, bin, size + align + alignOffset);
      var next := binFirst[bin];
      node := firstFree;
      var prev := nodes[next].prev;
      k := Position(h, v, next);
      ghost var was := Gap(nodes, next);
      offset := AlignUp(base + EndOf(nodes[prev]) + alignOffset, align) - base - alignOffset;
      Insert(prev, next, node, offset, size, k);
      InsertedBlocks(h.nodes, prev, next, node, offset, size);
      MembersOfInserted(v.order, k, node);
      Settle(bin, prev, next, node, was);
    }

    /**
     Allocates `size` bytes so that `base + offset + alignOffset` is a multiple of `align`. `base` is the address of the
     memory for requests aligned in memory and 0 otherwise. Fails, returning node 0, exactly when there is no unused node
     or no gap of the rounded-up size.
     */
    method Allocate(size: nat, align: nat, alignOffset: nat, base: nat) returns (node: nat, offset: nat, ghost k: nat)
      requires Valid() && align > 0
      modifies this
      ensures Valid()
      ensures node != 0 <==> size > 0 && old(firstFree) != NIL && old(HasGap(nodes, size + align + alignOffset))
      ensures node == 0 ==> State() == old(State()) && Contents() == old(Contents()) && Stats() == old(Stats()) && offset == 0
      ensures node != 0 ==> deallocationCount == old(deallocationCount) && allocationCount == old(allocationCount) + 1
      ensures node != 0 ==> maxBytesAllocated == Max(old(maxBytesAllocated), bytesAllocated)
      ensures node != 0 ==> maxConcurrent == Max(old(maxConcurrent), allocationCount - deallocationCount)
      ensures node == 0 && size > 0 ==>
        FailedWith(size, BinIndex(size + align + alignOffset, true), old(HasGap(nodes, size + align + alignOffset)))
      ensures node != 0 ==> Allocated(old(State()), old(Contents()), State(), Contents(), k, offset, size)
      ensures node != 0 ==> node == old(firstFree) && (base + offset + alignOffset) % align == 0
      ensures node != 0 ==> GoodFit(old(State()), old(Contents()), k, size + align + alignOffset)
      ensures node != 0 ==> offset < old(EndOf(nodes[order[k - 1]])) + align
    {
      hide Nearly, BinIndex, SizeFromBin, Sum, Sizes, Allocated, HasGap, FailedWith, GoodFit;
      k := 0;
      if size == 0 { return 0, 0, 0; }
      var total := size + align + alignOffset;
      var binFrom := BinIndex(total, true);
      MaskCount(State(), Contents());
      var bin := FindBin(binFrom);
      SearchIsComplete(State(), Contents(), total);
      if bin == NIL || firstFree == NIL {
        RecordFailure(size, binFrom, bin != NIL);
        return 0, 0, 0;
      }
      node, offset, k := Carve(bin, size, align, alignOffset, base);
      AllocatedSum(old(State()), old(Contents()), State(), Contents(), k, offset, size);
      AllocatedFits(old(State()), old(Contents()), State(), Contents(), k, offset, size, total, bin);
      CountAllocation(size);
    }

    /** Moves the node after `n` to the bin of the gap it will have once `n` is gone, and takes `n` out of its bin. */
    method Evacuate(n: nat, prev: nat, next: nat)
      requires Ok(State(), Contents()) && n in order && next in order && n < |nodes| && next < |nodes| && prev < |nodes|
      requires nodes[n].prev == prev && nodes[next].prev == n && n != next && nodes[next].offset < NIL
      requires Gap(nodes, n) >= 0 && Gap(nodes, next) >= 0
      modifies `nodes, `binFirst, `masks, `bins
      ensures Nearly(State(), Contents(), {n, next}) && SameLayout(old(nodes), nodes) && Unbinned(bins, n)
      ensures bins == Placing(Leaving(Leaving(old(bins), n, old(Gap(nodes, n))), next, old(Gap(nodes, next))),
                              next, old(nodes[next].offset - EndOf(nodes[prev])))
      ensures IsAt(nodes, bins, next, TargetOf(old(nodes[next].offset - EndOf(nodes[prev]))))
    {
      hide OrderOk, FreeOk, BinsOk, Partition, BinIndex, TargetOf, Placing, Leaving, Moves, IsAt, SameLayout;
      var unused, oldNext := nodes[n].offset - EndOf(nodes[prev]), nodes[next].offset - EndOf(nodes[n]);
      var newNext := nodes[next].offset - EndOf(nodes[prev]);
      AtTargets(State(), Contents(), n, next);
      Leave(n, unused, {});
      MovesFacts(old(nodes), old(bins), nodes, bins, {n}, next);
      MovesKeepAt(old(nodes), old(bins), nodes, bins, {n}, next, TargetOf(oldNext));
      ghost var n1, b1 := nodes, bins;
      Leave(next, oldNext, {} + {n});
      assert {} + {n} + {next} == {n, next};
      MovesFacts(n1, b1, nodes, bins, {next}, n);
      MovesJoin(old(nodes), old(bins), n1, b1, nodes, bins, {n}, {next});
      ghost var n2, b2 := nodes, bins;
      Loosen(next, {n, next});
      MovesFacts(n2, b2, nodes, bins, {next}, n);
      MovesJoin(old(nodes), old(bins), n2, b2, nodes, bins, {n} + {next}, {next});
      ghost var n3, b3 := nodes, bins;
      Place(next, newNext, {n, next});
      MovesFacts(n3, b3, nodes, bins, {next}, n);
      MovesJoin(old(nodes), old(bins), n3, b3, nodes, bins, {n} + {next} + {next}, {next});
      MovesFacts(old(nodes), old(bins), nodes, bins, {n} + {next} + {next} + {next}, n);
    }

    /** Takes a node out of the order and makes it the first unused one. */
    method Release(n: nat, prev: nat, next: nat, ghost k: nat)
      requires 0 < k < |order| - 1 && order[k - 1] == prev && order[k] == n && order[k + 1] == next
      requires n < |nodes| && prev < |nodes| && next < |nodes| && prev != next && n != prev && n != next
      requires Nearly(State(), Contents(), {n, next}) && Unbinned(bins, n)
      requires IsAt(nodes, bins, next, TargetOf(nodes[next].offset - EndOf(nodes[prev])))
      modifies `nodes, `firstFree, `order, `free
      ensures Ok(State(), Contents()) && |nodes| == |old(nodes)|
      ensures order == Without(old(order), k) && free == [n] + old(free)
      ensures forall x | 0 <= x < |nodes| && x != n :: nodes[x].offset == old(nodes)[x].offset && nodes[x].size == old(nodes)[x].size
    {
      hide Nearly, RemoveNodes, Without, TargetOf, IsAt;
      RemoveNearly(State(), Contents(), k);
      nodes := nodes[n := nodes[n].(next := firstFree)];
      nodes := nodes[next := nodes[next].(prev := prev)];
      nodes := nodes[prev := nodes[prev].(next := next)];
      nodes := nodes[n := FreeNode(firstFree)];
      RemovedNodes(old(nodes), prev, next, n, firstFree, nodes);
      firstFree := n;
      order := Without(order, k);
      free := [n] + free;
    }

    method Return(n: nat) returns (ghost k: nat)
      requires Ok(State(), Contents()) && n in order && n != 0 && n != 1
      modifies `nodes, `binFirst, `masks, `bins, `firstFree, `order, `free
      ensures Ok(State(), Contents()) && Freed(old(State()), old(Contents()), State(), Contents(), k) && old(order)[k] == n
    {
      hide Nearly, BinIndex, TargetOf, Placing, Leaving, Without, IsAt;
      k := InnerPosition(State(), Contents(), n);
      NotInWithout(State(), Contents(), k);
      var next, prev := nodes[n].next, nodes[n].prev;
      Evacuate(n, prev, next);
      Release(n, prev, next, k);
    }

    /** Returns a block: its bytes join the gap of the node after it and its node becomes the first unused one. */
    method Deallocate(n: nat) returns (ghost k: nat)
      requires Valid() && (n == 0 || (n in order && n != 1))
      modifies this
      ensures Valid()
      ensures n == 0 ==> State() == old(State()) && Contents() == old(Contents()) && Stats() == old(Stats())
      ensures n != 0 ==> deallocationCount == old(deallocationCount) + 1 && allocationCount == old(allocationCount)
      ensures maxBytesAllocated == old(maxBytesAllocated) && maxConcurrent == old(maxConcurrent)
      ensures n != 0 ==> Freed(old(State()), old(Contents()), State(), Contents(), k) && k < |old(order)| && old(order)[k] == n
    {
      hide Nearly, Sum, Sizes, Freed, EndOf, Gap;
      k := 0;
      if n == 0 { return; }
      OrderFacts(State(), Contents());
      var size := nodes[n].size;
      k := Return(n);
      FreedSum(old(State()), old(Contents()), State(), Contents(), k);
      SumNatural(nodes, order);
      nodeCount := nodeCount - 1;
      deallocationCount := deallocationCount + 1;
      bytesAllocated := bytesAllocated - size;
    }

    method MoveEnd(newSize: nat)
      requires Ok(State(), Contents()) && memorySize <= newSize < NIL
      requires |nodes| >= 2 && nodes[1].prev < |nodes| && nodes[1].prev != 1 && nodes[1].offset == memorySize
      requires Gap(nodes, 1) >= 0 && 1 in order
      modifies `nodes, `binFirst, `masks, `bins, `memorySize
      ensures Ok(State(), Contents()) && memorySize == newSize && |nodes| == |old(nodes)|
      ensures bins == Placing(Leaving(old(bins), 1, old(Gap(nodes, 1))), 1, newSize - old(EndOf(nodes[nodes[1].prev])))
      ensures nodes[1].prev == old(nodes[1].prev) && nodes[1].offset == newSize && nodes[1].size == old(nodes)[1].size
      ensures forall x | 0 <= x < |nodes| && x != 1 :: nodes[x].offset == old(nodes)[x].offset && nodes[x].size == old(nodes)[x].size
    {
      hide Nearly, BinIndex, TargetOf, Placing, Leaving, IsAt, Moves, Target;
      var prev := nodes[1].prev;
      var oldUnused := nodes[1].offset - EndOf(nodes[prev]);
      AtTargets(State(), Contents(), 1, 1);
      Leave(1, oldUnused, {});
      assert {} + {1} == {1};
      ghost var n1, b1 := nodes, bins;
      MovesFacts(old(nodes), old(bins), nodes, bins, {1}, 1);
      Loosen(1, {1});
      MovesJoin(old(nodes), old(bins), n1, b1, nodes, bins, {1}, {1});
      MovesFacts(old(nodes), old(bins), nodes, bins, {1} + {1}, 1);
      ResizeNearly(State(), Contents(), newSize);
      nodes := nodes[1 := nodes[1].(offset := newSize)];
      memorySize := newSize;
      ghost var n2, b2 := nodes, bins;
      Place(1, newSize - EndOf(nodes[prev]), {1});
      MovesFacts(n2, b2, nodes, bins, {1}, 1);
      TargetIs(nodes, 1);
      NearlyOk(State(), Contents(), {1});
    }

    /** Moves the end of the memory up; only the gap of the last node grows. */
    method GrowMemory(newSize: nat)
      requires Valid() && memorySize <= newSize < NIL
      modifies this
      ensures Valid() && memorySize == newSize && firstFree == old(firstFree) && |nodes| == |old(nodes)| && |nodes| >= 2
      ensures Stats() == old(Stats())
      ensures order == old(order) && free == old(free) && nodes[1].prev == old(nodes[1].prev) < |nodes|
      ensures bins == Placing(Leaving(old(bins), 1, old(Gap(nodes, 1))), 1, Gap(nodes, 1))
      ensures Gap(nodes, 1) == old(Gap(nodes, 1)) + newSize - old(memorySize)
      ensures forall x | 0 <= x < |nodes| && x != 1 :: nodes[x].offset == old(nodes)[x].offset && nodes[x].size == old(nodes)[x].size
    {
      hide Nearly, BinIndex, Placing, Leaving, Sum, Sizes;
      LastGap(State(), Contents());
      OrderFacts(State(), Contents());
      MoveEnd(newSize);
      SameSizes(old(nodes), nodes, order);
    }

    /** Adds unused nodes in front of the ones there are. `room` is what the new node memory held before. */
    method GrowNodes(room: seq<Node>)
      requires Valid() && |nodes| <= |room| <= NIL
      modifies this
      ensures Valid() && memorySize == old(memorySize) && |nodes| == |room| && Stats() == old(Stats())
      ensures order == old(order) && bins == old(bins) && free == Range(|old(nodes)|, |room|) + old(free)
      ensures nodes[..|old(nodes)|] == old(nodes) && binFirst == old(binFirst) && masks == old(masks)
    {
      hide Nearly, Sum, Sizes, FreeOk, Range;
      var capacity := |nodes|;
      OkFree(State(), Contents());
      OrderFacts(State(), Contents());
      ghost var before := nodes;
      nodes := nodes + room[capacity..];
      MoreNodesFree(before, nodes, free, firstFree);
      var i := |room|;
      assert Range(i, i) + free == free by { RangeMembers(i, i); }
      while i > capacity
        invariant capacity <= i <= |room| == |nodes| && nodes[..capacity] == before
        invariant free == Range(i, |room|) + old(free) && FreeOk(nodes, free, firstFree)
        invariant forall x | i <= x < |room| :: Loose(nodes[x]) && nodes[x].prev == NIL
        invariant order == old(order) && bins == old(bins) && binFirst == old(binFirst) && masks == old(masks)
        invariant memorySize == old(memorySize) && nodeCount == old(nodeCount) && unchanged(`allocationCount)
        invariant unchanged(`deallocationCount) && unchanged(`bytesAllocated) && unchanged(`maxBytesAllocated) && unchanged(`maxConcurrent)
      {
        i := i - 1;
        PushNew(nodes, free, firstFree, i, |room|, old(free), capacity);
        nodes := nodes[i := FreeNode(firstFree)];
        firstFree := i;
        free := [i] + free;
      }
      MoreNodes(old(State()), old(Contents()), State(), Contents());
      SameSizes(old(nodes), nodes, order);
    }

    /** Makes every node unused. */
    method ThreadAll()
      requires |nodes| <= NIL && firstFree == NIL && free == [] && forall x | 0 <= x < |nodes| :: nodes[x] == FreeNode(NIL)
      modifies `nodes, `firstFree, `free
      ensures |nodes| == |old(nodes)| && free == Range(0, |nodes|) && FreeOk(nodes, free, firstFree)
    {
      hide FreeOk, Range;
      NothingFree(nodes);
      var i := |nodes|;
      assert Range(i, i) + [] == [] by { RangeMembers(i, i); }
      while i > 0
        invariant 0 <= i <= |nodes| == |old(nodes)|
        invariant free == Range(i, |nodes|) + [] && FreeOk(nodes, free, firstFree)
        invariant forall x | 0 <= x < i :: nodes[x] == FreeNode(NIL)
      {
        i := i - 1;
        PushNew(nodes, free, firstFree, i, |nodes|, [], 0);
        nodes := nodes[i := nodes[i].(next := firstFree)];
        firstFree := i;
        free := [i] + free;
      }
    }

    method Start(capacity: nat)
      requires memorySize < NIL && 2 <= capacity <= NIL && |masks| == BINS && forall b | 0 <= b < BINS :: !masks[b]
      modifies `nodes, `binFirst, `masks, `bins, `firstFree, `order, `free
      ensures Ok(State(), Contents()) && |nodes| == capacity && nodes[0].size == nodes[1].size == 0
      ensures order == [0, 1] && free == Range(2, capacity) && bins == Placing(NoBins(), 1, memorySize)
    {
      hide Nearly, FreeOk, Range, BinIndex, TargetOf, Placing, Target, IsAt, Moves, NoBins;
      nodes := seq(capacity, _ => FreeNode(NIL));
      binFirst := seq(BINS, _ => NIL);
      firstFree := NIL;
      free := [];
      ThreadAll();
      FreshLinks(nodes, firstFree);
      var first := firstFree;
      firstFree := nodes[first].next;
      var last := firstFree;
      firstFree := nodes[last].next;
      StartNearly(nodes, binFirst, masks, memorySize);
      nodes := nodes[first := Node(0, 0, 1, NIL, NIL, NIL)];
      nodes := nodes[last := Node(memorySize, 0, NIL, 0, NIL, NIL)];
      order, free, bins := [0, 1], Range(2, capacity), NoBins();
      ghost var n1 := nodes;
      assert 1 in order;
      Place(1, memorySize, {1});
      MovesFacts(n1, NoBins(), nodes, bins, {1}, 1);
      TargetIs(nodes, 1);
      NearlyOk(State(), Contents(), {1});
    }

    /** Starts with one gap over the whole memory. Fails when there is no room for the first and the last node. */
    method Init(newMemorySize: nat, capacity: nat) returns (ok: bool)
      requires newMemorySize < NIL && capacity <= NIL
      modifies this
      ensures ok <==> capacity >= 2
      ensures ok ==> Valid() && memorySize == newMemorySize && |nodes| == capacity && Stats() == (0, 0, 0, 0, 0)
      ensures ok ==> order == [0, 1] && free == Range(2, capacity) && bins == Placing(NoBins(), 1, newMemorySize)
    {
      hide Nearly, Range, BinIndex, Placing, NoBins;
      memorySize, nodeCount := newMemorySize, 0;
      allocationCount, deallocationCount, bytesAllocated, maxBytesAllocated, maxConcurrent := 0, 0, 0, 0, 0;
      lastFailSize, lastFailNeeded, lastFailReason := 0, 0, {};
      masks := seq(BINS, _ => false);
      if capacity < 2 { return false; }
      Start(capacity);
      nodeCount := 2;
      assert Sizes(nodes, order) == [0, 0] && [0, 0][1..] == [0];
      ok := true;
    }

    /** An allocation that is freed at once leaves everything but the statistics as it was. */
    method AllocateAndFree(size: nat, align: nat, alignOffset: nat, base: nat)
      requires Valid() && align > 0
      modifies this
      ensures Valid() && State() == old(State()) && Contents() == old(Contents()) && bytesAllocated == old(bytesAllocated)
    {
      hide Nearly, Sum, Sizes, Allocated, Freed, HasGap, BinIndex, FailedWith;
      var node, offset, k := Allocate(size, align, alignOffset, base);
      ghost var h1, v1 := State(), Contents();
      if node != 0 {
        NewBlock(old(State()), old(Contents()), h1, v1, k, offset, size);
        ghost var j := Deallocate(node);
        SamePlace(h1, v1, j, k);
        FreeUndoesAllocate(old(State()), old(Contents()), h1, v1, State(), Contents(), k, offset, size);
      }
    }

    /** A request that failed for lack of memory succeeds after growing by what the failure asked for. */
    method AllocateGrowing(size: nat, align: nat, alignOffset: nat, base: nat) returns (node: nat, offset: nat)
      requires Valid() && align > 0 && size > 0 && firstFree != NIL && |nodes| > 1 && nodes[1].prev < |nodes|
      modifies this
      ensures Valid()
      ensures node != 0 || old(LastEnd(nodes)) + RoomFor(size + align + alignOffset) >= NIL
    {
      hide Nearly, Sum, Sizes, Allocated, HasGap, BinIndex, SizeFromBin, Placing, Leaving;
      LastGap(State(), Contents());
      ghost var total := size + align + alignOffset;
      ghost var k;
      node, offset, k := Allocate(size, align, alignOffset, base);
      if node == 0 {
        var needed := if lastFailNeeded < MIN_SIZE then MIN_SIZE else lastFailNeeded;
        var newSize := EndOf(nodes[nodes[1].prev]) + needed;
        if newSize < NIL {
          if Gap(nodes, 1) >= needed { GrownGapSuffices(State(), Contents(), total); }
          GrowMemory(newSize);
          GrownGapSuffices(State(), Contents(), total);
          node, offset, k := Allocate(size, align, alignOffset, base);
        }
      }
    }
  }
}
