/**
 The whole heap: memory order, bins and unused nodes, what ties them together, and what
 inserting and removing a block does to each.
 */
module TlsfHeap {
  import opened TlsfBins
  import opened TlsfLists

  // ---- the memory order ----

  function EndOf(node: Node): nat {
    node.offset + node.size
  }

  ghost predicate Chained(nodes: seq<Node>, order: seq<nat>) {
    && InRange(order, nodes) && NoDup(order)
    && forall k :: 0 <= k < |order| ==> nodes[order[k]].next == After(order, k) && nodes[order[k]].prev == Preceding(order, k)
  }

  ghost predicate Spaced(nodes: seq<Node>, order: seq<nat>)
    requires InRange(order, nodes)
  {
    && (forall k :: 0 < k < |order| ==> EndOf(nodes[order[k - 1]]) <= nodes[order[k]].offset)
    && (forall k :: 0 < k < |order| - 1 ==> nodes[order[k]].size > 0)
  }

  /** The used nodes from the empty first node to the empty last node, which sits at the end of the memory. */
  ghost predicate OrderOk(nodes: seq<Node>, order: seq<nat>, memorySize: nat) {
    && Chained(nodes, order) && Spaced(nodes, order)
    && |order| >= 2 && order[0] == 0 && order[|order| - 1] == 1
    && nodes[0].offset == nodes[0].size == 0
    && nodes[1].offset == memorySize < NIL && nodes[1].size == 0
  }

  function Inserted(s: seq<nat>, k: nat, n: nat): seq<nat>
    requires k <= |s|
  {
    s[..k] + [n] + s[k..]
  }

  function InsertNodes(nodes: seq<Node>, prev: nat, next: nat, n: nat, offset: nat, size: nat): (r: seq<Node>)
    requires n < |nodes| && prev < |nodes| && next < |nodes|
    ensures |r| == |nodes|
  {
    var a := nodes[n := Node(offset, size, next, prev, NIL, NIL)];
    var b := a[next := a[next].(prev := n)];
    b[prev := b[prev].(next := n)]
  }

  lemma InsertedAt(s: seq<nat>, k: nat, n: nat)
    requires k <= |s| && NoDup(s) && n !in s
    ensures var t := Inserted(s, k, n);
      && |t| == |s| + 1 && NoDup(t) && (forall x :: x in t <==> x in s || x == n)
      && (forall j | 0 <= j < k :: t[j] == s[j]) && t[k] == n && (forall j | k < j < |t| :: t[j] == s[j - 1])
  {
    var t := Inserted(s, k, n);
    forall x | x in s ensures x in t {
      var j :| 0 <= j < |s| && s[j] == x;
      assert t[if j < k then j else j + 1] == x;
    }
  }

  /** Inserting changes nothing but the new node and the two links to it. */
  lemma InsertNodesAt(nodes: seq<Node>, prev: nat, next: nat, n: nat, offset: nat, size: nat, x: nat)
    requires n < |nodes| && prev < |nodes| && next < |nodes| && prev != next && n != prev && n != next && x < |nodes|
    ensures var after := InsertNodes(nodes, prev, next, n, offset, size);
      after[x] == if x == n then Node(offset, size, next, prev, NIL, NIL)
                  else if x == next then nodes[x].(prev := n)
                  else if x == prev then nodes[x].(next := n) else nodes[x]
  {
  }

  lemma InsertAt(nodes: seq<Node>, order: seq<nat>, k: nat, n: nat, offset: nat, size: nat, i: nat)
    requires Chained(nodes, order) && 0 < k < |order| && n < |nodes| && n !in order && i < |order|
    ensures var after := InsertNodes(nodes, order[k - 1], order[k], n, offset, size);
      && after[n] == Node(offset, size, order[k], order[k - 1], NIL, NIL)
      && after[order[i]].next == (if i == k - 1 then n else After(order, i))
      && after[order[i]].prev == (if i == k then n else Preceding(order, i))
      && after[order[i]].offset == nodes[order[i]].offset && after[order[i]].size == nodes[order[i]].size
  {
    hide InsertNodes;
    assert order[k - 1] != order[k] && order[i] != n && order[k - 1] != n && order[k] != n;
    assert nodes[order[i]].next == After(order, i) && nodes[order[i]].prev == Preceding(order, i);
    assert i != k ==> order[i] != order[k];
    assert i != k - 1 ==> order[i] != order[k - 1];
    InsertNodesAt(nodes, order[k - 1], order[k], n, offset, size, order[i]);
    InsertNodesAt(nodes, order[k - 1], order[k], n, offset, size, n);
  }

  lemma InsertedNeighbours(s: seq<nat>, k: nat, n: nat, j: nat)
    requires 0 < k < |s| && j <= |s| && NoDup(s) && n !in s
    ensures var t := Inserted(s, k, n);
      && |t| == |s| + 1
      && t[j] == (if j == k then n else if j < k then s[j] else s[j - 1])
      && After(t, j) == (if j == k - 1 then n else if j == k then s[k] else After(s, if j < k then j else j - 1))
      && Preceding(t, j) == (if j == k + 1 then n else if j == k then s[k - 1] else Preceding(s, if j < k then j else j - 1))
  {
  }

  lemma InsertOne(nodes: seq<Node>, order: seq<nat>, k: nat, n: nat, offset: nat, size: nat, j: nat)
    requires Chained(nodes, order) && 0 < k < |order| && n < |nodes| && n !in order && j <= |order|
    ensures var t, after := Inserted(order, k, n), InsertNodes(nodes, order[k - 1], order[k], n, offset, size);
      && |t| == |order| + 1 && t[j] < |nodes| && after[t[j]].next == After(t, j) && after[t[j]].prev == Preceding(t, j)
      && after[t[j]].offset == (if j == k then offset else nodes[t[j]].offset)
      && after[t[j]].size == (if j == k then size else nodes[t[j]].size)
  {
    hide InsertNodes, NoDup, Inserted, After, Preceding;
    InsertedNeighbours(order, k, n, j);
    InsertAt(nodes, order, k, n, offset, size, if j < k then j else if j == k then k else j - 1);
  }

  lemma InsertChained(nodes: seq<Node>, order: seq<nat>, k: nat, n: nat, offset: nat, size: nat)
    requires Chained(nodes, order) && 0 < k < |order| && n < |nodes| && n !in order
    ensures Chained(InsertNodes(nodes, order[k - 1], order[k], n, offset, size), Inserted(order, k, n))
  {
    hide Inserted, After, Preceding, InsertNodes;
    InsertedAt(order, k, n);
    var t, after := Inserted(order, k, n), InsertNodes(nodes, order[k - 1], order[k], n, offset, size);
    forall j: nat | j < |t| ensures t[j] < |nodes| && after[t[j]].next == After(t, j) && after[t[j]].prev == Preceding(t, j) {
      InsertOne(nodes, order, k, n, offset, size, j);
    }
  }

  /** A block placed in the gap between two neighbours keeps the order sorted and free of overlaps. */
  lemma InsertOrder(nodes: seq<Node>, order: seq<nat>, memorySize: nat, k: nat, n: nat, offset: nat, size: nat)
    requires OrderOk(nodes, order, memorySize) && 0 < k < |order| && n < |nodes| && n !in order && size > 0
    requires EndOf(nodes[order[k - 1]]) <= offset && offset + size <= nodes[order[k]].offset
    ensures OrderOk(InsertNodes(nodes, order[k - 1], order[k], n, offset, size), Inserted(order, k, n), memorySize)
  {
    hide Inserted, After, Preceding, InsertNodes, Chained;
    InsertChained(nodes, order, k, n, offset, size);
    ChainedFacts(nodes, order);
    var t, after := Inserted(order, k, n), InsertNodes(nodes, order[k - 1], order[k], n, offset, size);
    InsertedAt(order, k, n);
    ChainedFacts(after, t);
    forall j: nat | j < |t|
      ensures after[t[j]].offset == (if j == k then offset else nodes[t[j]].offset)
      ensures after[t[j]].size == (if j == k then size else nodes[t[j]].size)
    {
      InsertOne(nodes, order, k, n, offset, size, j);
    }
    forall j | 0 < j < |t| ensures EndOf(after[t[j - 1]]) <= after[t[j]].offset {
      var i := if j <= k then j else j - 1;
      assert EndOf(nodes[order[i - 1]]) <= nodes[order[i]].offset;
    }
    forall j | 0 < j < |t| - 1 ensures after[t[j]].size > 0 {
      assert j != k ==> t[j] == order[if j < k then j else j - 1];
    }
    assert t[0] == order[0] && t[|t| - 1] == order[|order| - 1];
  }

  lemma ChainedFacts(nodes: seq<Node>, order: seq<nat>)
    requires Chained(nodes, order)
    ensures InRange(order, nodes) && NoDup(order)
  {
  }

  // ---- removing a block ----

  function FreeNode(next: nat): Node {
    Node(NIL, NIL, next, NIL, NIL, NIL)
  }

  /** The node array after `n` left the order and became the first unused node. */
  function RemoveNodes(nodes: seq<Node>, prev: nat, next: nat, n: nat, firstFree: nat): (r: seq<Node>)
    requires n < |nodes| && prev < |nodes| && next < |nodes|
    ensures |r| == |nodes|
  {
    var a := nodes[next := nodes[next].(prev := prev)];
    var b := a[prev := a[prev].(next := next)];
    b[n := FreeNode(firstFree)]
  }

  lemma RemoveNodesAt(nodes: seq<Node>, prev: nat, next: nat, n: nat, firstFree: nat, x: nat)
    requires n < |nodes| && prev < |nodes| && next < |nodes| && prev != next && n != prev && n != next && x < |nodes|
    ensures RemoveNodes(nodes, prev, next, n, firstFree)[x] ==
      if x == n then FreeNode(firstFree)
      else if x == next then nodes[x].(prev := prev)
      else if x == prev then nodes[x].(next := next) else nodes[x]
  {
  }

  lemma InnerLinks(nodes: seq<Node>, order: seq<nat>, k: nat)
    requires Chained(nodes, order) && 0 < k < |order| - 1
    ensures var n := order[k];
      && n < |nodes| && nodes[n].prev == order[k - 1] < |nodes| && nodes[n].next == order[k + 1] < |nodes|
      && order[k - 1] != order[k + 1] && n != order[k - 1] && n != order[k + 1]
  {
    assert nodes[order[k]].next == After(order, k) && nodes[order[k]].prev == Preceding(order, k);
  }

  lemma WithoutNeighbours(s: seq<nat>, k: nat, j: nat)
    requires 0 < k < |s| - 1 && j < |s| - 1
    ensures var w := Without(s, k); var i := if j < k then j else j + 1;
      && |w| == |s| - 1 && w[j] == s[i]
      && After(w, j) == (if i == k - 1 then s[k + 1] else After(s, i))
      && Preceding(w, j) == (if i == k + 1 then s[k - 1] else Preceding(s, i))
  {
  }

  lemma RemoveOne(nodes: seq<Node>, order: seq<nat>, k: nat, firstFree: nat, j: nat)
    requires Chained(nodes, order) && 0 < k < |order| - 1 && j < |order| - 1
    ensures
      var w, after := Without(order, k), RemoveNodes(nodes, order[k - 1], order[k + 1], order[k], firstFree);
      && |w| == |order| - 1 && w[j] < |nodes| && after[w[j]].next == After(w, j) && after[w[j]].prev == Preceding(w, j)
      && after[w[j]].offset == nodes[w[j]].offset && after[w[j]].size == nodes[w[j]].size
  {
    hide RemoveNodes, Without, After, Preceding;
    InnerLinks(nodes, order, k);
    WithoutNeighbours(order, k, j);
    var i := if j < k then j else j + 1;
    assert nodes[order[i]].next == After(order, i) && nodes[order[i]].prev == Preceding(order, i);
    assert order[i] != order[k] && (i != k - 1 ==> order[i] != order[k - 1]) && (i != k + 1 ==> order[i] != order[k + 1]);
    RemoveNodesAt(nodes, order[k - 1], order[k + 1], order[k], firstFree, order[i]);
  }

  lemma RemoveChained(nodes: seq<Node>, order: seq<nat>, k: nat, firstFree: nat)
    requires Chained(nodes, order) && 0 < k < |order| - 1
    ensures Chained(RemoveNodes(nodes, order[k - 1], order[k + 1], order[k], firstFree), Without(order, k))
  {
    hide RemoveNodes, Without, After, Preceding;
    InnerLinks(nodes, order, k);
    WithoutAt(order, k);
    var w, after := Without(order, k), RemoveNodes(nodes, order[k - 1], order[k + 1], order[k], firstFree);
    forall j: nat | j < |w| ensures w[j] < |nodes| && after[w[j]].next == After(w, j) && after[w[j]].prev == Preceding(w, j) {
      RemoveOne(nodes, order, k, firstFree, j);
    }
  }

  /** Removing a block keeps the order sorted and free of overlaps. */
  lemma RemoveOrder(nodes: seq<Node>, order: seq<nat>, memorySize: nat, k: nat, firstFree: nat)
    requires OrderOk(nodes, order, memorySize) && 0 < k < |order| - 1
    ensures OrderOk(RemoveNodes(nodes, order[k - 1], order[k + 1], order[k], firstFree), Without(order, k), memorySize)
  {
    hide RemoveNodes, Without, After, Preceding, Chained;
    InnerLinks(nodes, order, k);
    ChainedFacts(nodes, order);
    RemoveChained(nodes, order, k, firstFree);
    WithoutAt(order, k);
    var w, after := Without(order, k), RemoveNodes(nodes, order[k - 1], order[k + 1], order[k], firstFree);
    ChainedFacts(after, w);
    forall j: nat | j < |w|
      ensures after[w[j]].offset == nodes[w[j]].offset && after[w[j]].size == nodes[w[j]].size
    {
      RemoveOne(nodes, order, k, firstFree, j);
    }
    forall j | 0 < j < |w| ensures EndOf(after[w[j - 1]]) <= after[w[j]].offset {
      assert EndOf(nodes[order[k - 1]]) <= nodes[order[k]].offset && EndOf(nodes[order[k]]) <= nodes[order[k + 1]].offset;
      var i := if j < k then j else j + 1;
      assert EndOf(nodes[order[i - 1]]) <= nodes[order[i]].offset;
      assert w[j] == order[i] && w[j - 1] == order[if j <= k then j - 1 else j];
    }
    forall j | 0 < j < |w| - 1 ensures after[w[j]].size > 0 {
      assert w[j] == order[if j < k then j else j + 1];
    }
    assert w[0] == order[0] && w[|w| - 1] == order[|order| - 1];
  }
}
