/**
 The allocator's node array and the three kinds of lists threaded through it by index:
 the memory order, one doubly linked list per bin, and the list of unused nodes.
 Every list is described by the sequence of node indices it visits.
 */
module TlsfLists {
  import opened TlsfBins

  const NIL: nat := 0xFFFF_FFFF

  datatype Node = Node(offset: nat, size: nat, next: nat, prev: nat, nextInBin: nat, prevInBin: nat)

  ghost predicate NoDup(s: seq<nat>) {
    forall i, j :: 0 <= i < j < |s| ==> s[i] != s[j]
  }

  function After(s: seq<nat>, k: nat): nat {
    if k + 1 < |s| then s[k + 1] else NIL
  }

  function Preceding(s: seq<nat>, k: nat): nat {
    if 0 < k <= |s| then s[k - 1] else NIL
  }

  function First(s: seq<nat>): nat {
    if s == [] then NIL else s[0]
  }

  ghost predicate InRange(s: seq<nat>, nodes: seq<Node>) {
    |nodes| <= NIL && forall k :: 0 <= k < |s| ==> s[k] < |nodes|
  }

  // ---- bin lists ----

  ghost predicate Linked(nodes: seq<Node>, s: seq<nat>) {
    && InRange(s, nodes) && NoDup(s)
    && forall k :: 0 <= k < |s| ==> nodes[s[k]].nextInBin == After(s, k) && nodes[s[k]].prevInBin == Preceding(s, k)
  }

  // The two updates below take the place of the source's tests against NIL: an index is either NIL or in range.

  function LinkNodes(nodes: seq<Node>, first: nat, n: nat): (r: seq<Node>)
    requires n < |nodes|
    ensures |r| == |nodes|
  {
    var a := nodes[n := nodes[n].(nextInBin := first, prevInBin := NIL)];
    if first < |nodes| then a[first := a[first].(prevInBin := n)] else a
  }

  function UnlinkNodes(nodes: seq<Node>, n: nat): (r: seq<Node>)
    requires n < |nodes|
    ensures |r| == |nodes|
  {
    var p, q := nodes[n].prevInBin, nodes[n].nextInBin;
    var a := if p < |nodes| then nodes[p := nodes[p].(nextInBin := q)] else nodes;
    if q < |nodes| then a[q := a[q].(prevInBin := p)] else a
  }

  lemma LinkFront(nodes: seq<Node>, s: seq<nat>, n: nat)
    requires Linked(nodes, s) && n < |nodes| && n !in s
    ensures Linked(LinkNodes(nodes, First(s), n), [n] + s)
  {
  }

  lemma LinkElsewhere(nodes: seq<Node>, first: nat, n: nat, s: seq<nat>)
    requires Linked(nodes, s) && n < |nodes| && n !in s && first !in s
    ensures Linked(LinkNodes(nodes, first, n), s)
  {
  }

  /** The list without its `k`-th element. */
  function Without(s: seq<nat>, k: nat): seq<nat>
    requires k < |s|
  {
    s[..k] + s[k + 1..]
  }

  lemma WithoutAt(s: seq<nat>, k: nat)
    requires k < |s| && NoDup(s)
    ensures var w := Without(s, k);
      && |w| == |s| - 1 && NoDup(w) && s[k] !in w
      && (forall j | 0 <= j < k :: w[j] == s[j]) && (forall j | k <= j < |w| :: w[j] == s[j + 1])
  {
  }

  lemma UnlinkNodesAt(nodes: seq<Node>, n: nat, x: nat)
    requires n < |nodes| && x < |nodes| && x != n
    ensures var after := UnlinkNodes(nodes, n);
      && after[x].nextInBin == (if x == nodes[n].prevInBin then nodes[n].nextInBin else nodes[x].nextInBin)
      && after[x].prevInBin == (if x == nodes[n].nextInBin then nodes[n].prevInBin else nodes[x].prevInBin)
  {
  }

  lemma UnlinkAt(nodes: seq<Node>, s: seq<nat>, k: nat, i: nat)
    requires Linked(nodes, s) && k < |s| && i < |s| && i != k
    ensures var after := UnlinkNodes(nodes, s[k]);
      && |after| == |nodes|
      && after[s[i]].nextInBin == (if i + 1 == k then After(s, k) else After(s, i))
      && after[s[i]].prevInBin == (if i == k + 1 then Preceding(s, k) else Preceding(s, i))
  {
    hide UnlinkNodes;
    assert s[i] != s[k];
    assert nodes[s[i]].nextInBin == After(s, i) && nodes[s[i]].prevInBin == Preceding(s, i);
    assert nodes[s[k]].nextInBin == After(s, k) && nodes[s[k]].prevInBin == Preceding(s, k);
    assert k > 0 && i != k - 1 ==> s[i] != s[k - 1];
    assert k + 1 < |s| && i != k + 1 ==> s[i] != s[k + 1];
    UnlinkNodesAt(nodes, s[k], s[i]);
  }

  lemma UnlinkOne(nodes: seq<Node>, s: seq<nat>, k: nat, j: nat)
    requires Linked(nodes, s) && k < |s| && j < |s| - 1
    ensures var w, after := Without(s, k), UnlinkNodes(nodes, s[k]);
      && |after| == |nodes| && |w| == |s| - 1 && w[j] < |after|
      && after[w[j]].nextInBin == After(w, j) && after[w[j]].prevInBin == Preceding(w, j)
  {
    hide UnlinkNodes;
    WithoutAt(s, k);
    var i := if j < k then j else j + 1;
    UnlinkAt(nodes, s, k, i);
    assert Without(s, k)[j] == s[i];
  }

  lemma UnlinkHere(nodes: seq<Node>, s: seq<nat>, k: nat)
    requires Linked(nodes, s) && k < |s|
    ensures Linked(UnlinkNodes(nodes, s[k]), Without(s, k)) && s[k] !in Without(s, k)
  {
    hide Without, UnlinkNodes, After, Preceding;
    WithoutAt(s, k);
    forall j: nat | j < |Without(s, k)|
      ensures var w, after := Without(s, k), UnlinkNodes(nodes, s[k]);
        && |after| == |nodes| && |w| == |s| - 1 && w[j] < |after|
        && after[w[j]].nextInBin == After(w, j) && after[w[j]].prevInBin == Preceding(w, j)
    {
      UnlinkOne(nodes, s, k, j);
    }
  }

  lemma UnlinkElsewhere(nodes: seq<Node>, s: seq<nat>, k: nat, t: seq<nat>)
    requires Linked(nodes, s) && k < |s| && Linked(nodes, t)
    requires forall x :: x in t ==> x !in s
    ensures Linked(UnlinkNodes(nodes, s[k]), t)
  {
    assert k > 0 ==> s[k - 1] !in t;
    assert k + 1 < |s| ==> s[k + 1] !in t;
    var after := UnlinkNodes(nodes, s[k]);
    forall j | 0 <= j < |t| ensures after[t[j]] == nodes[t[j]] { }
  }

  // ---- all bins together ----

  ghost predicate BinOk(nodes: seq<Node>, first: nat, mask: bool, s: seq<nat>) {
    Linked(nodes, s) && first == First(s) && (mask <==> s != [])
  }

  ghost predicate Apart(bins: seq<seq<nat>>) {
    forall b, c, x | 0 <= b < |bins| && 0 <= c < |bins| && x in bins[b] && x in bins[c] :: b == c
  }

  /** Every bin's first node, mask bit and links describe the list `bins[b]`, and no node is in two bins. */
  ghost predicate BinsOk(nodes: seq<Node>, first: seq<nat>, masks: seq<bool>, bins: seq<seq<nat>>) {
    && |first| == |masks| == |bins| == BINS && Apart(bins)
    && forall b | 0 <= b < BINS :: BinOk(nodes, first[b], masks[b], bins[b])
  }

  ghost predicate Unbinned(bins: seq<seq<nat>>, n: nat) {
    forall b | 0 <= b < |bins| :: n !in bins[b]
  }

  /** The bin lists with `n` put at the front of bin `b`. */
  ghost function Put(bins: seq<seq<nat>>, n: nat, b: nat): seq<seq<nat>>
    requires b < |bins|
  {
    bins[b := [n] + bins[b]]
  }

  function IndexOf(s: seq<nat>, x: nat): (k: nat)
    requires x in s
    ensures k < |s| && s[k] == x
  {
    if s[0] == x then 0 else 1 + IndexOf(s[1..], x)
  }

  /** The list without the first occurrence of `x`. */
  function Drop(s: seq<nat>, x: nat): seq<nat> {
    if s == [] then [] else if s[0] == x then s[1..] else [s[0]] + Drop(s[1..], x)
  }

  lemma {:induction false} DropIs(s: seq<nat>, x: nat)
    requires x in s
    ensures Drop(s, x) == Without(s, IndexOf(s, x))
  {
    if s[0] != x {
      var k := IndexOf(s[1..], x);
      DropIs(s[1..], x);
      assert [s[0]] + (s[1..][..k] + s[1..][k + 1..]) == s[..k + 1] + s[k + 2..];
    }
  }

  lemma {:induction false} DropsCommute(s: seq<nat>, x: nat, y: nat)
    ensures Drop(Drop(s, x), y) == Drop(Drop(s, y), x)
  {
    if s != [] { DropsCommute(s[1..], x, y); }
  }

  /** The bin lists with `n` removed from bin `b`. */
  ghost function Take(bins: seq<seq<nat>>, n: nat, b: nat): seq<seq<nat>>
    requires b < |bins|
  {
    bins[b := Drop(bins[b], n)]
  }

  lemma PutMembers(bins: seq<seq<nat>>, n: nat, b: nat)
    requires b < |bins|
    ensures forall c, x | 0 <= c < |bins| :: x in Put(bins, n, b)[c] <==> x in bins[c] || (x == n && c == b)
    ensures Apart(bins) && Unbinned(bins, n) ==> Apart(Put(bins, n, b))
  {
  }

  lemma WithoutMembers(s: seq<nat>, k: nat)
    requires k < |s| && NoDup(s)
    ensures forall x :: x in Without(s, k) <==> x in s && x != s[k]
  {
    WithoutAt(s, k);
    forall x | x in s && x != s[k] ensures x in Without(s, k) {
      var i :| 0 <= i < |s| && s[i] == x;
      assert Without(s, k)[if i < k then i else i - 1] == x;
    }
  }

  lemma TakeMembers(bins: seq<seq<nat>>, n: nat, b: nat)
    requires b < |bins| && n in bins[b] && NoDup(bins[b]) && Apart(bins)
    ensures forall c, x | 0 <= c < |bins| :: x in Take(bins, n, b)[c] <==> x in bins[c] && x != n
    ensures Apart(Take(bins, n, b)) && Unbinned(Take(bins, n, b), n)
  {
    WithoutMembers(bins[b], IndexOf(bins[b], n));
    DropIs(bins[b], n);
  }

  /** Linking a node into a bin keeps all lists, heads and masks in agreement. */
  lemma LinkBins(nodes: seq<Node>, first: seq<nat>, masks: seq<bool>, bins: seq<seq<nat>>, n: nat, b: nat)
    requires BinsOk(nodes, first, masks, bins) && n < |nodes| && b < BINS && Unbinned(bins, n)
    ensures BinsOk(LinkNodes(nodes, first[b], n), first[b := n], masks[b := true], Put(bins, n, b))
    ensures forall x | 0 <= x < |nodes| && x != n && x !in bins[b] :: LinkNodes(nodes, first[b], n)[x] == nodes[x]
  {
    PutMembers(bins, n, b);
    LinkFront(nodes, bins[b], n);
    forall c | 0 <= c < BINS && c != b ensures Linked(LinkNodes(nodes, first[b], n), bins[c]) {
      assert BinOk(nodes, first[c], masks[c], bins[c]) && BinOk(nodes, first[b], masks[b], bins[b]);
      LinkElsewhere(nodes, first[b], n, bins[c]);
    }
  }

  function HeadWithout(nodes: seq<Node>, first: nat, n: nat): nat
    requires n < |nodes|
  {
    if nodes[n].prevInBin == NIL then nodes[n].nextInBin else first
  }

  function MaskWithout(nodes: seq<Node>, mask: bool, n: nat): bool
    requires n < |nodes|
  {
    mask && !(nodes[n].prevInBin == NIL && nodes[n].nextInBin == NIL)
  }

  lemma UnlinkBin(nodes: seq<Node>, first: nat, mask: bool, s: seq<nat>, k: nat)
    requires BinOk(nodes, first, mask, s) && k < |s|
    ensures var n := s[k];
      && BinOk(UnlinkNodes(nodes, n), HeadWithout(nodes, first, n), MaskWithout(nodes, mask, n), Without(s, k))
      && (nodes[n].prevInBin == NIL <==> first == n)
      && (nodes[n].prevInBin == NIL || nodes[n].prevInBin in s)
      && (nodes[n].nextInBin == NIL || nodes[n].nextInBin in s)
  {
    hide UnlinkNodes;
    UnlinkHere(nodes, s, k);
    assert nodes[s[k]].nextInBin == After(s, k) && nodes[s[k]].prevInBin == Preceding(s, k);
  }

  /** Unlinking a node from its bin keeps all lists, heads and masks in agreement. */
  lemma UnlinkBins(nodes: seq<Node>, first: seq<nat>, masks: seq<bool>, bins: seq<seq<nat>>, n: nat, b: nat)
    requires BinsOk(nodes, first, masks, bins) && b < BINS && n in bins[b]
    ensures n < |nodes| && (nodes[n].prevInBin == NIL <==> first[b] == n)
    ensures nodes[n].prevInBin == NIL || nodes[n].prevInBin < |nodes|
    ensures nodes[n].nextInBin == NIL || nodes[n].nextInBin < |nodes|
    ensures BinsOk(UnlinkNodes(nodes, n), first[b := HeadWithout(nodes, first[b], n)],
                   masks[b := MaskWithout(nodes, masks[b], n)], Take(bins, n, b))
  {
    hide UnlinkNodes, Linked, HeadWithout, MaskWithout, First, Without, IndexOf;
    assert BinOk(nodes, first[b], masks[b], bins[b]);
    var k := IndexOf(bins[b], n);
    BinInRange(nodes, bins[b]);
    TakeMembers(bins, n, b);
    DropIs(bins[b], n);
    UnlinkBin(nodes, first[b], masks[b], bins[b], k);
    forall c | 0 <= c < BINS && c != b ensures Linked(UnlinkNodes(nodes, n), bins[c]) {
      assert BinOk(nodes, first[c], masks[c], bins[c]);
      UnlinkElsewhere(nodes, bins[b], k, bins[c]);
    }
  }

  lemma BinInRange(nodes: seq<Node>, s: seq<nat>)
    requires Linked(nodes, s)
    ensures NoDup(s) && forall x | x in s :: x < |nodes|
  {
  }

  lemma UnlinkKeeps(nodes: seq<Node>, s: seq<nat>, n: nat, x: nat)
    requires Linked(nodes, s) && n in s && x < |nodes| && x !in s
    ensures UnlinkNodes(nodes, n)[x] == nodes[x]
  {
    var k := IndexOf(s, n);
    assert nodes[s[k]].nextInBin == After(s, k) && nodes[s[k]].prevInBin == Preceding(s, k);
  }
}
