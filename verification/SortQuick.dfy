/**
 Quick sort with an explicit stack of postponed regions, falling back on insertion sort and heap sort.
 */
module SortQuick {
  import opened Arith
  import opened SortOrder
  import opened SortInsertion
  import opened SortHeap

  // ---- partitioning ----

  /** Everything before `i` is at most the pivot, everything after `k` at least; the rest is not looked at yet. */
  ghost predicate Parting(less: Less, first: seq<Item>, s: seq<Item>, lo: nat, hi: nat, i: int, k: int, pivot: Item) {
    && lo <= hi < |s| && lo <= i <= hi + 1 && lo - 1 <= k <= hi && Rearranged(first, s, lo, hi + 1)
    && (forall x | lo <= x < i :: Le(less, s[x], pivot)) && (forall x | k < x <= hi :: Le(less, pivot, s[x]))
  }

  lemma PartingSwap(less: Less, first: seq<Item>, s: seq<Item>, lo: nat, hi: nat, i: nat, k: nat, pivot: Item)
    requires Parting(less, first, s, lo, hi, i, k, pivot) && i <= k
    requires Le(less, pivot, s[i]) && Le(less, s[k], pivot)
    ensures Parting(less, first, Swapped(s, i, k), lo, hi, i + 1, k - 1, pivot)
  {
    hide Rearranged;
    SwapRearranges(s, i, k, lo, hi + 1);
    RearrangedTrans(first, s, Swapped(s, i, k), lo, hi + 1);
  }

  lemma PartingUp(less: Less, first: seq<Item>, s: seq<Item>, lo: nat, hi: nat, i: nat, k: int, pivot: Item)
    requires StrictWeak(less) && Parting(less, first, s, lo, hi, i, k, pivot) && i <= hi && less(s[i], pivot)
    ensures Parting(less, first, s, lo, hi, i + 1, k, pivot)
  {
    hide StrictWeak, Rearranged;
    LessLe(less, s[i], pivot);
  }

  lemma PartingDown(less: Less, first: seq<Item>, s: seq<Item>, lo: nat, hi: nat, i: int, k: nat, pivot: Item)
    requires StrictWeak(less) && Parting(less, first, s, lo, hi, i, k, pivot) && lo <= k && less(pivot, s[k])
    ensures Parting(less, first, s, lo, hi, i, k - 1, pivot)
  {
    hide StrictWeak, Rearranged;
    LessLe(less, pivot, s[k]);
  }

  /** Neither scan can leave the region: the item it must stop at is the last one swapped or an end of the region. */
  ghost predicate Guarded(less: Less, s: seq<Item>, lo: nat, hi: nat, i: int, k: int, pivot: Item)
    requires lo <= hi < |s|
  {
    (k == hi ==> Le(less, pivot, s[hi])) && (i == lo ==> Le(less, s[lo], pivot))
  }

  method ScanUp(a: array<Item>, lo: nat, hi: nat, i0: nat, k: int, pivot: Item, less: Less, ghost first: seq<Item>) returns (i: nat)
    requires StrictWeak(less) && Parting(less, first, a[..], lo, hi, i0, k, pivot) && i0 <= k && Guarded(less, a[..], lo, hi, i0, k, pivot)
    ensures i0 <= i <= hi && i <= k + 1 && Le(less, pivot, a[i]) && Parting(less, first, a[..], lo, hi, i, k, pivot)
    ensures forall x | i0 <= x < i :: less(a[x], pivot)
  {
    hide StrictWeak, Rearranged;
    i := i0;
    while less(a[i], pivot)
      invariant i0 <= i <= hi && i <= k + 1 && Parting(less, first, a[..], lo, hi, i, k, pivot)
      invariant forall x | i0 <= x < i :: less(a[x], pivot)
      decreases hi - i
    {
      PartingUp(less, first, a[..], lo, hi, i, k, pivot);
      i := i + 1;
    }
  }

  method ScanDown(a: array<Item>, lo: nat, hi: nat, i: nat, k0: nat, pivot: Item, less: Less, ghost first: seq<Item>) returns (k: nat)
    requires StrictWeak(less) && Parting(less, first, a[..], lo, hi, i, k0, pivot) && lo <= k0 && i <= k0 + 1
    requires i == lo ==> Le(less, a[lo], pivot)
    ensures lo <= k <= k0 && i <= k + 1 && Le(less, a[k], pivot) && Parting(less, first, a[..], lo, hi, i, k, pivot)
    ensures forall x | k < x <= k0 :: less(pivot, a[x])
  {
    hide StrictWeak, Rearranged;
    k := k0;
    while less(pivot, a[k])
      invariant lo <= k <= k0 && i <= k + 1 && Parting(less, first, a[..], lo, hi, i, k, pivot)
      invariant forall x | k < x <= k0 :: less(pivot, a[x])
      decreases k
    {
      PartingDown(less, first, a[..], lo, hi, i, k, pivot);
      k := k - 1;
    }
  }

  method SwapIfLess(a: array<Item>, x: nat, y: nat, lo: nat, hi: nat, less: Less, ghost first: seq<Item>)
    requires lo <= y < x <= hi < a.Length && Rearranged(first, a[..], lo, hi + 1)
    modifies a
    ensures Rearranged(first, a[..], lo, hi + 1)
    ensures old(less(a[x], a[y])) ==> a[..] == Swapped(old(a[..]), x, y)
    ensures !old(less(a[x], a[y])) ==> a[..] == old(a[..])
  {
    hide Rearranged;
    if less(a[x], a[y]) {
      ghost var s := a[..];
      SwapRearranges(s, x, y, lo, hi + 1);
      a[x], a[y] := a[y], a[x];
      assert a[..] == Swapped(s, x, y);
      RearrangedTrans(first, s, a[..], lo, hi + 1);
    }
  }

  /** Three conditional swaps put the middle one of three items in the middle. */
  method MedianOfThree(a: array<Item>, lo: nat, j: nat, hi: nat, less: Less)
    requires StrictWeak(less) && lo < j < hi < a.Length
    modifies a
    ensures Rearranged(old(a[..]), a[..], lo, hi + 1) && Le(less, a[lo], a[j]) && Le(less, a[j], a[hi])
  {
    hide Rearranged, StrictWeak;
    ghost var first := a[..];
    RearrangedRefl(first, lo, hi + 1);
    SwapIfLess(a, hi, lo, lo, hi, less, first);
    SwapIfLess(a, j, lo, lo, hi, less, first);
    SwapIfLess(a, hi, j, lo, hi, less, first);
    ThreeInOrder(less, first[lo], first[j], first[hi]);
  }

  lemma ThreeInOrder(less: Less, x: Item, y: Item, z: Item)
    requires StrictWeak(less)
    ensures var (x1, z1) := if less(z, x) then (z, x) else (x, z);
      var (x2, y2) := if less(y, x1) then (y, x1) else (x1, y);
      var (y3, z3) := if less(z1, y2) then (z1, y2) else (y2, z1);
      Le(less, x2, y3) && Le(less, y3, z3)
  {
  }

  /** Splits a region at a pivot into a part at most and a part at least the pivot, both smaller than the region. */
  method Partition(a: array<Item>, lo: nat, hi: nat, less: Less) returns (i: nat, k: int, ghost pivot: Item)
    requires StrictWeak(less) && lo + 2 <= hi < a.Length
    modifies a
    ensures lo < i && k < hi && k < i && Parting(less, old(a[..]), a[..], lo, hi, i, k, pivot)
  {
    hide Rearranged, StrictWeak;
    ghost var first := a[..];
    var j := lo + (hi - lo) / 2;
    MedianOfThree(a, lo, j, hi, less);
    var p := a[j];
    pivot := p;
    NotLessItself(less, p);
    i, k := lo, hi;
    while i <= k
      invariant Parting(less, first, a[..], lo, hi, i, k, p) && (i <= k ==> Guarded(less, a[..], lo, hi, i, k, p))
      invariant (i == lo && k == hi && a[j] == p) || (lo < i && k < hi)
      decreases k - i + 2
    {
      ghost var i0, k0 := i, k;
      i := ScanUp(a, lo, hi, i, k, p, less, first);
      k := ScanDown(a, lo, hi, i, k, p, less, first);
      if i <= k {
        ghost var s := a[..];
        PartingSwap(less, first, s, lo, hi, i, k, p);
        a[i], a[k] := a[k], a[i];
        assert a[..] == Swapped(s, i, k);
        i := i + 1;
        k := k - 1;
      }
    }
  }

  lemma NotLessItself(less: Less, x: Item)
    requires StrictWeak(less)
    ensures !less(x, x)
  {
  }

  // ---- postponed regions ----

  /** The items from `lo` to `hi`, both included; empty when `hi == lo - 1`. */
  datatype Region = Region(lo: int, hi: int)

  ghost predicate Within(r: Region, n: nat) {
    0 <= r.lo <= r.hi + 1 <= n
  }

  ghost predicate Separate(r: Region, q: Region) {
    r.hi < q.lo || q.hi < r.lo
  }

  ghost predicate Laid(regions: seq<Region>, n: nat) {
    && (forall e | 0 <= e < |regions| :: Within(regions[e], n))
    && (forall e, f | 0 <= e < f < |regions| :: Separate(regions[e], regions[f]))
  }

  ghost predicate Has(r: Region, x: int) {
    r.lo <= x <= r.hi
  }

  ghost predicate Together(regions: seq<Region>, x: int, y: int) {
    exists e :: 0 <= e < |regions| && Has(regions[e], x) && Has(regions[e], y)
  }

  /** Items that no postponed region holds together are in order. */
  ghost predicate Ordered(less: Less, s: seq<Item>, regions: seq<Region>) {
    forall x, y | 0 <= x < y < |s| :: Le(less, s[x], s[y]) || Together(regions, x, y)
  }

  ghost predicate Pending(less: Less, first: seq<Item>, s: seq<Item>, regions: seq<Region>) {
    Laid(regions, |s|) && Ordered(less, s, regions) && Rearranged(first, s, 0, |first|)
  }

  lemma LastRegion(regions: seq<Region>, r: Region, n: nat, e: nat, x: int)
    requires Laid(regions + [r], n) && e < |regions| && Has(regions[e], x)
    ensures !Has(r, x)
  {
    assert (regions + [r])[e] == regions[e] && (regions + [r])[|regions|] == r;
    assert Separate(regions[e], r);
  }

  /** Rearranging the last region keeps everything outside it in order with everything inside. */
  lemma PendingRearranged(less: Less, first: seq<Item>, s: seq<Item>, t: seq<Item>, regions: seq<Region>, r: Region)
    requires Pending(less, first, s, regions + [r]) && Within(r, |s|) && Rearranged(s, t, r.lo, r.hi + 1)
    ensures Pending(less, first, t, regions + [r])
  {
    hide Rearranged, Le, Together, Laid;
    SameLength(s, t, r.lo, r.hi + 1);
    SameLength(first, s, 0, |first|);
    RearrangedWider(s, t, r.lo, r.hi + 1, 0, |first|);
    RearrangedTrans(first, s, t, 0, |first|);
    forall x: nat, y: nat | x < y < |t| ensures Le(less, t[x], t[y]) || Together(regions + [r], x, y) {
      OrderedAfter(less, s, t, regions, r, x, y);
    }
  }

  lemma OrderedAfter(less: Less, s: seq<Item>, t: seq<Item>, regions: seq<Region>, r: Region, x: nat, y: nat)
    requires Laid(regions + [r], |s|) && Ordered(less, s, regions + [r]) && Within(r, |s|) && Rearranged(s, t, r.lo, r.hi + 1)
    requires x < y < |s| == |t|
    ensures Le(less, t[x], t[y]) || Together(regions + [r], x, y)
  {
    hide Rearranged, Le, Laid, Together;
    if Has(r, x) && Has(r, y) {
      LastTogether(regions, r, x, y);
    } else {
      var u: nat, w: nat := x, y;
      if Has(r, x) { u := RearrangedFrom(s, t, r.lo, r.hi + 1, x); } else { RearrangedOutside(s, t, r.lo, r.hi + 1, x); }
      if Has(r, y) { w := RearrangedFrom(s, t, r.lo, r.hi + 1, y); } else { RearrangedOutside(s, t, r.lo, r.hi + 1, y); }
      assert u < w && t[x] == s[u] && t[y] == s[w];
      if Together(regions + [r], u, w) { TogetherElsewhere(regions, r, |s|, u, w, x, y); }
    }
  }

  lemma LastTogether(regions: seq<Region>, r: Region, x: int, y: int)
    requires Has(r, x) && Has(r, y)
    ensures Together(regions + [r], x, y)
  {
    assert (regions + [r])[|regions|] == r;
  }

  lemma TogetherElsewhere(regions: seq<Region>, r: Region, n: nat, u: int, w: int, x: int, y: int)
    requires Laid(regions + [r], n) && Together(regions + [r], u, w) && (Has(r, u) <==> Has(r, x)) && (Has(r, w) <==> Has(r, y))
    requires !(Has(r, x) && Has(r, y)) && (!Has(r, x) ==> u == x) && (!Has(r, y) ==> w == y)
    ensures Together(regions + [r], x, y)
  {
    var e :| 0 <= e < |regions + [r]| && Has((regions + [r])[e], u) && Has((regions + [r])[e], w);
    if e < |regions| {
      LastRegion(regions, r, n, e, u);
      LastRegion(regions, r, n, e, w);
    }
  }

  /** A sorted last region is done. */
  lemma PendingSorted(less: Less, first: seq<Item>, s: seq<Item>, regions: seq<Region>, r: Region)
    requires Pending(less, first, s, regions + [r]) && Within(r, |s|) && Sorted(less, s, r.lo, r.hi + 1)
    ensures Pending(less, first, s, regions)
  {
    hide Rearranged, Le;
    forall e | 0 <= e < |regions| ensures Within(regions[e], |s|) { assert (regions + [r])[e] == regions[e]; }
    forall e, f | 0 <= e < f < |regions| ensures Separate(regions[e], regions[f]) {
      assert (regions + [r])[e] == regions[e] && (regions + [r])[f] == regions[f];
    }
    forall x, y | 0 <= x < y < |s| ensures Le(less, s[x], s[y]) || Together(regions, x, y) {
      if Together(regions + [r], x, y) {
        var e :| 0 <= e < |regions + [r]| && Has((regions + [r])[e], x) && Has((regions + [r])[e], y);
        if e < |regions| { assert Has(regions[e], x) && Has(regions[e], y); }
      }
    }
  }

  lemma NothingPending(less: Less, first: seq<Item>, s: seq<Item>)
    requires Pending(less, first, s, [])
    ensures |s| == |first| && Sorted(less, s, 0, |s|) && Rearranged(first, s, 0, |s|)
  {
  }

  /** A partition replaces the last region by its two parts, in either order. */
  lemma PendingSplit(less: Less, first: seq<Item>, s: seq<Item>, regions: seq<Region>, r: Region, p: Region, q: Region)
    requires Pending(less, first, s, regions + [r]) && Within(r, |s|)
    requires Within(p, |s|) && Within(q, |s|) && Separate(p, q) && r.lo <= p.lo && p.hi <= r.hi && r.lo <= q.lo && q.hi <= r.hi
    requires forall x, y | 0 <= x < y < |s| && Has(r, x) && Has(r, y) :: Le(less, s[x], s[y]) || (Has(p, x) && Has(p, y)) || (Has(q, x) && Has(q, y))
    ensures Pending(less, first, s, regions + [p] + [q])
  {
    hide Rearranged, Le, Laid, Together;
    LaidSplit(regions, r, p, q, |s|);
    forall x, y | 0 <= x < y < |s| ensures Le(less, s[x], s[y]) || Together(regions + [p] + [q], x, y) {
      if Together(regions + [r], x, y) && !Le(less, s[x], s[y]) { TogetherSplit(regions, r, p, q, x, y); }
    }
  }

  lemma LaidSplit(regions: seq<Region>, r: Region, p: Region, q: Region, n: nat)
    requires Laid(regions + [r], n) && Within(p, n) && Within(q, n) && Separate(p, q)
    requires r.lo <= p.lo && p.hi <= r.hi && r.lo <= q.lo && q.hi <= r.hi
    ensures Laid(regions + [p] + [q], n)
  {
    var a, b := regions + [r], regions + [p] + [q];
    assert a[|regions|] == r;
    forall e | 0 <= e < |b| ensures Within(b[e], n) { assert e < |regions| ==> b[e] == a[e]; }
    forall e, f | 0 <= e < f < |b| ensures Separate(b[e], b[f]) {
      if e < |regions| {
        assert b[e] == a[e] && Separate(a[e], r);
        if f < |regions| { assert b[f] == a[f] && Separate(a[e], a[f]); }
      }
    }
  }

  lemma TogetherSplit(regions: seq<Region>, r: Region, p: Region, q: Region, x: int, y: int)
    requires Together(regions + [r], x, y)
    requires Has(r, x) && Has(r, y) ==> (Has(p, x) && Has(p, y)) || (Has(q, x) && Has(q, y))
    ensures Together(regions + [p] + [q], x, y)
  {
    var a, b := regions + [r], regions + [p] + [q];
    var e :| 0 <= e < |a| && Has(a[e], x) && Has(a[e], y);
    if e < |regions| {
      assert b[e] == a[e];
    } else {
      assert b[|regions|] == p && b[|regions| + 1] == q;
    }
  }

  // ---- how deep the stack can get, and why the sort ends ----

  const STACK: nat := 64

  function SizeOf(r: Region): int {
    r.hi - r.lo + 1
  }

  /** The `e`-th postponed region has at most the `2^e`-th part of all items. */
  ghost predicate Halved(regions: seq<Region>, n: nat) {
    forall e | 0 <= e < |regions| :: SizeOf(regions[e]) * Pow2(e) <= n
  }

  lemma HalvedSplit(regions: seq<Region>, r: Region, big: Region, small: Region, n: nat)
    requires Halved(regions + [r], n) && SizeOf(big) <= SizeOf(r) && 2 * SizeOf(small) <= SizeOf(r)
    ensures Halved(regions + [big] + [small], n)
  {
    var a, b := regions + [r], regions + [big] + [small];
    assert a[|regions|] == r;
    var d := Pow2(|regions|);
    assert SizeOf(big) * d <= SizeOf(r) * d;
    assert SizeOf(small) * Pow2(|regions| + 1) == 2 * SizeOf(small) * d <= SizeOf(r) * d;
    forall e | 0 <= e < |b| ensures SizeOf(b[e]) * Pow2(e) <= n {
      if e < |regions| { assert b[e] == a[e]; } else if e == |regions| { assert b[e] == big; } else { assert b[e] == small; }
    }
  }

  lemma Pow2Grows(i: nat, j: nat)
    requires i <= j
    ensures Pow2(i) <= Pow2(j)
    decreases j
  {
    if i < j { Pow2Grows(i, j - 1); }
  }

  lemma Pow2At58()
    ensures Pow2(58) * 32 == 0x8000_0000_0000_0000
  {
    Pow2At32();
    Pow2Add(32, 26);
    Pow2Add(13, 13);
    assert Pow2(5) == 32 && Pow2(8) == 256;
    Pow2Add(5, 8);
  }

  /** A region large enough to be partitioned is never deep: the stack's 64 entries are not exceeded. */
  lemma StackSuffices(regions: seq<Region>, r: Region, n: nat)
    requires Halved(regions + [r], n) && SizeOf(r) > INSERTION_SORT_TO && n < 0x8000_0000_0000_0000
    ensures |regions| < STACK
  {
    assert (regions + [r])[|regions|] == r;
    if |regions| >= 58 {
      Pow2Grows(58, |regions|);
      Pow2At58();
    }
  }

  function Weight(r: Region): nat {
    if SizeOf(r) <= 0 then 1 else 2 * SizeOf(r) - 1
  }

  ghost function Weights(regions: seq<Region>): nat {
    if regions == [] then 0 else Weights(regions[..|regions| - 1]) + Weight(regions[|regions| - 1])
  }

  lemma WeightsAdd(regions: seq<Region>, r: Region)
    ensures Weights(regions + [r]) == Weights(regions) + Weight(r)
  {
    assert (regions + [r])[..|regions|] == regions;
  }

  /** Two parts weigh less than the whole. */
  lemma WeightsSplit(regions: seq<Region>, r: Region, p: Region, q: Region)
    requires SizeOf(r) > 2 && SizeOf(p) < SizeOf(r) && SizeOf(q) < SizeOf(r) && SizeOf(p) + SizeOf(q) <= SizeOf(r)
    requires SizeOf(p) >= 0 && SizeOf(q) >= 0
    ensures Weights(regions + [p] + [q]) < Weights(regions + [r])
  {
    WeightsAdd(regions, r);
    WeightsAdd(regions, p);
    WeightsAdd(regions + [p], q);
  }

  // ---- the sort ----

  lemma PartsOrdered(less: Less, first: seq<Item>, s: seq<Item>, lo: nat, hi: nat, i: nat, k: int, pivot: Item)
    requires StrictWeak(less) && Parting(less, first, s, lo, hi, i, k, pivot) && k < i
    ensures var r, p, q := Region(lo, hi), Region(lo, k), Region(i, hi);
      forall x, y | 0 <= x < y < |s| && Has(r, x) && Has(r, y) ::
        Le(less, s[x], s[y]) || (Has(p, x) && Has(p, y)) || (Has(q, x) && Has(q, y))
  {
    hide StrictWeak, Rearranged;
    forall x, y | lo <= x < y <= hi && k < y && x < i ensures Le(less, s[x], s[y]) {
      LeTrans(less, s[x], pivot, s[y]);
    }
  }

  /** What is left to sort: the postponed regions and the current one. */
  ghost predicate Unsorted(less: Less, first: seq<Item>, s: seq<Item>, stack: seq<Region>, r: Region) {
    && Pending(less, first, s, stack + [r]) && Within(r, |s|) && Halved(stack + [r], |s|)
  }

  /** After a partition the larger part is postponed and the smaller one is next. */
  lemma PartitionStep(less: Less, first: seq<Item>, s: seq<Item>, t: seq<Item>, stack: seq<Region>, lo: nat, hi: nat,
                      i: nat, k: int, pivot: Item)
    requires StrictWeak(less) && Unsorted(less, first, s, stack, Region(lo, hi)) && hi - lo + 1 > INSERTION_SORT_TO
    requires lo < i && k < hi && k < i && Parting(less, s, t, lo, hi, i, k, pivot)
    ensures k - lo < hi - i ==> Unsorted(less, first, t, stack + [Region(i, hi)], Region(lo, k))
    ensures k - lo >= hi - i ==> Unsorted(less, first, t, stack + [Region(lo, k)], Region(i, hi))
    ensures Weights(stack + [Region(lo, k)] + [Region(i, hi)]) < Weights(stack + [Region(lo, hi)])
    ensures Weights(stack + [Region(i, hi)] + [Region(lo, k)]) < Weights(stack + [Region(lo, hi)])
  {
    hide StrictWeak, Pending, Halved, Weights, Le;
    var r, p, q := Region(lo, hi), Region(lo, k), Region(i, hi);
    PartitionKept(less, first, s, t, stack, lo, hi, i, k, pivot);
    PartsOrdered(less, s, t, lo, hi, i, k, pivot);
    WeightsSplit(stack, r, p, q);
    WeightsSplit(stack, r, q, p);
    if k - lo < hi - i {
      PendingSplit(less, first, t, stack, r, q, p);
      HalvedSplit(stack, r, q, p, |t|);
    } else {
      PendingSplit(less, first, t, stack, r, p, q);
      HalvedSplit(stack, r, p, q, |t|);
    }
  }

  lemma PartitionKept(less: Less, first: seq<Item>, s: seq<Item>, t: seq<Item>, stack: seq<Region>, lo: nat, hi: nat,
                      i: nat, k: int, pivot: Item)
    requires Unsorted(less, first, s, stack, Region(lo, hi)) && Parting(less, s, t, lo, hi, i, k, pivot)
    ensures |s| == |t| && Unsorted(less, first, t, stack, Region(lo, hi)) && lo <= i <= hi + 1 && lo - 1 <= k <= hi
  {
    hide Pending, Halved, Le, Rearranged;
    SameLength(s, t, lo, hi + 1);
    PendingRearranged(less, first, s, t, stack, Region(lo, hi));
  }

  /** A sorted current region leaves the postponed ones. */
  lemma RegionDone(less: Less, first: seq<Item>, s: seq<Item>, t: seq<Item>, stack: seq<Region>, r: Region)
    requires Unsorted(less, first, s, stack, r) && Rearranged(s, t, r.lo, r.hi + 1) && |t| == |s| && Sorted(less, t, r.lo, r.hi + 1)
    ensures Pending(less, first, t, stack) && Halved(stack, |t|) && Weights(stack) < Weights(stack + [r])
  {
    hide Pending, Rearranged, Sorted;
    PendingRearranged(less, first, s, t, stack, r);
    PendingSorted(less, first, t, stack, r);
    WeightsAdd(stack, r);
    forall e | 0 <= e < |stack| ensures SizeOf(stack[e]) * Pow2(e) <= |t| { assert (stack + [r])[e] == stack[e]; }
  }

  /** The last postponed region becomes the current one. */
  lemma RegionResumed(less: Less, first: seq<Item>, s: seq<Item>, stack: seq<Region>)
    requires Pending(less, first, s, stack) && Halved(stack, |s|) && stack != []
    ensures Unsorted(less, first, s, stack[..|stack| - 1], stack[|stack| - 1])
    ensures stack[..|stack| - 1] + [stack[|stack| - 1]] == stack
  {
    hide Ordered, Rearranged;
    assert stack[..|stack| - 1] + [stack[|stack| - 1]] == stack;
  }

  /**
   Partitions the current region, postponing the larger part, until it is small or too many partitions were lopsided.
   Then sorts it.
   */
  method SortCurrent(a: array<Item>, less: Less, stack0: seq<Region>, budgets0: seq<int>, lo0: nat, hi0: int, budget0: int,
                     ghost first: seq<Item>)
    returns (stack: seq<Region>, budgets: seq<int>)
    requires StrictWeak(less) && a.Length < 0x8000_0000_0000_0000 && |stack0| == |budgets0|
    requires Unsorted(less, first, a[..], stack0, Region(lo0, hi0))
    modifies a
    ensures |stack| == |budgets| && Pending(less, first, a[..], stack) && Halved(stack, a.Length)
    ensures Weights(stack) < Weights(stack0 + [Region(lo0, hi0)])
  {
    hide StrictWeak, Pending, Halved, Weights, Parting, Rearranged, Sorted;
    stack, budgets := stack0, budgets0;
    var lo: nat, hi: int, budget: int := lo0, hi0, budget0;
    while true
      invariant |stack| == |budgets| && Unsorted(less, first, a[..], stack, Region(lo, hi))
      invariant Weights(stack + [Region(lo, hi)]) <= Weights(stack0 + [Region(lo0, hi0)])
      decreases Weights(stack + [Region(lo, hi)])
    {
      ghost var s := a[..];
      var size := hi - lo + 1;
      if size <= INSERTION_SORT_TO {
        InsertionSort(a, lo, size, less);
        if budget <= 0 {
          ghost var t := a[..];
          HeapSort(a, lo, size, less);
          RearrangedTrans(s, t, a[..], lo, lo + size);
        }
        RegionDone(less, first, s, a[..], stack, Region(lo, hi));
        break;
      }
      StackSuffices(stack, Region(lo, hi), a.Length);
      var i, k, pivot := Partition(a, lo, hi, less);
      PartitionStep(less, first, s, a[..], stack, lo, hi, i, k, pivot);
      var left, right := k - lo, hi - i;
      if 0 <= left < size / 8 || 0 <= right < size / 8 { budget := budget - 1; }
      if budget <= 0 {
        PartitionKept(less, first, s, a[..], stack, lo, hi, i, k, pivot);
        ghost var t := a[..];
        HeapSort(a, lo, size, less);
        RegionDone(less, first, t, a[..], stack, Region(lo, hi));
        break;
      }
      assert |stack| < STACK;
      budgets := budgets + [budget];
      if left < right {
        stack := stack + [Region(i, hi)];
        hi := k;
      } else {
        stack := stack + [Region(lo, k)];
        lo := i;
      }
    }
  }

  /** Sorts the whole array; arrays from `heapSortFrom` on go to heap sort at once. */
  method QuickSort(a: array<Item>, heapSortFrom: int, less: Less)
    requires StrictWeak(less) && a.Length < 0x8000_0000_0000_0000
    modifies a
    ensures Sorted(less, a[..], 0, a.Length) && Rearranged(old(a[..]), a[..], 0, a.Length)
  {
    hide StrictWeak, Pending, Halved, Weights, Rearranged, Sorted;
    ghost var first := a[..];
    var budget, rest := 0, a.Length / 2;
    while rest > 0 {
      budget := budget + 1;
      rest := rest / 2;
    }
    if a.Length >= heapSortFrom {
      HeapSort(a, 0, a.Length, less);
      return;
    }
    var stack: seq<Region>, budgets: seq<int> := [], [];
    var lo: nat, hi: int := 0, a.Length - 1;
    AllPending(less, first);
    while true
      invariant |stack| == |budgets| && Unsorted(less, first, a[..], stack, Region(lo, hi))
      decreases Weights(stack + [Region(lo, hi)])
    {
      stack, budgets := SortCurrent(a, less, stack, budgets, lo, hi, budget, first);
      if stack == [] { break; }
      RegionResumed(less, first, a[..], stack);
      var top := stack[|stack| - 1];
      lo, hi, budget := top.lo, top.hi, budgets[|stack| - 1];
      stack, budgets := stack[..|stack| - 1], budgets[..|stack| - 1];
    }
    NothingPending(less, first, a[..]);
  }

  lemma AllPending(less: Less, first: seq<Item>)
    ensures Unsorted(less, first, first, [], Region(0, |first| - 1))
  {
    var r := Region(0, |first| - 1);
    assert ([] + [r])[0] == r && Pow2(0) == 1;
    forall x, y | 0 <= x < y < |first| ensures Together([] + [r], x, y) { assert Has(([] + [r])[0], x) && Has(([] + [r])[0], y); }
  }

  const HEAP_SORT_FROM := 2800

  method HqSort(a: array<Item>, less: Less)
    requires StrictWeak(less) && a.Length < 0x8000_0000_0000_0000
    modifies a
    ensures Sorted(less, a[..], 0, a.Length) && Rearranged(old(a[..]), a[..], 0, a.Length)
  {
    QuickSort(a, HEAP_SORT_FROM, less);
  }
}
