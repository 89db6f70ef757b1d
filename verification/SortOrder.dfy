/**
 What it means to sort: a strict weak order, sorted stretches and rearrangements of a stretch.
 */
module SortOrder {
  type Item = int
  type Less = (Item, Item) -> bool

  ghost predicate StrictWeak(less: Less) {
    && (forall x :: !less(x, x))
    && (forall x, y, z :: less(x, y) && less(y, z) ==> less(x, z))
    && (forall x, y, z :: !less(x, y) && !less(y, z) ==> !less(x, z))
  }

  predicate Le(less: Less, x: Item, y: Item) {
    !less(y, x)
  }

  lemma LeTrans(less: Less, x: Item, y: Item, z: Item)
    requires StrictWeak(less) && Le(less, x, y) && Le(less, y, z)
    ensures Le(less, x, z)
  {
  }

  lemma LessLe(less: Less, x: Item, y: Item)
    requires StrictWeak(less) && less(x, y)
    ensures Le(less, x, y)
  {
    assert less(y, x) ==> less(x, x);
  }

  lemma LessTrans(less: Less, x: Item, y: Item, z: Item)
    requires StrictWeak(less) && less(x, y) && less(y, z)
    ensures less(x, z)
  {
  }

  /** The items from `lo` up to `hi` are in order. */
  ghost predicate Sorted(less: Less, s: seq<Item>, lo: nat, hi: nat)
    requires hi <= |s|
  {
    forall x, y | lo <= x < y < hi :: Le(less, s[x], s[y])
  }

  /** `t` is `s` with the items from `lo` up to `hi` in some order. */
  ghost predicate Rearranged(s: seq<Item>, t: seq<Item>, lo: nat, hi: nat) {
    && lo <= hi <= |s| == |t| && s[..lo] == t[..lo] && s[hi..] == t[hi..]
    && multiset(s[lo..hi]) == multiset(t[lo..hi])
  }

  lemma RearrangedTrans(s: seq<Item>, t: seq<Item>, u: seq<Item>, lo: nat, hi: nat)
    requires Rearranged(s, t, lo, hi) && Rearranged(t, u, lo, hi)
    ensures Rearranged(s, u, lo, hi)
  {
  }

  lemma RearrangedRefl(s: seq<Item>, lo: nat, hi: nat)
    requires lo <= hi <= |s|
    ensures Rearranged(s, s, lo, hi)
  {
  }

  /** Rearranging a part rearranges the whole. */
  lemma RearrangedWider(s: seq<Item>, t: seq<Item>, lo: nat, hi: nat, low: nat, high: nat)
    requires Rearranged(s, t, lo, hi) && low <= lo && hi <= high <= |s|
    ensures Rearranged(s, t, low, high)
  {
    assert s[low..high] == s[low..lo] + s[lo..hi] + s[hi..high];
    assert t[low..high] == t[low..lo] + t[lo..hi] + t[hi..high];
    assert s[low..lo] == s[..lo][low..] && t[low..lo] == t[..lo][low..];
    assert s[hi..high] == s[hi..][..high - hi] && t[hi..high] == t[hi..][..high - hi];
    assert s[..low] == s[..lo][..low] && t[..low] == t[..lo][..low];
    assert s[high..] == s[hi..][high - hi..] && t[high..] == t[hi..][high - hi..];
  }

  function Swapped(s: seq<Item>, i: nat, j: nat): (r: seq<Item>)
    requires i < |s| && j < |s|
    ensures |r| == |s|
  {
    s[i := s[j]][j := s[i]]
  }

  lemma SwapRearranges(s: seq<Item>, i: nat, j: nat, lo: nat, hi: nat)
    requires lo <= i < hi <= |s| && lo <= j < hi
    ensures Rearranged(s, Swapped(s, i, j), lo, hi)
  {
    var t := s[i := s[j]][j := s[i]];
    var u, w := s[lo..hi], t[lo..hi];
    assert w == u[i - lo := u[j - lo]][j - lo := u[i - lo]];
    SwapMultiset(u, i - lo, j - lo);
  }

  lemma SwapMultiset(u: seq<Item>, i: nat, j: nat)
    requires i < |u| && j < |u|
    ensures multiset(u[i := u[j]][j := u[i]]) == multiset(u)
  {
  }

  /** Every item of the stretch was there before. */
  lemma RearrangedFrom(s: seq<Item>, t: seq<Item>, lo: nat, hi: nat, x: nat) returns (y: nat)
    requires Rearranged(s, t, lo, hi) && lo <= x < hi
    ensures lo <= y < hi && t[x] == s[y]
  {
    assert t[x] == t[lo..hi][x - lo] && t[x] in multiset(t[lo..hi]);
    var k :| 0 <= k < |s[lo..hi]| && s[lo..hi][k] == t[x];
    y := lo + k;
  }

  /** Items outside the stretch stay. */
  lemma RearrangedOutside(s: seq<Item>, t: seq<Item>, lo: nat, hi: nat, x: nat)
    requires Rearranged(s, t, lo, hi) && x < |s| && (x < lo || x >= hi)
    ensures t[x] == s[x]
  {
    assert x < lo ==> s[..lo][x] == t[..lo][x];
    assert x >= hi ==> s[hi..][x - hi] == t[hi..][x - hi];
  }
}

/** Insertion sort. */
module SortInsertion {
  import opened SortOrder

  /** The item at `j` moved down to `i`, the ones between shifted up. */
  function Moved(s: seq<Item>, i: nat, j: nat): seq<Item>
    requires i <= j < |s|
  {
    s[..i] + [s[j]] + s[i..j] + s[j + 1..]
  }

  lemma MovedAt(s: seq<Item>, i: nat, j: nat)
    requires i <= j < |s|
    ensures var t := Moved(s, i, j);
      && |t| == |s| && t[i] == s[j] && (forall x | 0 <= x < i :: t[x] == s[x])
      && (forall x | i < x <= j :: t[x] == s[x - 1]) && (forall x | j < x < |s| :: t[x] == s[x])
  {
  }

  lemma MovedRearranges(s: seq<Item>, i: nat, j: nat, lo: nat, hi: nat)
    requires lo <= i <= j < hi <= |s|
    ensures Rearranged(s, Moved(s, i, j), lo, hi)
  {
    var t := Moved(s, i, j);
    assert s[i..j + 1] == s[i..j] + [s[j]];
    assert t[i..j + 1] == [s[j]] + s[i..j];
    assert t[..i] == s[..i] && t[j + 1..] == s[j + 1..];
    RearrangedWider(s, t, i, j + 1, lo, hi);
  }

  /** Moving the next item to its place extends the sorted part. */
  lemma InsertedSorted(less: Less, s: seq<Item>, lo: nat, i: nat, j: nat)
    requires StrictWeak(less) && lo <= i <= j < |s| && Sorted(less, s, lo, j)
    requires forall x | i <= x < j :: less(s[j], s[x])
    requires i > lo ==> Le(less, s[i - 1], s[j])
    ensures Sorted(less, Moved(s, i, j), lo, j + 1)
  {
    hide Moved;
    MovedAt(s, i, j);
    var t := Moved(s, i, j);
    forall x, y | lo <= x < y < j + 1 ensures Le(less, t[x], t[y]) {
      if y == i {
        if x < i - 1 { LeTrans(less, s[x], s[i - 1], s[j]); }
      } else if x == i {
        LessLe(less, s[j], s[y - 1]);
      } else {
        assert t[y] == s[if y < i then y else y - 1] && t[x] == s[if x < i then x else x - 1];
      }
    }
  }

  lemma MovedIs(s: seq<Item>, i: nat, j: nat, t: seq<Item>)
    requires i <= j < |s| == |t| && t[i] == s[j] && (forall x | 0 <= x < i :: t[x] == s[x])
    requires (forall x | i < x <= j :: t[x] == s[x - 1]) && (forall x | j < x < |s| :: t[x] == s[x])
    ensures t == Moved(s, i, j)
  {
  }

  /** The item at `j` went to its place at `i` in the sorted part from `lo` on. */
  ghost predicate Placed(less: Less, s: seq<Item>, t: seq<Item>, lo: nat, i: nat, j: nat) {
    && lo <= i <= j < |s| && t == Moved(s, i, j)
    && (forall x | i <= x < j :: less(s[j], s[x])) && (i > lo ==> Le(less, s[i - 1], s[j]))
  }

  lemma PlacedSorts(less: Less, s: seq<Item>, t: seq<Item>, lo: nat, i: nat, j: nat, hi: nat)
    requires StrictWeak(less) && j < hi <= |s| && Sorted(less, s, lo, j) && Placed(less, s, t, lo, i, j)
    ensures |t| == |s| && Sorted(less, t, lo, j + 1) && Rearranged(s, t, lo, hi)
  {
    hide StrictWeak, Sorted, Moved, Rearranged;
    InsertedSorted(less, s, lo, i, j);
    MovedRearranges(s, i, j, lo, hi);
    MovedAt(s, i, j);
  }

  /** Moves the item at `iter` to its place among the sorted ones before it. */
  method Insert(a: array<Item>, lo: nat, iter: nat, less: Less) returns (i: nat)
    requires iter > 0 && lo + iter < a.Length
    modifies a
    ensures Placed(less, old(a[..]), a[..], lo, lo + i, lo + iter)
  {
    hide Moved, Le;
    ghost var s := a[..];
    i := iter;
    if less(a[lo + i], a[lo + i - 1]) {
      var held := a[lo + i];
      a[lo + i] := a[lo + i - 1];
      i := i - 1;
      while i > 0 && less(held, a[lo + i - 1])
        invariant 0 <= i < iter && forall x | lo + i <= x < lo + iter :: less(held, s[x])
        invariant forall x | 0 <= x <= lo + i :: a[x] == s[x]
        invariant forall x | lo + i < x <= lo + iter :: a[x] == s[x - 1]
        invariant forall x | lo + iter < x < a.Length :: a[x] == s[x]
      {
        a[lo + i] := a[lo + i - 1];
        i := i - 1;
      }
      a[lo + i] := held;
    }
    MovedIs(s, lo + i, lo + iter, a[..]);
    LeIs(less, s, lo + i, lo + iter);
  }

  lemma LeIs(less: Less, s: seq<Item>, i: nat, j: nat)
    requires i <= j < |s|
    ensures i > 0 && !less(s[j], s[i - 1]) ==> Le(less, s[i - 1], s[j])
  {
  }

  /** Sorts `n` items from `lo` on, in place. */
  method InsertionSort(a: array<Item>, lo: nat, n: nat, less: Less)
    requires StrictWeak(less) && lo + n <= a.Length
    modifies a
    ensures Sorted(less, a[..], lo, lo + n) && Rearranged(old(a[..]), a[..], lo, lo + n)
  {
    hide StrictWeak, Rearranged, Placed, Le;
    RearrangedRefl(a[..], lo, lo + n);
    if n == 0 { return; }
    for iter := 1 to n
      invariant Sorted(less, a[..], lo, lo + iter) && Rearranged(old(a[..]), a[..], lo, lo + n)
    {
      ghost var s := a[..];
      var i := Insert(a, lo, iter, less);
      PlacedSorts(less, s, a[..], lo, lo + i, lo + iter, lo + n);
      RearrangedTrans(old(a[..]), s, a[..], lo, lo + n);
    }
  }
}
