/**
 Heaps in place, the two ways of bubbling down, and heap sort.
 */
module SortHeap {
  import opened Arith
  import opened SortOrder
  import opened SortInsertion

  function Parent(c: nat): (p: nat)
    requires c > 0
    ensures p < c && (c == 2 * p + 1 || c == 2 * p + 2)
  {
    (c - 1) / 2
  }

  /** The child at `c` is not above its parent; the heap starts at `lo`. */
  ghost predicate Edge(less: Less, s: seq<Item>, lo: nat, c: nat)
    requires c > 0 && lo + c < |s|
  {
    Le(less, s[lo + c], s[lo + Parent(c)])
  }

  /** A heap of `n` items, except below the parents in `except`. */
  ghost predicate Heap(less: Less, s: seq<Item>, lo: nat, n: nat, except: set<nat>) {
    lo + n <= |s| && forall c: nat | 0 < c < n && Parent(c) !in except :: Edge(less, s, lo, c)
  }

  /** The children of `t` are not above the parent of `t`. */
  ghost predicate Skips(less: Less, s: seq<Item>, lo: nat, n: nat, t: nat)
    requires t > 0 && lo + n <= |s| && t < n
  {
    forall c: nat | 0 < c < n && Parent(c) == t :: Le(less, s[lo + c], s[lo + Parent(t)])
  }

  /** Swapping a node with its largest child mends its edges and moves the defect down. */
  lemma SwapDown(less: Less, s: seq<Item>, lo: nat, n: nat, except: set<nat>, t: nat, m: nat)
    requires StrictWeak(less) && Heap(less, s, lo, n, except + {t}) && 0 < m < n && Parent(m) == t && m !in except
    requires t == 0 || Parent(t) in except || Skips(less, s, lo, n, t)
    requires less(s[lo + t], s[lo + m]) && forall c: nat | 0 < c < n && Parent(c) == t :: Le(less, s[lo + c], s[lo + m])
    ensures var u := Swapped(s, lo + t, lo + m); Heap(less, u, lo, n, except + {m}) && Skips(less, u, lo, n, m)
  {
    hide StrictWeak;
    var u := Swapped(s, lo + t, lo + m);
    LessLe(less, s[lo + t], s[lo + m]);
    forall c: nat | 0 < c < n && Parent(c) !in except + {m} ensures Edge(less, u, lo, c) {
      assert Parent(c) != t ==> Edge(less, s, lo, c);
    }
    forall c: nat | 0 < c < n && Parent(c) == m ensures Le(less, u[lo + c], u[lo + Parent(m)]) {
      assert Edge(less, s, lo, c);
    }
  }

  /** A node not below any of its children has no defect. */
  lemma NoDefect(less: Less, s: seq<Item>, lo: nat, n: nat, except: set<nat>, t: nat)
    requires Heap(less, s, lo, n, except + {t}) && forall c: nat | 0 < c < n && Parent(c) == t :: Le(less, s[lo + c], s[lo + t])
    ensures Heap(less, s, lo, n, except)
  {
    forall c: nat | 0 < c < n && Parent(c) !in except ensures Edge(less, s, lo, c) { }
  }

  /** The larger child of a node that is above it, or the node itself. */
  method PickChild(a: array<Item>, lo: nat, n: nat, t: nat, less: Less) returns (max: nat)
    requires StrictWeak(less) && t < n && lo + n <= a.Length
    ensures max == t ==> forall c: nat | 0 < c < n && Parent(c) == t :: Le(less, a[lo + c], a[lo + t])
    ensures max != t ==> t < max < n && Parent(max) == t && less(a[lo + t], a[lo + max])
    ensures max != t ==> forall c: nat | 0 < c < n && Parent(c) == t :: Le(less, a[lo + c], a[lo + max])
  {
    hide StrictWeak;
    max := t;
    var left, right := 2 * t + 1, 2 * t + 2;
    if left < n && less(a[lo + max], a[lo + left]) { max := left; }
    if right < n && less(a[lo + max], a[lo + right]) { max := right; }
    LargestChild(less, a[..], lo, n, t, max);
  }

  /** The defect has been moved from above down to `t`. */
  ghost predicate Bubbling(less: Less, first: seq<Item>, s: seq<Item>, lo: nat, n: nat, except: set<nat>, t: nat) {
    && t < n && Heap(less, s, lo, n, except + {t}) && Rearranged(first, s, lo, lo + n)
    && (t == 0 || Parent(t) in except || Skips(less, s, lo, n, t))
  }

  lemma BubbleStep(less: Less, first: seq<Item>, s: seq<Item>, lo: nat, n: nat, except: set<nat>, t: nat, m: nat)
    requires StrictWeak(less) && Bubbling(less, first, s, lo, n, except, t) && t < m < n && Parent(m) == t && m !in except
    requires lo + n <= |s| && less(s[lo + t], s[lo + m])
    requires forall c: nat | 0 < c < n && Parent(c) == t :: Le(less, s[lo + c], s[lo + m])
    ensures Bubbling(less, first, Swapped(s, lo + t, lo + m), lo, n, except, m)
  {
    hide StrictWeak, Rearranged, Heap, Skips, Swapped, Le;
    SwapDown(less, s, lo, n, except, t, m);
    SwapRearranges(s, lo + t, lo + m, lo, lo + n);
    RearrangedTrans(first, s, Swapped(s, lo + t, lo + m), lo, lo + n);
  }

  lemma BubbleDone(less: Less, first: seq<Item>, s: seq<Item>, lo: nat, n: nat, except: set<nat>, t: nat)
    requires Bubbling(less, first, s, lo, n, except, t) && lo + n <= |s|
    requires forall c: nat | 0 < c < n && Parent(c) == t :: Le(less, s[lo + c], s[lo + t])
    ensures Heap(less, s, lo, n, except) && Rearranged(first, s, lo, lo + n)
  {
    hide Rearranged, Heap, Skips, Le, Parent;
    NoDefect(less, s, lo, n, except, t);
  }

  lemma BubbleStart(less: Less, s: seq<Item>, lo: nat, n: nat, except: set<nat>, t: nat)
    requires t < n && Heap(less, s, lo, n, except + {t}) && (t == 0 || Parent(t) in except)
    ensures lo + n <= |s| && Bubbling(less, s, s, lo, n, except, t)
  {
  }

  /** Swaps the item at `top` down until the heap below it is mended. Defects in `except` are all above. */
  method BubbleDown(a: array<Item>, lo: nat, top: nat, n: nat, less: Less, ghost except: set<nat>)
    requires StrictWeak(less) && top < n && Heap(less, a[..], lo, n, except + {top})
    requires (top == 0 || Parent(top) in except) && forall e | e in except :: e < top
    modifies a
    ensures Heap(less, a[..], lo, n, except) && Rearranged(old(a[..]), a[..], lo, lo + n)
  {
    hide StrictWeak, Rearranged, Heap, Skips, Parent, Le, Bubbling;
    ghost var first := a[..];
    BubbleStart(less, first, lo, n, except, top);
    var t: nat := top;
    while true
      invariant top <= t < n && Bubbling(less, first, a[..], lo, n, except, t)
      decreases n - t
    {
      var max := PickChild(a, lo, n, t, less);
      ghost var s := a[..];
      if max == t {
        BubbleDone(less, first, s, lo, n, except, t);
        return;
      }
      BubbleStep(less, first, s, lo, n, except, t, max);
      a[lo + t], a[lo + max] := a[lo + max], a[lo + t];
      assert a[..] == Swapped(s, lo + t, lo + max);
      t := max;
    }
  }

  /** The two comparisons find a largest one among a node and its children. */
  lemma LargestChild(less: Less, s: seq<Item>, lo: nat, n: nat, t: nat, max: nat)
    requires StrictWeak(less) && t < n && lo + n <= |s|
    requires var first := if 2 * t + 1 < n && less(s[lo + t], s[lo + (2 * t + 1)]) then 2 * t + 1 else t;
             max == if 2 * t + 2 < n && less(s[lo + first], s[lo + (2 * t + 2)]) then 2 * t + 2 else first
    ensures max == t ==> forall c: nat | 0 < c < n && Parent(c) == t :: Le(less, s[lo + c], s[lo + t])
    ensures max != t ==> 0 < max < n && Parent(max) == t && less(s[lo + t], s[lo + max])
    ensures max != t ==> forall c: nat | 0 < c < n && Parent(c) == t :: Le(less, s[lo + c], s[lo + max])
  {
    var l := 2 * t + 1;
    if max != t {
      if max == 2 * t + 2 && l < n {
        if less(s[lo + t], s[lo + l]) {
          LessLe(less, s[lo + l], s[lo + max]);
          LessTrans(less, s[lo + t], s[lo + l], s[lo + max]);
        } else {
          LessLe(less, s[lo + t], s[lo + max]);
          LeTrans(less, s[lo + l], s[lo + t], s[lo + max]);
        }
      }
    }
  }

  // ---- bubbling a hole down and up ----

  /** A heap but for the edges at `h`, whose children are not above its parent. */
  ghost predicate HoleHeap(less: Less, s: seq<Item>, lo: nat, n: nat, h: nat) {
    && h < n && lo + n <= |s|
    && (forall c: nat | 0 < c < n && c != h && Parent(c) != h :: Edge(less, s, lo, c))
    && (h > 0 ==> Skips(less, s, lo, n, h))
  }

  /** The only child of the last parent, which the way down never looks at. */
  predicate Overlooked(c: nat, n: nat) {
    c == n - 1 && n % 2 == 0
  }

  ghost predicate KidsBelow(less: Less, s: seq<Item>, lo: nat, n: nat, h: nat)
    requires h < n && lo + n <= |s|
  {
    forall c: nat | 0 < c < n && Parent(c) == h && !Overlooked(c, n) :: Le(less, s[lo + c], s[lo + h])
  }

  /**
   A heap in which the only child of the last parent, at even sizes, may be above its parent. It is still not above its
   grandparent.
   */
  ghost predicate NearHeap(less: Less, s: seq<Item>, lo: nat, n: nat) {
    && lo + n <= |s| && (forall c: nat | 0 < c < n && !Overlooked(c, n) :: Edge(less, s, lo, c))
    && (n % 2 == 0 && n >= 4 ==> Le(less, s[lo + n - 1], s[lo + Parent(Parent(n - 1))]))
  }

  lemma HoleDown(less: Less, s: seq<Item>, lo: nat, n: nat, h: nat, i: nat)
    requires StrictWeak(less) && HoleHeap(less, s, lo, n, h) && 0 < i < n && Parent(i) == h
    requires forall c: nat | 0 < c < n && Parent(c) == h :: Le(less, s[lo + c], s[lo + i])
    ensures HoleHeap(less, Swapped(s, lo + h, lo + i), lo, n, i)
  {
    hide StrictWeak;
    var u := Swapped(s, lo + h, lo + i);
    forall c: nat | 0 < c < n && c != i && Parent(c) != i ensures Edge(less, u, lo, c) {
      assert c != h && Parent(c) != h ==> Edge(less, s, lo, c);
    }
    forall c: nat | 0 < c < n && Parent(c) == i ensures Le(less, u[lo + c], u[lo + Parent(i)]) {
      assert Edge(less, s, lo, c);
    }
  }

  lemma HoleUp(less: Less, s: seq<Item>, lo: nat, n: nat, h: nat)
    requires StrictWeak(less) && HoleHeap(less, s, lo, n, h) && h > 0 && less(s[lo + Parent(h)], s[lo + h])
    ensures var u := Swapped(s, lo + h, lo + Parent(h)); HoleHeap(less, u, lo, n, Parent(h)) && KidsBelow(less, u, lo, n, Parent(h))
  {
    hide StrictWeak;
    var p := Parent(h);
    var u := Swapped(s, lo + h, lo + p);
    LessLe(less, s[lo + p], s[lo + h]);
    forall c: nat | 0 < c < n && c != p && Parent(c) != p ensures Edge(less, u, lo, c) {
      assert c != h && Parent(c) != h ==> Edge(less, s, lo, c);
    }
    assert p > 0 ==> Edge(less, s, lo, p);
    forall c: nat | 0 < c < n && Parent(c) == p ensures Le(less, u[lo + c], u[lo + p]) && (p > 0 ==> Le(less, u[lo + c], u[lo + Parent(p)])) {
      if c != h {
        assert Edge(less, s, lo, c);
        LeTrans(less, s[lo + c], s[lo + p], s[lo + h]);
        if p > 0 { LeTrans(less, s[lo + c], s[lo + p], s[lo + Parent(p)]); }
      }
    }
  }

  lemma HoleFilled(less: Less, s: seq<Item>, lo: nat, n: nat, h: nat)
    requires StrictWeak(less) && HoleHeap(less, s, lo, n, h) && KidsBelow(less, s, lo, n, h)
    requires h > 0 ==> Le(less, s[lo + h], s[lo + Parent(h)])
    ensures NearHeap(less, s, lo, n)
  {
    hide StrictWeak;
    forall c: nat | 0 < c < n && !Overlooked(c, n) ensures Edge(less, s, lo, c) { }
    if n % 2 == 0 && n >= 4 {
      var m := Parent(n - 1);
      if m != h {
        assert Edge(less, s, lo, n - 1) && Edge(less, s, lo, m);
        LeTrans(less, s[lo + n - 1], s[lo + m], s[lo + Parent(m)]);
      }
    }
  }

  /** Everything in such a heap is at most its root. */
  lemma {:induction false} RootIsLargest(less: Less, s: seq<Item>, lo: nat, n: nat, c: nat)
    requires StrictWeak(less) && NearHeap(less, s, lo, n) && c < n && n != 2
    ensures Le(less, s[lo + c], s[lo])
  {
    hide StrictWeak;
    if c == 0 {
      LeRefl(less, s[lo]);
    } else if Overlooked(c, n) {
      RootIsLargest(less, s, lo, n, Parent(Parent(c)));
      LeTrans(less, s[lo + c], s[lo + Parent(Parent(c))], s[lo]);
    } else {
      RootIsLargest(less, s, lo, n, Parent(c));
      assert Edge(less, s, lo, c);
      LeTrans(less, s[lo + c], s[lo + Parent(c)], s[lo]);
    }
  }

  lemma LeRefl(less: Less, x: Item)
    requires StrictWeak(less)
    ensures Le(less, x, x)
  {
  }

  /** The contents with the held value put into the hole. */
  function Filled(s: seq<Item>, hole: nat, value: Item): (r: seq<Item>)
    requires hole < |s|
    ensures |r| == |s|
  {
    s[hole := value]
  }

  /** Copying one item into the hole and moving the hole there is a swap of the contents. */
  lemma HoleMoves(s: seq<Item>, hole: nat, to: nat, value: Item)
    requires hole < |s| && to < |s|
    ensures Filled(s[hole := s[to]], to, value) == Swapped(Filled(s, hole, value), hole, to)
  {
  }

  /** The contents with the value in the hole: a heap but for the hole, and a rearrangement of `first`. */
  ghost predicate Sinking(less: Less, first: seq<Item>, s: seq<Item>, lo: nat, n: nat, hole: nat, value: Item) {
    && hole < n && lo + n <= |s| && HoleHeap(less, Filled(s, lo + hole, value), lo, n, hole)
    && Rearranged(first, Filled(s, lo + hole, value), lo, lo + n)
  }

  lemma SinkStep(less: Less, first: seq<Item>, s: seq<Item>, lo: nat, n: nat, hole: nat, value: Item, i: nat)
    requires StrictWeak(less) && Sinking(less, first, s, lo, n, hole, value) && hole < (n - 1) / 2
    requires i == if less(s[lo + (2 * hole + 2)], s[lo + (2 * hole + 1)]) then 2 * hole + 1 else 2 * hole + 2
    ensures hole < i < n && Sinking(less, first, s[lo + hole := s[lo + i]], lo, n, i, value)
  {
    hide StrictWeak, Rearranged, HoleHeap, Filled, Swapped, Le, Parent;
    var u := Filled(s, lo + hole, value);
    LargerChild(less, s, lo, n, hole, i, value);
    HoleDown(less, u, lo, n, hole, i);
    HoleMoves(s, lo + hole, lo + i, value);
    MoveRearranges(first, s, lo, n, hole, i, value);
  }

  lemma MoveRearranges(first: seq<Item>, s: seq<Item>, lo: nat, n: nat, hole: nat, to: nat, value: Item)
    requires hole < n && to < n && lo + n <= |s| && Rearranged(first, Filled(s, lo + hole, value), lo, lo + n)
    ensures Rearranged(first, Filled(s[lo + hole := s[lo + to]], lo + to, value), lo, lo + n)
  {
    hide Rearranged, Filled, Swapped;
    var u := Filled(s, lo + hole, value);
    HoleMoves(s, lo + hole, lo + to, value);
    SwapRearranges(u, lo + hole, lo + to, lo, lo + n);
    RearrangedTrans(first, u, Swapped(u, lo + hole, lo + to), lo, lo + n);
  }

  lemma RaiseStep(less: Less, first: seq<Item>, s: seq<Item>, lo: nat, n: nat, hole: nat, value: Item)
    requires StrictWeak(less) && Sinking(less, first, s, lo, n, hole, value) && hole > 0 && less(s[lo + Parent(hole)], value)
    ensures var t := s[lo + hole := s[lo + Parent(hole)]];
      Sinking(less, first, t, lo, n, Parent(hole), value) && KidsBelow(less, Filled(t, lo + Parent(hole), value), lo, n, Parent(hole))
  {
    hide StrictWeak, Rearranged, HoleHeap, Filled, KidsBelow, Swapped;
    FilledAt(s, lo + hole, value);
    HoleUp(less, Filled(s, lo + hole, value), lo, n, hole);
    HoleMoves(s, lo + hole, lo + Parent(hole), value);
    MoveRearranges(first, s, lo, n, hole, Parent(hole), value);
  }

  /** Moves the hole at the root to the last level that has two children, always taking the larger child up. */
  method SinkHole(a: array<Item>, lo: nat, value: Item, n: nat, less: Less) returns (hole: nat)
    requires StrictWeak(less) && n > 0 && lo + n <= a.Length && HoleHeap(less, Filled(a[..], lo, value), lo, n, 0)
    modifies a
    ensures hole < n && Sinking(less, old(Filled(a[..], lo, value)), a[..], lo, n, hole, value)
    ensures KidsBelow(less, Filled(a[..], lo + hole, value), lo, n, hole)
  {
    hide StrictWeak, HoleHeap, Filled, KidsBelow;
    ghost var first := Filled(a[..], lo, value);
    RearrangedRefl(first, lo, lo + n);
    hide Rearranged, Sinking;
    hole := 0;
    StartSinking(less, first, a[..], lo, n, value);
    var i := 0;
    while i < (n - 1) / 2
      invariant 0 <= i == hole < n && Sinking(less, first, a[..], lo, n, hole, value)
      decreases n - i
    {
      i := 2 * i + 2;
      if less(a[lo + i], a[lo + i - 1]) { i := i - 1; }
      ghost var s := a[..];
      SinkStep(less, first, s, lo, n, hole, value, i);
      a[lo + hole] := a[lo + i];
      assert a[..] == s[lo + hole := s[lo + i]];
      hole := i;
    }
    NoKids(less, Filled(a[..], lo + hole, value), lo, n, hole);
  }

  lemma StartSinking(less: Less, first: seq<Item>, s: seq<Item>, lo: nat, n: nat, value: Item)
    requires n > 0 && lo + n <= |s| && first == Filled(s, lo, value) && HoleHeap(less, first, lo, n, 0)
    ensures Sinking(less, first, s, lo, n, 0, value)
  {
    RearrangedRefl(first, lo, lo + n);
  }

  lemma LargerChild(less: Less, s: seq<Item>, lo: nat, n: nat, h: nat, i: nat, value: Item)
    requires StrictWeak(less) && h < (n - 1) / 2 && lo + n <= |s|
    requires i == if less(s[lo + (2 * h + 2)], s[lo + (2 * h + 1)]) then 2 * h + 1 else 2 * h + 2
    ensures 0 < i < n && Parent(i) == h
    ensures var u := Filled(s, lo + h, value); forall c: nat | 0 < c < n && Parent(c) == h :: Le(less, u[lo + c], u[lo + i])
  {
    hide StrictWeak;
    LeRefl(less, s[lo + i]);
    if i == 2 * h + 1 { LessLe(less, s[lo + (2 * h + 2)], s[lo + i]); }
  }

  lemma NoKids(less: Less, s: seq<Item>, lo: nat, n: nat, h: nat)
    requires (n - 1) / 2 <= h < n && lo + n <= |s|
    ensures KidsBelow(less, s, lo, n, h)
  {
  }

  /** Moves the hole up while its parent is below the value, and stores the value. */
  method RaiseHole(a: array<Item>, lo: nat, value: Item, n: nat, hole0: nat, less: Less, ghost first: seq<Item>)
    requires StrictWeak(less) && lo + n <= a.Length && hole0 < n && Sinking(less, first, a[..], lo, n, hole0, value)
    requires KidsBelow(less, Filled(a[..], lo + hole0, value), lo, n, hole0)
    modifies a
    ensures NearHeap(less, a[..], lo, n) && Rearranged(first, a[..], lo, lo + n)
  {
    hide StrictWeak, Filled, KidsBelow, Sinking, Rearranged, NearHeap;
    var hole: nat := hole0;
    while hole > 0 && less(a[lo + Parent(hole)], value)
      invariant hole < n && Sinking(less, first, a[..], lo, n, hole, value)
      invariant KidsBelow(less, Filled(a[..], lo + hole, value), lo, n, hole)
    {
      ghost var s := a[..];
      RaiseStep(less, first, s, lo, n, hole, value);
      a[lo + hole] := a[lo + Parent(hole)];
      assert a[..] == s[lo + hole := s[lo + Parent(hole)]];
      hole := Parent(hole);
    }
    ghost var s := a[..];
    FilledAt(s, lo + hole, value);
    Settled(less, first, s, lo, n, hole, value);
    a[lo + hole] := value;
    assert a[..] == Filled(s, lo + hole, value);
  }

  lemma Settled(less: Less, first: seq<Item>, s: seq<Item>, lo: nat, n: nat, hole: nat, value: Item)
    requires StrictWeak(less) && Sinking(less, first, s, lo, n, hole, value) && KidsBelow(less, Filled(s, lo + hole, value), lo, n, hole)
    requires hole == 0 || !less(s[lo + Parent(hole)], value)
    ensures NearHeap(less, Filled(s, lo + hole, value), lo, n) && Rearranged(first, Filled(s, lo + hole, value), lo, lo + n)
  {
    hide StrictWeak, HoleHeap, Filled, Rearranged, NearHeap, KidsBelow;
    FilledAt(s, lo + hole, value);
    HoleFilled(less, Filled(s, lo + hole, value), lo, n, hole);
  }

  lemma FilledAt(s: seq<Item>, hole: nat, value: Item)
    requires hole < |s|
    ensures var u := Filled(s, hole, value);
      u == s[hole := value] && u[hole] == value && forall x | 0 <= x < |s| && x != hole :: u[x] == s[x]
  {
  }

  /** Puts a value into a heap that lost its root, without comparing it on the way down. */
  method BubbleTwoPhase(a: array<Item>, lo: nat, value: Item, n: nat, less: Less)
    requires StrictWeak(less) && n > 0 && Heap(less, a[..], lo, n, {0})
    modifies a
    ensures NearHeap(less, a[..], lo, n) && Rearranged(old(a[..])[lo := value], a[..], lo, lo + n)
  {
    hide StrictWeak, Rearranged, KidsBelow, Sinking, HoleHeap, Heap, Filled, NearHeap;
    RootHole(less, a[..], lo, n, value);
    FilledAt(a[..], lo, value);
    ghost var first := Filled(a[..], lo, value);
    var hole := SinkHole(a, lo, value, n, less);
    RaiseHole(a, lo, value, n, hole, less, first);
  }

  lemma RootHole(less: Less, s: seq<Item>, lo: nat, n: nat, value: Item)
    requires Heap(less, s, lo, n, {0}) && n > 0
    ensures lo + n <= |s| && HoleHeap(less, Filled(s, lo, value), lo, n, 0)
  {
    var u := Filled(s, lo, value);
    forall c: nat | 0 < c < n && c != 0 && Parent(c) != 0 ensures Edge(less, u, lo, c) {
      assert Edge(less, s, lo, c);
    }
  }

  // ---- heap sort ----

  const INSERTION_SORT_TO: nat := 32
  const TWO_PHASE_FROM: nat := 1300

  /** The items from `n` on are in their final order, and none before is above any of them. */
  ghost predicate Split(less: Less, s: seq<Item>, lo: nat, n: nat, all: nat) {
    && n <= all && lo + all <= |s| && Sorted(less, s, lo + n, lo + all)
    && forall x, y | lo <= x < lo + n <= y < lo + all :: Le(less, s[x], s[y])
  }

  /** A stage of the sort, reached from `first`. */
  ghost predicate Popping(less: Less, first: seq<Item>, s: seq<Item>, lo: nat, n: nat, all: nat) {
    Split(less, s, lo, n, all) && Rearranged(first, s, lo, lo + all)
  }

  lemma PoppingRearranged(less: Less, first: seq<Item>, s: seq<Item>, t: seq<Item>, lo: nat, n: nat, all: nat)
    requires Popping(less, first, s, lo, n, all) && Rearranged(s, t, lo, lo + n)
    ensures Popping(less, first, t, lo, n, all)
  {
    hide Rearranged, Le;
    RearrangedWider(s, t, lo, lo + n, lo, lo + all);
    SameLength(s, t, lo, lo + n);
    forall y | lo + n <= y < lo + all ensures t[y] == s[y] { RearrangedOutside(s, t, lo, lo + n, y); }
    forall x, y | lo <= x < lo + n <= y < lo + all ensures Le(less, t[x], t[y]) {
      var z := RearrangedFrom(s, t, lo, lo + n, x);
    }
    RearrangedTrans(first, s, t, lo, lo + all);
  }

  lemma SameLength(s: seq<Item>, t: seq<Item>, lo: nat, hi: nat)
    requires Rearranged(s, t, lo, hi)
    ensures |s| == |t|
  {
  }

  /** The largest of the first `n`, at the last of their places, is final. */
  lemma PoppingShrinks(less: Less, first: seq<Item>, s: seq<Item>, lo: nat, n: nat, all: nat)
    requires Popping(less, first, s, lo, n, all) && n > 0
    requires forall x | lo <= x < lo + n - 1 :: Le(less, s[x], s[lo + n - 1])
    ensures Popping(less, first, s, lo, n - 1, all)
  {
    hide Rearranged;
  }

  lemma SortedWhenPopped(less: Less, first: seq<Item>, s: seq<Item>, lo: nat, n: nat, all: nat)
    requires Popping(less, first, s, lo, n, all) && Sorted(less, s, lo, lo + n)
    ensures Sorted(less, s, lo, lo + all) && Rearranged(first, s, lo, lo + all)
  {
    hide Rearranged;
    forall x, y | lo <= x < y < lo + all ensures Le(less, s[x], s[y]) { }
  }

  /** The nodes up to but not including `k`. */
  ghost function UpTo(k: nat): set<nat> {
    Below(k)
  }

  lemma UpToStep(k: nat)
    ensures UpTo(0) == {} && UpTo(k + 1) == UpTo(k) + {k} && (k > 0 ==> Parent(k) in UpTo(k)) && forall e | e in UpTo(k) :: e < k
  {
  }

  lemma AllParents(less: Less, s: seq<Item>, lo: nat, n: nat)
    requires lo + n <= |s|
    ensures Heap(less, s, lo, n, UpTo(n / 2))
  {
  }

  /** Mends the heap from the last parent up to the root. */
  method MakeHeap(a: array<Item>, lo: nat, n: nat, less: Less)
    requires StrictWeak(less) && lo + n <= a.Length
    modifies a
    ensures Heap(less, a[..], lo, n, {}) && Rearranged(old(a[..]), a[..], lo, lo + n)
  {
    hide StrictWeak, Rearranged, Heap, Parent, UpTo;
    RearrangedRefl(a[..], lo, lo + n);
    var node := n / 2;
    AllParents(less, a[..], lo, n);
    while node > 0
      invariant 0 <= node <= n / 2 && Heap(less, a[..], lo, n, UpTo(node)) && Rearranged(old(a[..]), a[..], lo, lo + n)
    {
      node := node - 1;
      ghost var s := a[..];
      UpToStep(node);
      BubbleDown(a, lo, node, n, less, UpTo(node));
      RearrangedTrans(old(a[..]), s, a[..], lo, lo + n);
    }
    UpToStep(0);
  }

  lemma HeapIsNear(less: Less, s: seq<Item>, lo: nat, n: nat)
    requires StrictWeak(less) && Heap(less, s, lo, n, {})
    ensures NearHeap(less, s, lo, n)
  {
    hide StrictWeak;
    if n % 2 == 0 && n >= 4 {
      assert Edge(less, s, lo, n - 1) && Edge(less, s, lo, Parent(n - 1));
      LeTrans(less, s[lo + n - 1], s[lo + Parent(n - 1)], s[lo + Parent(Parent(n - 1))]);
    }
  }

  /** Everything but the root is at most the larger of the root's children. */
  lemma {:induction false} SecondLargest(less: Less, s: seq<Item>, lo: nat, n: nat, bigger: nat, c: nat)
    requires StrictWeak(less) && Heap(less, s, lo, n, {}) && n > 2 && 0 < c < n
    requires bigger == if less(s[lo + 1], s[lo + 2]) then 2 else 1
    ensures Le(less, s[lo + c], s[lo + bigger])
  {
    hide StrictWeak;
    if c <= 2 {
      LeRefl(less, s[lo + c]);
      if bigger == 2 { LessLe(less, s[lo + 1], s[lo + 2]); }
    } else {
      SecondLargest(less, s, lo, n, bigger, Parent(c));
      assert Edge(less, s, lo, c);
      LeTrans(less, s[lo + c], s[lo + Parent(c)], s[lo + bigger]);
    }
  }

  /** The contents after the root and its larger child went to the end. */
  function TwoPopped(s: seq<Item>, lo: nat, n: nat, bigger: nat): (r: seq<Item>)
    requires 2 < n && lo + n <= |s| && bigger < n
    ensures |r| == |s|
  {
    Swapped(Swapped(s, lo, lo + n - 1), lo + bigger, lo + n - 2)
  }

  lemma TwoPoppedKeeps(less: Less, first: seq<Item>, s: seq<Item>, lo: nat, n: nat, all: nat, bigger: nat)
    requires StrictWeak(less) && Popping(less, first, s, lo, n, all) && Heap(less, s, lo, n, {}) && n > 5
    requires bigger == if less(s[lo + 1], s[lo + 2]) then 2 else 1
    ensures Popping(less, first, TwoPopped(s, lo, n, bigger), lo, n - 2, all)
  {
    hide StrictWeak, Heap, Popping, NearHeap, Swapped, Le;
    SplitFits(less, first, s, lo, n, all);
    var t := Swapped(s, lo, lo + n - 1);
    var u := Swapped(t, lo + bigger, lo + n - 2);
    HeapIsNear(less, s, lo, n);
    OnePoppedKeeps(less, first, s, lo, n, all);
    SwapRearranges(t, lo + bigger, lo + n - 2, lo, lo + n - 1);
    PoppingRearranged(less, first, t, u, lo, n - 1, all);
    forall x: nat | lo <= x < lo + n - 2 ensures Le(less, u[x], u[lo + n - 2]) {
      LaterInHeap(less, s, lo, n, bigger, x);
    }
    PoppingShrinks(less, first, u, lo, n - 1, all);
  }

  lemma LaterInHeap(less: Less, s: seq<Item>, lo: nat, n: nat, bigger: nat, x: nat)
    requires StrictWeak(less) && Heap(less, s, lo, n, {}) && n > 5 && lo <= x < lo + n - 2 && lo + n <= |s|
    requires bigger == if less(s[lo + 1], s[lo + 2]) then 2 else 1
    ensures var u := Swapped(Swapped(s, lo, lo + n - 1), lo + bigger, lo + n - 2); Le(less, u[x], u[lo + n - 2])
  {
    hide StrictWeak, Heap, Le;
    var c := if x == lo then n - 1 else if x == lo + bigger then n - 2 else x - lo;
    SecondLargest(less, s, lo, n, bigger, c);
    var t := Swapped(s, lo, lo + n - 1);
    assert t[lo + bigger] == s[lo + bigger] && t[lo + n - 2] == s[lo + n - 2];
    assert Swapped(t, lo + bigger, lo + n - 2)[x] == s[lo + c];
  }

  lemma SplitFits(less: Less, first: seq<Item>, s: seq<Item>, lo: nat, n: nat, all: nat)
    requires Popping(less, first, s, lo, n, all)
    ensures n <= all && lo + all <= |s|
  {
  }

  lemma TwoPoppedHeap(less: Less, s: seq<Item>, lo: nat, n: nat, bigger: nat)
    requires Heap(less, s, lo, n, {}) && n > 5 && 0 < bigger <= 2
    ensures Heap(less, TwoPopped(s, lo, n, bigger), lo, n - 2, {0} + {bigger})
  {
    var u := TwoPopped(s, lo, n, bigger);
    forall c: nat | 0 < c < n - 2 && Parent(c) !in {0} + {bigger} ensures Edge(less, u, lo, c) {
      assert Edge(less, s, lo, c);
    }
  }

  /** Pops the two largest items at once and mends first the child's place, then the root's. */
  method PopTwo(a: array<Item>, lo: nat, n: nat, all: nat, less: Less, ghost first: seq<Item>)
    requires StrictWeak(less) && n > INSERTION_SORT_TO && Popping(less, first, a[..], lo, n, all) && Heap(less, a[..], lo, n, {})
    modifies a
    ensures Popping(less, first, a[..], lo, n - 2, all) && Heap(less, a[..], lo, n - 2, {})
  {
    hide StrictWeak, Heap, Popping, TwoPopped, Rearranged;
    ghost var s := a[..];
    SplitFits(less, first, s, lo, n, all);
    var bigger := if less(a[lo + 1], a[lo + 2]) then 2 else 1;
    TwoPoppedKeeps(less, first, s, lo, n, all, bigger);
    TwoPoppedHeap(less, s, lo, n, bigger);
    SwapEnds(a, lo, n, bigger);
    ghost var u := a[..];
    BubbleDown(a, lo, bigger, n - 2, less, {0});
    PoppingRearranged(less, first, u, a[..], lo, n - 2, all);
    ghost var w := a[..];
    assert {} + {0} == {0};
    BubbleDown(a, lo, 0, n - 2, less, {});
    PoppingRearranged(less, first, w, a[..], lo, n - 2, all);
  }

  method SwapEnds(a: array<Item>, lo: nat, n: nat, bigger: nat)
    requires 2 < n && lo + n <= a.Length && bigger < n
    modifies a
    ensures a[..] == TwoPopped(old(a[..]), lo, n, bigger)
  {
    a[lo], a[lo + n - 1] := a[lo + n - 1], a[lo];
    assert a[..] == Swapped(old(a[..]), lo, lo + n - 1);
    a[lo + bigger], a[lo + n - 2] := a[lo + n - 2], a[lo + bigger];
    assert a[..] == TwoPopped(old(a[..]), lo, n, bigger);
  }

  lemma OnePoppedKeeps(less: Less, first: seq<Item>, s: seq<Item>, lo: nat, n: nat, all: nat)
    requires StrictWeak(less) && Popping(less, first, s, lo, n, all) && NearHeap(less, s, lo, n) && n > 2
    ensures lo + n <= |s| && Popping(less, first, Swapped(s, lo, lo + n - 1), lo, n - 1, all)
  {
    hide StrictWeak, NearHeap, Popping, Swapped, Le;
    SplitFits(less, first, s, lo, n, all);
    var t := Swapped(s, lo, lo + n - 1);
    SwapRearranges(s, lo, lo + n - 1, lo, lo + n);
    PoppingRearranged(less, first, s, t, lo, n, all);
    forall x: nat | lo <= x < lo + n - 1 ensures Le(less, t[x], t[lo + n - 1]) {
      RootAtEnd(less, s, lo, n, x);
    }
    PoppingShrinks(less, first, t, lo, n, all);
  }

  lemma RootAtEnd(less: Less, s: seq<Item>, lo: nat, n: nat, x: nat)
    requires StrictWeak(less) && NearHeap(less, s, lo, n) && n > 2 && lo <= x < lo + n - 1 && lo + n <= |s|
    ensures var t := Swapped(s, lo, lo + n - 1); Le(less, t[x], t[lo + n - 1])
  {
    hide StrictWeak, NearHeap, Le;
    var c := if x == lo then n - 1 else x - lo;
    RootIsLargest(less, s, lo, n, c);
    assert Swapped(s, lo, lo + n - 1)[x] == s[lo + c];
  }

  lemma OnePoppedHeap(less: Less, s: seq<Item>, lo: nat, n: nat)
    requires NearHeap(less, s, lo, n) && n > 2
    ensures Heap(less, s[lo + n - 1 := s[lo]], lo, n - 1, {0})
  {
    var u := s[lo + n - 1 := s[lo]];
    forall c: nat | 0 < c < n - 1 && Parent(c) !in {0} ensures Edge(less, u, lo, c) {
      assert Edge(less, s, lo, c);
    }
  }

  /** Pops the largest item; the overlooked child of an even-sized heap is the very item taken out next. */
  method PopOne(a: array<Item>, lo: nat, n: nat, all: nat, less: Less, ghost first: seq<Item>)
    requires StrictWeak(less) && n > INSERTION_SORT_TO && Popping(less, first, a[..], lo, n, all) && NearHeap(less, a[..], lo, n)
    modifies a
    ensures Popping(less, first, a[..], lo, n - 1, all) && NearHeap(less, a[..], lo, n - 1)
  {
    hide StrictWeak, Heap, Popping, Rearranged, NearHeap;
    ghost var s := a[..];
    OnePoppedKeeps(less, first, s, lo, n, all);
    OnePoppedHeap(less, s, lo, n);
    var value := a[lo + n - 1];
    a[lo + n - 1] := a[lo];
    assert a[..] == s[lo + n - 1 := s[lo]];
    ghost var u := a[..];
    BubbleTwoPhase(a, lo, value, n - 1, less);
    assert u[lo := value] == Swapped(s, lo, lo + n - 1);
    PoppingRearranged(less, first, Swapped(s, lo, lo + n - 1), a[..], lo, n - 1, all);
  }

  /** Sorts `all` items from `lo` on; small rests are left to insertion sort. */
  method HeapSort(a: array<Item>, lo: nat, all: nat, less: Less)
    requires StrictWeak(less) && lo + all <= a.Length
    modifies a
    ensures Sorted(less, a[..], lo, lo + all) && Rearranged(old(a[..]), a[..], lo, lo + all)
  {
    hide StrictWeak, Heap, Popping, Rearranged, NearHeap, Sorted;
    ghost var first := a[..];
    if all > INSERTION_SORT_TO { MakeHeap(a, lo, all, less); } else { RearrangedRefl(first, lo, lo + all); }
    var n := all;
    NothingPopped(less, first, a[..], lo, all);
    if n < TWO_PHASE_FROM {
      while n > INSERTION_SORT_TO
        invariant 0 <= n && Popping(less, first, a[..], lo, n, all) && (n > INSERTION_SORT_TO ==> Heap(less, a[..], lo, n, {}))
      {
        PopTwo(a, lo, n, all, less, first);
        n := n - 2;
      }
    } else {
      HeapIsNear(less, a[..], lo, n);
      while n > INSERTION_SORT_TO
        invariant 0 <= n && Popping(less, first, a[..], lo, n, all) && NearHeap(less, a[..], lo, n)
      {
        PopOne(a, lo, n, all, less, first);
        n := n - 1;
      }
    }
    ghost var s := a[..];
    SplitFits(less, first, s, lo, n, all);
    InsertionSort(a, lo, n, less);
    PoppingRearranged(less, first, s, a[..], lo, n, all);
    SortedWhenPopped(less, first, a[..], lo, n, all);
  }

  lemma NothingPopped(less: Less, first: seq<Item>, s: seq<Item>, lo: nat, all: nat)
    requires Rearranged(first, s, lo, lo + all)
    ensures Popping(less, first, s, lo, all, all)
  {
  }
}
