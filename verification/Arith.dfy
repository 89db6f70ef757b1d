/** Integer and finite-set facts shared by the models. */
module Arith {

  lemma DivMod(c: nat, t: nat)
    requires c > 0
    ensures t == c * (t / c) + t % c && 0 <= t % c < c
  {
  }

  lemma QuotientUnique(c: nat, t: nat, q: int, r: int)
    requires c > 0 && 0 <= r < c && t == c * q + r
    ensures t / c == q && t % c == r
  {
    DivMod(c, t);
    var x := t / c - q;
    assert c * x == c * (t / c) - c * q;
    SmallMultiple(c, x);
  }

  lemma SmallMultiple(c: int, x: int)
    requires 0 < c && -c < c * x < c
    ensures x == 0
  {
    assert x >= 1 ==> c * x >= c * 1;
    assert x <= -1 ==> c * x <= c * (-1);
  }

  /** The first multiple of `align` at or above `x`. */
  function AlignUp(x: nat, align: nat): (r: nat)
    requires align > 0
    ensures x <= r < x + align && r % align == 0
  {
    var down: int := -(x as int);
    assert x + down % align == align * -(down / align);
    QuotientUnique(align, x + down % align, -(down / align), 0);
    x + down % align
  }

  lemma SubsetSize(a: set<nat>, b: set<nat>)
    requires a <= b
    ensures |a| <= |b|
  {
    if a != {} {
      var x :| x in a;
      SubsetSize(a - {x}, b - {x});
    }
  }

  lemma SizeWithout(a: set<nat>, x: nat)
    ensures |a| == |a - {x}| + (if x in a then 1 else 0)
  {
    if x in a {
      assert a == (a - {x}) + {x};
    } else {
      assert a == a - {x};
    }
  }

  /** The naturals below `n`. */
  ghost function Below(n: nat): (s: set<nat>)
    ensures |s| == n && forall k: nat :: k in s <==> k < n
  {
    if n == 0 then {} else Below(n - 1) + {n - 1}
  }

  // ---- powers of two ----

  function Pow2(n: nat): (r: nat)
    ensures r > 0
  {
    Doubled(n)
  }

  function Doubled(n: nat): (r: nat)
    ensures r > 0
  {
    if n == 0 then 1 else 2 * Doubled(n - 1)
  }

  lemma {:induction false} Pow2Add(a: nat, b: nat)
    ensures Pow2(a + b) == Pow2(a) * Pow2(b)
    decreases a
  {
    if a > 0 { Pow2Add(a - 1, b); }
  }

  lemma Pow2At32()
    ensures Pow2(32) == 0x1_0000_0000
  {
    assert Pow2(8) == 256;
    Pow2Add(8, 8);
    Pow2Add(16, 16);
  }
}
