/**
 The probe sequence of the hash table: triangular numbers modulo a power of two.
 */
module HashProbe {
  import opened Arith

  function Tri(k: nat): nat {
    if k == 0 then 0 else Tri(k - 1) + k
  }

  /** A position masked with `capacity - 1`, for capacities that are powers of two. */
  function Masked(x: nat, capacity: nat): (r: nat)
    requires capacity > 0
    ensures r < capacity
  {
    x % capacity
  }

  /** The slot looked at after `k` steps of `i = (i + it) & mask`, starting with `it == 1`. */
  function Probe(hash: nat, capacity: nat, k: nat): (s: nat)
    requires capacity > 0
    ensures s < capacity
  {
    Masked(hash + Tri(k), capacity)
  }

  lemma ModAdd(a: nat, b: nat, c: nat)
    requires c > 0
    ensures (a % c + b) % c == (a + b) % c
  {
    var q, r := (a % c + b) / c, (a % c + b) % c;
    assert a % c + b == c * q + r;
    assert a + b == c * (a / c + q) + r by { assert a == c * (a / c) + a % c; }
    QuotientUnique(c, a + b, a / c + q, r);
  }

  /** One step of the loop moves to the next probe. */
  lemma NextProbe(hash: nat, capacity: nat, k: nat)
    requires capacity > 0
    ensures Probe(hash, capacity, 0) == Masked(hash, capacity)
    ensures Masked(Probe(hash, capacity, k) + (k + 1), capacity) == Probe(hash, capacity, k + 1)
  {
    ModAdd(hash + Tri(k), k + 1, capacity);
  }

  lemma {:induction false} TriDouble(k: nat)
    ensures 2 * Tri(k) == k * (k + 1)
  {
    if k > 0 { TriDouble(k - 1); }
  }

  /** A power of two that divides a product with an odd factor divides the other factor. */
  lemma {:induction false} OddFactor(a: nat, b: nat, m: nat, q: nat)
    requires a % 2 == 1 && a * b == Pow2(m) * q
    ensures exists c: nat :: b == Pow2(m) * c
  {
    if m == 0 {
      assert b == Pow2(0) * b;
    } else {
      assert Pow2(m) == 2 * Pow2(m - 1);
      assert a * b == 2 * (Pow2(m - 1) * q);
      assert b % 2 == 0 by { EvenProduct(a, b, Pow2(m - 1) * q); }
      var h := b / 2;
      assert b == 2 * h;
      assert a * h == Pow2(m - 1) * q by { assert a * (2 * h) == 2 * (a * h); }
      OddFactor(a, h, m - 1, q);
      var c: nat :| h == Pow2(m - 1) * c;
      assert b == Pow2(m) * c;
    }
  }

  lemma EvenProduct(a: nat, b: nat, half: nat)
    requires a % 2 == 1 && a * b == 2 * half
    ensures b % 2 == 0
  {
    var x := a / 2;
    assert (2 * x + 1) * b == 2 * (x * b) + b;
  }

  lemma NoSmallMultiple(c: nat, x: nat, q: nat)
    requires 0 < x < c
    ensures x != c * q
  {
    if q > 0 { assert c * q >= c * 1; }
  }

  lemma OddTimesSmall(x: nat, y: nat, m: nat, d: nat)
    requires x % 2 == 1 && 0 < y < Pow2(m)
    ensures x * y != Pow2(m) * d
  {
    if x * y == Pow2(m) * d {
      OddFactor(x, y, m, d);
      var e: nat :| y == Pow2(m) * e;
      NoSmallMultiple(Pow2(m), y, e);
    }
  }

  lemma TriDifference(i: nat, j: nat)
    requires i < j
    ensures 2 * (Tri(j) - Tri(i)) == (j - i) * (i + j + 1)
  {
    TriDouble(i);
    TriDouble(j);
    assert j * (j + 1) - i * (i + 1) == (j - i) * (i + j + 1);
  }

  lemma EqualProbes(hash: nat, m: nat, i: nat, j: nat) returns (d: nat)
    requires i < j && Probe(hash, Pow2(m), i) == Probe(hash, Pow2(m), j)
    ensures (j - i) * (i + j + 1) == Pow2(m + 1) * d
  {
    hide Tri, Pow2;
    TriGrows(i, j);
    d := SameRemainder(hash + Tri(i), hash + Tri(j), Pow2(m));
    TriDifference(i, j);
    DoubledPow2(m, d);
  }

  /** The first `capacity` probes all differ when the capacity is a power of two. */
  lemma ProbesDiffer(hash: nat, m: nat, i: nat, j: nat)
    requires i < j < Pow2(m)
    ensures Probe(hash, Pow2(m), i) != Probe(hash, Pow2(m), j)
  {
    hide Probe, Pow2;
    if Probe(hash, Pow2(m), i) == Probe(hash, Pow2(m), j) {
      var d := EqualProbes(hash, m, i, j);
      DoubledPow2(m, d);
      if (j - i) % 2 == 1 {
        OddTimesSmall(j - i, i + j + 1, m + 1, d);
      } else {
        Commutes(j - i, i + j + 1);
        OddTimesSmall(i + j + 1, j - i, m + 1, d);
      }
    }
  }

  lemma DoubledPow2(m: nat, d: nat)
    ensures Pow2(m + 1) == 2 * Pow2(m) && Pow2(m + 1) * d == 2 * (Pow2(m) * d)
  {
  }

  lemma Commutes(x: nat, y: nat)
    ensures x * y == y * x
  {
  }

  lemma {:induction false} TriGrows(i: nat, j: nat)
    requires i <= j
    ensures Tri(i) <= Tri(j)
    decreases j
  {
    if i < j { TriGrows(i, j - 1); }
  }

  lemma SameRemainder(a: nat, b: nat, c: nat) returns (d: nat)
    requires c > 0 && a <= b && a % c == b % c
    ensures b - a == c * d
  {
    assert b - a == c * (b / c) - c * (a / c) == c * (b / c - a / c);
    d := b / c - a / c;
  }

  ghost function Probed(hash: nat, capacity: nat, n: nat): (r: set<nat>)
    requires capacity > 0
    ensures r <= Below(capacity)
  {
    if n == 0 then {} else Probed(hash, capacity, n - 1) + {Probe(hash, capacity, n - 1)}
  }

  lemma {:induction false} ProbeIsNew(hash: nat, m: nat, n: nat, j: nat)
    requires j <= n < Pow2(m)
    ensures Probe(hash, Pow2(m), n) !in Probed(hash, Pow2(m), j)
  {
    hide Probe, Pow2;
    if j > 0 {
      ProbesDiffer(hash, m, j - 1, n);
      ProbeIsNew(hash, m, n, j - 1);
    }
  }

  lemma {:induction false} ProbedSize(hash: nat, m: nat, n: nat)
    requires n <= Pow2(m)
    ensures |Probed(hash, Pow2(m), n)| == n
  {
    hide Probe, Pow2;
    if n > 0 {
      ProbedSize(hash, m, n - 1);
      ProbeIsNew(hash, m, n - 1, n - 1);
    }
  }

  lemma {:induction false} WhichProbe(hash: nat, capacity: nat, n: nat, s: nat) returns (k: nat)
    requires capacity > 0 && s in Probed(hash, capacity, n)
    ensures k < n && Probe(hash, capacity, k) == s
  {
    if s == Probe(hash, capacity, n - 1) { k := n - 1; } else { k := WhichProbe(hash, capacity, n - 1, s); }
  }

  /** The first `capacity` probes visit every slot, and by `ProbesDiffer` each of them once. */
  lemma EverySlotProbed(hash: nat, m: nat, s: nat) returns (k: nat)
    requires s < Pow2(m)
    ensures k < Pow2(m) && Probe(hash, Pow2(m), k) == s
  {
    hide Probe, Pow2;
    var c := Pow2(m);
    var all := Probed(hash, c, c);
    ProbedSize(hash, m, c);
    if s !in all {
      assert all <= Below(c) - {s};
      SubsetSize(all, Below(c) - {s});
      SizeWithout(Below(c), s);
    }
    k := WhichProbe(hash, c, c, s);
  }
}
