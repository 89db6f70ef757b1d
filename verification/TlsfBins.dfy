/**
 How the allocator maps sizes to bins: a floating-point like numbering with eight bins
 per power of two.
 */
module TlsfBins {
  import opened Arith

  const BINS: nat := 256
  const MIN_SIZE: nat := 8

  function Log2(x: nat): nat {
    if x < 2 then 0 else 1 + Log2(x / 2)
  }

  lemma {:induction false} Log2Bounds(x: nat)
    requires x > 0
    ensures Pow2(Log2(x)) <= x < 2 * Pow2(Log2(x))
  {
    if x >= 2 { Log2Bounds(x / 2); }
  }

  /** The bin of a size, rounded down or up. `reconstructed` is a 32-bit number in the source. */
  function BinIndex(size: nat, roundUp: bool): nat {
    if size < 8 then size
    else
      var shift := Shift(size);
      var lowBits := size / Pow2(shift);
      var reconstructed := (lowBits * Pow2(shift)) % 0x1_0000_0000;
      (shift + 1) * 8 + lowBits % 8 + if roundUp && reconstructed < size then 1 else 0
  }

  /** The position of the four highest bits. */
  function Shift(size: nat): (r: nat)
    requires size >= 8
  {
    Log2Bounds(size);
    assert Pow2(0) == 1 && Pow2(1) == 2 && Pow2(2) == 4;
    assert Log2(size) >= 3 by { SmallLog2(size); }
    Log2(size) - 3
  }

  lemma SmallLog2(size: nat)
    requires size >= 8
    ensures Log2(size) >= 3
  {
    assert Log2(size) == 1 + Log2(size / 2) && Log2(size / 2) == 1 + Log2(size / 2 / 2);
  }

  /** The smallest size of a bin. */
  function SizeFromBin(bin: nat): nat {
    if bin < 8 then bin else (8 + bin % 8) * Pow2(bin / 8 - 1)
  }

  lemma FourBits(size: nat)
    requires size >= 8
    ensures 8 * Pow2(Shift(size)) <= size < 16 * Pow2(Shift(size))
  {
    Log2Bounds(size);
    SmallLog2(size);
    Pow2Add(3, Shift(size));
    assert Pow2(3) == 8;
  }

  /** Each bin starts where the one before it ends. */
  lemma BinStep(bin: nat)
    ensures SizeFromBin(bin + 1) == SizeFromBin(bin) + if bin < 8 then 1 else Pow2(bin / 8 - 1)
  {
    if bin >= 8 && bin % 8 == 7 {
      assert (bin + 1) / 8 == bin / 8 + 1 && (bin + 1) % 8 == 0;
    }
  }

  lemma {:induction false} BinSizesGrow(a: nat, b: nat)
    requires a < b
    ensures SizeFromBin(a) < SizeFromBin(b)
    decreases b
  {
    BinStep(b - 1);
    if a < b - 1 { BinSizesGrow(a, b - 1); }
  }

  lemma FloorShape(size: nat)
    requires size >= 8
    ensures var shift := Shift(size); var low := size / Pow2(shift);
      && 8 <= low < 16 && BinIndex(size, false) == (shift + 1) * 8 + (low - 8)
      && low * Pow2(shift) <= size < (low + 1) * Pow2(shift)
  {
    var shift := Shift(size);
    FourBits(size);
    Quotient(size, Pow2(shift));
  }

  lemma Quotient(x: nat, d: nat)
    requires d > 0 && 8 * d <= x < 16 * d
    ensures 8 <= x / d < 16 && (x / d) * d <= x < (x / d + 1) * d
  {
    var q := x / d;
    assert x == d * q + x % d;
    assert q < 8 ==> d * q <= d * 7;
    assert q >= 16 ==> d * q >= d * 16;
  }

  /** Rounding down gives the bin whose range holds the size. */
  lemma FloorBin(size: nat)
    ensures var b := BinIndex(size, false); SizeFromBin(b) <= size < SizeFromBin(b + 1)
  {
    var b := BinIndex(size, false);
    BinStep(b);
    if size >= 8 {
      FloorShape(size);
      var low := size / Pow2(Shift(size));
      assert b / 8 == Shift(size) + 1 && b % 8 == low - 8;
    }
  }

  /** A bin is determined by its range. */
  lemma FloorUnique(size: nat, b: nat)
    requires SizeFromBin(b) <= size < SizeFromBin(b + 1)
    ensures BinIndex(size, false) == b
  {
    FloorBin(size);
    var c := BinIndex(size, false);
    hide BinIndex, SizeFromBin;
    if c < b { if c + 1 < b { BinSizesGrow(c + 1, b); } }
    if b < c { if b + 1 < c { BinSizesGrow(b + 1, c); } }
  }

  /** Rounding up gives the first bin all of whose sizes are large enough, wasting at most one eighth. */
  lemma CeilBin(size: nat)
    requires size < 0x1_0000_0000
    ensures var b := BinIndex(size, true);
      && size <= SizeFromBin(b) && (b > 0 ==> SizeFromBin(b - 1) < size)
      && 8 * (SizeFromBin(b) - size) <= size
  {
    FloorBin(size);
    var b := BinIndex(size, false);
    BinStep(b);
    if b > 0 { BinSizesGrow(b - 1, b); }
    if size >= 8 {
      FloorShape(size);
      var low := size / Pow2(Shift(size));
      assert b / 8 == Shift(size) + 1 && b % 8 == low - 8;
      assert SizeFromBin(b) == low * Pow2(Shift(size));
      FourBits(size);
      assert low * Pow2(Shift(size)) % 0x1_0000_0000 == low * Pow2(Shift(size));
      assert BinIndex(size, true) == b + if SizeFromBin(b) < size then 1 else 0;
    }
  }

  /** A gap lies in or above the rounded-up bin of a request exactly when it is at least that bin's size. */
  lemma GapFits(gap: nat, bin: nat)
    ensures bin <= BinIndex(gap, false) <==> SizeFromBin(bin) <= gap
  {
    FloorBin(gap);
    var b := BinIndex(gap, false);
    hide BinIndex, SizeFromBin;
    if bin < b { BinSizesGrow(bin, b); }
    if b + 1 < bin { BinSizesGrow(b + 1, bin); }
  }

  /** The two mappings invert each other on bin sizes. */
  lemma BinRoundTrip(bin: nat)
    requires SizeFromBin(bin) < 0x1_0000_0000
    ensures BinIndex(SizeFromBin(bin), false) == bin == BinIndex(SizeFromBin(bin), true)
  {
    BinStep(bin);
    var size := SizeFromBin(bin);
    FloorUnique(size, bin);
    CeilBin(size);
    var c := BinIndex(size, true);
    hide BinIndex, SizeFromBin;
    if bin < c { if bin < c - 1 { BinSizesGrow(bin, c - 1); } }
    if c < bin { BinSizesGrow(c, bin); }
  }

  lemma BinMonotone(a: nat, b: nat, roundUp: bool)
    requires a <= b < 0x1_0000_0000
    ensures BinIndex(a, roundUp) <= BinIndex(b, roundUp)
  {
    if roundUp {
      CeilBin(a);
      CeilBin(b);
      var x, y := BinIndex(a, true), BinIndex(b, true);
      hide BinIndex, SizeFromBin;
      if y < x { if y < x - 1 { BinSizesGrow(y, x - 1); } }
    } else {
      FloorBin(a);
      GapFits(b, BinIndex(a, false));
    }
  }

  /** Sizes that fit 32 bits use bins below 240; larger requests start at or above it. */
  lemma BinRange(size: nat)
    ensures size < 0x1_0000_0000 ==> BinIndex(size, false) < 240
    ensures size >= 0x1_0000_0000 ==> BinIndex(size, true) >= 240
  {
    Pow2Add(3, 29);
    Pow2At32();
    assert Pow2(3) == 8;
    assert SizeFromBin(240) == 8 * Pow2(29) == 0x1_0000_0000;
    GapFits(size, 240);
  }
}
