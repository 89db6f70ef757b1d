/**
 Inputs that do not compress, of every length: no four bytes of them come again within the
 window. They show which lengths survive compression and decompression.
 */
module Lz4Worst {
  import opened Arith
  import opened Lz4Format
  import opened Lz4Tokens
  import opened Lz4Compress

  /** The six-bit digits of a counter, lowest first. */
  function Digit(k: nat, j: nat): (d: nat)
    ensures d < 64
  {
    if j == 0 then k % 64 else if j == 1 then k / 64 % 64 else if j == 2 then k / 4096 % 64 else 0
  }

  /** Each four bytes hold one value of the counter and tell their places apart. */
  function CounterByte(q: nat): byte {
    64 * (q % 4) + Digit(q / 4, q % 4)
  }

  function Counter(n: nat): (s: seq<byte>)
    ensures |s| == n
  {
    seq(n, (q: nat) => CounterByte(q))
  }

  predicate SameFour(q: nat, i: nat) {
    && CounterByte(q) == CounterByte(i) && CounterByte(q + 1) == CounterByte(i + 1)
    && CounterByte(q + 2) == CounterByte(i + 2) && CounterByte(q + 3) == CounterByte(i + 3)
  }

  lemma SamePlace(q: nat, i: nat)
    requires CounterByte(q) == CounterByte(i)
    ensures q % 4 == i % 4 && Digit(q / 4, q % 4) == Digit(i / 4, i % 4)
  {
  }

  lemma Divided(k: nat)
    ensures k / 64 / 64 == k / 4096
  {
  }

  lemma Composed(c: nat, x: nat, y: nat, z: nat)
    requires x < 64 && y < 64 && z < 64
    ensures (64 * (64 * (64 * c + z) + y) + x) % 262144 == x + 64 * y + 4096 * z
  {
    var r := x + 64 * y + 4096 * z;
    assert 64 * (64 * (64 * c + z) + y) + x == 262144 * c + r && r < 262144;
  }

  lemma FromDigits(k: nat)
    ensures k % 262144 == Digit(k, 0) + 64 * Digit(k, 1) + 4096 * Digit(k, 2)
  {
    Divided(k);
    Composed(k / 4096 / 64, Digit(k, 0), Digit(k, 1), Digit(k, 2));
  }

  /** Three digits tell counter values that are less than 64^3 apart from each other. */
  lemma DigitsDiffer(k: nat, m: nat)
    requires k < m < k + 262144
    ensures Digit(k, 0) != Digit(m, 0) || Digit(k, 1) != Digit(m, 1) || Digit(k, 2) != Digit(m, 2)
  {
    hide Digit;
    FromDigits(k);
    FromDigits(m);
  }

  function Down(d: nat): nat
    requires d < 64
  {
    if d == 0 then 63 else d - 1
  }

  lemma Predecessor(k: nat)
    ensures Digit(k, 0) == Down(Digit(k + 1, 0))
    ensures Digit(k, 1) == if Digit(k + 1, 0) == 0 then Down(Digit(k + 1, 1)) else Digit(k + 1, 1)
  {
    var a := (k + 1) / 64;
    assert k + 1 == 64 * a + Digit(k + 1, 0);
    assert k / 64 == if Digit(k + 1, 0) == 0 then a - 1 else a;
  }

  /** The lower digits of two numbers and of their successors agree together. */
  lemma NextDigits(k: nat, m: nat)
    ensures Digit(k + 1, 0) == Digit(m + 1, 0) ==> Digit(k, 0) == Digit(m, 0)
    ensures Digit(k + 1, 0) == Digit(m + 1, 0) && Digit(k + 1, 1) == Digit(m + 1, 1) ==> Digit(k, 1) == Digit(m, 1)
  {
    hide Digit;
    Predecessor(k);
    Predecessor(m);
  }

  /** Where the four bytes from `q` on stand. */
  lemma Places(q: nat)
    ensures var k, j := q / 4, q % 4;
      && (q + 1) % 4 == (if j < 3 then j + 1 else 0) && (q + 1) / 4 == (if j < 3 then k else k + 1)
      && (q + 2) % 4 == (if j < 2 then j + 2 else j - 2) && (q + 2) / 4 == (if j < 2 then k else k + 1)
      && (q + 3) % 4 == (if j < 1 then j + 3 else j - 1) && (q + 3) / 4 == (if j < 1 then k else k + 1)
  {
  }

  /** No four bytes come again within the window. */
  lemma NoRepeat(q: nat, i: nat)
    requires q < i <= q + WINDOW_SIZE
    ensures !SameFour(q, i)
  {
    hide Digit, CounterByte, SameFour;
    if SameFour(q, i) {
      SamePlaces(q, i);
      Apart(q, i);
      Places(q);
      Places(i);
      DigitsDiffer(q / 4, i / 4);
      DigitsDiffer(q / 4 + 1, i / 4 + 1);
      NextDigits(q / 4, i / 4);
    }
  }

  lemma SamePlaces(q: nat, i: nat)
    requires SameFour(q, i)
    ensures q % 4 == i % 4 && Digit(q / 4, q % 4) == Digit(i / 4, i % 4)
    ensures Digit((q + 1) / 4, (q + 1) % 4) == Digit((i + 1) / 4, (i + 1) % 4)
    ensures Digit((q + 2) / 4, (q + 2) % 4) == Digit((i + 2) / 4, (i + 2) % 4)
    ensures Digit((q + 3) / 4, (q + 3) % 4) == Digit((i + 3) / 4, (i + 3) % 4)
  {
    SamePlace(q, i);
    SamePlace(q + 1, i + 1);
    SamePlace(q + 2, i + 2);
    SamePlace(q + 3, i + 3);
  }

  lemma Apart(q: nat, i: nat)
    requires q < i <= q + WINDOW_SIZE && q % 4 == i % 4
    ensures q / 4 < i / 4 < q / 4 + 16385
  {
  }

  // ---- such an input is not compressed ----

  lemma SkipsAt(n: nat, i: nat, last: nat, tbl: Table, p: Params)
    requires ValidParams(p) && ValidTable(tbl, p) && last <= i && i + END_BLOCK_RESERVED < n <= MAX_SIZE && Before(tbl, i)
    ensures MoveAt(Counter(n), i, last, tbl, p).Skip?
  {
    hide Search, Hash, Pow2, Insert, ValidTable, Before, Counter, InsertSkipped;
    var inp := Counter(n);
    var h := Hash(inp, i, p.hashBits);
    var best := Search(inp, i, tbl, p, h, 0, Found(0, 0));
    SearchFinds(inp, i, tbl, p, h, 0, Found(0, 0));
    if best.size >= MIN_MATCH {
      FourEqual(n, best.pos, i, best.size);
      NoRepeat(best.pos, i);
    }
  }

  lemma FourEqual(n: nat, q: nat, i: nat, size: nat)
    requires q <= i && 4 <= size && i + size <= n && Counter(n)[i..i + size] == Counter(n)[q..q + size]
    ensures SameFour(q, i)
  {
    hide CounterByte;
    var inp := Counter(n);
    var a, b := inp[i..i + size], inp[q..q + size];
    assert a[0] == b[0] && a[1] == b[1] && a[2] == b[2] && a[3] == b[3];
  }

  lemma {:induction false} NoTokens(n: nat, i: nat, last: nat, tbl: Table, p: Params)
    requires ValidParams(p) && ValidTable(tbl, p) && last <= i && n <= MAX_SIZE && Before(tbl, i)
    ensures Tokens(Counter(n), i, last, tbl, p) == []
    decreases n - i
  {
    hide MoveAt, ValidTable, Before, Counter;
    if i + END_BLOCK_RESERVED < n {
      SkipsAt(n, i, last, tbl, p);
      MoveIsSound(Counter(n), i, last, tbl, p);
      var tbl1 := MoveAt(Counter(n), i, last, tbl, p).tbl;
      Later(tbl1, p, i);
      NoTokens(n, i + p.speed, last, tbl1, p);
    }
  }

  /** For every length there is an input that only grows, by the largest amount there is. */
  lemma WorstCase(n: nat, p: Params)
    requires ValidParams(p) && n <= MAX_SIZE
    ensures |Compressed(Counter(n), p)| == LiteralSize(n)
    ensures forall inp: seq<byte> :: |inp| <= n ==> |Compressed(inp, p)| <= LiteralSize(n)
  {
    hide Tokens, Counter, LiteralSize, ValidTable, Before;
    NoTokens(n, 0, 0, EmptyTable(p), p);
    AsLiterals(Counter(n), p);
    forall inp: seq<byte> | |inp| <= n ensures |Compressed(inp, p)| <= LiteralSize(n) {
      NeverWorse(inp, p);
      LiteralSizeGrows(|inp|, n);
    }
  }

  lemma AsLiterals(inp: seq<byte>, p: Params)
    requires ValidParams(p) && |inp| <= MAX_SIZE && Chosen(inp, p) == []
    ensures |Compressed(inp, p)| == LiteralSize(|inp|)
  {
    hide Tokens;
  }

  /** Every input of at most `n` bytes comes back from compression and decompression if and only if `n`
      bytes as literals are not more than the decompressor takes. */
  lemma LengthsThatReturn(n: nat, p: Params)
    requires ValidParams(p) && n <= MAX_SIZE
    ensures (forall inp: seq<byte> :: |inp| <= n ==> |Compressed(inp, p)| <= MAX_SIZE) <==> LiteralSize(n) <= MAX_SIZE
  {
    hide Compressed, LiteralSize, Counter;
    WorstCase(n, p);
    assert |Counter(n)| <= n;
  }
}
