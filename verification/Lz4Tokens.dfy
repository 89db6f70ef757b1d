/**
 Which tokens the compressor chooses: the bucketed hash table of earlier positions, the
 longest match found through it, and the greedy walk over the input. These functions follow
 the compressor's loops on values; `Lz4Compress` has the loops themselves.
 */
module Lz4Tokens {
  import opened Arith
  import opened Lz4Format

  const END_BLOCK_RESERVED: nat := 12
  const NONE: nat := 0xFFFF_FFFF

  /** Speed after clamping, and the two table exponents. */
  datatype Params = Params(speed: nat, hashBits: nat, bucketBits: nat)

  /** The settings the source takes. */
  predicate Accepted(p: Params) {
    1 <= p.speed <= END_BLOCK_RESERVED && 1 <= p.hashBits < 30 && p.bucketBits <= 8
  }

  /** Those whose table size is a 32-bit number; `Lz4Shape` has the others. */
  predicate ValidParams(p: Params) {
    Accepted(p) && p.hashBits + p.bucketBits < 32
  }

  datatype Table = Table(slots: seq<nat>, last: seq<nat>)

  ghost predicate ValidTable(tbl: Table, p: Params) {
    && |tbl.last| == Pow2(p.hashBits) && |tbl.slots| == Pow2(p.hashBits) * Pow2(p.bucketBits)
    && forall h :: 0 <= h < |tbl.last| ==> tbl.last[h] < Pow2(p.bucketBits)
  }

  /** Everything in the table is a position before `i`. */
  ghost predicate Before(tbl: Table, i: nat) {
    forall k :: 0 <= k < |tbl.slots| ==> tbl.slots[k] == NONE || tbl.slots[k] < i
  }

  // ---- hashing ----

  function Read4(inp: seq<byte>, i: nat): (r: nat)
    requires i + 4 <= |inp|
    ensures r < 0x1_0000_0000
  {
    (inp[i] as int) + 256 * ((inp[i + 1] as int) + 256 * ((inp[i + 2] as int) + 256 * (inp[i + 3] as int)))
  }

  lemma ShiftBound(x: nat, bits: nat)
    requires x < 0x1_0000_0000 && bits <= 32
    ensures 0 <= x / Pow2(32 - bits) < Pow2(bits)
  {
    Pow2Add(bits, 32 - bits);
    Pow2At32();
    var d := Pow2(32 - bits);
    QuotientBelow(x, d, Pow2(bits));
  }

  lemma QuotientBelow(x: nat, d: nat, q: nat)
    requires d > 0 && x < q * d
    ensures 0 <= x / d < q
  {
    var y := x / d;
    assert x == d * y + x % d;
    assert y >= q ==> d * y >= d * q;
  }

  /** A 32-bit multiplication. */
  function Mix(v: nat): (r: nat)
    ensures r < 0x1_0000_0000
  {
    (v * 2654435761) % 0x1_0000_0000
  }

  function Hash(inp: seq<byte>, i: nat, bits: nat): (h: nat)
    requires i + 4 <= |inp| && bits <= 32
    ensures h < Pow2(bits)
  {
    hide Mix, Read4;
    TopBits(Mix(Read4(inp, i)), bits)
  }

  /** The highest `bits` of 32. */
  function TopBits(x: nat, bits: nat): (h: nat)
    requires x < 0x1_0000_0000 && bits <= 32
    ensures h < Pow2(bits)
  {
    ShiftBound(x, bits);
    hide Pow2;
    x / Pow2(32 - bits)
  }

  lemma SlotBound(h: nat, idx: nat, hs: nat, bs: nat)
    requires h < hs && idx < bs
    ensures h * bs + idx < hs * bs
  {
    assert (h + 1) * bs <= hs * bs;
  }

  function Insert(tbl: Table, p: Params, h: nat, pos: nat): (r: Table)
    requires ValidParams(p) && ValidTable(tbl, p) && h < Pow2(p.hashBits)
    ensures ValidTable(r, p)
  {
    var b := Pow2(p.bucketBits);
    SlotBound(h, tbl.last[h], Pow2(p.hashBits), b);
    Table(tbl.slots[h * b + tbl.last[h] := pos], tbl.last[h := (tbl.last[h] + 1) % b])
  }

  lemma InsertBefore(tbl: Table, p: Params, h: nat, pos: nat, i: nat)
    requires ValidParams(p) && ValidTable(tbl, p) && h < Pow2(p.hashBits) && Before(tbl, i) && pos < i
    ensures Before(Insert(tbl, p, h, pos), i)
  {
    hide Pow2;
  }

  // ---- matches ----

  /** How many of eight bytes agree before the first difference. */
  function Common(inp: seq<byte>, a: nat, b: nat, k: nat): (r: nat)
    requires k <= 8 && a + 8 <= |inp| && b + 8 <= |inp|
    ensures k <= r <= 8
    decreases 8 - k
  {
    if k == 8 || inp[a + k] != inp[b + k] then k else Common(inp, a, b, k + 1)
  }

  function FirstDifference(inp: seq<byte>, a: nat, b: nat): (r: nat)
    requires a + 8 <= |inp| && b + 8 <= |inp|
    ensures r <= 8
  {
    Common(inp, a, b, 0)
  }

  /** The `n` bytes at `a` and at `b` are the same. */
  ghost predicate Agree(inp: seq<byte>, a: nat, b: nat, n: nat) {
    a + n <= |inp| && b + n <= |inp| && inp[a..a + n] == inp[b..b + n]
  }

  lemma {:induction false} CommonAgrees(inp: seq<byte>, a: nat, b: nat, k: nat)
    requires k <= 8 && a + 8 <= |inp| && b + 8 <= |inp| && Agree(inp, a, b, k)
    ensures Agree(inp, a, b, Common(inp, a, b, k))
    decreases 8 - k
  {
    if k < 8 && inp[a + k] == inp[b + k] {
      assert inp[a..a + k + 1] == inp[a..a + k] + [inp[a + k]];
      assert inp[b..b + k + 1] == inp[b..b + k] + [inp[b + k]];
      CommonAgrees(inp, a, b, k + 1);
    }
  }

  /** The length of the match between `i` and the earlier `pos`, compared eight bytes at a time;
      it may run past the part of the input that matches may cover. */
  function MatchLength(inp: seq<byte>, i: nat, pos: nat, m: nat): (r: nat)
    requires pos <= i && END_BLOCK_RESERVED <= |inp|
    ensures m <= r && (i + m <= |inp| ==> i + r <= |inp|)
    decreases |inp| + 8 - i - m
  {
    if i + m > |inp| - END_BLOCK_RESERVED then m
    else
      var c := FirstDifference(inp, i + m, pos + m);
      if c < 8 then m + c else MatchLength(inp, i, pos, m + 8)
  }

  lemma Extend(inp: seq<byte>, a: nat, b: nat, m: nat, c: nat)
    requires Agree(inp, a, b, m) && Agree(inp, a + m, b + m, c)
    ensures Agree(inp, a, b, m + c)
  {
    assert inp[a..a + m + c] == inp[a..a + m] + inp[a + m..a + m + c];
    assert inp[b..b + m + c] == inp[b..b + m] + inp[b + m..b + m + c];
  }

  lemma DifferenceAgrees(inp: seq<byte>, a: nat, b: nat)
    requires a + 8 <= |inp| && b + 8 <= |inp|
    ensures Agree(inp, a, b, FirstDifference(inp, a, b))
  {
    CommonAgrees(inp, a, b, 0);
  }

  lemma {:induction false} MatchAgrees(inp: seq<byte>, i: nat, pos: nat, m: nat)
    requires pos <= i && END_BLOCK_RESERVED <= |inp| && i + m <= |inp| && Agree(inp, i, pos, m)
    ensures Agree(inp, i, pos, MatchLength(inp, i, pos, m))
    decreases |inp| + 8 - i - m
  {
    hide Agree, FirstDifference;
    if i + m <= |inp| - END_BLOCK_RESERVED {
      var c := FirstDifference(inp, i + m, pos + m);
      DifferenceAgrees(inp, i + m, pos + m);
      Extend(inp, i, pos, m, c);
      if c == 8 { MatchAgrees(inp, i, pos, m + 8); }
    }
  }

  datatype Found = Found(pos: nat, size: nat)

  /** The slot of the `k`-th newest entry of bucket `h`, whose buckets hold `b` entries. */
  function EntryAt(h: nat, last: nat, b: nat, k: nat): nat
    requires k < b
  {
    h * b + (last + b - k - 1) % b
  }

  lemma EntryBound(h: nat, last: nat, hs: nat, b: nat, k: nat)
    requires h < hs && k < b
    ensures EntryAt(h, last, b, k) < hs * b
  {
    SlotBound(h, (last + b - k - 1) % b, hs, b);
  }

  /** The window test, with its 32-bit sum. */
  predicate OutOfWindow(pos: nat, i: nat) {
    (pos + WINDOW_SIZE) % 0x1_0000_0000 < i || pos > i
  }

  /** The longest match in the bucket, newest entry first, until one lies outside the window. */
  function Search(inp: seq<byte>, i: nat, tbl: Table, p: Params, h: nat, k: nat, best: Found): (r: Found)
    requires ValidParams(p) && ValidTable(tbl, p) && h < Pow2(p.hashBits) && END_BLOCK_RESERVED <= |inp|
    ensures best.pos <= i ==> r.pos <= i
    decreases Pow2(p.bucketBits) - k
  {
    var b := Pow2(p.bucketBits);
    if k >= b then best else
    EntryBound(h, tbl.last[h], Pow2(p.hashBits), b, k);
    var pos := tbl.slots[EntryAt(h, tbl.last[h], b, k)];
    if OutOfWindow(pos, i) then best else
    var size := MatchLength(inp, i, pos, 0);
    Search(inp, i, tbl, p, h, k + 1, if best.size < size then Found(pos, size) else best)
  }

  /** A usable match points to an earlier position in the window where the same bytes stand. */
  ghost predicate Usable(inp: seq<byte>, i: nat, f: Found) {
    f.size > 0 ==>
      && f.pos < i <= f.pos + WINDOW_SIZE && i + f.size <= |inp|
      && inp[i..i + f.size] == inp[f.pos..f.pos + f.size]
  }

  lemma UsableAt(inp: seq<byte>, i: nat, pos: nat)
    requires END_BLOCK_RESERVED <= |inp| <= MAX_SIZE && i <= |inp| && (pos == NONE || pos < i)
    requires !OutOfWindow(pos, i)
    ensures Usable(inp, i, Found(pos, MatchLength(inp, i, pos, 0)))
  {
    MatchAgrees(inp, i, pos, 0);
  }

  lemma {:induction false} SearchFinds(inp: seq<byte>, i: nat, tbl: Table, p: Params, h: nat, k: nat, best: Found)
    requires ValidParams(p) && ValidTable(tbl, p) && h < Pow2(p.hashBits) && END_BLOCK_RESERVED <= |inp| <= MAX_SIZE
    requires i <= |inp| && Before(tbl, i) && Usable(inp, i, best)
    ensures Usable(inp, i, Search(inp, i, tbl, p, h, k, best))
    decreases Pow2(p.bucketBits) - k
  {
    hide Pow2, Usable, EntryAt;
    var b := Pow2(p.bucketBits);
    if k < b {
      EntryBound(h, tbl.last[h], Pow2(p.hashBits), b, k);
      var pos := tbl.slots[EntryAt(h, tbl.last[h], b, k)];
      if !OutOfWindow(pos, i) {
        UsableAt(inp, i, pos);
        var size := MatchLength(inp, i, pos, 0);
        SearchFinds(inp, i, tbl, p, h, k + 1, if best.size < size then Found(pos, size) else best);
      }
    }
  }

  // ---- the greedy walk ----

  /** Enters the positions a match skips over, `speed` apart. */
  function InsertSkipped(inp: seq<byte>, i: nat, size: nat, k: nat, tbl: Table, p: Params): (r: Table)
    requires ValidParams(p) && ValidTable(tbl, p) && i + size + 4 <= |inp|
    ensures ValidTable(r, p)
    decreases size - k
  {
    if k >= size then tbl
    else InsertSkipped(inp, i, size, k + p.speed, Insert(tbl, p, Hash(inp, i + k, p.hashBits), i + k), p)
  }

  lemma {:induction false} SkippedBefore(inp: seq<byte>, i: nat, size: nat, k: nat, tbl: Table, p: Params)
    requires ValidParams(p) && ValidTable(tbl, p) && i + size + 4 <= |inp| && Before(tbl, i + size)
    ensures Before(InsertSkipped(inp, i, size, k, tbl, p), i + size)
    decreases size - k
  {
    if k < size {
      var h := Hash(inp, i + k, p.hashBits);
      hide Hash, Insert, ValidTable, Before;
      InsertBefore(tbl, p, h, i + k, i + size);
      SkippedBefore(inp, i, size, k + p.speed, Insert(tbl, p, h, i + k), p);
    }
  }

  /** What the walk does at position `i`, with `last` the end of the previous token. */
  datatype Move = Skip(tbl: Table) | Emit(token: Token, tbl: Table)

  function MoveAt(inp: seq<byte>, i: nat, last: nat, tbl: Table, p: Params): (r: Move)
    requires ValidParams(p) && ValidTable(tbl, p) && last <= i && i + END_BLOCK_RESERVED < |inp|
    ensures ValidTable(r.tbl, p)
    ensures r.Emit? ==> MIN_MATCH <= r.token.size && i + r.token.size + END_BLOCK_RESERVED <= |inp| && r.token.lits == inp[last..i]
  {
    var h := Hash(inp, i, p.hashBits);
    var best := Search(inp, i, tbl, p, h, 0, Found(0, 0));
    var tbl1 := Insert(tbl, p, h, i);
    var cost := (i - last) / 255 + 1;
    var room := |inp| - END_BLOCK_RESERVED - i;
    var size := if best.size > room then room else best.size;
    if size <= cost || size < MIN_MATCH then Skip(tbl1)
    else Emit(Token(inp[last..i], i - best.pos, size), InsertSkipped(inp, i, size, 1, tbl1, p))
  }

  /** The tokens chosen from position `i` on. */
  function Tokens(inp: seq<byte>, i: nat, last: nat, tbl: Table, p: Params): (ts: seq<Token>)
    requires ValidParams(p) && ValidTable(tbl, p) && last <= i
    decreases |inp| - i
  {
    if i + END_BLOCK_RESERVED >= |inp| then []
    else match MoveAt(inp, i, last, tbl, p)
      case Skip(tbl1) => Tokens(inp, i + p.speed, last, tbl1, p)
      case Emit(t, tbl1) => [t] + Tokens(inp, i + t.size, i + t.size, tbl1, p)
  }

  /** Where a token's match comes from and what it costs. */
  lemma MoveIsSound(inp: seq<byte>, i: nat, last: nat, tbl: Table, p: Params)
    requires ValidParams(p) && ValidTable(tbl, p) && last <= i && i + END_BLOCK_RESERVED < |inp| <= MAX_SIZE
    requires Before(tbl, i)
    ensures match MoveAt(inp, i, last, tbl, p)
      case Skip(tbl1) => Before(tbl1, i + 1)
      case Emit(t, tbl1) =>
        && ValidToken(t) && t.offset <= i && t.size > |t.lits| / 255 + 1
        && CopyMatch(inp[..i], t.offset, t.size) == inp[..i + t.size]
        && Before(tbl1, i + t.size)
  {
    hide Search, Hash, CopyMatch, Pow2, Insert, ValidTable;
    var h := Hash(inp, i, p.hashBits);
    var best := Search(inp, i, tbl, p, h, 0, Found(0, 0));
    SearchFinds(inp, i, tbl, p, h, 0, Found(0, 0));
    assert Before(tbl, i + 1);
    InsertBefore(tbl, p, h, i, i + 1);
    var tbl1 := Insert(tbl, p, h, i);
    var m := MoveAt(inp, i, last, tbl, p);
    if m.Emit? {
      assert Before(tbl1, i + m.token.size);
      hide Before;
      SkippedBefore(inp, i, m.token.size, 1, tbl1, p);
      MatchCopies(inp, i, best.pos, best.size, m.token.size);
    }
  }

  /** Copying from an agreeing earlier position reproduces the input. */
  lemma MatchCopies(inp: seq<byte>, i: nat, pos: nat, size: nat, n: nat)
    requires pos < i && n <= size && i + size <= |inp| && inp[i..i + size] == inp[pos..pos + size]
    ensures CopyMatch(inp[..i], i - pos, n) == inp[..i + n]
  {
    var r := inp[..i + n];
    forall k | i <= k < |r| ensures r[k] == r[k - (i - pos)] {
      assert inp[i..i + size][k - i] == inp[pos..pos + size][k - i];
    }
    assert r[..i] == inp[..i];
    CopyMatchIs(inp[..i], i - pos, n, r);
  }

  /** The tokens reproduce a prefix of the input that ends before its reserved last bytes. */
  lemma {:induction false} TokensAreSound(inp: seq<byte>, i: nat, last: nat, tbl: Table, p: Params)
    requires ValidParams(p) && ValidTable(tbl, p) && last <= i && last <= |inp| <= MAX_SIZE && Before(tbl, i)
    ensures var ts := Tokens(inp, i, last, tbl, p);
      && AllValid(ts) && Grounded(ts, last)
      && Expand(ts, inp[..last]) <= inp
      && (ts != [] ==> |Expand(ts, inp[..last])| + END_BLOCK_RESERVED <= |inp|)
    decreases |inp| - i
  {
    hide MoveAt, ValidTable, CopyMatch;
    if i + END_BLOCK_RESERVED < |inp| {
      MoveIsSound(inp, i, last, tbl, p);
      match MoveAt(inp, i, last, tbl, p)
      case Skip(tbl1) =>
        assert Before(tbl1, i + p.speed) by { Later(tbl1, p, i); }
        TokensAreSound(inp, i + p.speed, last, tbl1, p);
      case Emit(t, tbl1) =>
        var rest := Tokens(inp, i + t.size, i + t.size, tbl1, p);
        TokensAreSound(inp, i + t.size, i + t.size, tbl1, p);
        Prepend(inp, last, i, t, rest);
    } else {
      assert inp[..last] <= inp;
    }
  }

  lemma Later(tbl: Table, p: Params, i: nat)
    requires ValidParams(p) && Before(tbl, i + 1)
    ensures Before(tbl, i + p.speed)
  {
  }

  lemma Prepend(inp: seq<byte>, last: nat, i: nat, t: Token, rest: seq<Token>)
    requires last <= i && i + t.size <= |inp| && t.lits == inp[last..i] && ValidToken(t) && t.offset <= i
    requires CopyMatch(inp[..i], t.offset, t.size) == inp[..i + t.size]
    requires AllValid(rest) && Grounded(rest, i + t.size)
    ensures AllValid([t] + rest) && Grounded([t] + rest, last)
    ensures Expand([t] + rest, inp[..last]) == Expand(rest, inp[..i + t.size])
  {
    hide CopyMatch;
    var ts := [t] + rest;
    assert ts[1..] == rest;
    assert inp[..last] + t.lits == inp[..i];
  }

  /** Literals come in strides of the speed. */
  lemma {:induction false} LiteralStrides(inp: seq<byte>, i: nat, last: nat, tbl: Table, p: Params)
    requires ValidParams(p) && ValidTable(tbl, p) && last <= i && (i - last) % p.speed == 0
    ensures forall k :: 0 <= k < |Tokens(inp, i, last, tbl, p)| ==> |Tokens(inp, i, last, tbl, p)[k].lits| % p.speed == 0
    decreases |inp| - i
  {
    hide MoveAt, ValidTable;
    if i + END_BLOCK_RESERVED < |inp| {
      match MoveAt(inp, i, last, tbl, p)
      case Skip(tbl1) =>
        NextStride(i - last, p.speed);
        LiteralStrides(inp, i + p.speed, last, tbl1, p);
      case Emit(t, tbl1) => LiteralStrides(inp, i + t.size, i + t.size, tbl1, p);
    }
  }

  lemma NextStride(x: nat, s: nat)
    requires s > 0 && x % s == 0
    ensures (x + s) % s == 0
  {
    DivMod(s, x);
    QuotientUnique(s, x + s, x / s + 1, 0);
  }
}
