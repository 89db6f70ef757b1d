/**
 The compressor's table as it lies in the caller's memory: 32-bit slots, then one byte per bucket.
 The number of slots is a 32-bit product. Where it wraps around, the two parts lie on top of each
 other and clearing the table does nothing; where it does not, the table is that of `Lz4Tokens`.
 */
module Lz4Shape {
  import opened Arith
  import opened Lz4Format
  import opened Lz4Tokens
  import opened Lz4Compress
  import opened Lz4Accept

  // ---- memory ----

  function ByteAt(mem: seq<byte>, k: nat): byte {
    if k < |mem| then mem[k] else 0
  }

  function PutByte(mem: seq<byte>, k: nat, v: byte): (r: seq<byte>)
    ensures |r| == |mem|
  {
    if k < |mem| then mem[k := v] else mem
  }

  /** A 32-bit number, lowest byte first. */
  function SlotAt(mem: seq<byte>, k: nat): (r: nat)
    ensures r < WORD
  {
    ByteAt(mem, 4 * k) as int + 0x100 * ByteAt(mem, 4 * k + 1) as int
      + 0x1_0000 * ByteAt(mem, 4 * k + 2) as int + 0x100_0000 * ByteAt(mem, 4 * k + 3) as int
  }

  function PutSlot(mem: seq<byte>, k: nat, v: nat): (r: seq<byte>)
    requires v < WORD
    ensures |r| == |mem|
  {
    PutByte(PutByte(PutByte(PutByte(mem, 4 * k, v % 0x100), 4 * k + 1, v / 0x100 % 0x100),
                    4 * k + 2, v / 0x1_0000 % 0x100), 4 * k + 3, v / 0x100_0000)
  }

  function BucketSize(p: Params): (b: nat)
    requires Accepted(p)
    ensures 0 < b <= 256
  {
    BucketBound(p.bucketBits);
    Pow2(p.bucketBits)
  }

  lemma BucketBound(bits: nat)
    requires bits <= 8
    ensures Pow2(bits) <= 256
  {
    Pow2Add(bits, 8 - bits);
    assert Pow2(8) == 256;
  }

  /** Where the bytes of the buckets begin. */
  function LastBase(p: Params): nat {
    4 * Word(Pow2(p.hashBits) * Pow2(p.bucketBits))
  }

  function LastAt(mem: seq<byte>, p: Params, h: nat): byte {
    ByteAt(mem, LastBase(p) + h)
  }

  /** The first slot of a bucket. */
  function BucketBase(p: Params, h: nat): nat {
    Word(h * Pow2(p.bucketBits))
  }

  /** What the caller has to provide. */
  function Required(p: Params): nat {
    4 * (Pow2(p.hashBits) * Pow2(p.bucketBits)) + Pow2(p.hashBits)
  }

  /** Fills the slots with ones, then the bytes of the buckets with zeros. */
  function Setup(mem: seq<byte>, p: Params): (r: seq<byte>)
    ensures |r| == |mem|
  {
    seq(|mem|, k requires 0 <= k < |mem| =>
      if LastBase(p) <= k < LastBase(p) + Pow2(p.hashBits) then 0 else if k < LastBase(p) then 255 else mem[k])
  }

  // ---- the compressor on it ----

  function SearchIn(inp: seq<byte>, i: nat, mem: seq<byte>, p: Params, h: nat, k: nat, best: Found): (r: Found)
    requires Accepted(p) && END_BLOCK_RESERVED <= |inp| && i <= MAX_SIZE
    requires best.pos <= i && (best.size > 0 ==> i <= best.pos + WINDOW_SIZE)
    ensures r.pos <= i && (r.size > 0 ==> i <= r.pos + WINDOW_SIZE)
    decreases BucketSize(p) - k
  {
    var b := BucketSize(p);
    if k >= b then best else
    var pos := SlotAt(mem, EntryIn(p, h, LastAt(mem, p, h), k));
    if OutOfWindow(pos, i) then best else
    var size := MatchLength(inp, i, pos, 0);
    SearchIn(inp, i, mem, p, h, k + 1, if best.size < size then Found(pos, size) else best)
  }

  function EntryIn(p: Params, h: nat, last: nat, k: nat): nat
    requires Accepted(p) && k < BucketSize(p)
  {
    BucketBase(p, h) + (last + BucketSize(p) - k - 1) % BucketSize(p)
  }

  /** The byte of the bucket is read again after the slot is written. */
  function InsertIn(mem: seq<byte>, p: Params, h: nat, pos: nat): (r: seq<byte>)
    requires Accepted(p) && pos < WORD
    ensures |r| == |mem|
  {
    var mem1 := PutSlot(mem, BucketBase(p, h) + LastAt(mem, p, h), pos);
    PutByte(mem1, LastBase(p) + h, (LastAt(mem1, p, h) + 1) % BucketSize(p))
  }

  function SkippedIn(inp: seq<byte>, i: nat, size: nat, k: nat, mem: seq<byte>, p: Params): (r: seq<byte>)
    requires Accepted(p) && i + size + 4 <= |inp| <= MAX_SIZE
    ensures |r| == |mem|
    decreases size - k
  {
    if k >= size then mem
    else SkippedIn(inp, i, size, k + p.speed, InsertIn(mem, p, Hash(inp, i + k, p.hashBits), i + k), p)
  }

  datatype MoveIn = SkipIn(mem: seq<byte>) | EmitIn(token: Token, mem: seq<byte>)

  function StepIn(inp: seq<byte>, i: nat, last: nat, mem: seq<byte>, p: Params): (r: MoveIn)
    requires Accepted(p) && last <= i && i + END_BLOCK_RESERVED < |inp| <= MAX_SIZE
    ensures |r.mem| == |mem|
    ensures r.EmitIn? ==> Writable(r.token) && i + r.token.size + END_BLOCK_RESERVED <= |inp| && r.token.lits == inp[last..i]
  {
    var h := Hash(inp, i, p.hashBits);
    var best := SearchIn(inp, i, mem, p, h, 0, Found(0, 0));
    var mem1 := InsertIn(mem, p, h, i);
    var cost := (i - last) / 255 + 1;
    var room := |inp| - END_BLOCK_RESERVED - i;
    var size := if best.size > room then room else best.size;
    if size <= cost || size < MIN_MATCH then SkipIn(mem1)
    else EmitIn(Token(inp[last..i], i - best.pos, size), SkippedIn(inp, i, size, 1, mem1, p))
  }

  function TokensIn(inp: seq<byte>, i: nat, last: nat, mem: seq<byte>, p: Params): (ts: seq<Token>)
    requires Accepted(p) && last <= i && |inp| <= MAX_SIZE
    ensures AllWritable(ts) && (last <= |inp| ==> last + Span(ts) <= |inp|)
    decreases |inp| - i
  {
    if i + END_BLOCK_RESERVED >= |inp| then []
    else match StepIn(inp, i, last, mem, p)
      case SkipIn(mem1) => TokensIn(inp, i + p.speed, last, mem1, p)
      case EmitIn(t, mem1) => [t] + TokensIn(inp, i + t.size, i + t.size, mem1, p)
  }

  /** The compressed form, with a table in the memory `mem`. */
  function CompressedIn(inp: seq<byte>, p: Params, mem: seq<byte>): seq<byte>
    requires Accepted(p) && |inp| <= MAX_SIZE
  {
    var ts := TokensIn(inp, 0, 0, Setup(mem, p), p);
    Spelled(ts, inp[Span(ts)..], 0)
  }

  // ---- a table whose size is a 32-bit number ----

  /** The memory as the table it stands for. */
  ghost function View(mem: seq<byte>, p: Params): (tbl: Table)
    ensures |tbl.slots| == Pow2(p.hashBits) * Pow2(p.bucketBits) && |tbl.last| == Pow2(p.hashBits)
  {
    Table(seq(Pow2(p.hashBits) * Pow2(p.bucketBits), (k: nat) => SlotAt(mem, k)),
          seq(Pow2(p.hashBits), (k: nat) => LastAt(mem, p, k) as nat))
  }

  ghost predicate Holds(mem: seq<byte>, p: Params) {
    ValidParams(p) && |mem| == Required(p) && ValidTable(View(mem, p), p)
  }

  lemma ProductFits(p: Params)
    requires ValidParams(p)
    ensures Pow2(p.hashBits) * Pow2(p.bucketBits) < WORD
    ensures LastBase(p) == 4 * (Pow2(p.hashBits) * Pow2(p.bucketBits))
  {
    Pow2Add(p.hashBits, p.bucketBits);
    Pow2Add(p.hashBits + p.bucketBits, 32 - p.hashBits - p.bucketBits);
    Pow2At32();
    var x, y := Pow2(p.hashBits + p.bucketBits), Pow2(32 - p.hashBits - p.bucketBits);
    assert y >= 2;
    assert x * y >= x * 2;
  }

  lemma BucketFits(p: Params, h: nat, k: nat)
    requires ValidParams(p) && h < Pow2(p.hashBits) && k < Pow2(p.bucketBits)
    ensures BucketBase(p, h) == h * Pow2(p.bucketBits)
    ensures h * Pow2(p.bucketBits) + k < Pow2(p.hashBits) * Pow2(p.bucketBits)
  {
    hide Pow2;
    ProductFits(p);
    SlotBound(h, k, Pow2(p.hashBits), Pow2(p.bucketBits));
  }

  lemma FourBytes(v: nat)
    requires v < WORD
    ensures v % 0x100 + 0x100 * (v / 0x100 % 0x100) + 0x1_0000 * (v / 0x1_0000 % 0x100) + 0x100_0000 * (v / 0x100_0000) == v
    ensures v / 0x100_0000 < 0x100
  {
  }

  lemma SlotWritten(mem: seq<byte>, k: nat, v: nat)
    requires v < WORD && 4 * k + 3 < |mem|
    ensures SlotAt(PutSlot(mem, k, v), k) == v
  {
    FourBytes(v);
  }

  lemma BytesKept(mem: seq<byte>, k: nat, v: nat, q: nat)
    requires v < WORD && !(4 * k <= q <= 4 * k + 3)
    ensures ByteAt(PutSlot(mem, k, v), q) == ByteAt(mem, q)
  {
  }

  lemma SlotKept(mem: seq<byte>, k: nat, v: nat, j: nat)
    requires v < WORD && j != k
    ensures SlotAt(PutSlot(mem, k, v), j) == SlotAt(mem, j)
  {
    hide ByteAt, PutSlot;
    BytesKept(mem, k, v, 4 * j);
    BytesKept(mem, k, v, 4 * j + 1);
    BytesKept(mem, k, v, 4 * j + 2);
    BytesKept(mem, k, v, 4 * j + 3);
  }

  lemma SlotBefore(mem: seq<byte>, q: nat, v: byte, j: nat)
    requires 4 * j + 3 < q
    ensures SlotAt(PutByte(mem, q, v), j) == SlotAt(mem, j)
  {
  }

  /** Clearing leaves the empty table, whatever the memory held. */
  lemma SetupView(mem: seq<byte>, p: Params)
    requires ValidParams(p) && |mem| == Required(p)
    ensures Holds(Setup(mem, p), p) && View(Setup(mem, p), p) == EmptyTable(p)
  {
    hide Pow2;
    ProductFits(p);
    var n := Pow2(p.hashBits) * Pow2(p.bucketBits);
    var mem' := Setup(mem, p);
    forall k | 0 <= k < n ensures SlotAt(mem', k) == NONE {
      assert 4 * k + 3 < 4 * n;
    }
    assert View(mem', p).slots == EmptyTable(p).slots;
    assert View(mem', p).last == EmptyTable(p).last;
  }

  lemma InsertView(mem: seq<byte>, p: Params, h: nat, pos: nat)
    requires Holds(mem, p) && h < Pow2(p.hashBits) && pos < WORD
    ensures Holds(InsertIn(mem, p, h, pos), p) && View(InsertIn(mem, p, h, pos), p) == Insert(View(mem, p), p, h, pos)
  {
    hide Pow2, PutSlot, PutByte, ByteAt, SlotAt;
    var b, last, mem' := Pow2(p.bucketBits), LastAt(mem, p, h), InsertIn(mem, p, h, pos);
    assert last == View(mem, p).last[h];
    BucketFits(p, h, last);
    ProductFits(p);
    var at := h * b + last;
    forall k: nat | k < Pow2(p.hashBits) * b ensures SlotAt(mem', k) == if k == at then pos else SlotAt(mem, k) {
      InsertedSlot(mem, p, h, pos, at, k);
    }
    forall k: nat | k < Pow2(p.hashBits) ensures LastAt(mem', p, k) == if k == h then (last + 1) % b else LastAt(mem, p, k) {
      InsertedLast(mem, p, h, pos, at, k);
    }
    var tbl := Insert(View(mem, p), p, h, pos);
    assert View(mem', p).slots == tbl.slots;
    assert View(mem', p).last == tbl.last;
  }

  lemma InsertedSlot(mem: seq<byte>, p: Params, h: nat, pos: nat, at: nat, k: nat)
    requires Accepted(p) && pos < WORD && at == BucketBase(p, h) + LastAt(mem, p, h)
    requires 4 * at + 3 < LastBase(p) <= |mem| && 4 * k + 3 < LastBase(p)
    ensures SlotAt(InsertIn(mem, p, h, pos), k) == if k == at then pos else SlotAt(mem, k)
  {
    hide Pow2, LastBase, BucketBase, SlotAt, PutSlot, PutByte, ByteAt, LastAt, BucketSize;
    var mem1 := PutSlot(mem, at, pos);
    SlotBefore(mem1, LastBase(p) + h, (LastAt(mem1, p, h) + 1) % BucketSize(p), k);
    if k == at { SlotWritten(mem, at, pos); } else { SlotKept(mem, at, pos, k); }
  }

  lemma InsertedLast(mem: seq<byte>, p: Params, h: nat, pos: nat, at: nat, k: nat)
    requires Accepted(p) && pos < WORD && at == BucketBase(p, h) + LastAt(mem, p, h)
    requires 4 * at + 3 < LastBase(p) && LastBase(p) + h < |mem|
    ensures LastAt(InsertIn(mem, p, h, pos), p, k) == if k == h then (LastAt(mem, p, h) + 1) % BucketSize(p) else LastAt(mem, p, k)
  {
    hide Pow2, LastBase, BucketBase, SlotAt, PutSlot, BucketSize;
    BytesKept(mem, at, pos, LastBase(p) + h);
    BytesKept(mem, at, pos, LastBase(p) + k);
  }

  lemma {:induction false} SearchView(inp: seq<byte>, i: nat, mem: seq<byte>, p: Params, h: nat, k: nat, best: Found)
    requires Holds(mem, p) && h < Pow2(p.hashBits) && END_BLOCK_RESERVED <= |inp| && i <= MAX_SIZE
    requires best.pos <= i && (best.size > 0 ==> i <= best.pos + WINDOW_SIZE)
    ensures SearchIn(inp, i, mem, p, h, k, best) == Search(inp, i, View(mem, p), p, h, k, best)
    decreases BucketSize(p) - k
  {
    hide Pow2, SlotAt, ByteAt, LastBase, BucketBase;
    var b, tbl := BucketSize(p), View(mem, p);
    if k < b {
      EntryBound(h, tbl.last[h], Pow2(p.hashBits), b, k);
      BucketFits(p, h, 0);
      var pos := SlotAt(mem, EntryIn(p, h, LastAt(mem, p, h), k));
      assert pos == tbl.slots[EntryAt(h, tbl.last[h], b, k)];
      if !OutOfWindow(pos, i) {
        var size := MatchLength(inp, i, pos, 0);
        SearchView(inp, i, mem, p, h, k + 1, if best.size < size then Found(pos, size) else best);
      }
    }
  }

  lemma {:induction false} SkippedView(inp: seq<byte>, i: nat, size: nat, k: nat, mem: seq<byte>, p: Params)
    requires Holds(mem, p) && i + size + 4 <= |inp| <= MAX_SIZE
    ensures Holds(SkippedIn(inp, i, size, k, mem, p), p)
    ensures View(SkippedIn(inp, i, size, k, mem, p), p) == InsertSkipped(inp, i, size, k, View(mem, p), p)
    decreases size - k
  {
    hide InsertIn, Hash, Insert, View, ValidTable, Pow2, Required;
    if k < size {
      var h := Hash(inp, i + k, p.hashBits);
      InsertView(mem, p, h, i + k);
      SkippedView(inp, i, size, k + p.speed, InsertIn(mem, p, h, i + k), p);
    }
  }

  lemma StepView(inp: seq<byte>, i: nat, last: nat, mem: seq<byte>, p: Params)
    requires Holds(mem, p) && last <= i && i + END_BLOCK_RESERVED < |inp| <= MAX_SIZE
    ensures var r := StepIn(inp, i, last, mem, p);
      && Holds(r.mem, p)
      && match MoveAt(inp, i, last, View(mem, p), p)
         case Skip(tbl) => r == SkipIn(r.mem) && View(r.mem, p) == tbl
         case Emit(t, tbl) => r == EmitIn(t, r.mem) && View(r.mem, p) == tbl
  {
    hide InsertIn, Hash, Insert, View, ValidTable, Pow2, Required, SearchIn, Search, SkippedIn, InsertSkipped;
    var h := Hash(inp, i, p.hashBits);
    SearchView(inp, i, mem, p, h, 0, Found(0, 0));
    InsertView(mem, p, h, i);
    var r := StepIn(inp, i, last, mem, p);
    if r.EmitIn? { SkippedView(inp, i, r.token.size, 1, InsertIn(mem, p, h, i), p); }
  }

  lemma {:induction false} TokensView(inp: seq<byte>, i: nat, last: nat, mem: seq<byte>, p: Params)
    requires Holds(mem, p) && last <= i && |inp| <= MAX_SIZE
    ensures TokensIn(inp, i, last, mem, p) == Tokens(inp, i, last, View(mem, p), p)
    decreases |inp| - i
  {
    hide StepIn, MoveAt, View, ValidTable, Required, Pow2;
    if i + END_BLOCK_RESERVED < |inp| {
      StepView(inp, i, last, mem, p);
      match StepIn(inp, i, last, mem, p)
      case SkipIn(mem1) => TokensView(inp, i + p.speed, last, mem1, p);
      case EmitIn(t, mem1) => TokensView(inp, i + t.size, i + t.size, mem1, p);
    }
  }

  /** Then the result does not depend on the memory. */
  lemma MemoryDoesNotMatter(inp: seq<byte>, p: Params, mem: seq<byte>)
    requires ValidParams(p) && |mem| == Required(p) && |inp| <= MAX_SIZE
    ensures CompressedIn(inp, p, mem) == Compressed(inp, p)
  {
    hide Setup, View, ValidTable, Pow2, Required, Tokens, TokensIn, Spelled, Encode;
    SetupView(mem, p);
    TokensView(inp, 0, 0, Setup(mem, p), p);
    ChosenAreSound(inp, p);
    EncodedIsSpelled(Chosen(inp, p), Remaining(inp, p));
  }

  // ---- a table whose size wraps around ----

  lemma ProductWraps(p: Params)
    requires Accepted(p) && p.hashBits + p.bucketBits >= 32
    ensures LastBase(p) == 0
  {
    Pow2Add(p.hashBits, p.bucketBits);
    Pow2Add(32, p.hashBits + p.bucketBits - 32);
    Pow2At32();
    QuotientUnique(WORD, Pow2(p.hashBits + p.bucketBits), Pow2(p.hashBits + p.bucketBits - 32), 0);
  }

  function Blank(p: Params): (mem: seq<byte>)
    ensures |mem| == Required(p)
  {
    seq(Required(p), _ => 0)
  }

  lemma BlankStays(p: Params)
    requires Accepted(p) && p.hashBits + p.bucketBits >= 32
    ensures Setup(Blank(p), p) == Blank(p)
  {
    hide Pow2;
    ProductWraps(p);
  }

  lemma {:induction false} SameAgrees(inp: seq<byte>, a: nat, k: nat)
    requires k <= 8 && a + 8 <= |inp|
    ensures Common(inp, a, a, k) == 8
    decreases 8 - k
  {
    if k < 8 { SameAgrees(inp, a, k + 1); }
  }

  /** A position matches itself as far as matches may go. */
  lemma {:induction false} MatchesItself(inp: seq<byte>, i: nat, m: nat)
    requires END_BLOCK_RESERVED <= |inp|
    ensures i + MatchLength(inp, i, i, m) > |inp| - END_BLOCK_RESERVED
    decreases |inp| + 8 - i - m
  {
    if i + m <= |inp| - END_BLOCK_RESERVED {
      SameAgrees(inp, i + m, 0);
      MatchesItself(inp, i, m + 8);
    }
  }

  lemma BlankSlot(p: Params, k: nat)
    ensures SlotAt(Blank(p), k) == 0
  {
  }

  lemma {:induction false} BlankSearch(inp: seq<byte>, p: Params, h: nat, k: nat, best: Found)
    requires Accepted(p) && END_BLOCK_RESERVED < |inp| && best.pos == 0
    requires best.size > |inp| - END_BLOCK_RESERVED || k < BucketSize(p)
    ensures var r := SearchIn(inp, 0, Blank(p), p, h, k, best); r.pos == 0 && r.size > |inp| - END_BLOCK_RESERVED
    decreases BucketSize(p) - k
  {
    hide LastAt, EntryIn, BucketSize, SlotAt, Blank;
    if k < BucketSize(p) {
      BlankSlot(p, EntryIn(p, h, LastAt(Blank(p), p, h), k));
      MatchesItself(inp, 0, 0);
      var size := MatchLength(inp, 0, 0, 0);
      BlankSearch(inp, p, h, k + 1, if best.size < size then Found(0, size) else best);
    }
  }

  /** The first position is taken for a match with itself. */
  lemma FirstToken(inp: seq<byte>, p: Params)
    requires Accepted(p) && |inp| >= END_BLOCK_RESERVED + MIN_MATCH && |inp| <= MAX_SIZE
    ensures var ts := TokensIn(inp, 0, 0, Blank(p), p); ts != [] && ts[0] == Token([], 0, |inp| - END_BLOCK_RESERVED)
  {
    hide SearchIn, InsertIn, SkippedIn, Hash, Blank;
    BlankSearch(inp, p, Hash(inp, 0, p.hashBits), 0, Found(0, 0));
  }

  /** The decoder rejects tokens of which the first has offset zero. */
  lemma ZeroOffsetFails(ts: seq<Token>, lits: seq<byte>, cap: nat)
    requires AllWritable(ts) && ts != [] && ts[0].lits == [] && ts[0].offset == 0 && ts[0].size <= cap <= MAX_SIZE
    ensures Decode(Spelled(ts, lits, 0), 0, [], cap) == Err(OffsetZero)
  {
    hide EncodeToken, TokenStep, CopyMatch, SpelledLast;
    var t := ts[0];
    var rest := Spelled(ts[1..], lits, 0);
    var s := EncodeToken(t) + rest;
    assert At(s, 0, EncodeToken(t));
    StepToken(s, 0, [], cap, t);
  }

  /** Zeroed memory then makes every input of at least sixteen bytes come back as an error. */
  lemma WrappedTableFails(inp: seq<byte>, p: Params)
    requires Accepted(p) && p.hashBits + p.bucketBits >= 32 && 16 <= |inp| <= MAX_SIZE
    ensures Decode(CompressedIn(inp, p, Blank(p)), 0, [], |inp|) == Err(OffsetZero)
  {
    hide Blank, Setup, TokensIn, Spelled, Decode, Required, Span;
    BlankStays(p);
    FirstToken(inp, p);
    var ts := TokensIn(inp, 0, 0, Blank(p), p);
    ZeroOffsetFails(ts, inp[Span(ts)..], |inp|);
  }

  /** Whatever the caller's memory held, every input comes back, if and only if the number of slots is a
      32-bit number. */
  lemma ShapesThatWork(p: Params)
    requires Accepted(p)
    ensures (forall mem, inp: seq<byte> :: |mem| == Required(p) && |inp| <= MAX_SIZE ==>
               Decode(CompressedIn(inp, p, mem), 0, [], |inp|) == Ok(inp))
       <==> p.hashBits + p.bucketBits < 32
  {
    hide CompressedIn, Compressed, Decode, Required, Blank;
    if p.hashBits + p.bucketBits < 32 {
      forall mem, inp: seq<byte> | |mem| == Required(p) && |inp| <= MAX_SIZE
        ensures Decode(CompressedIn(inp, p, mem), 0, [], |inp|) == Ok(inp)
      {
        MemoryDoesNotMatter(inp, p, mem);
        RoundTrip(inp, p, |inp|);
      }
    } else {
      var inp: seq<byte> := seq(16, _ => 0);
      WrappedTableFails(inp, p);
      assert |Blank(p)| == Required(p);
    }
  }
}
