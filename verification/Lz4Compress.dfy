/**
 The compressor: its loops over arrays compute the encoding of the tokens chosen by
 `Lz4Tokens`, and that encoding decodes to the input and fits the promised sizes.
 */
module Lz4Compress {
  import opened Arith
  import opened Lz4Format
  import opened Lz4Tokens
  import opened Lz4Phases
  import opened Lz4Decompress

  // ---- what is computed ----

  function EmptyTable(p: Params): (tbl: Table)
    requires ValidParams(p)
    ensures ValidTable(tbl, p) && Before(tbl, 0)
  {
    Table(seq(Pow2(p.hashBits) * Pow2(p.bucketBits), _ => NONE), seq(Pow2(p.hashBits), _ => 0))
  }

  function Chosen(inp: seq<byte>, p: Params): seq<Token>
    requires ValidParams(p)
  {
    Tokens(inp, 0, 0, EmptyTable(p), p)
  }

  lemma ChosenAreSound(inp: seq<byte>, p: Params)
    requires ValidParams(p) && |inp| <= MAX_SIZE
    ensures var ts := Chosen(inp, p);
      && AllValid(ts) && Grounded(ts, 0) && Span(ts) <= |inp| && Expand(ts, []) == inp[..Span(ts)]
      && (ts != [] ==> Span(ts) + END_BLOCK_RESERVED <= |inp|)
  {
    TokensAreSound(inp, 0, 0, EmptyTable(p), p);
    assert inp[..0] == [];
    ExpandSpan(Chosen(inp, p), []);
  }

  /** The bytes after the last match. */
  function Remaining(inp: seq<byte>, p: Params): seq<byte>
    requires ValidParams(p) && |inp| <= MAX_SIZE
  {
    ChosenAreSound(inp, p);
    inp[Span(Chosen(inp, p))..]
  }

  /** The compressed form: the chosen tokens, then the remaining bytes as literals. */
  function Compressed(inp: seq<byte>, p: Params): (s: seq<byte>)
    requires ValidParams(p) && |inp| <= MAX_SIZE
  {
    ChosenAreSound(inp, p);
    Encode(Chosen(inp, p), Remaining(inp, p))
  }

  /** Every size check passes with an output of `cap` bytes. */
  predicate Suffices(inp: seq<byte>, p: Params, cap: nat)
    requires ValidParams(p) && |inp| <= MAX_SIZE
  {
    ChosenAreSound(inp, p);
    Fits(Chosen(inp, p), Remaining(inp, p), 0, cap)
  }

  /** Decompressing the compressed form gives back the input, for every speed and every table shape
      whose size is a 32-bit number, by the careful loop alone and by both phases. */
  lemma RoundTrip(inp: seq<byte>, p: Params, cap: nat)
    requires ValidParams(p) && |inp| <= cap <= MAX_SIZE
    ensures Decode(Compressed(inp, p), 0, [], cap) == Ok(inp)
    ensures |Compressed(inp, p)| <= MAX_SIZE ==> TwoPhase(Compressed(inp, p), cap) == Ok(inp)
  {
    hide Chosen, Decode, TwoPhase, Encode, Expand, Grounded, AllValid;
    ChosenAreSound(inp, p);
    var ts := Chosen(inp, p);
    EncodedAgrees(ts, inp[Span(ts)..], cap);
    assert inp[..Span(ts)] + inp[Span(ts)..] == inp;
  }

  /** The end-of-block conditions of the LZ4 block format: every offset fits sixteen bits and is not zero,
      every match is at least four bytes, and the last twelve bytes of the input are literals. */
  lemma EndOfBlockConditions(inp: seq<byte>, p: Params)
    requires ValidParams(p) && |inp| <= MAX_SIZE
    ensures var ts := Chosen(inp, p);
      && (forall k :: 0 <= k < |ts| ==> 1 <= ts[k].offset <= 65535 && ts[k].size >= 4)
      && (ts != [] ==> Span(ts) + 12 <= |inp|)
  {
    ChosenAreSound(inp, p);
  }

  /** The promised upper bound is always enough. */
  lemma UpperBoundSuffices(inp: seq<byte>, p: Params, cap: nat)
    requires ValidParams(p) && |inp| <= MAX_SIZE && SizeUpperBound(|inp|) <= cap
    ensures Suffices(inp, p, cap) && |Compressed(inp, p)| <= SizeUpperBound(|inp|)
  {
    hide Chosen;
    ChosenAreSound(inp, p);
    var ts := Chosen(inp, p);
    UpperBoundFits(ts, inp[Span(ts)..], 0, 0, |inp|);
    FitsBounds(ts, inp[Span(ts)..], 0, SizeUpperBound(|inp|));
    FitsMore(ts, inp[Span(ts)..], 0, SizeUpperBound(|inp|), cap);
  }

  /** What a dry run returns is always enough. */
  lemma DryRunSuffices(inp: seq<byte>, p: Params, cap: nat)
    requires ValidParams(p) && |inp| <= MAX_SIZE && |Compressed(inp, p)| + 16 <= cap
    ensures Suffices(inp, p, cap)
  {
    hide Chosen;
    ChosenAreSound(inp, p);
    var ts := Chosen(inp, p);
    EncodedSizeFits(ts, inp[Span(ts)..], 0);
    FitsMore(ts, inp[Span(ts)..], 0, |Encode(ts, inp[Span(ts)..])| + 16, cap);
  }

  /** Compressing never takes more than writing all bytes as literals. */
  lemma NeverWorse(inp: seq<byte>, p: Params)
    requires ValidParams(p) && |inp| <= MAX_SIZE
    ensures |Compressed(inp, p)| <= LiteralSize(|inp|)
  {
    hide Chosen, LiteralSize;
    ChosenAreSound(inp, p);
    var ts := Chosen(inp, p);
    LiteralsAreWorst(ts, inp[Span(ts)..]);
  }

  // ---- writing tokens ----

  /** Pushes an extended size; a dry run only counts. */
  method PutExt(out: array<byte>, dry: bool, o: nat, n: nat) returns (o': nat)
    requires !dry ==> o + n / 255 + 1 <= out.Length
    modifies out
    ensures o' == o + |ExtBytes(n)|
    ensures dry ==> out[..] == old(out[..])
    ensures !dry ==> o' <= out.Length && out[..o] == old(out[..o]) && out[o..o'] == ExtBytes(n)
  {
    o' := o;
    var curr := n;
    ExtBytesLength(n);
    while curr >= 255
      invariant o <= o' && curr >= 0 && |ExtBytes(n)| == o' - o + |ExtBytes(curr)|
      invariant dry ==> out[..] == old(out[..])
      invariant !dry ==> o' + curr / 255 + 1 <= out.Length && out[..o] == old(out[..o])
      invariant !dry ==> out[o..o'] + ExtBytes(curr) == ExtBytes(n)
    {
      if !dry {
        out[o'] := 255;
        assert out[o..o' + 1] + ExtBytes(curr - 255) == out[o..o'] + ([255] + ExtBytes(curr - 255));
      }
      o' := o' + 1;
      curr := curr - 255;
    }
    if !dry {
      out[o'] := curr;
      assert out[o..o' + 1] == out[o..o'] + [curr];
    }
    o' := o' + 1;
  }

  /** The extension of a size field, if it needs one. */
  method PutSize(out: array<byte>, dry: bool, o: nat, n: nat) returns (o': nat)
    requires !dry ==> o + n / 255 + 1 <= out.Length
    modifies out
    ensures o' == o + |ExtOf(n)|
    ensures dry ==> out[..] == old(out[..])
    ensures !dry ==> o' <= out.Length && out[..o'] == old(out[..o]) + ExtOf(n)
  {
    o' := o;
    if n >= 15 {
      o' := PutExt(out, dry, o, n - 15);
      if !dry { assert out[..o'] == out[..o] + out[o..o']; }
    }
  }

  method PutLiterals(out: array<byte>, dry: bool, o: nat, lits: seq<byte>) returns (o': nat)
    requires !dry ==> o + |lits| / 255 + 1 + |lits| <= out.Length
    modifies out
    ensures o' == o + |ExtOf(|lits|) + lits|
    ensures dry ==> out[..] == old(out[..])
    ensures !dry ==> o' <= out.Length && out[..o'] == old(out[..o]) + (ExtOf(|lits|) + lits)
  {
    ExtOfLength(|lits|);
    hide ExtOf;
    o' := PutSize(out, dry, o, |lits|);
    if !dry {
      ghost var half := out[..o'];
      forall k | 0 <= k < |lits| { out[o' + k] := lits[k]; }
      assert out[..o' + |lits|] == half + lits;
    }
    o' := o' + |lits|;
  }

  method PutMatch(out: array<byte>, dry: bool, o: nat, offset: nat, size: nat) returns (o': nat)
    requires offset <= WINDOW_SIZE && MIN_MATCH <= size && (!dry ==> o + 2 + size / 255 + 1 <= out.Length)
    modifies out
    ensures o' == o + |OffsetBytes(offset) + ExtOf(size - MIN_MATCH)|
    ensures dry ==> out[..] == old(out[..])
    ensures !dry ==> o' <= out.Length && out[..o'] == old(out[..o]) + (OffsetBytes(offset) + ExtOf(size - MIN_MATCH))
  {
    hide ExtOf, OffsetBytes;
    if !dry {
      out[o], out[o + 1] := OffsetBytes(offset)[0], OffsetBytes(offset)[1];
      assert out[..o + 2] == old(out[..o]) + OffsetBytes(offset);
    }
    o' := PutSize(out, dry, o + 2, size - MIN_MATCH);
  }

  /** A token without its first byte. */
  ghost function TokenBody(lits: seq<byte>, offset: nat, size: nat, isLast: bool): seq<byte>
    requires !isLast ==> ValidToken(Token(lits, offset, size))
  {
    (ExtOf(|lits|) + lits) + if isLast then [] else OffsetBytes(offset) + ExtOf(size - MIN_MATCH)
  }

  ghost function TokenBytes(lits: seq<byte>, offset: nat, size: nat, isLast: bool): seq<byte>
    requires !isLast ==> ValidToken(Token(lits, offset, size))
  {
    if isLast then EncodeLast(lits) else EncodeToken(Token(lits, offset, size))
  }

  lemma TokenParts(lits: seq<byte>, offset: nat, size: nat, isLast: bool)
    requires !isLast ==> ValidToken(Token(lits, offset, size))
    ensures TokenBytes(lits, offset, size, isLast) ==
      [TokenByte(|lits|, if isLast then 0 else size - MIN_MATCH)] + TokenBody(lits, offset, size, isLast)
  {
    hide ExtOf, TokenByte, OffsetBytes;
  }

  method PutBody(out: array<byte>, dry: bool, o: nat, lits: seq<byte>, offset: nat, size: nat, isLast: bool) returns (o': nat)
    requires !isLast ==> ValidToken(Token(lits, offset, size))
    requires !dry ==> o + |lits| / 255 + 1 + |lits| + 2 + size / 255 + 1 <= out.Length
    modifies out
    ensures o' == o + |TokenBody(lits, offset, size, isLast)|
    ensures dry ==> out[..] == old(out[..])
    ensures !dry ==> o' <= out.Length && out[..o'] == old(out[..o]) + TokenBody(lits, offset, size, isLast)
  {
    hide ExtOf, OffsetBytes;
    ExtOfLength(|lits|);
    o' := PutLiterals(out, dry, o, lits);
    ghost var front := if dry then [] else out[..o'];
    ghost var lit := ExtOf(|lits|) + lits;
    if isLast {
      assert lit + [] == lit;
    } else {
      o' := PutMatch(out, dry, o', offset, size);
      if !dry { Joined(old(out[..o]), lit, OffsetBytes(offset) + ExtOf(size - MIN_MATCH), front, out[..o']); }
    }
  }

  lemma Joined(a: seq<byte>, b: seq<byte>, c: seq<byte>, ab: seq<byte>, abc: seq<byte>)
    requires ab == a + b && abc == ab + c
    ensures abc == a + (b + c)
  {
  }

  /** Appends one token if its predicted size fits. */
  method OutputToken(out: array<byte>, dry: bool, o: nat, lits: seq<byte>, offset: nat, size: nat, isLast: bool)
    returns (ok: bool, o': nat)
    requires !isLast ==> ValidToken(Token(lits, offset, size))
    requires isLast ==> size == 0
    modifies out
    ensures ok <==> dry || o + MaxTokenSize(|lits|, size) <= out.Length
    ensures ok ==> o' == o + |TokenBytes(lits, offset, size, isLast)|
    ensures dry ==> out[..] == old(out[..])
    ensures ok && !dry ==> o' <= out.Length && out[..o'] == old(out[..o]) + TokenBytes(lits, offset, size, isLast)
  {
    ok, o' := true, o;
    if !dry && o + MaxTokenSize(|lits|, size) > out.Length {
      ok := false;
      return;
    }
    ghost var pre := if dry then [] else out[..o + 1];
    o' := PutBody(out, dry, o + 1, lits, offset, size, isLast);
    hide TokenByte, TokenBytes, TokenBody, MaxTokenSize;
    if !dry {
      FillToken(out, o, o', TokenByte(|lits|, if isLast then 0 else size - MIN_MATCH), pre, TokenBody(lits, offset, size, isLast));
      assert pre[..o] == old(out[..o]);
    }
    TokenParts(lits, offset, size, isLast);
  }

  /** Fills in the first byte of a token whose body is already written. */
  method FillToken(out: array<byte>, o: nat, o': nat, b: byte, ghost pre: seq<byte>, ghost body: seq<byte>)
    requires o < o' <= out.Length && |pre| == o + 1 && out[..o'] == pre + body
    modifies out
    ensures out[..o'] == pre[..o] + ([b] + body)
  {
    out[o] := b;
  }

  // ---- the table in arrays ----

  ghost function TableOf(slots: array<nat>, last: array<nat>): Table
    reads slots, last
  {
    Table(slots[..], last[..])
  }

  method InsertAt(slots: array<nat>, last: array<nat>, p: Params, h: nat, pos: nat)
    requires slots != last && ValidParams(p) && ValidTable(TableOf(slots, last), p) && h < Pow2(p.hashBits)
    modifies slots, last
    ensures TableOf(slots, last) == Insert(old(TableOf(slots, last)), p, h, pos)
  {
    var b := Pow2(p.bucketBits);
    SlotBound(h, last[h], Pow2(p.hashBits), b);
    hide Pow2;
    slots[h * b + last[h]] := pos;
    last[h] := (last[h] + 1) % b;
  }

  method MatchSize(inp: seq<byte>, i: nat, pos: nat) returns (m: nat)
    requires pos <= i && END_BLOCK_RESERVED <= |inp|
    ensures m == MatchLength(inp, i, pos, 0)
  {
    hide FirstDifference;
    m := 0;
    while i + m <= |inp| - END_BLOCK_RESERVED
      invariant MatchLength(inp, i, pos, m) == MatchLength(inp, i, pos, 0)
    {
      var c := FirstDifference(inp, i + m, pos + m);
      if c < 8 {
        m := m + c;
        return;
      }
      m := m + 8;
    }
  }

  method FindLongest(inp: seq<byte>, i: nat, slots: array<nat>, last: array<nat>, p: Params, h: nat) returns (best: Found)
    requires ValidParams(p) && ValidTable(TableOf(slots, last), p) && h < Pow2(p.hashBits) && END_BLOCK_RESERVED <= |inp|
    ensures best == Search(inp, i, TableOf(slots, last), p, h, 0, Found(0, 0))
  {
    hide Pow2, ValidParams, EntryAt;
    var b := Pow2(p.bucketBits);
    ghost var tbl := TableOf(slots, last);
    best := Found(0, 0);
    var k := 0;
    while k < b
      invariant Search(inp, i, tbl, p, h, k, best) == Search(inp, i, tbl, p, h, 0, Found(0, 0))
    {
      EntryBound(h, last[h], Pow2(p.hashBits), b, k);
      var pos := slots[EntryAt(h, last[h], b, k)];
      assert pos == tbl.slots[EntryAt(h, last[h], b, k)];
      if OutOfWindow(pos, i) {
        break;
      }
      var size := MatchSize(inp, i, pos);
      if best.size < size {
        best := Found(pos, size);
      }
      k := k + 1;
    }
  }

  method InsertPositions(inp: seq<byte>, i: nat, size: nat, slots: array<nat>, last: array<nat>, p: Params)
    requires slots != last && ValidParams(p) && ValidTable(TableOf(slots, last), p) && i + size + 4 <= |inp|
    modifies slots, last
    ensures TableOf(slots, last) == InsertSkipped(inp, i, size, 1, old(TableOf(slots, last)), p)
  {
    hide Hash, Insert, ValidTable;
    var k := 1;
    while k < size
      invariant k >= 1 && ValidTable(TableOf(slots, last), p)
      invariant InsertSkipped(inp, i, size, k, TableOf(slots, last), p) == InsertSkipped(inp, i, size, 1, old(TableOf(slots, last)), p)
    {
      var h := Hash(inp, i + k, p.hashBits);
      InsertAt(slots, last, p, h, i + k);
      k := k + p.speed;
    }
  }

  // ---- the main loop ----

  /** What is left to write after `o` bytes of the result: the tokens `rest`, which start at `last`. */
  ghost predicate Progress(inp: seq<byte>, p: Params, out: seq<byte>, dry: bool, o: nat, rest: seq<Token>, last: nat)
    requires ValidParams(p) && |inp| <= MAX_SIZE
  {
    var lits := Remaining(inp, p);
    && AllValid(rest) && last + Span(rest) + |lits| == |inp|
    && |Compressed(inp, p)| == o + |Encode(rest, lits)|
    && (!dry ==> o <= |out| && Suffices(inp, p, |out|) == Fits(rest, lits, o, |out|)
                 && Compressed(inp, p) == out[..o] + Encode(rest, lits))
  }

  lemma ProgressStart(inp: seq<byte>, p: Params, out: seq<byte>, dry: bool)
    requires ValidParams(p) && |inp| <= MAX_SIZE
    ensures Progress(inp, p, out, dry, 0, Chosen(inp, p), 0)
  {
    ChosenAreSound(inp, p);
    hide Chosen;
    assert out[..0] == [];
  }

  lemma ProgressEmit(inp: seq<byte>, p: Params, out: seq<byte>, out': seq<byte>, dry: bool, o: nat, o': nat, t: Token, rest: seq<Token>, last: nat)
    requires ValidParams(p) && |inp| <= MAX_SIZE && Progress(inp, p, out, dry, o, [t] + rest, last)
    requires ValidToken(t) && o' == o + |EncodeToken(t)| && |out'| == |out|
    requires !dry ==> o' <= |out| && out'[..o'] == out[..o] + EncodeToken(t) && o + MaxTokenSize(|t.lits|, t.size) <= |out|
    ensures Progress(inp, p, out', dry, o', rest, last + |t.lits| + t.size)
  {
    hide Remaining, Suffices, Compressed, EncodeToken, MaxTokenSize;
    var ts := [t] + rest;
    assert ts[1..] == rest && ts[0] == t;
    forall k | 0 <= k < |rest| ensures ValidToken(rest[k]) { assert rest[k] == ts[k + 1]; }
    var lits := Remaining(inp, p);
    if !dry {
      assert out[..o] + (EncodeToken(t) + Encode(rest, lits)) == out'[..o'] + Encode(rest, lits);
    }
  }

  /** Looks up and enters position `i`, and decides whether to emit a match there. */
  method LookAt(inp: seq<byte>, i: nat, last: nat, slots: array<nat>, lasts: array<nat>, p: Params) returns (emit: bool, t: Token)
    requires ValidParams(p) && slots != lasts && ValidTable(TableOf(slots, lasts), p)
    requires last <= i && i + END_BLOCK_RESERVED < |inp|
    modifies slots, lasts
    ensures ValidTable(TableOf(slots, lasts), p)
    ensures var m := MoveAt(inp, i, last, old(TableOf(slots, lasts)), p);
      && emit == m.Emit?
      && (emit ==> t == m.token && m.tbl == InsertSkipped(inp, i, t.size, 1, TableOf(slots, lasts), p))
      && (!emit ==> m.tbl == TableOf(slots, lasts))
  {
    hide Hash, Insert, ValidTable, Search, InsertSkipped;
    var h := Hash(inp, i, p.hashBits);
    var best := FindLongest(inp, i, slots, lasts, p, h);
    InsertAt(slots, lasts, p, h, i);
    var cost := (i - last) / 255 + 1;
    var size := best.size;
    if i + size > |inp| - END_BLOCK_RESERVED {
      size := |inp| - END_BLOCK_RESERVED - i;
    }
    emit := !(size <= cost || size < MIN_MATCH);
    t := Token([], 0, 0);
    if emit {
      t := Token(inp[last..i], i - best.pos, size);
    }
  }

  lemma ProgressFails(inp: seq<byte>, p: Params, out: seq<byte>, o: nat, t: Token, rest: seq<Token>, last: nat)
    requires ValidParams(p) && |inp| <= MAX_SIZE && Progress(inp, p, out, false, o, [t] + rest, last)
    requires o + MaxTokenSize(|t.lits|, t.size) > |out|
    ensures !Suffices(inp, p, |out|)
  {
    hide Remaining, Suffices, Compressed, EncodeToken, MaxTokenSize;
    assert ([t] + rest)[0] == t;
  }

  /** One round of the main loop. */
  method Round(out: array<byte>, dry: bool, inp: seq<byte>, p: Params, slots: array<nat>, lasts: array<nat>, i: nat, last: nat, o: nat)
    returns (ok: bool, i': nat, last': nat, o': nat)
    requires ValidParams(p) && |inp| <= MAX_SIZE && slots != lasts && last <= i && i + END_BLOCK_RESERVED < |inp|
    requires ValidTable(TableOf(slots, lasts), p) && Before(TableOf(slots, lasts), i)
    requires Progress(inp, p, out[..], dry, o, Tokens(inp, i, last, TableOf(slots, lasts), p), last)
    modifies out, slots, lasts
    ensures dry ==> ok && out[..] == old(out[..])
    ensures !ok ==> !Suffices(inp, p, out.Length)
    ensures ok ==> last' <= i' && i < i' && (last' == last || last' + END_BLOCK_RESERVED <= |inp|)
    ensures ok ==> ValidTable(TableOf(slots, lasts), p) && Before(TableOf(slots, lasts), i')
    ensures ok ==> Progress(inp, p, out[..], dry, o', Tokens(inp, i', last', TableOf(slots, lasts), p), last')
  {
    hide ValidTable, Before, Progress, Suffices, MoveAt, InsertSkipped, EncodeToken, MaxTokenSize, CopyMatch;
    ghost var tbl := TableOf(slots, lasts);
    ghost var sofar := out[..];
    MoveIsSound(inp, i, last, tbl, p);
    ok, last', o' := true, last, o;
    var emit, t := LookAt(inp, i, last, slots, lasts, p);
    if !emit {
      Later(TableOf(slots, lasts), p, i);
      i' := i + p.speed;
    } else {
      ghost var rest := Tokens(inp, i + t.size, i + t.size, InsertSkipped(inp, i, t.size, 1, TableOf(slots, lasts), p), p);
      assert Tokens(inp, i, last, tbl, p) == [t] + rest;
      i' := i + t.size;
      last' := i';
      ok, o' := OutputToken(out, dry, o, t.lits, t.offset, t.size, false);
      if !ok {
        ProgressFails(inp, p, sofar, o, t, rest, last);
        return;
      }
      InsertPositions(inp, i, t.size, slots, lasts, p);
      ProgressEmit(inp, p, sofar, out[..], dry, o, o', t, rest, last);
    }
  }

  method CompressTokens(out: array<byte>, dry: bool, inp: seq<byte>, p: Params) returns (ok: bool, o: nat, last: nat)
    requires ValidParams(p) && END_BLOCK_RESERVED < |inp| <= MAX_SIZE
    modifies out
    ensures dry ==> ok && out[..] == old(out[..])
    ensures ok ==> last <= |inp| && Progress(inp, p, out[..], dry, o, [], last)
    ensures !ok ==> !Suffices(inp, p, out.Length)
  {
    ok, o, last := true, 0, 0;
    var slots := new nat[Pow2(p.hashBits) * Pow2(p.bucketBits)](_ => NONE);
    var lasts := new nat[Pow2(p.hashBits)](_ => 0);
    assert TableOf(slots, lasts) == EmptyTable(p);
    ProgressStart(inp, p, out[..], dry);
    var i := 0;
    hide ValidTable, Before, Progress, Suffices;
    while i < |inp| - END_BLOCK_RESERVED
      invariant ok && last <= i && last <= |inp| - END_BLOCK_RESERVED
      invariant ValidTable(TableOf(slots, lasts), p) && Before(TableOf(slots, lasts), i)
      invariant dry ==> out[..] == old(out[..])
      invariant Progress(inp, p, out[..], dry, o, Tokens(inp, i, last, TableOf(slots, lasts), p), last)
    {
      ok, i, last, o := Round(out, dry, inp, p, slots, lasts, i, last, o);
      if !ok { return; }
    }
  }

  /** The speed setting is taken as an unsigned number and clamped. */
  function ClampSpeed(speed: int): (r: nat)
    ensures 1 <= r <= END_BLOCK_RESERVED && (1 <= speed <= END_BLOCK_RESERVED ==> r == speed)
    ensures speed == 0 ==> r == 1
    ensures END_BLOCK_RESERVED < speed < 0x1_0000_0000 || -0x8000_0000 <= speed < 0 ==> r == END_BLOCK_RESERVED
  {
    var u := speed % 0x1_0000_0000;
    if u < 1 then 1 else if u > END_BLOCK_RESERVED then END_BLOCK_RESERVED else u
  }

  /** Compression: the output is the compressed form whenever every size check passes; a dry run
      writes nothing and returns its size plus sixteen. */
  method Compress(out: array<byte>, dry: bool, inp: seq<byte>, speed: int, hashBits: nat, bucketBits: nat) returns (r: Outcome)
    requires 1 <= hashBits < 30 && bucketBits <= 8 && hashBits + bucketBits < 32
    modifies out
    ensures |inp| > MAX_SIZE ==> r == Failed(InvalidParams)
    ensures |inp| <= MAX_SIZE ==>
      var p := Params(ClampSpeed(speed), hashBits, bucketBits);
      && (dry ==> r == Length(|Compressed(inp, p)| + 16) && out[..] == old(out[..]))
      && (!dry && Suffices(inp, p, out.Length) ==>
            |Compressed(inp, p)| <= out.Length && r == Length(|Compressed(inp, p)|) && out[..r.size] == Compressed(inp, p))
      && (!dry && !Suffices(inp, p, out.Length) ==> r == Failed(OutputTooSmall))
  {
    if |inp| > MAX_SIZE {
      return Failed(InvalidParams);
    }
    var p := Params(ClampSpeed(speed), hashBits, bucketBits);
    var ok, o, last := true, 0, 0;
    if |inp| > END_BLOCK_RESERVED {
      ok, o, last := CompressTokens(out, dry, inp, p);
    } else {
      ProgressStart(inp, p, out[..], dry);
    }
    if ok {
      ok, o := Finish(out, dry, inp, p, o, last);
    }
    if !ok {
      return Failed(OutputTooSmall);
    }
    return Length(if dry then o + 16 else o);
  }

  lemma ProgressEnd(inp: seq<byte>, p: Params, out: seq<byte>, dry: bool, o: nat, last: nat)
    requires ValidParams(p) && |inp| <= MAX_SIZE && last <= |inp| && Progress(inp, p, out, dry, o, [], last)
    ensures |Compressed(inp, p)| == o + |EncodeLast(inp[last..])|
    ensures !dry ==> o <= |out| && Suffices(inp, p, |out|) == (o + MaxTokenSize(|inp| - last, 0) <= |out|)
    ensures !dry ==> Compressed(inp, p) == out[..o] + EncodeLast(inp[last..])
  {
    assert Remaining(inp, p) == inp[last..] by { ChosenAreSound(inp, p); hide Chosen, Compressed, Suffices; }
    hide Remaining, Suffices, Compressed, EncodeLast, MaxTokenSize;
  }

  /** The last token: everything after the last match, as literals. */
  method Finish(out: array<byte>, dry: bool, inp: seq<byte>, p: Params, o: nat, last: nat) returns (ok: bool, o': nat)
    requires ValidParams(p) && |inp| <= MAX_SIZE && last <= |inp| && Progress(inp, p, out[..], dry, o, [], last)
    modifies out
    ensures dry ==> ok && out[..] == old(out[..]) && o' == |Compressed(inp, p)|
    ensures !dry ==> ok == Suffices(inp, p, out.Length)
    ensures !dry && ok ==> o' == |Compressed(inp, p)| <= out.Length && out[..o'] == Compressed(inp, p)
  {
    ProgressEnd(inp, p, out[..], dry, o, last);
    hide Progress, Suffices, Compressed, EncodeLast, MaxTokenSize;
    ok, o' := OutputToken(out, dry, o, inp[last..], 0, 0, true);
  }

  /** The library's round-trip test: a dry run for the capacity, compression, decompression into a buffer
      of the input's size. It gives back the input exactly when the compressed form is not itself larger
      than the largest input the decompressor takes, and so for every input that would not be larger as
      plain literals; `Lz4Worst` shows that no weaker bound on the length does. */
  method CompressAndDecompress(inp: seq<byte>, speed: int, hashBits: nat, bucketBits: nat) returns (r: Outcome, back: seq<byte>)
    requires 1 <= hashBits < 30 && bucketBits <= 8 && hashBits + bucketBits < 32 && |inp| <= MAX_SIZE
    ensures var p := Params(ClampSpeed(speed), hashBits, bucketBits);
      if |Compressed(inp, p)| <= MAX_SIZE then r == Length(|inp|) && back == inp
      else r == Failed(InvalidParams)
    ensures LiteralSize(|inp|) <= MAX_SIZE ==> r == Length(|inp|) && back == inp
  {
    ghost var p := Params(ClampSpeed(speed), hashBits, bucketBits);
    hide Compressed, Suffices, ClampSpeed, LiteralSize;
    NeverWorse(inp, p);
    var nothing := new byte[0];
    var capacity := Compress(nothing, true, inp, speed, hashBits, bucketBits);
    var packed := new byte[capacity.size];
    DryRunSuffices(inp, p, packed.Length);
    var packedSize := Compress(packed, false, inp, speed, hashBits, bucketBits);
    var buffer := new byte[|inp|];
    RoundTrip(inp, p, buffer.Length);
    hide Decode, FastRun;
    r := Decompress(buffer, packed[..packedSize.size]);
    back := buffer[..];
  }
}
