/**
 The LZ4 block format as slz4.h reads and writes it: what the plain ("careful")
 decoding loop accepts and produces, and how one token is laid out.

 Sizes are 32-bit words, as in the source: the bytes of an extended size, the constants added
 to it and the bounds checks all wrap around. A check that passes only by wrapping around lets
 a copy leave its buffer, which is the outcome `Stray`.
 */
module Lz4Format {

  type byte = x: int | 0 <= x < 256

  const MIN_MATCH: nat := 4
  const WINDOW_SIZE: nat := 0xFFFF
  const MAX_SIZE: nat := 0x7F00_0000
  const WORD: nat := 0x1_0000_0000

  datatype Error = OutputTooSmall | InputTooSmall | OffsetZero | OffsetBiggerThanPos | InvalidParams

  datatype Result = Ok(out: seq<byte>) | Err(error: Error) | Stray

  /** What a 32-bit variable keeps of a number. */
  function Word(n: nat): (r: nat)
    ensures r < WORD && r <= n && (n < WORD ==> r == n)
  {
    n % WORD
  }

  lemma WordSum(a: nat, b: nat)
    ensures Word(Word(a) + b) == Word(a + b)
  {
  }

  // ---- extended sizes ----

  /** The bytes of an extended size add up until one differs from 255. */
  datatype Ext = Missing | Ext(sum: nat, next: nat)

  function ReadExt(inp: seq<byte>, i: nat): (r: Ext)
    ensures r.Ext? ==> i < r.next <= |inp| && 255 * (r.next - i - 1) <= r.sum < 255 * (r.next - i)
    decreases |inp| - i
  {
    if i >= |inp| then Missing
    else if inp[i] < 255 then Ext(inp[i], i + 1)
    else match ReadExt(inp, i + 1)
      case Missing => Missing
      case Ext(sum, next) => Ext(sum + 255, next)
  }

  /** An extended size whose bytes after the first lie before `limit`. A size that wraps around to
      zero is taken for a missing one. */
  function ReadLong(inp: seq<byte>, limit: nat, i: nat): (r: Ext)
    ensures r.Ext? ==> 0 < r.sum < WORD && i < r.next <= |inp|
  {
    match ReadExt(inp, i)
    case Missing => Missing
    case Ext(sum, next) =>
      if (next == i + 1 || next <= limit) && Word(sum + 15) != 0 then Ext(Word(sum + 15), next) else Missing
  }

  /** A four-bit size field, extended when it is full. */
  function ReadSize(inp: seq<byte>, limit: nat, field: nat, i: nat): (r: Ext)
    ensures r.Ext? ==> r.sum < WORD && i <= r.next && (i <= |inp| ==> r.next <= |inp|)
  {
    if field < 15 then Ext(field, i) else ReadLong(inp, limit, i)
  }

  function ExtBytes(n: nat): (s: seq<byte>)
    ensures |s| > 0
  {
    if n < 255 then [n] else [255] + ExtBytes(n - 255)
  }

  lemma {:induction false} ExtBytesLength(n: nat)
    ensures |ExtBytes(n)| == n / 255 + 1
  {
    if n >= 255 { ExtBytesLength(n - 255); }
  }

  /** The bytes `s` stand at position `i`. */
  ghost predicate At(inp: seq<byte>, i: nat, s: seq<byte>) {
    i + |s| <= |inp| && inp[i..i + |s|] == s
  }

  lemma AtSplit(inp: seq<byte>, i: nat, a: seq<byte>, b: seq<byte>)
    requires At(inp, i, a + b)
    ensures At(inp, i, a) && At(inp, i + |a|, b) && i + |a| + |b| <= |inp|
  {
    assert inp[i..i + |a|] == inp[i..i + |a + b|][..|a|];
    assert inp[i + |a|..i + |a| + |b|] == inp[i..i + |a + b|][|a|..];
  }

  lemma AtIs(inp: seq<byte>, i: nat, s: seq<byte>)
    requires At(inp, i, s)
    ensures i + |s| <= |inp| && inp[i..i + |s|] == s
  {
  }

  lemma AtByte(inp: seq<byte>, i: nat, s: seq<byte>, k: nat)
    requires At(inp, i, s) && k < |s|
    ensures i + k < |inp| && inp[i + k] == s[k]
  {
    assert inp[i..i + |s|][k] == s[k];
  }

  lemma {:induction false} ReadExtBytes(inp: seq<byte>, i: nat, n: nat)
    requires At(inp, i, ExtBytes(n))
    ensures ReadExt(inp, i) == Ext(n, i + |ExtBytes(n)|)
    decreases n
  {
    hide At;
    AtByte(inp, i, ExtBytes(n), 0);
    if n >= 255 {
      AtSplit(inp, i, [255], ExtBytes(n - 255));
      ReadExtBytes(inp, i + 1, n - 255);
    }
  }

  // ---- matches ----

  /** Appends a match of `n` bytes. */
  function CopyMatch(out: seq<byte>, offset: nat, n: nat): (r: seq<byte>)
    requires 0 < offset <= |out|
    ensures |r| == |out| + n
  {
    CopyBytes(out, offset, n)
  }

  /** Byte by byte, each a copy of the byte `offset` before it; the copy may overlap itself. */
  function CopyBytes(out: seq<byte>, offset: nat, n: nat): (r: seq<byte>)
    requires 0 < offset <= |out|
    ensures |r| == |out| + n
    decreases n
  {
    if n == 0 then out else CopyBytes(out + [out[|out| - offset]], offset, n - 1)
  }

  /** Any buffer that repeats with period `offset` from the end of `out` on is that copy. */
  lemma {:induction false} CopyMatchIs(out: seq<byte>, offset: nat, n: nat, r: seq<byte>)
    requires 0 < offset <= |out| && |r| == |out| + n && r[..|out|] == out
    requires forall k :: |out| <= k < |r| ==> r[k] == r[k - offset]
    ensures r == CopyMatch(out, offset, n)
    decreases n
  {
    if n > 0 {
      assert r[|out| - offset] == r[..|out|][|out| - offset];
      assert r[..|out| + 1] == out + [out[|out| - offset]];
      CopyMatchIs(out + [out[|out| - offset]], offset, n - 1, r);
    }
  }

  // ---- the plain decoder ----

  function High(b: byte): (r: nat)
    ensures r <= 15
  {
    b / 16
  }

  function Low(b: byte): (r: nat)
    ensures r <= 15
  {
    b % 16
  }

  function Offset(lo: byte, hi: byte): (r: nat)
    ensures r <= WINDOW_SIZE
  {
    (lo as int) + 256 * (hi as int)
  }

  datatype Step = Fail(error: Error) | Leave | Last(out: seq<byte>) | More(next: nat, out: seq<byte>)

  /** Decodes the token at `i` after the bytes in `out` were produced; `cap` is the output size. */
  function TokenStep(inp: seq<byte>, i: nat, out: seq<byte>, cap: nat): (r: Step)
    ensures r.More? ==> i + 3 <= r.next <= |inp| && |out| <= |r.out| <= cap
    ensures r.Last? ==> |out| <= |r.out| <= cap
  {
    if i >= |inp| then Fail(InputTooSmall) else
    var lits := ReadSize(inp, |inp|, High(inp[i]), i + 1);
    if lits.Missing? then Fail(InputTooSmall)
    else if Word(|out| + lits.sum) > cap then Fail(OutputTooSmall)
    else if Word(lits.next + lits.sum) > |inp| then Fail(InputTooSmall)
    else if |out| + lits.sum > cap || lits.next + lits.sum > |inp| then Leave else
    var o := out + inp[lits.next..lits.next + lits.sum];
    var j := lits.next + lits.sum;
    if j == |inp| then Last(o)
    else if j + 2 > |inp| then Fail(InputTooSmall) else
    MatchStep(o, Offset(inp[j], inp[j + 1]), ReadSize(inp, |inp|, Low(inp[i]), j + 2), cap)
  }

  /** The match of a token, after its literals were appended to `o`. */
  function MatchStep(o: seq<byte>, offset: nat, field: Ext, cap: nat): (r: Step)
    ensures r.More? ==> field.Ext? && r.next == field.next && |o| <= |r.out| <= cap
    ensures !r.Last?
  {
    if field.Missing? then Fail(InputTooSmall) else
    var size := Word(field.sum + MIN_MATCH);
    if Word(|o| + size) > cap then Fail(OutputTooSmall)
    else if offset > |o| then Fail(OffsetBiggerThanPos)
    else if offset == 0 then Fail(OffsetZero)
    else if |o| + size > cap then Leave
    else More(field.next, CopyMatch(o, offset, size))
  }

  /** What the careful loop returns when it starts at `i` with `out` already written. */
  function Decode(inp: seq<byte>, i: nat, out: seq<byte>, cap: nat): (r: Result)
    ensures r.Ok? ==> |out| <= |r.out| <= cap
    decreases |inp| - i
  {
    match TokenStep(inp, i, out, cap)
    case Fail(e) => Err(e)
    case Leave => Stray
    case Last(o) => Ok(o)
    case More(next, o) => Decode(inp, next, o, cap)
  }

  // ---- encoding ----

  /** A copy of `size` bytes starting `offset` back, after some literal bytes. */
  datatype Token = Token(lits: seq<byte>, offset: nat, size: nat)

  /** What the compressor can write; a decoder takes only offsets that are not zero. */
  predicate Writable(t: Token) {
    t.offset <= WINDOW_SIZE && MIN_MATCH <= t.size
  }

  predicate ValidToken(t: Token) {
    1 <= t.offset && Writable(t)
  }

  predicate AllValid(ts: seq<Token>) {
    forall k :: 0 <= k < |ts| ==> ValidToken(ts[k])
  }

  function Nibble(n: nat): (r: nat)
    ensures r <= 15
  {
    if n < 15 then n else 15
  }

  function TokenByte(n: nat, m: nat): byte {
    Nibble(n) * 16 + Nibble(m)
  }

  function OffsetBytes(offset: nat): (r: seq<byte>)
    requires offset <= WINDOW_SIZE
    ensures |r| == 2
  {
    [offset % 256, offset / 256]
  }

  function ExtOf(n: nat): seq<byte> {
    if n < 15 then [] else ExtBytes(n - 15)
  }

  /** The literals, the offset and the rest of the match size. */
  function TokenTail(t: Token): seq<byte>
    requires Writable(t)
  {
    t.lits + (OffsetBytes(t.offset) + ExtOf(t.size - MIN_MATCH))
  }

  function EncodeToken(t: Token): (s: seq<byte>)
    requires Writable(t)
    ensures |s| > 0
  {
    [TokenByte(|t.lits|, t.size - MIN_MATCH)] + (ExtOf(|t.lits|) + TokenTail(t))
  }

  function EncodeLast(lits: seq<byte>): (s: seq<byte>)
    ensures |s| > 0
  {
    [TokenByte(|lits|, 0)] + (ExtOf(|lits|) + lits)
  }

  function Encode(ts: seq<Token>, lits: seq<byte>): (s: seq<byte>)
    requires AllValid(ts)
    ensures |s| > 0
  {
    if ts == [] then EncodeLast(lits) else EncodeToken(ts[0]) + Encode(ts[1..], lits)
  }

  /** Every match starts inside what was produced so far. */
  predicate Grounded(ts: seq<Token>, produced: nat) {
    ts == [] || (ts[0].offset <= produced + |ts[0].lits| && Grounded(ts[1..], produced + |ts[0].lits| + ts[0].size))
  }

  /** What a token list stands for, after `out`. */
  function Expand(ts: seq<Token>, out: seq<byte>): (r: seq<byte>)
    requires AllValid(ts) && Grounded(ts, |out|)
    ensures |out| <= |r|
  {
    if ts == [] then out
    else Expand(ts[1..], CopyMatch(out + ts[0].lits, ts[0].offset, ts[0].size))
  }

  /** A written size is read back modulo 2^32, unless it is a multiple of 2^32, as long as the
      reader's limit lies behind it. */
  lemma ReadBackSize(inp: seq<byte>, i: nat, n: nat, limit: nat)
    requires At(inp, i, ExtOf(n)) && (n < 15 || Word(n) > 0) && i + |ExtOf(n)| <= limit
    ensures ReadSize(inp, limit, Nibble(n), i) == Ext(Word(n), i + |ExtOf(n)|)
  {
    hide At;
    if n >= 15 { ReadExtBytes(inp, i, n - 15); }
  }

  /** Reads the parts of an encoded token one after the other. */
  lemma TokenLayout(inp: seq<byte>, i: nat, t: Token, limit: nat)
    requires Writable(t) && At(inp, i, EncodeToken(t)) && i + |EncodeToken(t)| <= limit && |t.lits| < WORD
    requires t.size < 19 || Word(t.size - MIN_MATCH) > 0
    ensures var b := i + 1 + |ExtOf(|t.lits|)|;
      && i < |inp| && b + |t.lits| + 2 <= |inp| && b + |t.lits| <= limit
      && High(inp[i]) == Nibble(|t.lits|) && Low(inp[i]) == Nibble(t.size - MIN_MATCH)
      && ReadSize(inp, limit, High(inp[i]), i + 1) == Ext(|t.lits|, b) && inp[b..b + |t.lits|] == t.lits
      && Offset(inp[b + |t.lits|], inp[b + |t.lits| + 1]) == t.offset
      && ReadSize(inp, limit, Low(inp[i]), b + |t.lits| + 2) == Ext(Word(t.size - MIN_MATCH), i + |EncodeToken(t)|)
      && At(inp, i + 1, ExtOf(|t.lits|)) && At(inp, b + |t.lits| + 2, ExtOf(t.size - MIN_MATCH))
  {
    hide At, ExtOf, Nibble, TokenByte, Offset, ReadSize, High, Low, TokenTail, Word;
    var first := [TokenByte(|t.lits|, t.size - MIN_MATCH)];
    var e := ExtOf(|t.lits|);
    Nibbles(|t.lits|, t.size - MIN_MATCH);
    AtSplit(inp, i, first, e + TokenTail(t));
    AtByte(inp, i, first, 0);
    AtSplit(inp, i + 1, e, TokenTail(t));
    ReadBackSize(inp, i + 1, |t.lits|, limit);
    TailLayout(inp, i + 1 + |e|, t, limit);
  }

  lemma TailLayout(inp: seq<byte>, b: nat, t: Token, limit: nat)
    requires Writable(t) && At(inp, b, TokenTail(t)) && b + |TokenTail(t)| <= limit
    requires t.size < 19 || Word(t.size - MIN_MATCH) > 0
    ensures var j := b + |t.lits|;
      && j + 2 <= |inp| && j <= limit && inp[b..j] == t.lits && Offset(inp[j], inp[j + 1]) == t.offset
      && ReadSize(inp, limit, Nibble(t.size - MIN_MATCH), j + 2) == Ext(Word(t.size - MIN_MATCH), b + |TokenTail(t)|)
      && At(inp, j + 2, ExtOf(t.size - MIN_MATCH))
  {
    hide At, ExtOf, Nibble, Offset, OffsetBytes, ReadSize, Word;
    var off, e := OffsetBytes(t.offset), ExtOf(t.size - MIN_MATCH);
    var j := b + |t.lits|;
    BackToOffset(t.offset);
    AtSplit(inp, b, t.lits, off + e);
    AtIs(inp, b, t.lits);
    AtSplit(inp, j, off, e);
    AtByte(inp, j, off, 0);
    AtByte(inp, j, off, 1);
    ReadBackSize(inp, j + 2, t.size - MIN_MATCH, limit);
  }

  lemma BackToOffset(offset: nat)
    requires offset <= WINDOW_SIZE
    ensures Offset(OffsetBytes(offset)[0], OffsetBytes(offset)[1]) == offset
  {
  }

  lemma Nibbles(n: nat, m: nat)
    ensures High(TokenByte(n, m)) == Nibble(n) && Low(TokenByte(n, m)) == Nibble(m)
  {
  }

  /** The plain decoder reads an encoded token back, its match size modulo 2^32. */
  lemma StepToken(inp: seq<byte>, i: nat, out: seq<byte>, cap: nat, t: Token)
    requires Writable(t) && At(inp, i, EncodeToken(t)) && (t.size < 19 || Word(t.size - MIN_MATCH) > 0)
    requires |out| + |t.lits| <= cap < WORD
    ensures TokenStep(inp, i, out, cap) ==
            MatchStep(out + t.lits, t.offset, Ext(Word(t.size - MIN_MATCH), i + |EncodeToken(t)|), cap)
  {
    hide At, EncodeToken, ExtOf, Nibble, ReadSize, MatchStep, Offset, High, Low;
    AtIs(inp, i, EncodeToken(t));
    TokenLayout(inp, i, t, |inp|);
  }

  /** A match whose size is a 32-bit number and fits is copied in full. */
  lemma StepMatch(o: seq<byte>, offset: nat, size: nat, next: nat, cap: nat)
    requires MIN_MATCH <= size && 0 < offset <= |o| && |o| + size <= cap < WORD
    ensures MatchStep(o, offset, Ext(Word(size - MIN_MATCH), next), cap) == More(next, CopyMatch(o, offset, size))
  {
    hide CopyMatch;
  }

  lemma StepLast(inp: seq<byte>, i: nat, out: seq<byte>, cap: nat, lits: seq<byte>)
    requires At(inp, i, EncodeLast(lits)) && i + |EncodeLast(lits)| == |inp| && |out| + |lits| <= cap < WORD
    ensures TokenStep(inp, i, out, cap) == Last(out + lits)
    ensures i < |inp| && High(inp[i]) == Nibble(|lits|)
    ensures ReadSize(inp, |inp|, High(inp[i]), i + 1) == Ext(|lits|, i + 1 + |ExtOf(|lits|)|)
  {
    hide At, ExtOf, Nibble, TokenByte, ReadSize, High, Low;
    var first := [TokenByte(|lits|, 0)];
    var e := ExtOf(|lits|);
    Nibbles(|lits|, 0);
    AtSplit(inp, i, first, e + lits);
    AtByte(inp, i, first, 0);
    AtSplit(inp, i + 1, e, lits);
    AtIs(inp, i + 1 + |e|, lits);
    ReadBackSize(inp, i + 1, |lits|, |inp|);
  }

  lemma {:induction false} ExpandLength(ts: seq<Token>, out: seq<byte>)
    requires AllValid(ts) && Grounded(ts, |out|) && ts != []
    ensures |Expand(ts, out)| >= |out| + |ts[0].lits| + ts[0].size
  {
  }

  /** The plain decoder inverts the encoder. */
  lemma {:induction false} DecodeEncoded(inp: seq<byte>, i: nat, ts: seq<Token>, lits: seq<byte>, out: seq<byte>, cap: nat)
    requires AllValid(ts) && Grounded(ts, |out|)
    requires At(inp, i, Encode(ts, lits)) && i + |Encode(ts, lits)| == |inp|
    requires |Expand(ts, out)| + |lits| <= cap < WORD
    ensures Decode(inp, i, out, cap) == Ok(Expand(ts, out) + lits)
    decreases |ts|
  {
    hide At, TokenStep, MatchStep, EncodeToken, EncodeLast, CopyMatch, Word;
    if ts == [] {
      StepLast(inp, i, out, cap, lits);
    } else {
      ExpandLength(ts, out);
      var first := EncodeToken(ts[0]);
      AtSplit(inp, i, first, Encode(ts[1..], lits));
      StepToken(inp, i, out, cap, ts[0]);
      StepMatch(out + ts[0].lits, ts[0].offset, ts[0].size, i + |first|, cap);
      DecodeEncoded(inp, i + |first|, ts[1..], lits, CopyMatch(out + ts[0].lits, ts[0].offset, ts[0].size), cap);
    }
  }

  // ---- how much output a stream must produce ----

  /** The extension of a field is short enough that neither it nor what is added to it wraps around. */
  predicate Plain(inp: seq<byte>, field: nat, i: nat) {
    field < 15 || ReadExt(inp, i).Missing? || ReadExt(inp, i).sum + 15 + MIN_MATCH < WORD
  }

  predicate PlainToken(inp: seq<byte>, i: nat)
    requires i < |inp|
  {
    && Plain(inp, High(inp[i]), i + 1)
    && var lits := ReadSize(inp, |inp|, High(inp[i]), i + 1);
       lits.Missing? || Plain(inp, Low(inp[i]), lits.next + lits.sum + 2)
  }

  /** No size that the careful loop reads from `i` on wraps around. */
  predicate PlainSizes(inp: seq<byte>, i: nat, out: seq<byte>, cap: nat)
    decreases |inp| - i
  {
    i < |inp| ==>
      && PlainToken(inp, i)
      && match TokenStep(inp, i, out, cap)
         case More(next, o) => PlainSizes(inp, next, o, cap)
         case _ => true
  }

  lemma ExtCost(inp: seq<byte>, field: nat, i: nat)
    requires i <= |inp| && Plain(inp, field, i)
    ensures var r := ReadSize(inp, |inp|, field, i);
      r.Ext? ==> 7 * (r.next - i) <= r.sum && (r.next > i ==> r.sum >= 15) && r.sum + MIN_MATCH < WORD
  {
  }

  /** A token that is not the last yields at least as many bytes, up to one part in eight. */
  lemma StepYield(inp: seq<byte>, i: nat, out: seq<byte>, cap: nat)
    requires i < |inp| ==> PlainToken(inp, i)
    ensures var r := TokenStep(inp, i, out, cap);
      && (r.More? ==> 8 * (|r.out| - |out|) >= 7 * (r.next - i))
      && (r.Last? ==> 8 * (|r.out| - |out|) >= 7 * (|inp| - i - 1))
  {
    if i < |inp| {
      ExtCost(inp, High(inp[i]), i + 1);
      var lits := ReadSize(inp, |inp|, High(inp[i]), i + 1);
      if lits.Ext? && lits.next + lits.sum + 2 <= |inp| {
        ExtCost(inp, Low(inp[i]), lits.next + lits.sum + 2);
      }
    }
  }

  lemma {:induction false} DecodeYield(inp: seq<byte>, i: nat, out: seq<byte>, cap: nat)
    requires Decode(inp, i, out, cap).Ok? && PlainSizes(inp, i, out, cap)
    ensures 8 * (|Decode(inp, i, out, cap).out| - |out|) >= 7 * (|inp| - i - 1)
    decreases |inp| - i
  {
    StepYield(inp, i, out, cap);
    var r := TokenStep(inp, i, out, cap);
    if r.More? { DecodeYield(inp, r.next, r.out, cap); }
  }

  lemma PlainField(inp: seq<byte>, i: nat, n: nat)
    requires At(inp, i, ExtOf(n)) && n + MIN_MATCH < WORD
    ensures Plain(inp, Nibble(n), i)
  {
    hide At;
    if n >= 15 { ReadExtBytes(inp, i, n - 15); }
  }

  lemma PlainEncodedToken(inp: seq<byte>, i: nat, t: Token)
    requires ValidToken(t) && At(inp, i, EncodeToken(t)) && |t.lits| + t.size < WORD
    ensures i < |inp| && PlainToken(inp, i)
  {
    hide At, ExtOf, Nibble, ReadSize, Offset, High, Low, Plain, EncodeToken;
    AtIs(inp, i, EncodeToken(t));
    TokenLayout(inp, i, t, |inp|);
    PlainField(inp, i + 1, |t.lits|);
    PlainField(inp, i + 1 + |ExtOf(|t.lits|)| + |t.lits| + 2, t.size - MIN_MATCH);
  }

  lemma PlainLast(inp: seq<byte>, i: nat, lits: seq<byte>)
    requires At(inp, i, EncodeLast(lits)) && i + |EncodeLast(lits)| == |inp| && |lits| + MIN_MATCH < WORD
    ensures i < |inp| && PlainToken(inp, i)
  {
    hide At, ExtOf, Nibble, High, Low;
    StepLast(inp, i, [], |lits|, lits);
    AtSplit(inp, i, [TokenByte(|lits|, 0)], ExtOf(|lits|) + lits);
    AtSplit(inp, i + 1, ExtOf(|lits|), lits);
    PlainField(inp, i + 1, |lits|);
  }

  /** No size in an encoding of what fits a buffer wraps around. */
  lemma {:induction false} PlainEncoded(inp: seq<byte>, i: nat, ts: seq<Token>, lits: seq<byte>, out: seq<byte>, cap: nat)
    requires AllValid(ts) && Grounded(ts, |out|)
    requires At(inp, i, Encode(ts, lits)) && i + |Encode(ts, lits)| == |inp|
    requires |Expand(ts, out)| + |lits| <= cap <= MAX_SIZE
    ensures PlainSizes(inp, i, out, cap)
    decreases |ts|
  {
    hide At, TokenStep, MatchStep, EncodeToken, EncodeLast, CopyMatch, PlainToken, Word;
    if ts == [] {
      PlainLast(inp, i, lits);
      StepLast(inp, i, out, cap, lits);
    } else {
      ExpandLength(ts, out);
      var t := ts[0];
      AtSplit(inp, i, EncodeToken(t), Encode(ts[1..], lits));
      PlainEncodedToken(inp, i, t);
      StepToken(inp, i, out, cap, t);
      StepMatch(out + t.lits, t.offset, t.size, i + |EncodeToken(t)|, cap);
      PlainEncoded(inp, i + |EncodeToken(t)|, ts[1..], lits, CopyMatch(out + t.lits, t.offset, t.size), cap);
    }
  }

  // ---- how much output an encoding needs ----

  /** The largest size a compressor output may need. */
  function SizeUpperBound(n: nat): nat {
    if n > MAX_SIZE then 1 else n + n / 255 + 16
  }

  /** The compressor's prediction of a token's size. */
  function MaxTokenSize(lits: nat, size: nat): nat {
    1 + (lits / 255 + 2) + lits + (size / 255 + 2) + 2 + 1
  }

  /** The check before every token: its predicted size fits at position `o` of `cap`. */
  predicate Fits(ts: seq<Token>, lits: seq<byte>, o: nat, cap: nat)
    requires AllValid(ts)
  {
    if ts == [] then o + MaxTokenSize(|lits|, 0) <= cap
    else o + MaxTokenSize(|ts[0].lits|, ts[0].size) <= cap && Fits(ts[1..], lits, o + |EncodeToken(ts[0])|, cap)
  }

  function Span(ts: seq<Token>): nat {
    if ts == [] then 0 else |ts[0].lits| + ts[0].size + Span(ts[1..])
  }

  lemma {:induction false} ExpandSpan(ts: seq<Token>, out: seq<byte>)
    requires AllValid(ts) && Grounded(ts, |out|)
    ensures |Expand(ts, out)| == |out| + Span(ts)
    decreases |ts|
  {
    hide CopyMatch;
    if ts != [] { ExpandSpan(ts[1..], CopyMatch(out + ts[0].lits, ts[0].offset, ts[0].size)); }
  }

  lemma ExtOfLength(n: nat)
    ensures |ExtOf(n)| == (if n < 15 then 0 else (n - 15) / 255 + 1) <= n / 255 + 1
  {
    if n >= 15 { ExtBytesLength(n - 15); }
  }

  /** A token never exceeds its prediction by more than the check allows for, and its excess over the
      bytes it stands for is paid by every 255 literals. */
  lemma TokenSize(t: Token)
    requires ValidToken(t)
    ensures |EncodeToken(t)| <= MaxTokenSize(|t.lits|, t.size) <= |EncodeToken(t)| + 16
    ensures 255 * (|EncodeToken(t)| - |t.lits| - t.size) <= |t.lits|
  {
    ExtOfLength(|t.lits|);
    ExtOfLength(t.size - MIN_MATCH);
  }

  lemma LastSize(lits: seq<byte>)
    ensures |EncodeLast(lits)| <= MaxTokenSize(|lits|, 0) <= |EncodeLast(lits)| + 16
  {
    ExtOfLength(|lits|);
  }

  /** The upper bound is enough for every check. */
  lemma {:induction false} UpperBoundFits(ts: seq<Token>, lits: seq<byte>, o: nat, spent: nat, n: nat)
    requires AllValid(ts) && spent + Span(ts) + |lits| <= n && 255 * (o - spent) <= spent
    ensures Fits(ts, lits, o, n + n / 255 + 16)
    decreases |ts|
  {
    hide EncodeToken;
    if ts != [] {
      var t := ts[0];
      TokenSize(t);
      UpperBoundFits(ts[1..], lits, o + |EncodeToken(t)|, spent + |t.lits| + t.size, n);
    }
  }

  /** The encoded size and sixteen bytes more are enough for every check. */
  lemma {:induction false} EncodedSizeFits(ts: seq<Token>, lits: seq<byte>, o: nat)
    requires AllValid(ts)
    ensures Fits(ts, lits, o, o + |Encode(ts, lits)| + 16)
    decreases |ts|
  {
    hide EncodeToken, EncodeLast, MaxTokenSize;
    if ts == [] {
      LastSize(lits);
    } else {
      TokenSize(ts[0]);
      EncodedSizeFits(ts[1..], lits, o + |EncodeToken(ts[0])|);
    }
  }

  lemma {:induction false} FitsMore(ts: seq<Token>, lits: seq<byte>, o: nat, cap: nat, cap': nat)
    requires AllValid(ts) && Fits(ts, lits, o, cap) && cap <= cap'
    ensures Fits(ts, lits, o, cap')
    decreases |ts|
  {
    hide EncodeToken, MaxTokenSize;
    if ts != [] { FitsMore(ts[1..], lits, o + |EncodeToken(ts[0])|, cap, cap'); }
  }

  lemma {:induction false} FitsBounds(ts: seq<Token>, lits: seq<byte>, o: nat, cap: nat)
    requires AllValid(ts) && Fits(ts, lits, o, cap)
    ensures o + |Encode(ts, lits)| <= cap
    decreases |ts|
  {
    hide EncodeToken, EncodeLast, MaxTokenSize;
    if ts == [] {
      LastSize(lits);
    } else {
      FitsBounds(ts[1..], lits, o + |EncodeToken(ts[0])|, cap);
    }
  }

  // ---- the largest encoding ----

  /** The size of an encoding that is one token of `n` literals. */
  function LiteralSize(n: nat): (r: nat)
    ensures r > n
  {
    1 + |ExtOf(n)| + n
  }

  lemma LiteralSizeGrows(m: nat, n: nat)
    requires m <= n
    ensures LiteralSize(m) <= LiteralSize(n)
  {
    ExtOfLength(m);
    ExtOfLength(n);
  }

  function AllLiterals(ts: seq<Token>): nat {
    if ts == [] then 0 else |ts[0].lits| + AllLiterals(ts[1..])
  }

  /** What the tokens take beyond the bytes they stand for is paid by every 255 of their literals. */
  lemma {:induction false} Excess(ts: seq<Token>, lits: seq<byte>)
    requires AllValid(ts)
    ensures 255 * (|Encode(ts, lits)| - Span(ts) - |EncodeLast(lits)|) <= AllLiterals(ts)
    ensures AllLiterals(ts) + MIN_MATCH * |ts| <= Span(ts)
    decreases |ts|
  {
    hide EncodeToken, EncodeLast;
    if ts != [] {
      TokenSize(ts[0]);
      Excess(ts[1..], lits);
    }
  }

  /** No encoding that ends in twelve literals is larger than that of all bytes as literals. */
  lemma LiteralsAreWorst(ts: seq<Token>, lits: seq<byte>)
    requires AllValid(ts) && (ts == [] || |lits| >= 12)
    ensures |Encode(ts, lits)| <= LiteralSize(Span(ts) + |lits|)
  {
    hide EncodeToken, ExtOf;
    Excess(ts, lits);
    ExtOfLength(|lits|);
    ExtOfLength(Span(ts) + |lits|);
  }
}
