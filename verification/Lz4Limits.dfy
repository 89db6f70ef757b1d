/**
 Exactly when the decompressor's 32-bit sizes and its fast phase do no harm, in terms of what a
 caller can see: the longest run of 255 bytes in the stream and the size of the output.
 */
module Lz4Limits {
  import opened Lz4Format
  import opened Lz4Phases

  /** The shortest run of 255 bytes with which an extended size can wrap around. */
  const LONG_RUN: nat := 16_843_008

  // ---- runs of 255 bytes ----

  ghost predicate Broken(s: seq<byte>, p: nat, n: nat) {
    exists k :: p <= k <= p + n && k < |s| && s[k] != 255
  }

  /** At most `n` bytes of 255 stand in a row. */
  ghost predicate ShortRuns(s: seq<byte>, n: nat) {
    forall p: nat :: p + n < |s| ==> Broken(s, p, n)
  }

  lemma {:induction false} ExtIsRun(inp: seq<byte>, i: nat, k: nat)
    requires ReadExt(inp, i).Ext? && i <= k < ReadExt(inp, i).next - 1
    ensures inp[k] == 255
    decreases k - i
  {
    if i < k { ExtIsRun(inp, i + 1, k); }
  }

  lemma RunBoundsSize(inp: seq<byte>, i: nat, run: nat)
    requires ShortRuns(inp, run) && ReadExt(inp, i).Ext?
    ensures ReadExt(inp, i).sum <= 255 * run + 254
  {
    var r := ReadExt(inp, i);
    if r.next - i - 1 > run {
      assert Broken(inp, i, run);
      var k :| i <= k <= i + run && k < |inp| && inp[k] != 255;
      ExtIsRun(inp, i, k);
    }
  }

  // ---- no size wraps around without a long run ----

  lemma FieldIsPlain(inp: seq<byte>, field: nat, i: nat, run: nat)
    requires ShortRuns(inp, run) && run < LONG_RUN
    ensures Plain(inp, field, i)
  {
    if ReadExt(inp, i).Ext? { RunBoundsSize(inp, i, run); }
  }

  lemma {:induction false} SizesArePlain(inp: seq<byte>, i: nat, out: seq<byte>, cap: nat, run: nat)
    requires ShortRuns(inp, run) && run < LONG_RUN
    ensures PlainSizes(inp, i, out, cap)
    decreases |inp| - i
  {
    hide TokenStep, ShortRuns, Plain, ReadSize;
    if i < |inp| {
      FieldIsPlain(inp, High(inp[i]), i + 1, run);
      var lits := ReadSize(inp, |inp|, High(inp[i]), i + 1);
      if lits.Ext? { FieldIsPlain(inp, Low(inp[i]), lits.next + lits.sum + 2, run); }
      var r := TokenStep(inp, i, out, cap);
      if r.More? { SizesArePlain(inp, r.next, r.out, cap, run); }
    }
  }

  // ---- the careful loop stays inside its buffers ----

  /** No size that such a stream holds reaches around past an output of `cap` bytes. */
  predicate Within(run: nat, cap: nat) {
    cap == 0 || 255 * run + 15 + 254 + MIN_MATCH + cap < WORD
  }

  lemma FieldBound(inp: seq<byte>, field: nat, i: nat, run: nat)
    requires ShortRuns(inp, run) && field <= 15
    ensures var r := ReadSize(inp, |inp|, field, i); r.Ext? ==> r.sum <= 255 * run + 15 + 254
  {
    if ReadExt(inp, i).Ext? { RunBoundsSize(inp, i, run); }
  }

  lemma MatchStays(o: seq<byte>, offset: nat, field: Ext, cap: nat, run: nat)
    requires |o| <= cap && Within(run, cap) && (field.Ext? ==> field.sum <= 255 * run + 15 + 254)
    ensures MatchStep(o, offset, field, cap) != Leave
  {
    hide CopyMatch;
  }

  lemma StepStays(inp: seq<byte>, i: nat, out: seq<byte>, cap: nat, run: nat)
    requires |inp| <= MAX_SIZE && |out| <= cap <= MAX_SIZE && ShortRuns(inp, run) && Within(run, cap)
    ensures TokenStep(inp, i, out, cap) != Leave
  {
    hide ReadSize, MatchStep, ShortRuns, Offset, High, Low;
    if i < |inp| {
      FieldBound(inp, High(inp[i]), i + 1, run);
      var lits := ReadSize(inp, |inp|, High(inp[i]), i + 1);
      if lits.Ext? && lits.next + lits.sum + 2 <= |inp| && |out| + lits.sum <= cap {
        var j := lits.next + lits.sum;
        FieldBound(inp, Low(inp[i]), j + 2, run);
        MatchStays(out + inp[lits.next..j], Offset(inp[j], inp[j + 1]), ReadSize(inp, |inp|, Low(inp[i]), j + 2), cap, run);
      }
    }
  }

  lemma {:induction false} DecodeStays(inp: seq<byte>, i: nat, out: seq<byte>, cap: nat, run: nat)
    requires |inp| <= MAX_SIZE && |out| <= cap <= MAX_SIZE && ShortRuns(inp, run) && Within(run, cap)
    ensures Decode(inp, i, out, cap) != Stray
    decreases |inp| - i
  {
    hide TokenStep, ShortRuns, Within;
    StepStays(inp, i, out, cap, run);
    var r := TokenStep(inp, i, out, cap);
    if r.More? { DecodeStays(inp, r.next, r.out, cap, run); }
  }

  // ---- streams with known runs ----

  /** A run that ends here is over: such pieces can be put one after the other. */
  ghost predicate Closed(s: seq<byte>, run: nat) {
    ShortRuns(s, run) && (s != [] ==> s[|s| - 1] != 255)
  }

  lemma ClosedConcat(a: seq<byte>, b: seq<byte>, run: nat)
    requires Closed(a, run) && Closed(b, run)
    ensures Closed(a + b, run)
  {
    var s := a + b;
    forall p: nat | p + run < |s| ensures Broken(s, p, run) {
      if p + run < |a| {
        assert Broken(a, p, run);
        var k :| p <= k <= p + run && k < |a| && a[k] != 255;
        assert s[k] != 255;
      } else if p < |a| {
        assert s[|a| - 1] != 255;
      } else {
        assert Broken(b, p - |a|, run);
        var k :| p - |a| <= k <= p - |a| + run && k < |b| && b[k] != 255;
        assert s[|a| + k] != 255;
      }
    }
  }

  lemma {:induction false} ExtEnds(n: nat)
    ensures ExtBytes(n)[|ExtBytes(n)| - 1] != 255
  {
    if n >= 255 { ExtEnds(n - 255); }
  }

  lemma ClosedExt(n: nat, run: nat)
    requires n <= 255 * run + 254 + 15
    ensures Closed(ExtOf(n), run)
  {
    if n >= 15 {
      var s := ExtBytes(n - 15);
      ExtBytesLength(n - 15);
      ExtEnds(n - 15);
      forall p: nat | p + run < |s| ensures Broken(s, p, run) {
        assert s[|s| - 1] != 255;
      }
    }
  }

  lemma ClosedBytes(s: seq<byte>, run: nat)
    requires forall k :: 0 <= k < |s| ==> s[k] != 255
    ensures Closed(s, run)
  {
    forall p: nat | p + run < |s| ensures Broken(s, p, run) {
      assert s[p] != 255;
    }
  }

  function Zeros(n: nat): (s: seq<byte>)
    ensures |s| == n
  {
    seq(n, _ => 0)
  }

  /** A token of zero literals whose size fields extend over at most `run` bytes of 255. */
  predicate Simple(t: Token, run: nat) {
    && ValidToken(t) && t.offset < 255 && t.lits == Zeros(|t.lits|) && (|t.lits| < 15 || t.size < 19)
    && |t.lits| <= 255 * run + 254 + 15 && t.size <= 255 * run + 254 + 15 + MIN_MATCH
  }

  lemma ClosedToken(t: Token, run: nat)
    requires Simple(t, run)
    ensures Closed(EncodeToken(t), run)
  {
    var first, off := [TokenByte(|t.lits|, t.size - MIN_MATCH)], OffsetBytes(t.offset);
    var e, e' := ExtOf(|t.lits|), ExtOf(t.size - MIN_MATCH);
    ClosedBytes(first, run);
    ClosedBytes(off, run);
    ClosedBytes(t.lits, run);
    hide Closed, ExtOf, OffsetBytes, TokenByte;
    ClosedExt(|t.lits|, run);
    ClosedExt(t.size - MIN_MATCH, run);
    ClosedConcat(off, e', run);
    ClosedConcat(t.lits, off + e', run);
    ClosedConcat(e, t.lits + (off + e'), run);
    ClosedConcat(first, e + (t.lits + (off + e')), run);
  }

  lemma ClosedLast(n: nat, run: nat)
    requires n <= 255 * run + 254 + 15
    ensures Closed(EncodeLast(Zeros(n)), run)
  {
    var first := [TokenByte(n, 0)];
    ClosedBytes(first, run);
    ClosedBytes(Zeros(n), run);
    hide Closed, ExtOf, TokenByte, Zeros;
    ClosedExt(n, run);
    ClosedConcat(ExtOf(n), Zeros(n), run);
    ClosedConcat(first, ExtOf(n) + Zeros(n), run);
  }

  lemma {:induction false} ClosedEncode(ts: seq<Token>, n: nat, run: nat)
    requires AllValid(ts) && (forall k :: 0 <= k < |ts| ==> Simple(ts[k], run)) && n <= 255 * run + 254 + 15
    ensures Closed(Encode(ts, Zeros(n)), run)
    decreases |ts|
  {
    hide Closed, Simple, EncodeToken, EncodeLast, Zeros;
    if ts == [] {
      ClosedLast(n, run);
    } else {
      ClosedToken(ts[0], run);
      ClosedEncode(ts[1..], n, run);
      ClosedConcat(EncodeToken(ts[0]), Encode(ts[1..], Zeros(n)), run);
    }
  }

  lemma MoreRun(s: seq<byte>, run: nat, run': nat)
    requires ShortRuns(s, run) && run <= run'
    ensures ShortRuns(s, run')
  {
    forall p: nat | p + run' < |s| ensures Broken(s, p, run') {
      assert Broken(s, p, run);
    }
  }

  // ---- a stream on which the fast phase goes wrong ----

  /** Two tokens at the end of a buffer of `HOT_OUTPUT` bytes, after all but 64 of them. */
  function Hot(size: nat): Token {
    Token(Zeros(14), 8, size)
  }

  /** Fills the buffer up to there. */
  function Start(): Token {
    Token(Zeros(65503), 8, 18)
  }

  /** The careful loop takes this match for one of 5 bytes. */
  function Wrapping(): Token {
    Token([], 8, WORD + 5)
  }

  /** How the fast loop sees an encoded token that ends before its padding. */
  lemma FastToken(inp: seq<byte>, i: nat, out: seq<byte>, cap: nat, t: Token)
    requires ValidToken(t) && At(inp, i, EncodeToken(t)) && i + |EncodeToken(t)| + FAST_PHASE_PADDING <= |inp|
    requires |t.lits| < WORD && t.size < WORD && FAST_PHASE_PADDING < cap
    requires |out| + |t.lits| + FAST_PHASE_PADDING <= cap || (|t.lits| < 15 && |out| + 16 <= cap)
    ensures i + FAST_PHASE_PADDING < |inp|
    ensures FastStep(inp, i, out, cap) ==
            FastMatch(out + t.lits, t.size < 19, t.offset, Ext(t.size - MIN_MATCH, i + |EncodeToken(t)|), cap)
  {
    hide At, EncodeToken, ExtOf, ReadSize, FastMatch, Offset, High, Low;
    TokenLayout(inp, i, t, |inp| - FAST_PHASE_PADDING);
    ShortField(inp, |inp| - FAST_PHASE_PADDING, High(inp[i]), i + 1);
  }

  /** The rest of the stream from `i` on is the encoding of `ts` and `lits`. */
  ghost predicate From(inp: seq<byte>, i: nat, ts: seq<Token>, lits: seq<byte>) {
    AllValid(ts) && At(inp, i, Encode(ts, lits)) && i + |Encode(ts, lits)| == |inp|
  }

  lemma Peel(inp: seq<byte>, i: nat, t: Token, ts: seq<Token>, lits: seq<byte>)
    requires From(inp, i, [t] + ts, lits)
    ensures ValidToken(t) && At(inp, i, EncodeToken(t)) && From(inp, i + |EncodeToken(t)|, ts, lits)
  {
    hide At, EncodeToken, EncodeLast;
    var all := [t] + ts;
    assert all[1..] == ts && all[0] == t;
    assert forall k :: 0 <= k < |ts| ==> ts[k] == all[k + 1];
    AtSplit(inp, i, EncodeToken(t), Encode(ts, lits));
  }

  lemma Whole(ts: seq<Token>, lits: seq<byte>)
    requires AllValid(ts)
    ensures From(Encode(ts, lits), 0, ts, lits)
  {
  }

  /** One token of the careful loop, by lengths. */
  lemma CarefulAdvance(inp: seq<byte>, i: nat, out: seq<byte>, cap: nat, t: Token, ts: seq<Token>, lits: seq<byte>)
      returns (i': nat, out': seq<byte>)
    requires From(inp, i, [t] + ts, lits) && ValidToken(t) && (t.size < 19 || Word(t.size - MIN_MATCH) > 0)
    requires t.offset <= |out| + |t.lits| && |out| + |t.lits| + Word(t.size) <= cap < WORD
    ensures |out'| == |out| + |t.lits| + Word(t.size) && i' == i + |EncodeToken(t)| && From(inp, i', ts, lits)
    ensures Decode(inp, i, out, cap) == Decode(inp, i', out', cap)
  {
    hide At, EncodeToken, CopyMatch, TokenStep, Word, From;
    Peel(inp, i, t, ts, lits);
    StepToken(inp, i, out, cap, t);
    WordSum(t.size - MIN_MATCH, MIN_MATCH);
    i', out' := i + |EncodeToken(t)|, CopyMatch(out + t.lits, t.offset, Word(t.size));
  }

  /** One token of the fast loop, by lengths. */
  lemma FastAdvance(inp: seq<byte>, i: nat, out: seq<byte>, cap: nat, t: Token, ts: seq<Token>, lits: seq<byte>)
      returns (i': nat, out': seq<byte>)
    requires From(inp, i, [t] + ts, lits) && ValidToken(t) && i + |EncodeToken(t)| + FAST_PHASE_PADDING <= |inp|
    requires t.size < 19 && |t.lits| < WORD && 8 <= t.offset <= |out| + |t.lits| && cap < WORD
    requires |out| + |t.lits| + FAST_PHASE_PADDING <= cap || (|t.lits| < 15 && |out| + 16 <= cap)
    requires if |out| + |t.lits| >= WINDOW_SIZE then |out| + |t.lits| + 20 <= cap
             else |out| + |t.lits| + t.size + FAST_PHASE_PADDING <= cap
    ensures |out'| == |out| + |t.lits| + t.size && FAST_PHASE_PADDING < cap
    ensures i' == i + |EncodeToken(t)| && From(inp, i', ts, lits)
    ensures FastRun(inp, i, out, cap) == FastRun(inp, i', out', cap)
  {
    hide At, EncodeToken, CopyMatch, FastStep, Word, From;
    Peel(inp, i, t, ts, lits);
    FastToken(inp, i, out, cap, t);
    i', out' := i + |EncodeToken(t)|, CopyMatch(out + t.lits, t.offset, t.size);
  }

  /** After all but 64 bytes the fast loop copies past the end of the buffer in the second token. */
  lemma HotFault(inp: seq<byte>, i: nat, out: seq<byte>, ts: seq<Token>, lits: seq<byte>)
    requires From(inp, i, [Hot(18)] + ([Hot(4)] + ts), lits) && i + 34 + FAST_PHASE_PADDING <= |inp|
    requires |out| == HOT_OUTPUT - FAST_PHASE_PADDING
    ensures FastRun(inp, i, out, HOT_OUTPUT) == Stray
  {
    hide At, EncodeToken, FastStep, Word, From, Zeros;
    HotSize(18);
    HotSize(4);
    var i', out' := FastAdvance(inp, i, out, HOT_OUTPUT, Hot(18), [Hot(4)] + ts, lits);
    Peel(inp, i', Hot(4), ts, lits);
    FastToken(inp, i', out', HOT_OUTPUT, Hot(4));
  }

  lemma HotSize(size: nat)
    requires 4 <= size < 19
    ensures ValidToken(Hot(size)) && |EncodeToken(Hot(size))| == 17
  {
  }

  /** The stream: 65503 literals and three matches, then one whose size wraps around to 5. */
  function WrappingTokens(): (ts: seq<Token>)
    ensures AllValid(ts)
  {
    [Start()] + ([Hot(18)] + ([Hot(4)] + ([Wrapping()] + [])))
  }

  lemma WrappingSizes()
    ensures ValidToken(Start()) && ValidToken(Wrapping())
    ensures |EncodeToken(Start())| == 65763 && |EncodeToken(Wrapping())| == 16_843_012 && |EncodeLast([])| == 1
    ensures Word(18) == 18 && Word(4) == 4 && Word(WORD + 5) == 5 && Word(WORD + 1) == 1
  {
    ExtOfLength(65503);
    ExtOfLength(WORD + 1);
  }

  /** The careful loop accepts it. */
  lemma WrappingIsAccepted(inp: seq<byte>)
    requires From(inp, 0, WrappingTokens(), [])
    ensures Decode(inp, 0, [], HOT_OUTPUT).Ok?
  {
    hide At, EncodeToken, EncodeLast, Decode, From, Word, Zeros;
    WrappingSizes();
    HotSize(18);
    HotSize(4);
    var t3 := [Wrapping()] + [];
    var t2 := [Hot(4)] + t3;
    var i, o := CarefulAdvance(inp, 0, [], HOT_OUTPUT, Start(), [Hot(18)] + t2, []);
    i, o := CarefulAdvance(inp, i, o, HOT_OUTPUT, Hot(18), t2, []);
    i, o := CarefulAdvance(inp, i, o, HOT_OUTPUT, Hot(4), t3, []);
    i, o := CarefulAdvance(inp, i, o, HOT_OUTPUT, Wrapping(), [], []);
    LastIsAccepted(inp, i, o, HOT_OUTPUT);
  }

  lemma LastIsAccepted(inp: seq<byte>, i: nat, out: seq<byte>, cap: nat)
    requires From(inp, i, [], []) && |out| <= cap < WORD
    ensures Decode(inp, i, out, cap).Ok?
  {
    StepLast(inp, i, out, cap, []);
  }

  /** The fast phase leaves the output on it. */
  lemma WrappingStrays(inp: seq<byte>)
    requires From(inp, 0, WrappingTokens(), [])
    ensures |inp| <= MAX_SIZE && TwoPhase(inp, HOT_OUTPUT) == Stray
  {
    hide At, EncodeToken, EncodeLast, FastRun, From, Word, Zeros;
    WrappingLength(inp);
    WrappingSizes();
    var t3 := [Wrapping()] + [];
    var i, o := FastAdvance(inp, 0, [], HOT_OUTPUT, Start(), [Hot(18)] + ([Hot(4)] + t3), []);
    HotFault(inp, i, o, t3, []);
  }

  lemma WrappingLength(inp: seq<byte>)
    requires From(inp, 0, WrappingTokens(), [])
    ensures |inp| == 16_908_810
  {
    hide At, EncodeToken, EncodeLast, Word, From, Zeros;
    WrappingSizes();
    HotSize(18);
    HotSize(4);
    var t3 := [Wrapping()] + [];
    Peel(inp, 0, Start(), [Hot(18)] + ([Hot(4)] + t3), []);
    Peel(inp, 65763, Hot(18), [Hot(4)] + t3, []);
    Peel(inp, 65780, Hot(4), t3, []);
    Peel(inp, 65797, Wrapping(), [], []);
    End(inp, 65797 + 16_843_012);
  }

  lemma End(inp: seq<byte>, i: nat)
    requires From(inp, i, [], [])
    ensures |inp| == i + |EncodeLast([])|
  {
  }

  lemma WrappingRuns()
    ensures ShortRuns(Encode(WrappingTokens(), []), LONG_RUN)
  {
    assert Simple(Start(), LONG_RUN) && Simple(Hot(18), LONG_RUN) && Simple(Hot(4), LONG_RUN) && Simple(Wrapping(), LONG_RUN);
    assert Zeros(0) == [];
    hide Simple, EncodeToken, EncodeLast, Hot, Start, Wrapping;
    ClosedEncode(WrappingTokens(), 0, LONG_RUN);
  }

  // ---- a stream without 255 bytes on which it goes wrong ----

  /** `n` tokens of 32 bytes each, then one of 17 and the two at the end. */
  function PlainTokens(n: nat): (ts: seq<Token>)
    ensures AllValid(ts) && forall run, k :: 0 <= k < |ts| ==> Simple(ts[k], run)
  {
    if n == 0 then [Token(Zeros(13), 8, 4)] + ([Hot(18)] + ([Hot(4)] + []))
    else [Hot(18)] + PlainTokens(n - 1)
  }

  lemma Prefixed(t: Token, ts: seq<Token>, lits: seq<byte>)
    requires ValidToken(t) && AllValid(ts)
    ensures AllValid([t] + ts) && |Encode([t] + ts, lits)| == |EncodeToken(t)| + |Encode(ts, lits)|
  {
    assert ([t] + ts)[1..] == ts;
  }

  lemma {:induction false} PlainLength(n: nat, lits: seq<byte>)
    ensures 17 * n + 50 + |lits| < |Encode(PlainTokens(n), lits)| <= 17 * n + 53 + 2 * |lits|
    decreases n
  {
    hide EncodeToken, Zeros;
    ExtOfLength(|lits|);
    SmallSize();
    HotSize(18);
    HotSize(4);
    if n == 0 {
      Prefixed(Token(Zeros(13), 8, 4), [Hot(18)] + ([Hot(4)] + []), lits);
      Prefixed(Hot(18), [Hot(4)] + [], lits);
      Prefixed(Hot(4), [], lits);
    } else {
      Prefixed(Hot(18), PlainTokens(n - 1), lits);
      PlainLength(n - 1, lits);
    }
  }

  lemma {:induction false} PlainStrays(inp: seq<byte>, i: nat, out: seq<byte>, n: nat, lits: seq<byte>)
    requires From(inp, i, PlainTokens(n), lits) && |lits| == 65
    requires |out| + 32 * n + 17 == HOT_OUTPUT - FAST_PHASE_PADDING
    ensures FastRun(inp, i, out, HOT_OUTPUT) == Stray
    decreases n
  {
    hide At, EncodeToken, EncodeLast, FastRun, Word, From, Zeros;
    PlainEnd(inp, i, n, lits);
    if n == 0 {
      var t := Token(Zeros(13), 8, 4);
      assert |EncodeToken(t)| == 16 by { SmallSize(); }
      var i', out' := FastAdvance(inp, i, out, HOT_OUTPUT, t, [Hot(18)] + ([Hot(4)] + []), lits);
      HotFault(inp, i', out', [], lits);
    } else {
      HotSize(18);
      var i', out' := FastAdvance(inp, i, out, HOT_OUTPUT, Hot(18), PlainTokens(n - 1), lits);
      PlainStrays(inp, i', out', n - 1, lits);
    }
  }

  lemma SmallSize()
    ensures |EncodeToken(Token(Zeros(13), 8, 4))| == 16
  {
  }

  lemma PlainEnd(inp: seq<byte>, i: nat, n: nat, lits: seq<byte>)
    requires From(inp, i, PlainTokens(n), lits)
    ensures i + 17 * n + 50 + |lits| < |inp|
  {
    PlainLength(n, lits);
  }

  // ---- a stream on which the careful loop itself goes wrong ----

  /** The largest 32-bit match size with such runs. */
  function LargestSize(run: nat): (size: nat)
    ensures size < WORD && size <= 255 * run + 15 + 254 + MIN_MATCH
  {
    if 255 * run + 15 + 254 + MIN_MATCH < WORD then 255 * run + 15 + 254 + MIN_MATCH else WORD - 1
  }

  /** Fills the buffer and asks for a match that reaches around. */
  function FullTokens(run: nat, cap: nat): seq<Token>
    requires cap > 0
  {
    var around := Token([], 1, LargestSize(run));
    if cap < 5 then [around.(lits := Zeros(cap))] + [] else [Token(Zeros(1), 1, cap - 1)] + ([around] + [])
  }

  lemma FullIsSimple(run: nat, cap: nat)
    requires 0 < cap <= MAX_SIZE && !Within(run, cap)
    ensures var ts := FullTokens(run, cap); AllValid(ts) && forall k :: 0 <= k < |ts| ==> Simple(ts[k], run)
  {
    assert LargestSize(run) + cap >= WORD;
  }

  lemma FullLength(run: nat, cap: nat)
    requires 0 < cap <= MAX_SIZE && !Within(run, cap) && AllValid(FullTokens(run, cap))
    ensures |Encode(FullTokens(run, cap), [])| <= MAX_SIZE
  {
    hide EncodeToken, EncodeLast, Zeros;
    var around := Token([], 1, LargestSize(run));
    LastSize([]);
    if cap < 5 {
      var t := around.(lits := Zeros(cap));
      assert FullTokens(run, cap)[0] == t;
      TokenSize(t);
      Prefixed(t, [], []);
    } else {
      var t, ts := Token(Zeros(1), 1, cap - 1), [around] + [];
      assert FullTokens(run, cap)[0] == t && FullTokens(run, cap)[1] == around;
      TokenSize(t);
      TokenSize(around);
      Prefixed(around, [], []);
      Prefixed(t, ts, []);
    }
  }

  lemma FullLeaves(inp: seq<byte>, i: nat, out: seq<byte>, cap: nat, t: Token, ts: seq<Token>)
    requires From(inp, i, [t] + ts, []) && |out| + |t.lits| == cap <= MAX_SIZE
    requires ValidToken(t) && t.offset == 1 <= cap && t.size < WORD <= t.size + cap
    ensures Decode(inp, i, out, cap) == Stray
  {
    hide At, EncodeToken, TokenStep, From, CopyMatch;
    Peel(inp, i, t, ts, []);
    StepToken(inp, i, out, cap, t);
  }

  lemma FullStrays(inp: seq<byte>, run: nat, cap: nat)
    requires 0 < cap <= MAX_SIZE && !Within(run, cap) && From(inp, 0, FullTokens(run, cap), [])
    ensures Decode(inp, 0, [], cap) == Stray
  {
    hide At, EncodeToken, From, Decode, Word;
    var size := LargestSize(run);
    if cap < 5 {
      FullLeaves(inp, 0, [], cap, Token(Zeros(cap), 1, size), []);
    } else {
      var around := [Token([], 1, size)] + [];
      var i, o := CarefulAdvance(inp, 0, [], cap, Token(Zeros(1), 1, cap - 1), around, []);
      FullLeaves(inp, i, o, cap, Token([], 1, size), []);
    }
  }

  // ---- the exact conditions ----

  ghost predicate Admitted(inp: seq<byte>, run: nat, c: nat, cap: nat) {
    |inp| <= MAX_SIZE && c <= cap && c <= MAX_SIZE && ShortRuns(inp, run)
  }

  /** On the streams the careful loop accepts, whose runs of 255 bytes are at most `run` long, and with
      outputs up to `cap`, the two phases always agree with it if and only if `run` or `cap` is small. */
  lemma AcceptedAgree(run: nat, cap: nat)
    ensures (forall inp, c :: Admitted(inp, run, c, cap) && Decode(inp, 0, [], c).Ok? ==>
               TwoPhase(inp, c) == Decode(inp, 0, [], c))
       <==> run < LONG_RUN || cap < HOT_OUTPUT
  {
    hide Decode, TwoPhase, ShortRuns, Encode;
    forall inp, c | Admitted(inp, run, c, cap) && Decode(inp, 0, [], c).Ok? && (run < LONG_RUN || cap < HOT_OUTPUT)
      ensures TwoPhase(inp, c) == Decode(inp, 0, [], c)
    {
      if run < LONG_RUN {
        SizesArePlain(inp, 0, [], c, run);
        PlainAgrees(inp, c);
      } else {
        SmallAgrees(inp, c);
      }
    }
    if run >= LONG_RUN && cap >= HOT_OUTPUT {
      var inp := Encode(WrappingTokens(), []);
      Whole(WrappingTokens(), []);
      WrappingRuns();
      MoreRun(inp, LONG_RUN, run);
      WrappingIsAccepted(inp);
      WrappingStrays(inp);
      assert Admitted(inp, run, HOT_OUTPUT, cap);
    }
  }

  /** On all streams, accepted or not, they always agree if and only if `cap` is small: no bound on the
      runs helps. */
  lemma AllAgree(run: nat, cap: nat)
    ensures (forall inp, c :: Admitted(inp, run, c, cap) ==> TwoPhase(inp, c) == Decode(inp, 0, [], c))
       <==> cap < HOT_OUTPUT
  {
    hide Decode, TwoPhase, ShortRuns;
    forall inp, c | Admitted(inp, run, c, cap) && cap < HOT_OUTPUT
      ensures TwoPhase(inp, c) == Decode(inp, 0, [], c)
    {
      SmallAgrees(inp, c);
    }
    if cap >= HOT_OUTPUT {
      var inp := PlainWitness(run);
      assert Admitted(inp, run, HOT_OUTPUT, cap);
    }
  }

  lemma PlainWitness(run: nat) returns (inp: seq<byte>)
    ensures |inp| <= MAX_SIZE && ShortRuns(inp, run)
    ensures TwoPhase(inp, HOT_OUTPUT) == Stray && Decode(inp, 0, [], HOT_OUTPUT) != Stray
  {
    hide Decode, FastRun, ShortRuns, Encode, PlainTokens, Zeros;
    var ts, lits := PlainTokens(2047), Zeros(65);
    inp := Encode(ts, lits);
    Whole(ts, lits);
    PlainLength(2047, lits);
    PlainStrays(inp, 0, [], 2047, lits);
    ClosedEncode(ts, 65, 0);
    DecodeStays(inp, 0, [], HOT_OUTPUT, 0);
    MoreRun(inp, 0, run);
  }

  /** The careful loop always stays inside its buffers if and only if the largest size that such a
      stream can hold does not reach around past the output. */
  lemma CarefulStays(run: nat, cap: nat)
    requires cap <= MAX_SIZE
    ensures (forall inp, c :: Admitted(inp, run, c, cap) ==> Decode(inp, 0, [], c) != Stray) <==> Within(run, cap)
  {
    hide Decode, ShortRuns, Encode, FullTokens, Zeros;
    forall inp, c | Admitted(inp, run, c, cap) && Within(run, cap)
      ensures Decode(inp, 0, [], c) != Stray
    {
      DecodeStays(inp, 0, [], c, run);
    }
    if !Within(run, cap) {
      var ts := FullTokens(run, cap);
      FullIsSimple(run, cap);
      FullLength(run, cap);
      var inp := Encode(ts, []);
      Whole(ts, []);
      assert Zeros(0) == [];
      ClosedEncode(ts, 0, run);
      FullStrays(inp, run, cap);
      assert Admitted(inp, run, cap, cap);
    }
  }

  /** The whole decompressor always stays inside its buffers if and only if the careful loop does and
      the output is too small for the fast phase to go wrong. */
  lemma DecompressorStays(run: nat, cap: nat)
    requires cap <= MAX_SIZE
    ensures (forall inp, c :: Admitted(inp, run, c, cap) ==> TwoPhase(inp, c) != Stray)
       <==> Within(run, cap) && cap < HOT_OUTPUT
  {
    hide Decode, TwoPhase, ShortRuns, Within;
    CarefulStays(run, cap);
    AllAgree(run, cap);
    if cap >= HOT_OUTPUT {
      var inp := PlainWitness(run);
      assert Admitted(inp, run, HOT_OUTPUT, cap);
    } else if !Within(run, cap) {
      var inp, c :| Admitted(inp, run, c, cap) && Decode(inp, 0, [], c) == Stray;
      assert TwoPhase(inp, c) == Stray;
    }
  }
}
