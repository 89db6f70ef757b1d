/**
 Which streams the decoder accepts and which error it gives for the others: exactly the encodings of token lists whose
 matches lie inside what was produced, up to the match half of the last token byte, which it never reads.
 */
module Lz4Accept {
  import opened Lz4Format

  // ---- spellings ----

  predicate AllWritable(ts: seq<Token>) {
    forall k :: 0 <= k < |ts| ==> Writable(ts[k])
  }

  /** The last token with any match half of its first byte. */
  function SpelledLast(lits: seq<byte>, low: nat): (s: seq<byte>)
    requires low < 16
    ensures |s| == |EncodeLast(lits)|
  {
    [Nibble(|lits|) * 16 + low] + (ExtOf(|lits|) + lits)
  }

  function Spelled(ts: seq<Token>, lits: seq<byte>, low: nat): seq<byte>
    requires AllWritable(ts) && low < 16
  {
    if ts == [] then SpelledLast(lits, low) else EncodeToken(ts[0]) + Spelled(ts[1..], lits, low)
  }

  /** The encoder writes zero there. */
  lemma {:induction false} EncodedIsSpelled(ts: seq<Token>, lits: seq<byte>)
    requires AllValid(ts)
    ensures AllWritable(ts) && Spelled(ts, lits, 0) == Encode(ts, lits)
  {
    hide EncodeToken;
    if ts != [] { EncodedIsSpelled(ts[1..], lits); }
  }

  // ---- what becomes of a spelling ----

  datatype Verdict = Fine | Bad(error: Error)

  /** The first token that does not fit the output or whose match starts outside of what was produced decides. */
  function Judge(ts: seq<Token>, lits: nat, produced: nat, cap: nat): Verdict {
    if ts == [] then if produced + lits > cap then Bad(OutputTooSmall) else Fine else
    var start := produced + |ts[0].lits|;
    if start + ts[0].size > cap then Bad(OutputTooSmall)
    else if ts[0].offset > start then Bad(OffsetBiggerThanPos)
    else if ts[0].offset == 0 then Bad(OffsetZero)
    else Judge(ts[1..], lits, start + ts[0].size, cap)
  }

  /** No size of a token wraps around in an output of `cap` bytes. */
  predicate Modest(ts: seq<Token>, cap: nat) {
    forall k :: 0 <= k < |ts| ==> |ts[k].lits| + cap < WORD && ts[k].size + cap < WORD
  }

  lemma {:induction false} FineIsGrounded(ts: seq<Token>, lits: nat, produced: nat, cap: nat)
    requires AllWritable(ts)
    ensures Judge(ts, lits, produced, cap) == Fine <==>
            AllValid(ts) && Grounded(ts, produced) && produced + Span(ts) + lits <= cap
    decreases |ts|
  {
    if ts != [] {
      var start := produced + |ts[0].lits|;
      FineIsGrounded(ts[1..], lits, start + ts[0].size, cap);
      assert AllValid(ts) <==> ValidToken(ts[0]) && AllValid(ts[1..]) by { ValidParts(ts); }
    }
  }

  lemma ValidParts(ts: seq<Token>)
    requires ts != []
    ensures AllValid(ts) <==> ValidToken(ts[0]) && AllValid(ts[1..])
  {
    forall k | 0 < k < |ts| && AllValid(ts[1..]) ensures ValidToken(ts[k]) {
      assert ts[k] == ts[1..][k - 1];
    }
  }

  lemma SpelledLastStep(inp: seq<byte>, i: nat, out: seq<byte>, cap: nat, lits: seq<byte>, low: nat)
    requires low < 16 && At(inp, i, SpelledLast(lits, low)) && i + |SpelledLast(lits, low)| == |inp|
    requires |out| <= cap && |lits| + cap < WORD && |inp| < WORD
    ensures TokenStep(inp, i, out, cap) == if |out| + |lits| > cap then Fail(OutputTooSmall) else Last(out + lits)
  {
    hide At, ExtOf, Nibble, ReadSize, High, Low;
    var b: byte := Nibble(|lits|) * 16 + low;
    var e := ExtOf(|lits|);
    AtSplit(inp, i, [b], e + lits);
    AtByte(inp, i, [b], 0);
    HighOf(Nibble(|lits|), low);
    AtSplit(inp, i + 1, e, lits);
    AtIs(inp, i + 1 + |e|, lits);
    ReadBackSize(inp, i + 1, |lits|, |inp|);
  }

  lemma HighOf(n: nat, low: nat)
    requires n < 16 && low < 16
    ensures High(n * 16 + low) == n && Low(n * 16 + low) == low
  {
  }

  lemma TokenVerdict(inp: seq<byte>, i: nat, out: seq<byte>, cap: nat, t: Token)
    requires Writable(t) && At(inp, i, EncodeToken(t)) && |out| <= cap && |t.lits| + cap < WORD && t.size + cap < WORD
    requires |inp| < WORD
    ensures var start := |out| + |t.lits|;
      TokenStep(inp, i, out, cap) ==
        if start + t.size > cap then Fail(OutputTooSmall)
        else if t.offset > start then Fail(OffsetBiggerThanPos)
        else if t.offset == 0 then Fail(OffsetZero)
        else More(i + |EncodeToken(t)|, CopyMatch(out + t.lits, t.offset, t.size))
  {
    hide At, EncodeToken, CopyMatch, ReadSize, High, Low, Offset, ExtOf, Nibble;
    if |out| + |t.lits| <= cap {
      StepToken(inp, i, out, cap, t);
    } else {
      AtIs(inp, i, EncodeToken(t));
      TokenLayout(inp, i, t, |inp|);
    }
  }

  /** Decoding a spelling gives its verdict and, if that is fine, what the tokens stand for. */
  lemma {:induction false} SpelledVerdict(inp: seq<byte>, i: nat, ts: seq<Token>, lits: seq<byte>, low: nat, out: seq<byte>, cap: nat)
    requires AllWritable(ts) && low < 16 && Modest(ts, cap) && |out| <= cap && |lits| + cap < WORD && |inp| < WORD
    requires At(inp, i, Spelled(ts, lits, low)) && i + |Spelled(ts, lits, low)| == |inp|
    ensures match Judge(ts, |lits|, |out|, cap)
      case Bad(e) => Decode(inp, i, out, cap) == Err(e)
      case Fine => AllValid(ts) && Grounded(ts, |out|) && Decode(inp, i, out, cap) == Ok(Expand(ts, out) + lits)
    decreases |ts|
  {
    hide At, TokenStep, EncodeToken, SpelledLast, CopyMatch;
    FineIsGrounded(ts, |lits|, |out|, cap);
    if ts == [] {
      SpelledLastStep(inp, i, out, cap, lits, low);
    } else {
      var t := ts[0];
      AtSplit(inp, i, EncodeToken(t), Spelled(ts[1..], lits, low));
      TokenVerdict(inp, i, out, cap, t);
      var start := |out| + |t.lits|;
      if start + t.size <= cap && 0 < t.offset <= start {
        SpelledVerdict(inp, i + |EncodeToken(t)|, ts[1..], lits, low, CopyMatch(out + t.lits, t.offset, t.size), cap);
      }
    }
  }

  // ---- every accepted stream is a spelling ----

  lemma {:induction false} ExtIsSpelled(inp: seq<byte>, i: nat)
    requires ReadExt(inp, i).Ext?
    ensures var r := ReadExt(inp, i); inp[i..r.next] == ExtBytes(r.sum)
    decreases |inp| - i
  {
    if inp[i] == 255 {
      ExtIsSpelled(inp, i + 1);
      var r := ReadExt(inp, i);
      assert inp[i..r.next] == [255] + inp[i + 1..r.next];
    }
  }

  /** A size that does not wrap around is written the way the encoder writes it. */
  lemma SizeIsSpelled(inp: seq<byte>, field: nat, i: nat)
    requires field < 16 && i <= |inp| && Plain(inp, field, i) && ReadSize(inp, |inp|, field, i).Ext?
    ensures var r := ReadSize(inp, |inp|, field, i);
      Nibble(r.sum) == field && inp[i..r.next] == ExtOf(r.sum) && r.sum + MIN_MATCH < WORD
  {
    if field == 15 { ExtIsSpelled(inp, i); }
  }

  lemma ByteIsSpelled(b: byte)
    ensures High(b) * 16 + Low(b) == b
  {
  }

  lemma OffsetIsSpelled(lo: byte, hi: byte)
    ensures OffsetBytes(Offset(lo, hi)) == [lo, hi]
  {
  }

  lemma Pieces(inp: seq<byte>, i: nat, a: nat, b: nat, c: nat, d: nat)
    requires i < a <= b && b + 2 <= c <= d && c == b + 2 && d <= |inp|
    ensures inp[i..d] == [inp[i]] + (inp[i + 1..a] + (inp[a..b] + ([inp[b], inp[b + 1]] + inp[c..d])))
  {
    assert inp[b..d] == [inp[b], inp[b + 1]] + inp[c..d];
    assert inp[a..d] == inp[a..b] + inp[b..d];
    assert inp[i + 1..d] == inp[i + 1..a] + inp[a..d];
    assert inp[i..d] == [inp[i]] + inp[i + 1..d];
  }

  lemma TokenIsSpelled(inp: seq<byte>, i: nat, out: seq<byte>, cap: nat) returns (t: Token)
    requires i < |inp| && PlainToken(inp, i) && TokenStep(inp, i, out, cap).More?
    ensures ValidToken(t) && t.offset <= |out| + |t.lits|
    ensures var r := TokenStep(inp, i, out, cap);
      inp[i..r.next] == EncodeToken(t) && r.out == CopyMatch(out + t.lits, t.offset, t.size)
  {
    hide High, Low, ReadSize, Offset, OffsetBytes, ExtOf, Nibble, CopyMatch, Plain;
    var n := ReadSize(inp, |inp|, High(inp[i]), i + 1);
    var j := n.next + n.sum;
    var m := ReadSize(inp, |inp|, Low(inp[i]), j + 2);
    SizeIsSpelled(inp, High(inp[i]), i + 1);
    SizeIsSpelled(inp, Low(inp[i]), j + 2);
    t := Token(inp[n.next..j], Offset(inp[j], inp[j + 1]), m.sum + MIN_MATCH);
    ByteIsSpelled(inp[i]);
    OffsetIsSpelled(inp[j], inp[j + 1]);
    Pieces(inp, i, n.next, j, j + 2, m.next);
  }

  lemma LastIsSpelled(inp: seq<byte>, i: nat, out: seq<byte>, cap: nat) returns (lits: seq<byte>, low: nat)
    requires i < |inp| && PlainToken(inp, i) && TokenStep(inp, i, out, cap).Last?
    ensures low < 16 && inp[i..] == SpelledLast(lits, low) && TokenStep(inp, i, out, cap).out == out + lits
  {
    hide High, Low, ReadSize, Offset, ExtOf, Nibble, MatchStep, Plain;
    var n := ReadSize(inp, |inp|, High(inp[i]), i + 1);
    SizeIsSpelled(inp, High(inp[i]), i + 1);
    lits, low := inp[n.next..], Low(inp[i]);
    ByteIsSpelled(inp[i]);
    assert inp[i..] == [inp[i]] + (inp[i + 1..n.next] + inp[n.next..]);
  }

  lemma {:induction false} AcceptedIsSpelled(inp: seq<byte>, i: nat, out: seq<byte>, cap: nat)
      returns (ts: seq<Token>, lits: seq<byte>, low: nat)
    requires Decode(inp, i, out, cap).Ok? && PlainSizes(inp, i, out, cap)
    ensures low < 16 && AllValid(ts) && AllWritable(ts) && Grounded(ts, |out|)
    ensures i <= |inp| && inp[i..] == Spelled(ts, lits, low)
    ensures Decode(inp, i, out, cap) == Ok(Expand(ts, out) + lits)
    decreases |inp| - i
  {
    hide TokenStep, PlainToken, EncodeToken, SpelledLast, CopyMatch;
    StepIsInside(inp, i, out, cap);
    var r := TokenStep(inp, i, out, cap);
    if r.Last? {
      lits, low := LastIsSpelled(inp, i, out, cap);
      ts := [];
    } else {
      var t := TokenIsSpelled(inp, i, out, cap);
      ts, lits, low := AcceptedIsSpelled(inp, r.next, r.out, cap);
      assert inp[i..] == inp[i..r.next] + inp[r.next..];
      var rest := ts;
      ts := [t] + rest;
      assert ts[1..] == rest;
    }
  }

  lemma StepIsInside(inp: seq<byte>, i: nat, out: seq<byte>, cap: nat)
    requires Decode(inp, i, out, cap).Ok?
    ensures i < |inp| && (TokenStep(inp, i, out, cap).Last? || TokenStep(inp, i, out, cap).More?)
  {
    hide MatchStep, ReadSize;
  }

  // ---- the exact condition ----

  /** `inp` spells tokens and last literals that stand for `r`. */
  ghost predicate Spells(inp: seq<byte>, r: seq<byte>, ts: seq<Token>, lits: seq<byte>, low: nat) {
    && low < 16 && AllValid(ts) && AllWritable(ts) && Grounded(ts, 0)
    && inp == Spelled(ts, lits, low) && r == Expand(ts, []) + lits
  }

  lemma {:induction false} SpansFit(ts: seq<Token>, n: nat)
    requires Span(ts) <= n
    ensures forall k :: 0 <= k < |ts| ==> |ts[k].lits| + ts[k].size <= n
  {
    if ts != [] {
      SpansFit(ts[1..], n);
      forall k | 0 < k < |ts| ensures |ts[k].lits| + ts[k].size <= n {
        assert ts[k] == ts[1..][k - 1];
      }
    }
  }

  /** A stream in which no size wraps around is decoded to `r` if and only if it spells tokens that stand for `r`, all of
      whose matches start inside what was produced before, and `r` fits. */
  lemma AcceptsExactly(inp: seq<byte>, r: seq<byte>, cap: nat)
    requires |inp| <= MAX_SIZE && cap <= MAX_SIZE
    ensures Decode(inp, 0, [], cap) == Ok(r) && PlainSizes(inp, 0, [], cap) <==>
            |r| <= cap && exists ts, lits, low :: Spells(inp, r, ts, lits, low)
  {
    hide Decode, PlainSizes, Spelled, Expand, Grounded;
    if Decode(inp, 0, [], cap) == Ok(r) && PlainSizes(inp, 0, [], cap) {
      var ts, lits, low := AcceptedIsSpelled(inp, 0, [], cap);
      assert inp[0..] == inp;
      assert Spells(inp, r, ts, lits, low);
    }
    if |r| <= cap && exists ts, lits, low :: Spells(inp, r, ts, lits, low) {
      var ts, lits, low :| Spells(inp, r, ts, lits, low);
      SpelledIsDecoded(inp, r, cap, ts, lits, low);
    }
  }

  lemma SpelledIsDecoded(inp: seq<byte>, r: seq<byte>, cap: nat, ts: seq<Token>, lits: seq<byte>, low: nat)
    requires |inp| <= MAX_SIZE && |r| <= cap <= MAX_SIZE && Spells(inp, r, ts, lits, low)
    ensures Decode(inp, 0, [], cap) == Ok(r) && PlainSizes(inp, 0, [], cap)
  {
    hide Decode, PlainSizes, Spelled, Expand, Grounded, Judge, Span, AllValid, AllWritable;
    ExpandSpan(ts, []);
    SpansFit(ts, cap);
    assert At(inp, 0, inp);
    FineIsGrounded(ts, |lits|, 0, cap);
    SpelledVerdict(inp, 0, ts, lits, low, [], cap);
    PlainSpelled(inp, 0, ts, lits, low, [], cap);
  }

  lemma PlainSpelledLast(inp: seq<byte>, i: nat, lits: seq<byte>, low: nat)
    requires low < 16 && At(inp, i, SpelledLast(lits, low)) && i + |SpelledLast(lits, low)| == |inp| && |lits| + MIN_MATCH < WORD
    ensures i < |inp| && PlainToken(inp, i)
  {
    hide At, ExtOf, Nibble, High, Low;
    var b: byte := Nibble(|lits|) * 16 + low;
    HighOf(Nibble(|lits|), low);
    AtSplit(inp, i, [b], ExtOf(|lits|) + lits);
    AtByte(inp, i, [b], 0);
    AtSplit(inp, i + 1, ExtOf(|lits|), lits);
    PlainField(inp, i + 1, |lits|);
    ReadBackSize(inp, i + 1, |lits|, |inp|);
    PastTheEnd(inp, Low(inp[i]), |inp| + 2);
  }

  lemma PastTheEnd(inp: seq<byte>, field: nat, i: nat)
    requires i >= |inp|
    ensures Plain(inp, field, i)
  {
  }

  lemma {:induction false} PlainSpelled(inp: seq<byte>, i: nat, ts: seq<Token>, lits: seq<byte>, low: nat, out: seq<byte>, cap: nat)
    requires AllValid(ts) && AllWritable(ts) && Grounded(ts, |out|) && low < 16 && |inp| < WORD
    requires At(inp, i, Spelled(ts, lits, low)) && i + |Spelled(ts, lits, low)| == |inp|
    requires |Expand(ts, out)| + |lits| <= cap <= MAX_SIZE
    ensures PlainSizes(inp, i, out, cap)
    decreases |ts|
  {
    hide At, TokenStep, EncodeToken, SpelledLast, CopyMatch, PlainToken;
    if ts == [] {
      PlainSpelledLast(inp, i, lits, low);
      SpelledLastStep(inp, i, out, cap, lits, low);
    } else {
      ExpandLength(ts, out);
      var t := ts[0];
      AtSplit(inp, i, EncodeToken(t), Spelled(ts[1..], lits, low));
      PlainEncodedToken(inp, i, t);
      TokenVerdict(inp, i, out, cap, t);
      PlainSpelled(inp, i + |EncodeToken(t)|, ts[1..], lits, low, CopyMatch(out + t.lits, t.offset, t.size), cap);
    }
  }

  /** Into a large enough output, an encoding is accepted if and only if every match starts inside what was produced. */
  lemma GroundedExactly(ts: seq<Token>, lits: seq<byte>, cap: nat)
    requires AllValid(ts) && Span(ts) + |lits| <= cap <= MAX_SIZE && |Encode(ts, lits)| <= MAX_SIZE
    ensures if Grounded(ts, 0) then Decode(Encode(ts, lits), 0, [], cap) == Ok(Expand(ts, []) + lits)
            else Decode(Encode(ts, lits), 0, [], cap) == Err(OffsetBiggerThanPos)
  {
    hide Decode, Spelled, Encode, Expand;
    var inp := Encode(ts, lits);
    EncodedIsSpelled(ts, lits);
    assert At(inp, 0, inp);
    SpansFit(ts, cap);
    FineIsGrounded(ts, |lits|, 0, cap);
    OnlyOffsets(ts, |lits|, 0, cap);
    SpelledVerdict(inp, 0, ts, lits, 0, [], cap);
  }

  lemma {:induction false} OnlyOffsets(ts: seq<Token>, lits: nat, produced: nat, cap: nat)
    requires AllValid(ts) && produced + Span(ts) + lits <= cap
    ensures Judge(ts, lits, produced, cap) == Fine || Judge(ts, lits, produced, cap) == Bad(OffsetBiggerThanPos)
    decreases |ts|
  {
    if ts != [] { OnlyOffsets(ts[1..], lits, produced + |ts[0].lits| + ts[0].size, cap); }
  }

  // ---- truncated streams ----

  lemma {:induction false} TruncatedExt(inp: seq<byte>, n: nat, i: nat)
    requires n <= |inp|
    ensures var r := ReadExt(inp, i);
      ReadExt(inp[..n], i) == if r.Ext? && r.next <= n then r else Missing
    decreases |inp| - i
  {
    if i < n && inp[i] == 255 { TruncatedExt(inp, n, i + 1); }
  }

  lemma TruncatedSize(inp: seq<byte>, n: nat, field: nat, i: nat)
    requires i <= n <= |inp|
    ensures var r := ReadSize(inp, |inp|, field, i);
      ReadSize(inp[..n], n, field, i) == if r.Ext? && r.next <= n then r else Missing
  {
    TruncatedExt(inp, n, i);
  }

  lemma SliceOfPrefix(inp: seq<byte>, n: nat, a: nat, b: nat)
    requires a <= b <= n <= |inp|
    ensures inp[..n][a..b] == inp[a..b]
  {
  }

  /** What becomes of a token that the decoder accepts when the stream ends at `n`. */
  lemma TruncatedStep(inp: seq<byte>, n: nat, i: nat, out: seq<byte>, cap: nat)
    requires i <= n <= |inp| <= MAX_SIZE && cap <= MAX_SIZE
    ensures var r, r' := TokenStep(inp, i, out, cap), TokenStep(inp[..n], i, out, cap);
      && (r.More? && r.next <= n ==> r' == r)
      && (r.More? && r.next > n ==> r' == Fail(InputTooSmall) || (r'.Last? && r'.out <= r.out))
      && (r.Last? && n < |inp| ==> r' == Fail(InputTooSmall))
  {
    hide ReadSize, High, Low, Offset, CopyMatch;
    if i < n {
      TruncatedSize(inp, n, High(inp[i]), i + 1);
      var lits := ReadSize(inp, |inp|, High(inp[i]), i + 1);
      if lits.Ext? && lits.next + lits.sum + 2 <= n && |out| + lits.sum <= cap {
        var j := lits.next + lits.sum;
        TruncatedSize(inp, n, Low(inp[i]), j + 2);
        SliceOfPrefix(inp, n, lits.next, j);
      } else if lits.Ext? && lits.next + lits.sum <= n && |out| + lits.sum <= cap {
        var j := lits.next + lits.sum;
        SliceOfPrefix(inp, n, lits.next, j);
        if j < n || (j == n && n < |inp|) { MatchKeeps(inp, i, out, cap); }
      }
    }
  }

  lemma MatchKeeps(inp: seq<byte>, i: nat, out: seq<byte>, cap: nat)
    requires i < |inp|
    ensures var r, lits := TokenStep(inp, i, out, cap), ReadSize(inp, |inp|, High(inp[i]), i + 1);
      r.More? ==> lits.Ext? && lits.next + lits.sum <= |inp| && out + inp[lits.next..lits.next + lits.sum] <= r.out
  {
    hide ReadSize, High, Low, Offset;
    var r, lits := TokenStep(inp, i, out, cap), ReadSize(inp, |inp|, High(inp[i]), i + 1);
    if r.More? {
      var j := lits.next + lits.sum;
      var o := out + inp[lits.next..j];
      var m := ReadSize(inp, |inp|, Low(inp[i]), j + 2);
      CopyKeeps(o, Offset(inp[j], inp[j + 1]), Word(m.sum + MIN_MATCH));
    }
  }

  lemma {:induction false} CopyKeeps(out: seq<byte>, offset: nat, n: nat)
    requires 0 < offset <= |out|
    ensures out <= CopyMatch(out, offset, n)
    decreases n
  {
    if n > 0 { CopyKeeps(out + [out[|out| - offset]], offset, n - 1); }
  }

  lemma {:induction false} DecodeKeeps(inp: seq<byte>, i: nat, out: seq<byte>, cap: nat)
    requires Decode(inp, i, out, cap).Ok?
    ensures out <= Decode(inp, i, out, cap).out
    decreases |inp| - i
  {
    hide TokenStep;
    StepIsInside(inp, i, out, cap);
    StepKeeps(inp, i, out, cap);
    var r := TokenStep(inp, i, out, cap);
    if r.More? { DecodeKeeps(inp, r.next, r.out, cap); }
  }

  lemma StepKeeps(inp: seq<byte>, i: nat, out: seq<byte>, cap: nat)
    requires i < |inp|
    ensures var r := TokenStep(inp, i, out, cap); (r.Last? ==> out <= r.out) && (r.More? ==> out <= r.out)
  {
    hide ReadSize, High, Low, Offset, MatchStep;
    MatchKeeps(inp, i, out, cap);
  }

  /** An accepted stream that is cut short is reported as too short, unless the cut is right behind literals: then it
      yields the beginning of what the whole stream yields. */
  lemma {:induction false} TruncatedVerdict(inp: seq<byte>, n: nat, i: nat, out: seq<byte>, cap: nat)
    requires i <= n < |inp| <= MAX_SIZE && cap <= MAX_SIZE && Decode(inp, i, out, cap).Ok?
    ensures var r := Decode(inp[..n], i, out, cap);
      r == Err(InputTooSmall) || (r.Ok? && r.out <= Decode(inp, i, out, cap).out)
    decreases |inp| - i
  {
    hide TokenStep;
    StepIsInside(inp, i, out, cap);
    TruncatedStep(inp, n, i, out, cap);
    var r := TokenStep(inp, i, out, cap);
    if r.More? {
      DecodeKeeps(inp, r.next, r.out, cap);
      if r.next <= n { TruncatedVerdict(inp, n, r.next, r.out, cap); }
    }
  }

  // ---- streams by their bytes ----

  lemma FirstKnownToken(inp: seq<byte>, cap: nat)
    requires inp == [0x10, 0x61, 0x01, 0x00, 0x10, 0x62] && 6 <= cap <= MAX_SIZE
    ensures TokenStep(inp, 0, [], cap) == More(4, CopyMatch([0x61], 1, 4))
  {
    hide CopyMatch;
    assert [] + inp[1..2] == [0x61];
  }

  lemma LastKnownToken(inp: seq<byte>, out: seq<byte>, cap: nat)
    requires inp == [0x10, 0x61, 0x01, 0x00, 0x10, 0x62] && |out| < cap <= MAX_SIZE
    ensures TokenStep(inp, 4, out, cap) == Last(out + [0x62])
  {
    hide CopyMatch;
    assert inp[5..6] == [0x62];
  }

  lemma FourCopies(b: byte)
    ensures CopyMatch([b], 1, 4) == [b, b, b, b, b]
  {
    CopyMatchIs([b], 1, 4, [b, b, b, b, b]);
  }

  /** One literal, a match of four bytes one back, one literal. */
  lemma KnownMatch(cap: nat)
    requires 6 <= cap <= MAX_SIZE
    ensures Decode([0x10, 0x61, 0x01, 0x00, 0x10, 0x62], 0, [], cap) == Ok([0x61, 0x61, 0x61, 0x61, 0x61, 0x62])
  {
    hide TokenStep, CopyMatch;
    var inp: seq<byte> := [0x10, 0x61, 0x01, 0x00, 0x10, 0x62];
    FirstKnownToken(inp, cap);
    FourCopies(0x61);
    LastKnownToken(inp, CopyMatch([0x61], 1, 4), cap);
  }

  /** The same with a match that starts before the output. */
  lemma KnownBadOffset(cap: nat)
    requires 6 <= cap <= MAX_SIZE
    ensures Decode([0x10, 0x61, 0x05, 0x00, 0x10, 0x62], 0, [], cap) == Err(OffsetBiggerThanPos)
  {
    var inp: seq<byte> := [0x10, 0x61, 0x05, 0x00, 0x10, 0x62];
    assert inp[1..2] == [0x61];
    assert TokenStep(inp, 0, [], cap) == Fail(OffsetBiggerThanPos);
  }

  /** Sixteen literals need one more byte for their number. */
  lemma KnownLongLiterals(lits: seq<byte>, cap: nat)
    requires |lits| == 16 <= cap <= MAX_SIZE
    ensures Decode([0xF0, 0x01] + lits, 0, [], cap) == Ok(lits)
  {
    var inp: seq<byte> := [0xF0, 0x01] + lits;
    assert inp[2..18] == lits && [] + lits == lits;
    assert ReadExt(inp, 1) == Ext(1, 2);
    assert TokenStep(inp, 0, [], cap) == Last([] + lits);
  }
}
